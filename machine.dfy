/**
 * The console's state and its instruction semantics as values
 * (src/lib/TamaGo.ts:408-940): memory, storage, the register file, the
 * loaded program, the save slots and the running flag, and a function for
 * every step the `TamaGo` class takes on them. The class in engine.dfy
 * performs the same steps in place and is proved against these functions.
 */
module Machine {
  import opened Wrappers
  import opened Bytes
  import opened Isa
  import opened Assembler

  // Sizes and the memory map (src/lib/TamaGo.ts:5-34).
  const CLOCK_SPEED: int := 96000
  const MEMORY_SIZE: int := 3200
  const STORAGE_SIZE: int := 65536
  const DISPLAY_WIDTH: int := 32
  const STACK_ADDR: int := 0
  const STACK_LEN: int := 256
  const BUTTON_ADDR: int := 512
  const AUDIO_ADDR: int := 520
  const TIMER_ADDR: int := 526
  const SERIAL_STATE_ADDR: int := 528
  const SERIAL_PIN_ADDR: int := 544
  const VIDEO_ADDR: int := 640
  const VIDEO_LEN: int := 512
  const SAVE_DATA_ADDR: int := 1152
  const SAVE_DATA_LEN: int := 256

  /** `Math.round(CLOCK_SPEED / tickLen)` with `tickLen = 1000 / 30`: the cycles run per tick. */
  const CYCLES_PER_TICK: int := 2880

  /** A loaded program image (the optional cutout image is not modelled). */
  datatype Program = Program(
    name: string,
    author: string,
    icons: seq<string>,
    storage: seq<int>,
    labels: map<int, Address>,
    tokens: seq<Token>)

  /**
   * Everything an instruction can read or change. `saves` stands for the
   * browser's save store: program name to saved bytes.
   */
  datatype State = State(
    memory: seq<int>,
    storage: seq<int>,
    registers: seq<int>,
    program: Option<Program>,
    saves: map<string, seq<int>>,
    running: bool)

  predicate Valid(s: State) {
    |s.memory| == MEMORY_SIZE && |s.storage| == STORAGE_SIZE && |s.registers| == REGISTER_COUNT
  }

  function Zeros(n: nat): (r: seq<int>)
    ensures |r| == n && forall k :: 0 <= k < n ==> r[k] == 0
  {
    seq(n, _ => 0)
  }

  // ---------------------------------------------------------------------------
  // Registers and the store policy.

  /**
   * The value a register or stack slot receives for `value`: JavaScript's
   * `value % 255` when `WRAP_VALUES` is high, otherwise `clampByte(value)`.
   */
  function Stored(s: State, value: int): (r: int)
    requires Valid(s)
    ensures ValueIsHigh(s.registers[WRAP_VALUES]) ==> -255 < r < 255
    ensures !ValueIsHigh(s.registers[WRAP_VALUES]) ==> 0 <= r <= 255
    ensures !ValueIsHigh(s.registers[WRAP_VALUES]) && 0 <= value <= 255 ==> r == value
    ensures ValueIsHigh(s.registers[WRAP_VALUES]) ==> r == JsRem(value, 255)
    ensures !ValueIsHigh(s.registers[WRAP_VALUES]) ==> r == ClampByte(value)
  {
    if ValueIsHigh(s.registers[WRAP_VALUES]) then JsRem(value, 255) else ClampByte(value)
  }

  /** `r` differs from `s` at most in the registers whose ordinals are in `changed`. */
  predicate OnlyRegistersChanged(s: State, r: State, changed: set<int>)
    requires Valid(s) && Valid(r)
  {
    && r.memory == s.memory && r.storage == s.storage && r.program == s.program
    && r.saves == s.saves && r.running == s.running
    && forall k :: 0 <= k < REGISTER_COUNT && k !in changed ==> r.registers[k] == s.registers[k]
  }

  /** `setRegister`: an ordinal outside the register file changes nothing. */
  function SetRegister(s: State, index: int, value: int): (r: State)
    requires Valid(s)
    ensures Valid(r)
    ensures 0 <= index < REGISTER_COUNT ==> r == s.(registers := s.registers[index := Stored(s, value)])
    ensures !(0 <= index < REGISTER_COUNT) ==> r == s
  {
    if 0 <= index < REGISTER_COUNT then s.(registers := s.registers[index := Stored(s, value)]) else s
  }

  /** `getRegister`: an ordinal outside the register file reads as 0. */
  function GetRegister(s: State, index: int): (r: int)
    requires Valid(s)
    ensures 0 <= index < REGISTER_COUNT ==> r == s.registers[index]
    ensures !(0 <= index < REGISTER_COUNT) ==> r == 0
  {
    if 0 <= index < REGISTER_COUNT then s.registers[index] else 0
  }

  // ---------------------------------------------------------------------------
  // The stack: 256 slots at the start of memory, indexed by `STACK_INDEX`.

  function StackIndex(s: State): int
    requires Valid(s)
  {
    s.registers[STACK_INDEX]
  }


  /** `incrementStackPointer`: the index moves up by `amount`, wrapping with JavaScript's `%` by 256. */
  function Increment(s: State, amount: int): (r: State)
    requires Valid(s)
    ensures Valid(r)
    ensures StackIndex(r) == JsRem(StackIndex(s) + amount, STACK_LEN)
    ensures StackIndex(s) + amount >= 0 ==> StackIndex(r) == (StackIndex(s) + amount) % STACK_LEN
    ensures StackIndex(s) + amount >= 0 ==> 0 <= StackIndex(r) < STACK_LEN
    ensures OnlyRegistersChanged(s, r, {STACK_INDEX})
  {
    s.(registers := s.registers[STACK_INDEX := JsRem(StackIndex(s) + amount, STACK_LEN)])
  }

  /** `decrementStackPointer`: the index moves down by `amount`, and a negative result gains 256 once. */
  function Decrement(s: State, amount: int): (r: State)
    requires Valid(s)
    ensures Valid(r)
    ensures StackIndex(r) == if StackIndex(s) - amount < 0 then STACK_LEN + StackIndex(s) - amount else StackIndex(s) - amount
    ensures 0 <= StackIndex(s) < STACK_LEN && 0 <= amount <= STACK_LEN ==>
      StackIndex(r) == (StackIndex(s) - amount) % STACK_LEN
    ensures OnlyRegistersChanged(s, r, {STACK_INDEX})
  {
    var index := StackIndex(s) - amount;
    s.(registers := s.registers[STACK_INDEX := if index < 0 then STACK_LEN + index else index])
  }

  /** The slot `getFromStack(offset)` reads: a negative position gains 256 once. */
  function SlotIndex(s: State, offset: int): int
    requires Valid(s)
  {
    var index := StackIndex(s) + offset;
    if index < 0 then STACK_LEN + index else index
  }

  predicate InMemory(s: State, index: int) {
    0 <= index < |s.memory|
  }

  /** The top of the stack, `a`. */
  function Top(s: State): int
    requires Valid(s) && InMemory(s, SlotIndex(s, 0))
  {
    s.memory[STACK_ADDR + SlotIndex(s, 0)]
  }

  /** The slot below the top, `b`. */
  function Below(s: State): int
    requires Valid(s) && InMemory(s, SlotIndex(s, -1))
  {
    s.memory[STACK_ADDR + SlotIndex(s, -1)]
  }

  /** The slot a push writes: the incremented stack index. */
  function PushSlot(s: State): int
    requires Valid(s)
  {
    JsRem(StackIndex(s) + 1, STACK_LEN)
  }

  /**
   * The push lands on an element of the memory array. (A negative slot would
   * set a property beside the array's elements, which the model does not have.)
   */
  predicate CanPush(s: State)
    requires Valid(s)
  {
    PushSlot(s) >= 0
  }

  /** `pushToStack`: the stored form of `value` goes to the incremented slot. */
  function PushToStack(s: State, value: int): (r: State)
    requires Valid(s) && CanPush(s)
    ensures Valid(r)
    ensures StackIndex(r) == PushSlot(s) && 0 <= StackIndex(r) < STACK_LEN
    ensures r.memory == s.memory[STACK_ADDR + PushSlot(s) := Stored(s, value)]
    ensures forall k :: 0 <= k < REGISTER_COUNT && k != STACK_INDEX ==> r.registers[k] == s.registers[k]
    ensures r.program == s.program && r.saves == s.saves && r.storage == s.storage && r.running == s.running
  {
    var t := Increment(s, 1);
    t.(memory := t.memory[STACK_ADDR + StackIndex(t) := Stored(s, value)])
  }

  // ---------------------------------------------------------------------------
  // Guarded writes.

  /**
   * `writeToMemory` / `writeToStorage` on a sequence: `bytes[i]` goes to
   * `index + i` while that position exists; the first missing position ends
   * the write.
   */
  function Write(cells: seq<int>, index: int, bytes: seq<int>): (r: seq<int>)
    ensures |r| == |cells|
    decreases |bytes|
  {
    if |bytes| == 0 || !(0 <= index < |cells|) then cells
    else Write(cells[index := bytes[0]], index + 1, bytes[1..])
  }

  /**
   * The guarded write changes exactly the positions `index .. index + |bytes| - 1`
   * that exist (none when `index` is negative), each to its byte.
   */
  lemma {:induction false} WriteAt(cells: seq<int>, index: int, bytes: seq<int>, k: int)
    requires 0 <= k < |cells|
    ensures Write(cells, index, bytes)[k] ==
      if 0 <= index <= k < index + |bytes| then bytes[k - index] else cells[k]
    decreases |bytes|
  {
    if |bytes| > 0 && 0 <= index < |cells| {
      WriteAt(cells[index := bytes[0]], index + 1, bytes[1..], k);
    }
  }

  lemma WriteEverywhere(cells: seq<int>, index: int, bytes: seq<int>)
    ensures forall k :: 0 <= k < |cells| ==>
      Write(cells, index, bytes)[k] == (if 0 <= index <= k < index + |bytes| then bytes[k - index] else cells[k])
  {
    forall k | 0 <= k < |cells|
      ensures Write(cells, index, bytes)[k] ==
        if 0 <= index <= k < index + |bytes| then bytes[k - index] else cells[k]
    {
      WriteAt(cells, index, bytes, k);
    }
  }

  function WriteMemory(s: State, index: int, bytes: seq<int>): (r: State)
    requires Valid(s)
    ensures Valid(r) && r == s.(memory := Write(s.memory, index, bytes))
  {
    s.(memory := Write(s.memory, index, bytes))
  }

  // ---------------------------------------------------------------------------
  // Addresses held in register pairs.

  function MemoryIndex(s: State): int
    requires Valid(s)
  {
    WordToNumber(s.registers[MEMORY_POINTER_HIGH], s.registers[MEMORY_POINTER_LOW])
  }

  function StorageIndex(s: State): int
    requires Valid(s)
  {
    WordToNumber(s.registers[STORAGE_POINTER_HIGH], s.registers[STORAGE_POINTER_LOW])
  }

  /** `getCurrentOperationIndex`: the program counter as a number. */
  function Pc(s: State): int
    requires Valid(s)
  {
    WordToNumber(s.registers[INSTRUCTION_POINTER_HIGH], s.registers[INSTRUCTION_POINTER_LOW])
  }

  /** `jumpToAddress`: both halves of the program counter go through `setRegister`. */
  function JumpToAddress(s: State, address: Address): (r: State)
    requires Valid(s)
    ensures Valid(r)
    ensures r.registers[INSTRUCTION_POINTER_HIGH] == Stored(s, address.high)
    ensures r.registers[INSTRUCTION_POINTER_LOW] == Stored(s, address.low)
    ensures OnlyRegistersChanged(s, r, {INSTRUCTION_POINTER_HIGH, INSTRUCTION_POINTER_LOW})
  {
    SetRegister(SetRegister(s, INSTRUCTION_POINTER_HIGH, address.high), INSTRUCTION_POINTER_LOW, address.low)
  }

  predicate HasLabel(s: State, id: int) {
    s.program.Some? && id in s.program.value.labels
  }

  /** `jumpToLabel`: the current program counter goes to the return registers, then the label's address to the counter. */
  function JumpToLabel(s: State, id: int): (r: State)
    requires Valid(s) && HasLabel(s, id)
    ensures Valid(r)
    ensures r.registers[RETURN_POINTER_HIGH] == Stored(s, s.registers[INSTRUCTION_POINTER_HIGH])
    ensures r.registers[RETURN_POINTER_LOW] == Stored(s, s.registers[INSTRUCTION_POINTER_LOW])
    ensures r.registers[INSTRUCTION_POINTER_HIGH] == Stored(s, s.program.value.labels[id].high)
    ensures r.registers[INSTRUCTION_POINTER_LOW] == Stored(s, s.program.value.labels[id].low)
    ensures OnlyRegistersChanged(s, r,
      {RETURN_POINTER_HIGH, RETURN_POINTER_LOW, INSTRUCTION_POINTER_HIGH, INSTRUCTION_POINTER_LOW})
  {
    var saved := SetRegister(SetRegister(s, RETURN_POINTER_HIGH, s.registers[INSTRUCTION_POINTER_HIGH]),
                             RETURN_POINTER_LOW, s.registers[INSTRUCTION_POINTER_LOW]);
    JumpToAddress(saved, s.program.value.labels[id])
  }

  // ---------------------------------------------------------------------------
  // Lifecycle (src/lib/TamaGo.ts:450-503).

  /** `reset`: every register and every memory cell becomes 0; storage, program and saves stay. */
  function Reset(s: State): (r: State)
    requires Valid(s)
    ensures Valid(r)
  {
    s.(registers := Zeros(REGISTER_COUNT), memory := Zeros(MEMORY_SIZE))
  }

  /** The storage image `loadProgram` builds: zeros, the program's storage bytes from 0, then token `i` at `2i` and `2i + 1`. */
  function LoadedStorage(p: Program): (r: seq<int>)
    ensures |r| == STORAGE_SIZE
  {
    WriteTokens(Write(Zeros(STORAGE_SIZE), 0, p.storage), p.tokens, |p.tokens|)
  }

  /** The storage after the first `n` tokens have been written, each with its own guarded write. */
  function WriteTokens(cells: seq<int>, tokens: seq<Token>, n: nat): (r: seq<int>)
    requires n <= |tokens|
    ensures |r| == |cells|
  {
    if n == 0 then cells
    else
      var t := tokens[n - 1];
      Write(WriteTokens(cells, tokens, n - 1), 2 * (n - 1), [t.instruction, t.parameter])
  }

  /** `loadProgram`: pause, reset, refill storage, keep the program, and run. */
  function LoadProgram(s: State, p: Program): (r: State)
    requires Valid(s)
    ensures Valid(r)
  {
    Run(Reset(Pause(s)).(storage := LoadedStorage(p), program := Some(p)))
  }

  /** `run`: sets the running flag; a machine that is already running is left as it is. */
  function Run(s: State): (r: State)
    ensures r.running
    ensures s.running ==> r == s
    ensures r.(running := s.running) == s
  {
    s.(running := true)
  }

  /** `pause`: clears the running flag. */
  function Pause(s: State): (r: State)
    ensures !r.running
    ensures r.(running := s.running) == s
  {
    s.(running := false)
  }
}
