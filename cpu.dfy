/**
 * `executeInstruction` and `runCycle` (src/lib/TamaGo.ts:548-572, 687-939) as
 * functions on `Machine.State`. The opcodes fall into groups that touch
 * different parts of the state: the stack, arithmetic on the two top slots,
 * registers and memory pointers, control flow, and devices. Every
 * instruction first reads `a`, the top slot, and `b`, the slot below it.
 *
 * Reads that JavaScript would answer with `undefined` and writes that
 * would grow an array are excluded by `Defined`: the source gives them no
 * meaning that a later instruction could rely on.
 */
module Cpu {
  import opened Wrappers
  import opened Bytes
  import opened Isa
  import opened Assembler
  import opened Machine

  // ---------------------------------------------------------------------------
  // Arithmetic.

  /**
   * `Math.round(b / a)` on exact quotients: the integer nearest to `b / a`,
   * a half rounding up.
   */
  function RoundDiv(b: int, a: int): (r: int)
    requires a != 0
    ensures a > 0 ==> 2 * a * r <= 2 * b + a < 2 * a * r + 2 * a
    ensures a < 0 ==> -2 * a * r <= -2 * b - a < -2 * a * r - 2 * a
  {
    if a > 0 then (2 * b + a) / (2 * a) else (-2 * b - a) / (-2 * a)
  }

  predicate IsArithmetic(op: Opcode) {
    GroupOf(op) == ArithmeticGroup
  }

  /** The value an arithmetic opcode pushes, for top `a` and second slot `b`. */
  function Arithmetic(op: Opcode, a: int, b: int): int
    requires IsArithmetic(op)
    requires op == Div || op == Mod ==> a != 0
  {
    match op
    case Add => b + a
    case Sub => b - a
    case Mul => b * a
    case Div => RoundDiv(b, a)
    case Mod => JsRem(b, a)
    case And => JsAnd(b, a)
    case Or => JsOr(b, a)
    case Xor => JsXor(b, a)
    case Not => JsNot(a)
    case LShft => JsShl(b, a)
    case RShft => JsSar(b, a)
  }

  // ---------------------------------------------------------------------------
  // The groups.

  datatype Group = StackGroup | ArithmeticGroup | RegisterGroup | ControlGroup | DeviceGroup | NoEffect

  /** The group of an opcode; RAND, SIN, COS, TILE, SPR, ICON, PRINT, LOGR, LOGS and NOP change nothing. */
  function GroupOf(op: Opcode): Group {
    match op
    case Const | Push | PushR | Pop | Copy | Incr | Decr => StackGroup
    case Add | Sub | Mul | Div | Mod | And | Or | Xor | Not | LShft | RShft => ArithmeticGroup
    case Set | Get | Mov | MAddr | Peek | Poke | Save | Load | SAddr | Read => RegisterGroup
    case Goto | Jump | Rtn | Jeq | Jneq | Jgt | Jgte | Jlt | Jlte => ControlGroup
    case Btn | Btnd | Tick | Pin | Pout | Send | Recv | Clear | Draw | Shade | Tone | Sleep => DeviceGroup
    case Rand | Sin | Cos | Tile | Spr | Icon | Print | LogR | LogS | Nop => NoEffect
  }

  predicate TopDefined(s: State)
    requires Valid(s)
  {
    InMemory(s, SlotIndex(s, 0))
  }

  predicate BelowDefined(s: State)
    requires Valid(s)
  {
    InMemory(s, SlotIndex(s, -1))
  }

  predicate OperandsDefined(s: State)
    requires Valid(s)
  {
    TopDefined(s) && BelowDefined(s)
  }

  // Stack group -----------------------------------------------------------

  predicate StackDefined(s: State, op: Opcode, p: int)
    requires Valid(s)
  {
    if op.Const? then CanPush(Decrement(s, 1))
    else if op.Push? || op.PushR? then CanPush(s)
    else if op.Pop? || op.Copy? then TopDefined(s)
    else true
  }

  function StackStep(s: State, op: Opcode, p: int): (r: State)
    requires Valid(s) && GroupOf(op) == StackGroup && StackDefined(s, op, p)
    ensures Valid(r)
  {
    match op
    case Const => PushToStack(Decrement(s, 1), p)
    case Push => PushToStack(s, p)
    case PushR => PushToStack(s, GetRegister(s, p))
    case Pop => Decrement(SetRegister(s, DATA_BUFFER_A, Top(s)), 1)
    case Copy => SetRegister(s, DATA_BUFFER_A, Top(s))
    case Incr => Increment(s, p)
    case Decr => Decrement(s, p)
  }

  // Arithmetic group ------------------------------------------------------

  predicate ArithmeticDefined(s: State, op: Opcode)
    requires Valid(s)
  {
    && TopDefined(s)
    && (op != Not ==> BelowDefined(s))
    && (op == Div || op == Mod ==> Top(s) != 0)
    && CanPush(s)
  }

  /** The arithmetic opcodes push `b ∘ a` and consume neither operand. */
  function ArithmeticStep(s: State, op: Opcode): (r: State)
    requires Valid(s) && IsArithmetic(op) && ArithmeticDefined(s, op)
    ensures Valid(r)
  {
    if op == Not then PushToStack(s, JsNot(Top(s))) else PushToStack(s, Arithmetic(op, Top(s), Below(s)))
  }

  // Register group --------------------------------------------------------

  predicate RegisterDefined(s: State, op: Opcode)
    requires Valid(s)
  {
    if op.MAddr? || op.SAddr? then OperandsDefined(s)
    else if op.Peek? || op.Poke? then InMemory(s, MemoryIndex(s))
    else if op.Read? then 0 <= StorageIndex(s) < |s.storage|
    else if op.Save? || op.Load? then s.program.Some?
    else true
  }

  /** The bytes of the save area, `readFromMemory(MEM_SAVE_DATA_ADDR, MEM_SAVE_DATA_LEN)`. */
  function SaveArea(s: State): (r: seq<int>)
    requires Valid(s)
    ensures |r| == SAVE_DATA_LEN
  {
    s.memory[SAVE_DATA_ADDR..SAVE_DATA_ADDR + SAVE_DATA_LEN]
  }

  /** `saveData[program.name] || []`. */
  function SavedBytes(s: State): seq<int>
    requires s.program.Some?
  {
    var name := s.program.value.name;
    if name in s.saves then s.saves[name] else []
  }

  function RegisterStep(s: State, op: Opcode, p: int): (r: State)
    requires Valid(s) && GroupOf(op) == RegisterGroup && RegisterDefined(s, op)
    ensures Valid(r)
  {
    match op
    case Set => SetRegister(s, DATA_BUFFER_A, p)
    case Get => SetRegister(s, DATA_BUFFER_A, GetRegister(s, p))
    case Mov => SetRegister(s, p, GetRegister(s, DATA_BUFFER_A))
    case MAddr => SetRegister(SetRegister(s, MEMORY_POINTER_HIGH, Below(s)), MEMORY_POINTER_LOW, Top(s))
    case Peek => SetRegister(s, DATA_BUFFER_A, s.memory[MemoryIndex(s)])
    case Poke => s.(memory := s.memory[MemoryIndex(s) := GetRegister(s, DATA_BUFFER_A)])
    case Save => s.(saves := s.saves[s.program.value.name := SaveArea(s)])
    case Load => WriteMemory(s, SAVE_DATA_ADDR, SavedBytes(s))
    case SAddr => SetRegister(SetRegister(s, STORAGE_POINTER_HIGH, Below(s)), STORAGE_POINTER_LOW, Top(s))
    case Read => SetRegister(s, DATA_BUFFER_A, s.storage[StorageIndex(s)])
  }

  // Control group ---------------------------------------------------------

  /** Whether a jump-family opcode jumps, comparing `b` against `a`. */
  predicate Taken(op: Opcode, a: int, b: int) {
    if op.Jeq? then b == a
    else if op.Jneq? then b != a
    else if op.Jgt? then b > a
    else if op.Jgte? then b >= a
    else if op.Jlt? then b < a
    else if op.Jlte? then b <= a
    else true
  }

  predicate ControlDefined(s: State, op: Opcode, p: int)
    requires Valid(s)
  {
    if op.Goto? then OperandsDefined(s)
    else if op.Jump? then HasLabel(s, p)
    else if op.Rtn? then true
    else OperandsDefined(s) && (Taken(op, Top(s), Below(s)) ==> HasLabel(s, p))
  }

  function ControlStep(s: State, op: Opcode, p: int): (r: State)
    requires Valid(s) && GroupOf(op) == ControlGroup && ControlDefined(s, op, p)
    ensures Valid(r)
  {
    match op
    case Goto => SetRegister(SetRegister(s, INSTRUCTION_POINTER_HIGH, Below(s)), INSTRUCTION_POINTER_LOW, Top(s))
    case Jump => JumpToLabel(s, p)
    case Rtn =>
      JumpToAddress(s, Address(GetRegister(s, RETURN_POINTER_HIGH), GetRegister(s, RETURN_POINTER_LOW)))
    case Jeq => Conditional(s, op, p)
    case Jneq => Conditional(s, op, p)
    case Jgt => Conditional(s, op, p)
    case Jgte => Conditional(s, op, p)
    case Jlt => Conditional(s, op, p)
    case Jlte => Conditional(s, op, p)
  }

  /** A conditional jump: to the label when `b` and `a` compare as the opcode asks, otherwise nowhere. */
  function Conditional(s: State, op: Opcode, p: int): (r: State)
    requires Valid(s) && OperandsDefined(s) && (Taken(op, Top(s), Below(s)) ==> HasLabel(s, p))
    ensures Valid(r)
  {
    if Taken(op, Top(s), Below(s)) then JumpToLabel(s, p) else s
  }

  // Device group ----------------------------------------------------------

  /** `memory[index] === value`, false for a position outside memory. */
  predicate CellIs(s: State, index: int, value: int) {
    InMemory(s, index) && s.memory[index] == value
  }

  /**
   * `memory[MEM_BUTTON_ADDR + a] === value`. With no top slot `a` is
   * `undefined`, the sum is `NaN`, and the comparison is false.
   */
  predicate ButtonIs(s: State, value: int)
    requires Valid(s)
  {
    TopDefined(s) && CellIs(s, BUTTON_ADDR + Top(s), value)
  }

  /** The video cell DRAW and SHADE address: `(b % DISPLAY_WIDTH) + a * DISPLAY_WIDTH`. */
  function PixelIndex(a: int, b: int): int {
    JsRem(b, DISPLAY_WIDTH) + a * DISPLAY_WIDTH
  }

  predicate DeviceDefined(s: State, op: Opcode, p: int)
    requires Valid(s)
  {
    if op.Pin? then InMemory(s, SERIAL_PIN_ADDR + p)
    else if op.Draw? || op.Tone? then OperandsDefined(s)
    else if op.Shade? then OperandsDefined(s) && InMemory(s, VIDEO_ADDR + PixelIndex(Top(s), Below(s)))
    else true
  }

  function DeviceStep(s: State, op: Opcode, p: int): (r: State)
    requires Valid(s) && GroupOf(op) == DeviceGroup && DeviceDefined(s, op, p)
    ensures Valid(r)
  {
    match op
    case Btn => SetRegister(s, DATA_BUFFER_A, if ButtonIs(s, 1) then HIGH else LOW)
    case Btnd => SetRegister(s, DATA_BUFFER_A, if ButtonIs(s, 1) || ButtonIs(s, 2) then HIGH else LOW)
    case Tick => SetRegister(s, DATA_BUFFER_A, s.memory[TIMER_ADDR])
    case Pin => SetRegister(s, DATA_BUFFER_A, s.memory[SERIAL_PIN_ADDR + p])
    case Pout => WriteMemory(s, SERIAL_PIN_ADDR + p, [GetRegister(s, DATA_BUFFER_A)])
    case Send => WriteMemory(s, SERIAL_STATE_ADDR, [HIGH, LOW])
    case Recv =>
      var ready := !ValueIsHigh(s.memory[SERIAL_STATE_ADDR]) && ValueIsHigh(s.memory[SERIAL_STATE_ADDR + 1]);
      SetRegister(s, DATA_BUFFER_A, if ready then HIGH else LOW)
    case Clear => WriteMemory(s, VIDEO_ADDR, seq(VIDEO_LEN, _ => p))
    case Draw => WriteMemory(s, VIDEO_ADDR + PixelIndex(Top(s), Below(s)), [JsRem(p, 4)])
    case Shade => SetRegister(s, DATA_BUFFER_A, s.memory[VIDEO_ADDR + PixelIndex(Top(s), Below(s))])
    case Tone => WriteMemory(s, AUDIO_ADDR, [Below(s), Top(s)])
    case Sleep => SetRegister(s, SLEEP_COUNTER, p)
  }

  // ---------------------------------------------------------------------------
  // Dispatch.

  predicate Defined(s: State, op: Opcode, p: int)
    requires Valid(s)
  {
    match GroupOf(op)
    case StackGroup => StackDefined(s, op, p)
    case ArithmeticGroup => ArithmeticDefined(s, op)
    case RegisterGroup => RegisterDefined(s, op)
    case ControlGroup => ControlDefined(s, op, p)
    case DeviceGroup => DeviceDefined(s, op, p)
    case NoEffect => true
  }

  /** `executeInstruction` for a known opcode. */
  function Execute(s: State, op: Opcode, p: int): (r: State)
    requires Valid(s) && Defined(s, op, p)
    ensures Valid(r)
  {
    match GroupOf(op)
    case StackGroup => StackStep(s, op, p)
    case ArithmeticGroup => ArithmeticStep(s, op)
    case RegisterGroup => RegisterStep(s, op, p)
    case ControlGroup => ControlStep(s, op, p)
    case DeviceGroup => DeviceStep(s, op, p)
    case NoEffect => s
  }

  /** A stored code that names no opcode matches no case of the switch. */
  predicate CodeDefined(s: State, code: int, p: int)
    requires Valid(s)
  {
    FromCode(code).Some? ==> Defined(s, FromCode(code).value, p)
  }

  function ExecuteCode(s: State, code: int, p: int): (r: State)
    requires Valid(s) && CodeDefined(s, code, p)
    ensures Valid(r)
  {
    match FromCode(code)
    case Some(op) => Execute(s, op, p)
    case None => s
  }

  // ---------------------------------------------------------------------------
  // One cycle.

  /** `storage[k]`, which is `undefined` outside storage. */
  function Fetch(s: State, k: int): Option<int> {
    if 0 <= k < |s.storage| then Some(s.storage[k]) else None
  }

  /** The state once the program counter has moved past the instruction at `index`. */
  function Advance(s: State, index: int): (r: State)
    requires Valid(s)
    ensures Valid(r)
  {
    var next := NumberToWord(index + 1);
    SetRegister(SetRegister(s, INSTRUCTION_POINTER_HIGH, next.high), INSTRUCTION_POINTER_LOW, next.low)
  }

  /** The parameter stored after the code at `index`; a missing one is the default 0. */
  function Parameter(s: State, index: int): int {
    Fetch(s, 2 * index + 1).GetOr(0)
  }

  predicate CycleDefined(s: State)
    requires Valid(s)
  {
    var index := Pc(s);
    var code := Fetch(s, 2 * index);
    GetRegister(s, SLEEP_COUNTER) <= 0 && code.Some? && code.value != 0 ==>
      CodeDefined(Advance(s, index), code.value, Parameter(s, index))
  }

  /** What `runCycle` leaves and returns: the new state and the code it read (`undefined` as `None`). */
  datatype Step = Step(state: State, code: Option<int>)

  function Cycle(s: State): (r: Step)
    requires Valid(s) && CycleDefined(s)
    ensures Valid(r.state)
  {
    var index := Pc(s);
    var code := Fetch(s, 2 * index);
    var sleep := GetRegister(s, SLEEP_COUNTER);
    if sleep > 0 then Step(SetRegister(s, SLEEP_COUNTER, sleep - 1), code)
    else if code == Some(0) then
      Step(JumpToAddress(s, Address(0, 0)), code)
    else
      var t := Advance(s, index);
      match code
      case Some(c) => Step(ExecuteCode(t, c, Parameter(s, index)), code)
      case None => Step(t, code)
  }

  // ---------------------------------------------------------------------------
  // One tick: up to CYCLES_PER_TICK cycles, stopping after a cycle that read code 0.

  predicate RunDefined(s: State, n: nat)
    requires Valid(s)
    decreases n
  {
    n > 0 ==> CycleDefined(s) && (Cycle(s).code != Some(0) ==> RunDefined(Cycle(s).state, n - 1))
  }

  function RunCycles(s: State, n: nat): (r: State)
    requires Valid(s) && RunDefined(s, n)
    ensures Valid(r)
    decreases n
  {
    if n == 0 then s
    else
      var step := Cycle(s);
      if step.code == Some(0) then step.state else RunCycles(step.state, n - 1)
  }

  /** One cycle of a batch of `n`: it ends the batch on code 0 and otherwise leaves a batch of `n - 1`. */
  lemma RunUnfolds(s: State, n: nat)
    requires Valid(s) && n > 0 && RunDefined(s, n)
    ensures CycleDefined(s)
    ensures Cycle(s).code == Some(0) ==> RunCycles(s, n) == Cycle(s).state
    ensures Cycle(s).code != Some(0) ==>
      RunDefined(Cycle(s).state, n - 1) && RunCycles(Cycle(s).state, n - 1) == RunCycles(s, n)
  {
  }
}
