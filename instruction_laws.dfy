/**
 * What each instruction of `executeInstruction` (src/lib/TamaGo.ts:687-939)
 * does to the state, opcode by opcode, for the opcodes whose effect is not
 * already stated in cpu_laws.dfy; and the stack's last-in, first-out law over
 * any number of PUSH and POP instructions.
 */
module InstructionLaws {
  import opened Bytes
  import opened Isa
  import opened Machine
  import opened MachineLaws
  import opened Cpu

  // ---------------------------------------------------------------------------
  // Register pairs.

  /** Setting two registers, the first of them not `WRAP_VALUES`, stores both values under the old policy. */
  lemma SetPair(s: State, high: int, low: int, b: int, a: int)
    requires Valid(s) && 0 <= high < REGISTER_COUNT && 0 <= low < REGISTER_COUNT
    requires high != low && high != WRAP_VALUES
    ensures var r := SetRegister(SetRegister(s, high, b), low, a);
      && r.registers[high] == Stored(s, b) && r.registers[low] == Stored(s, a)
      && OnlyRegistersChanged(s, r, {high, low})
  {
    var t := SetRegister(s, high, b);
    assert t.registers[WRAP_VALUES] == s.registers[WRAP_VALUES];
  }

  /** A pair of bytes reads as the number `256 * high + low`. */
  lemma PairReads(high: int, low: int)
    requires 0 <= high < 256 && 0 <= low < 256
    ensures WordToNumber(high, low) == 256 * high + low
  {
  }

  /** With `WRAP_VALUES` low a byte is stored as it is. */
  lemma ByteStored(s: State, value: int)
    requires Valid(s) && !ValueIsHigh(s.registers[WRAP_VALUES]) && 0 <= value < 256
    ensures Stored(s, value) == value
  {
  }

  // ---------------------------------------------------------------------------
  // Control flow.

  /** A conditional jump whose comparison of `b` against `a` holds jumps to its label. */
  lemma TakenJumpGoesToLabel(s: State, op: Opcode, p: int)
    requires Valid(s) && op in {Jeq, Jneq, Jgt, Jgte, Jlt, Jlte} && OperandsDefined(s)
    requires Taken(op, Top(s), Below(s)) && HasLabel(s, p)
    ensures Defined(s, op, p) && Execute(s, op, p) == JumpToLabel(s, p)
  {
    assert GroupOf(op) == ControlGroup;
  }

  /**
   * GOTO loads the counter from the stack, `b` into the high byte and `a`
   * into the low byte, and saves no return address; with both bytes in range
   * and `WRAP_VALUES` low the counter then reads `256 * b + a`.
   */
  lemma ExecuteGoto(s: State, p: int)
    requires Valid(s) && OperandsDefined(s)
    ensures Defined(s, Goto, p)
    ensures var r := Execute(s, Goto, p);
      && r.registers[INSTRUCTION_POINTER_HIGH] == Stored(s, Below(s))
      && r.registers[INSTRUCTION_POINTER_LOW] == Stored(s, Top(s))
      && OnlyRegistersChanged(s, r, {INSTRUCTION_POINTER_HIGH, INSTRUCTION_POINTER_LOW})
      && (!ValueIsHigh(s.registers[WRAP_VALUES]) && 0 <= Below(s) < 256 && 0 <= Top(s) < 256 ==>
            Pc(r) == 256 * Below(s) + Top(s))
  {
    SetPair(s, INSTRUCTION_POINTER_HIGH, INSTRUCTION_POINTER_LOW, Below(s), Top(s));
    if !ValueIsHigh(s.registers[WRAP_VALUES]) && 0 <= Below(s) < 256 && 0 <= Top(s) < 256 {
      ByteStored(s, Below(s));
      ByteStored(s, Top(s));
      PairReads(Below(s), Top(s));
    }
  }

  // ---------------------------------------------------------------------------
  // Memory and storage pointers.

  /** MADDR points the memory pointer at `256 * b + a`, taking `b` and `a` from the stack. */
  lemma ExecuteMAddr(s: State, p: int)
    requires Valid(s) && OperandsDefined(s)
    ensures Defined(s, MAddr, p)
    ensures var r := Execute(s, MAddr, p);
      && r.registers[MEMORY_POINTER_HIGH] == Stored(s, Below(s))
      && r.registers[MEMORY_POINTER_LOW] == Stored(s, Top(s))
      && OnlyRegistersChanged(s, r, {MEMORY_POINTER_HIGH, MEMORY_POINTER_LOW})
      && (!ValueIsHigh(s.registers[WRAP_VALUES]) && 0 <= Below(s) < 256 && 0 <= Top(s) < 256 ==>
            MemoryIndex(r) == 256 * Below(s) + Top(s))
  {
    SetPair(s, MEMORY_POINTER_HIGH, MEMORY_POINTER_LOW, Below(s), Top(s));
    if !ValueIsHigh(s.registers[WRAP_VALUES]) && 0 <= Below(s) < 256 && 0 <= Top(s) < 256 {
      ByteStored(s, Below(s));
      ByteStored(s, Top(s));
      PairReads(Below(s), Top(s));
    }
  }

  /** SADDR points the storage pointer at `256 * b + a`, taking `b` and `a` from the stack. */
  lemma ExecuteSAddr(s: State, p: int)
    requires Valid(s) && OperandsDefined(s)
    ensures Defined(s, SAddr, p)
    ensures var r := Execute(s, SAddr, p);
      && r.registers[STORAGE_POINTER_HIGH] == Stored(s, Below(s))
      && r.registers[STORAGE_POINTER_LOW] == Stored(s, Top(s))
      && OnlyRegistersChanged(s, r, {STORAGE_POINTER_HIGH, STORAGE_POINTER_LOW})
      && (!ValueIsHigh(s.registers[WRAP_VALUES]) && 0 <= Below(s) < 256 && 0 <= Top(s) < 256 ==>
            StorageIndex(r) == 256 * Below(s) + Top(s))
  {
    SetPair(s, STORAGE_POINTER_HIGH, STORAGE_POINTER_LOW, Below(s), Top(s));
    if !ValueIsHigh(s.registers[WRAP_VALUES]) && 0 <= Below(s) < 256 && 0 <= Top(s) < 256 {
      ByteStored(s, Below(s));
      ByteStored(s, Top(s));
      PairReads(Below(s), Top(s));
    }
  }

  /** PEEK loads the memory cell under the memory pointer into the data buffer. */
  lemma ExecutePeek(s: State, p: int)
    requires Valid(s) && InMemory(s, MemoryIndex(s))
    ensures Defined(s, Peek, p)
    ensures var r := Execute(s, Peek, p);
      && r.registers[DATA_BUFFER_A] == Stored(s, s.memory[MemoryIndex(s)])
      && OnlyRegistersChanged(s, r, {DATA_BUFFER_A})
  {
  }

  /** POKE writes the data buffer, as it is, to the memory cell under the memory pointer; nothing else changes. */
  lemma ExecutePoke(s: State, p: int)
    requires Valid(s) && InMemory(s, MemoryIndex(s))
    ensures Defined(s, Poke, p)
    ensures Execute(s, Poke, p) == s.(memory := s.memory[MemoryIndex(s) := s.registers[DATA_BUFFER_A]])
  {
  }

  /** PEEK after POKE at the same pointer gives the data buffer back. */
  lemma PokeThenPeek(s: State)
    requires Valid(s) && InMemory(s, MemoryIndex(s))
    ensures Defined(s, Poke, 0)
    ensures Defined(Execute(s, Poke, 0), Peek, 0)
    ensures Execute(Execute(s, Poke, 0), Peek, 0).registers[DATA_BUFFER_A] == Stored(s, s.registers[DATA_BUFFER_A])
  {
    ExecutePoke(s, 0);
    var t := Execute(s, Poke, 0);
    assert MemoryIndex(t) == MemoryIndex(s);
    ExecutePeek(t, 0);
  }

  /** READ loads the storage byte under the storage pointer into the data buffer. */
  lemma ExecuteRead(s: State, p: int)
    requires Valid(s) && 0 <= StorageIndex(s) < STORAGE_SIZE
    ensures Defined(s, Read, p)
    ensures var r := Execute(s, Read, p);
      && r.registers[DATA_BUFFER_A] == Stored(s, s.storage[StorageIndex(s)])
      && OnlyRegistersChanged(s, r, {DATA_BUFFER_A})
  {
  }

  // ---------------------------------------------------------------------------
  // Registers.

  /** SET stores its parameter in the data buffer. */
  lemma ExecuteSet(s: State, p: int)
    requires Valid(s)
    ensures Defined(s, Set, p)
    ensures var r := Execute(s, Set, p);
      r.registers[DATA_BUFFER_A] == Stored(s, p) && OnlyRegistersChanged(s, r, {DATA_BUFFER_A})
  {
  }

  /** GET copies register `p` (0 for an unknown ordinal) into the data buffer. */
  lemma ExecuteGet(s: State, p: int)
    requires Valid(s)
    ensures Defined(s, Get, p)
    ensures var r := Execute(s, Get, p);
      && r.registers[DATA_BUFFER_A] == Stored(s, if 0 <= p < REGISTER_COUNT then s.registers[p] else 0)
      && OnlyRegistersChanged(s, r, {DATA_BUFFER_A})
  {
  }

  /** MOV copies the data buffer into register `p`; an unknown ordinal changes nothing. */
  lemma ExecuteMov(s: State, p: int)
    requires Valid(s)
    ensures Defined(s, Mov, p)
    ensures var r := Execute(s, Mov, p);
      && (0 <= p < REGISTER_COUNT ==> r.registers[p] == Stored(s, s.registers[DATA_BUFFER_A]))
      && OnlyRegistersChanged(s, r, {p})
  {
  }

  /** MOV after GET, both with register `p`, writes the register's stored value back to it. */
  lemma GetThenMov(s: State, p: int)
    requires Valid(s) && 0 <= p < REGISTER_COUNT && p != WRAP_VALUES
    ensures Defined(s, Get, p) && Defined(Execute(s, Get, p), Mov, p)
    ensures Execute(Execute(s, Get, p), Mov, p).registers[p] == Stored(s, s.registers[p])
  {
    ExecuteGet(s, p);
    var t := Execute(s, Get, p);
    ExecuteMov(t, p);
    StoredIdempotent(s, t, s.registers[p]);
  }

  /** SLEEP stores its parameter in the sleep counter. */
  lemma ExecuteSleep(s: State, p: int)
    requires Valid(s)
    ensures Defined(s, Sleep, p)
    ensures var r := Execute(s, Sleep, p);
      r.registers[SLEEP_COUNTER] == Stored(s, p) && OnlyRegistersChanged(s, r, {SLEEP_COUNTER})
  {
  }

  // ---------------------------------------------------------------------------
  // Buttons.

  /** BTN sets the data buffer high when the button the top slot names reads 1, and low otherwise. */
  lemma ExecuteBtn(s: State, p: int)
    requires Valid(s)
    ensures Defined(s, Btn, p)
    ensures var r := Execute(s, Btn, p);
      && r.registers[DATA_BUFFER_A] == Stored(s, if ButtonIs(s, 1) then HIGH else LOW)
      && OnlyRegistersChanged(s, r, {DATA_BUFFER_A})
  {
  }

  /** BTND is BTN that also accepts a button reading 2. */
  lemma ExecuteBtnd(s: State, p: int)
    requires Valid(s)
    ensures Defined(s, Btnd, p)
    ensures var r := Execute(s, Btnd, p);
      && r.registers[DATA_BUFFER_A] == Stored(s, if ButtonIs(s, 1) || ButtonIs(s, 2) then HIGH else LOW)
      && OnlyRegistersChanged(s, r, {DATA_BUFFER_A})
  {
  }

  // ---------------------------------------------------------------------------
  // Timer, serial port, video and audio.

  /** TICK loads the timer byte into the data buffer. */
  lemma ExecuteTick(s: State, p: int)
    requires Valid(s)
    ensures Defined(s, Tick, p)
    ensures var r := Execute(s, Tick, p);
      r.registers[DATA_BUFFER_A] == Stored(s, s.memory[TIMER_ADDR]) && OnlyRegistersChanged(s, r, {DATA_BUFFER_A})
  {
  }

  /** PIN loads serial pin `p` into the data buffer. */
  lemma ExecutePin(s: State, p: int)
    requires Valid(s) && InMemory(s, SERIAL_PIN_ADDR + p)
    ensures Defined(s, Pin, p)
    ensures var r := Execute(s, Pin, p);
      && r.registers[DATA_BUFFER_A] == Stored(s, s.memory[SERIAL_PIN_ADDR + p])
      && OnlyRegistersChanged(s, r, {DATA_BUFFER_A})
  {
  }

  /** POUT writes the data buffer to serial pin `p` when that cell exists, and otherwise changes nothing. */
  lemma ExecutePout(s: State, p: int)
    requires Valid(s)
    ensures Defined(s, Pout, p)
    ensures var i := SERIAL_PIN_ADDR + p;
      Execute(s, Pout, p) == s.(memory := if InMemory(s, i) then s.memory[i := s.registers[DATA_BUFFER_A]] else s.memory)
  {
    var i := SERIAL_PIN_ADDR + p;
    var bytes := [GetRegister(s, DATA_BUFFER_A)];
    WriteEverywhere(s.memory, i, bytes);
    var r := Execute(s, Pout, p);
    assert r == WriteMemory(s, i, bytes);
    if InMemory(s, i) {
      assert r.memory == s.memory[i := s.registers[DATA_BUFFER_A]];
    } else {
      assert r.memory == s.memory;
    }
  }

  /** SEND writes HIGH, LOW to the two serial state bytes and changes nothing else. */
  lemma ExecuteSend(s: State, p: int)
    requires Valid(s)
    ensures Defined(s, Send, p)
    ensures Execute(s, Send, p) == s.(memory := s.memory[SERIAL_STATE_ADDR := HIGH][SERIAL_STATE_ADDR + 1 := LOW])
  {
    WriteEverywhere(s.memory, SERIAL_STATE_ADDR, [HIGH, LOW]);
    var r := Execute(s, Send, p);
    assert r == WriteMemory(s, SERIAL_STATE_ADDR, [HIGH, LOW]);
    assert r.memory == s.memory[SERIAL_STATE_ADDR := HIGH][SERIAL_STATE_ADDR + 1 := LOW];
  }

  /** RECV sets the data buffer high exactly when the first serial state byte is low and the second high. */
  lemma ExecuteRecv(s: State, p: int)
    requires Valid(s)
    ensures Defined(s, Recv, p)
    ensures var r := Execute(s, Recv, p);
      var ready := !ValueIsHigh(s.memory[SERIAL_STATE_ADDR]) && ValueIsHigh(s.memory[SERIAL_STATE_ADDR + 1]);
      && r.registers[DATA_BUFFER_A] == Stored(s, if ready then HIGH else LOW)
      && OnlyRegistersChanged(s, r, {DATA_BUFFER_A})
  {
  }

  /** SHADE loads the video cell of column `b % 32` and row `a` into the data buffer. */
  lemma ExecuteShade(s: State, p: int)
    requires Valid(s) && OperandsDefined(s) && InMemory(s, VIDEO_ADDR + PixelIndex(Top(s), Below(s)))
    ensures Defined(s, Shade, p)
    ensures var r := Execute(s, Shade, p);
      && r.registers[DATA_BUFFER_A] == Stored(s, s.memory[VIDEO_ADDR + PixelIndex(Top(s), Below(s))])
      && OnlyRegistersChanged(s, r, {DATA_BUFFER_A})
  {
  }

  /** TONE writes `b` and then `a` to the two audio bytes, as they are, and changes nothing else. */
  lemma ExecuteTone(s: State, p: int)
    requires Valid(s) && OperandsDefined(s)
    ensures Defined(s, Tone, p)
    ensures Execute(s, Tone, p) == s.(memory := s.memory[AUDIO_ADDR := Below(s)][AUDIO_ADDR + 1 := Top(s)])
  {
    var bytes := [Below(s), Top(s)];
    WriteEverywhere(s.memory, AUDIO_ADDR, bytes);
    var r := Execute(s, Tone, p);
    assert r == WriteMemory(s, AUDIO_ADDR, bytes);
    assert r.memory == s.memory[AUDIO_ADDR := Below(s)][AUDIO_ADDR + 1 := Top(s)];
  }

  /** RAND, SIN, COS, TILE, SPR, ICON, PRINT, LOGR, LOGS and NOP leave the machine as it is. */
  lemma ExecuteNoEffect(s: State, op: Opcode, p: int)
    requires Valid(s) && op in {Rand, Sin, Cos, Tile, Spr, Icon, Print, LogR, LogS, Nop}
    ensures Defined(s, op, p) && Execute(s, op, p) == s
  {
    assert GroupOf(op) == NoEffect;
  }

  // ---------------------------------------------------------------------------
  // The stack.

  /** PUSH on a stack index in [0, 256) is `pushToStack` of its parameter. */
  lemma ExecutePush(s: State, p: int)
    requires Valid(s) && 0 <= StackIndex(s) < STACK_LEN
    ensures Defined(s, Push, p) && Execute(s, Push, p) == PushToStack(s, p)
  {
  }

  /** PUSHR pushes the stored value of register `p`. */
  lemma ExecutePushR(s: State, p: int)
    requires Valid(s) && 0 <= StackIndex(s) < STACK_LEN
    ensures Defined(s, PushR, p) && Execute(s, PushR, p) == PushToStack(s, GetRegister(s, p))
  {
  }

  /**
   * POP on a stack index in [0, 256): the top slot, in stored form, goes to
   * the data buffer and the index steps down by one, from 0 to 255; memory
   * is not touched.
   */
  lemma ExecutePop(s: State, p: int)
    requires Valid(s) && 0 <= StackIndex(s) < STACK_LEN
    ensures Defined(s, Pop, p) && Execute(s, Pop, p) == PopOnce(s)
    ensures PopEffect(s, Execute(s, Pop, p))
  {
  }

  /** The state after one POP: `setDataBuffer(a)`, then `decrementStackPointer()`. */
  function PopOnce(s: State): (r: State)
    requires Valid(s) && 0 <= StackIndex(s) < STACK_LEN
    ensures Valid(r) && 0 <= StackIndex(r) < STACK_LEN
    ensures TopDefined(s) && PopEffect(s, r)
  {
    Decrement(SetRegister(s, DATA_BUFFER_A, Top(s)), 1)
  }

  /** What a POP does, as a relation between the states before and after it. */
  predicate PopEffect(s: State, r: State)
    requires Valid(s) && Valid(r) && TopDefined(s)
  {
    && r.registers[DATA_BUFFER_A] == Stored(s, Top(s))
    && StackIndex(r) == (StackIndex(s) - 1) % STACK_LEN
    && OnlyRegistersChanged(s, r, {DATA_BUFFER_A, STACK_INDEX})
  }

  /** COPY puts the top slot, in stored form, in the data buffer and leaves the stack alone. */
  lemma ExecuteCopy(s: State, p: int)
    requires Valid(s) && TopDefined(s)
    ensures Defined(s, Copy, p)
    ensures var r := Execute(s, Copy, p);
      r.registers[DATA_BUFFER_A] == Stored(s, Top(s)) && OnlyRegistersChanged(s, r, {DATA_BUFFER_A})
  {
  }

  /** INCR and DECR move the stack index by their parameter and touch nothing else. */
  lemma ExecuteIncrDecr(s: State, p: int)
    requires Valid(s)
    ensures Defined(s, Incr, p) && Execute(s, Incr, p) == Increment(s, p)
    ensures Defined(s, Decr, p) && Execute(s, Decr, p) == Decrement(s, p)
  {
  }

  /** INCR then DECR by the same amount in [0, 256] returns a stack index in [0, 256) to where it was. */
  lemma IncrThenDecr(s: State, p: int)
    requires Valid(s) && 0 <= StackIndex(s) < STACK_LEN && 0 <= p <= STACK_LEN
    ensures Defined(s, Incr, p) && Defined(Execute(s, Incr, p), Decr, p)
    ensures Execute(Execute(s, Incr, p), Decr, p) == s
  {
    ExecuteIncrDecr(s, p);
    var t := Increment(s, p);
    ExecuteIncrDecr(t, p);
    var u := Decrement(t, p);
    assert u.registers == s.registers;
  }

  /** Reducing modulo 256 before adding `b` does not change the sum's residue. */
  lemma ModAdd(a: int, b: int)
    ensures ((a % STACK_LEN) + b) % STACK_LEN == (a + b) % STACK_LEN
  {
    var q := a / STACK_LEN;
    assert a == STACK_LEN * q + a % STACK_LEN;
    ModShift(a % STACK_LEN + b, q);
  }

  lemma ModShift(x: int, q: int)
    ensures (x + STACK_LEN * q) % STACK_LEN == x % STACK_LEN
  {
  }

  /** Adding `b` to a residue `x` of `a` gives the residue of `a + b`. */
  lemma Shifted(x: int, a: int, b: int)
    requires x == a % STACK_LEN
    ensures (x + b) % STACK_LEN == (a + b) % STACK_LEN
  {
    ModAdd(a, b);
  }

  /** Fewer than 256 apart, two slots are distinct modulo 256. */
  lemma ModDistinct(a: int, b: int)
    requires 0 < b - a < STACK_LEN
    ensures a % STACK_LEN != b % STACK_LEN
  {
  }

  /** The state after PUSH of each value in turn (each step is a PUSH, by `ExecutePush`). */
  function Pushes(s: State, values: seq<int>): (r: State)
    requires Valid(s) && 0 <= StackIndex(s) < STACK_LEN
    ensures Valid(r) && 0 <= StackIndex(r) < STACK_LEN
    decreases |values|
  {
    if |values| == 0 then s
    else PushToStack(Pushes(s, values[..|values| - 1]), values[|values| - 1])
  }

  /** The state after `n` POP instructions, and the data buffer after each of them. */
  datatype Popped = Popped(state: State, values: seq<int>)

  /** `n` pops in turn (each step is a POP, by `ExecutePop`). */
  function Pops(s: State, n: nat): (r: Popped)
    requires Valid(s) && 0 <= StackIndex(s) < STACK_LEN
    ensures Valid(r.state) && |r.values| == n
    decreases n
  {
    if n == 0 then Popped(s, [])
    else
      var t := PopOnce(s);
      var rest := Pops(t, n - 1);
      Popped(rest.state, [t.registers[DATA_BUFFER_A]] + rest.values)
  }

  /** After pushes, the index has moved up by their number, modulo 256; the store policy is unchanged. */
  lemma {:induction false} PushesIndex(s: State, values: seq<int>)
    requires Valid(s) && 0 <= StackIndex(s) < STACK_LEN
    ensures var r := Pushes(s, values);
      && StackIndex(r) == (StackIndex(s) + |values|) % STACK_LEN
      && r.registers[WRAP_VALUES] == s.registers[WRAP_VALUES]
    decreases |values|
  {
    var n := |values|;
    if n > 0 {
      var u := Pushes(s, values[..n - 1]);
      PushesIndex(s, values[..n - 1]);
      Shifted(StackIndex(u), StackIndex(s) + n - 1, 1);
    }
  }

  /** After at most 256 pushes, push `j` sits in slot `index + 1 + j`, modulo 256. */
  lemma {:induction false} PushesSlot(s: State, values: seq<int>, j: int)
    requires Valid(s) && 0 <= StackIndex(s) < STACK_LEN && |values| <= STACK_LEN && 0 <= j < |values|
    ensures Pushes(s, values).memory[(StackIndex(s) + 1 + j) % STACK_LEN] == Stored(s, values[j])
    decreases |values|
  {
    var n := |values|;
    var front := values[..n - 1];
    var u := Pushes(s, front);
    PushesIndex(s, front);
    Shifted(StackIndex(u), StackIndex(s) + n - 1, 1);
    assert PushSlot(u) == (StackIndex(s) + n) % STACK_LEN;
    if j < n - 1 {
      PushesSlot(s, front, j);
      assert front[j] == values[j];
    }
    SlotAfterPush(s, u, Pushes(s, values).memory, values[n - 1], values[j], n, j);
  }

  /** The last push fills slot `index + n`; the slots of earlier pushes keep their values. */
  lemma SlotAfterPush(s: State, u: State, memory: seq<int>, pushed: int, v: int, n: int, j: int)
    requires Valid(s) && Valid(u) && 0 <= StackIndex(s) < STACK_LEN && 0 <= j < n <= STACK_LEN
    requires u.registers[WRAP_VALUES] == s.registers[WRAP_VALUES]
    requires PushSlot(u) == (StackIndex(s) + n) % STACK_LEN
    requires memory == u.memory[STACK_ADDR + PushSlot(u) := Stored(u, pushed)]
    requires j == n - 1 ==> v == pushed
    requires j < n - 1 ==> u.memory[(StackIndex(s) + 1 + j) % STACK_LEN] == Stored(s, v)
    ensures memory[(StackIndex(s) + 1 + j) % STACK_LEN] == Stored(s, v)
  {
    if j < n - 1 {
      ModDistinct(StackIndex(s) + 1 + j, StackIndex(s) + n);
    }
  }

  /** Pops move the index down by their number, modulo 256, and leave memory and the store policy alone. */
  lemma {:induction false} PopsIndex(s: State, n: nat)
    requires Valid(s) && 0 <= StackIndex(s) < STACK_LEN
    ensures var r := Pops(s, n).state;
      && StackIndex(r) == (StackIndex(s) - n) % STACK_LEN
      && r.memory == s.memory
      && r.registers[WRAP_VALUES] == s.registers[WRAP_VALUES]
    decreases n
  {
    if n > 0 {
      var t := PopOnce(s);
      PopsIndex(t, n - 1);
      Shifted(StackIndex(t), StackIndex(s) - 1, -(n - 1));
    }
  }

  /** Pop `j` reads slot `index - j`, modulo 256, in stored form. */
  lemma {:induction false} PopsValue(s: State, n: nat, j: int)
    requires Valid(s) && 0 <= StackIndex(s) < STACK_LEN && 0 <= j < n
    ensures Pops(s, n).values[j] == Stored(s, s.memory[(StackIndex(s) - j) % STACK_LEN])
    decreases n
  {
    var t := PopOnce(s);
    if j == 0 {
      assert Pops(s, n).values[0] == t.registers[DATA_BUFFER_A];
      TopPopped(s, t.registers[DATA_BUFFER_A]);
    } else {
      PopsValue(t, n - 1, j - 1);
      assert Pops(s, n).values[j] == Pops(t, n - 1).values[j - 1];
      DeeperPop(s, t, Pops(t, n - 1).values[j - 1], j);
    }
  }

  /** The first POP reads the slot the index names. */
  lemma TopPopped(s: State, v: int)
    requires Valid(s) && 0 <= StackIndex(s) < STACK_LEN && TopDefined(s) && v == Stored(s, Top(s))
    ensures v == Stored(s, s.memory[(StackIndex(s) - 0) % STACK_LEN])
  {
  }

  /** A value read `j - 1` slots below the top after one POP was `j` slots below it before. */
  lemma DeeperPop(s: State, t: State, v: int, j: int)
    requires Valid(s) && Valid(t) && 0 <= StackIndex(s) < STACK_LEN
    requires t.memory == s.memory && t.registers[WRAP_VALUES] == s.registers[WRAP_VALUES]
    requires StackIndex(t) == (StackIndex(s) - 1) % STACK_LEN
    requires v == Stored(t, t.memory[(StackIndex(t) - (j - 1)) % STACK_LEN])
    ensures v == Stored(s, s.memory[(StackIndex(s) - j) % STACK_LEN])
  {
    Shifted(StackIndex(t), StackIndex(s) - 1, -(j - 1));
  }

  /**
   * The stack is last in, first out: after at most 256 PUSH instructions, as
   * many POP instructions hand the pushed values to the data buffer in the
   * reverse order, each in its stored form, and the stack index is back
   * where it started.
   */
  lemma {:induction false} LastInFirstOut(s: State, values: seq<int>)
    requires Valid(s) && 0 <= StackIndex(s) < STACK_LEN && |values| <= STACK_LEN
    ensures var r := Pops(Pushes(s, values), |values|);
      && StackIndex(r.state) == StackIndex(s)
      && forall j :: 0 <= j < |values| ==> r.values[j] == Stored(s, values[|values| - 1 - j])
  {
    var n := |values|;
    var t := Pushes(s, values);
    assert StackIndex(Pops(t, n).state) == StackIndex(s) by {
      PushesIndex(s, values);
      PopsIndex(t, n);
      IndexRestored(s, t, Pops(t, n).state, n);
    }
    forall j | 0 <= j < n
      ensures Pops(t, n).values[j] == Stored(s, values[n - 1 - j])
    {
      PopReadsPush(s, values, j);
    }
  }

  /** Pop `j` after the pushes of `values` returns push `|values| - 1 - j`. */
  lemma {:induction false} PopReadsPush(s: State, values: seq<int>, j: int)
    requires Valid(s) && 0 <= StackIndex(s) < STACK_LEN && |values| <= STACK_LEN && 0 <= j < |values|
    ensures Pops(Pushes(s, values), |values|).values[j] == Stored(s, values[|values| - 1 - j])
  {
    var n := |values|;
    var si := StackIndex(s);
    var t := Pushes(s, values);
    var k := n - 1 - j;
    PushesIndex(s, values);
    PushesSlot(s, values, k);
    PopsValue(t, n, j);
    PoppedIsPushed(s, t, Pops(t, n).values[j], values[k], n, j, k);
  }

  /** The value popped `j` places below the top after `n` pushes is push `k = n - 1 - j`. */
  lemma PoppedIsPushed(s: State, t: State, popped: int, pushed: int, n: int, j: int, k: int)
    requires Valid(s) && Valid(t) && k == n - 1 - j
    requires StackIndex(t) == (StackIndex(s) + n) % STACK_LEN
    requires t.registers[WRAP_VALUES] == s.registers[WRAP_VALUES]
    requires t.memory[(StackIndex(s) + 1 + k) % STACK_LEN] == Stored(s, pushed)
    requires popped == Stored(t, t.memory[(StackIndex(t) - j) % STACK_LEN])
    ensures popped == Stored(s, pushed)
  {
    PopSlotIsPushSlot(StackIndex(t), StackIndex(s), n, j, k);
    StoredIdempotent(s, t, pushed);
  }

  /** Moving the index up by `n` and then down by `n`, modulo 256, restores it. */
  lemma IndexRestored(s: State, t: State, u: State, n: int)
    requires Valid(s) && Valid(t) && Valid(u) && 0 <= StackIndex(s) < STACK_LEN
    requires StackIndex(t) == (StackIndex(s) + n) % STACK_LEN
    requires StackIndex(u) == (StackIndex(t) - n) % STACK_LEN
    ensures StackIndex(u) == StackIndex(s)
  {
    Shifted(StackIndex(t), StackIndex(s) + n, -n);
  }

  /** Counting down `j` from the top after `n` pushes lands on push `n - 1 - j`. */
  lemma PopSlotIsPushSlot(top: int, base: int, n: int, j: int, k: int)
    requires top == (base + n) % STACK_LEN && k == n - 1 - j
    ensures (top - j) % STACK_LEN == (base + 1 + k) % STACK_LEN
  {
    Shifted(top, base + n, -j);
  }
}
