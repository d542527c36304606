/**
 * What the instructions and the cycle promise, stated over `Cpu.Execute`,
 * `Cpu.Cycle` and `Cpu.RunCycles`.
 */
module CpuLaws {
  import opened Wrappers
  import opened Bytes
  import opened Isa
  import opened Assembler
  import opened Machine
  import opened MachineLaws
  import opened Cpu

  // ---------------------------------------------------------------------------
  // The stack instructions.

  /**
   * CONST steps down and pushes again, so on a stack index in [0, 256) it
   * replaces the top slot in place: the index is unchanged and nothing else
   * in memory moves.
   */
  lemma ConstOverwritesTop(s: State, p: int)
    requires Valid(s) && 0 <= StackIndex(s) < STACK_LEN
    ensures Defined(s, Const, p)
    ensures StackIndex(Execute(s, Const, p)) == StackIndex(s)
    ensures Execute(s, Const, p).memory == s.memory[StackIndex(s) := Stored(s, p)]
  {
    var t := Decrement(s, 1);
    assert StackIndex(t) == if StackIndex(s) == 0 then STACK_LEN - 1 else StackIndex(s) - 1;
    assert PushSlot(t) == StackIndex(s);
  }

  /**
   * PUSH followed by POP: the data buffer receives the pushed value in its
   * stored form and the stack index returns to where it was.
   */
  lemma PushThenPop(s: State, p: int)
    requires Valid(s) && 0 <= StackIndex(s) < STACK_LEN
    ensures Defined(s, Push, p)
    ensures Defined(Execute(s, Push, p), Pop, 0)
    ensures Execute(Execute(s, Push, p), Pop, 0).registers[DATA_BUFFER_A] == Stored(s, p)
    ensures StackIndex(Execute(Execute(s, Push, p), Pop, 0)) == StackIndex(s)
  {
    var t := Execute(s, Push, p);
    PushThenTop(s, p);
    StoredIdempotent(s, t, p);
  }

  /**
   * An arithmetic instruction pushes `b ∘ a` in its stored form: the result
   * is the new top, the old top `a` is right below it, and `b` is still in
   * its slot.
   */
  lemma ArithmeticKeepsOperands(s: State, op: Opcode, p: int)
    requires Valid(s) && IsArithmetic(op) && 0 <= StackIndex(s) < STACK_LEN
    requires op == Div || op == Mod ==> Top(s) != 0
    ensures Defined(s, op, p)
    ensures var r := Execute(s, op, p);
      && TopDefined(r) && BelowDefined(r)
      && (op != Not ==> Top(r) == Stored(s, Arithmetic(op, Top(s), Below(s))))
      && (op == Not ==> Top(r) == Stored(s, JsNot(Top(s))))
      && Below(r) == Top(s)
      && r.memory[SlotIndex(s, -1)] == Below(s)
  {
    ArithmeticDispatches(s, op, p);
    var value := if op == Not then JsNot(Top(s)) else Arithmetic(op, Top(s), Below(s));
    PushKeepsOperands(s, value, Execute(s, op, p));
  }

  lemma PushKeepsOperands(s: State, value: int, r: State)
    requires Valid(s) && 0 <= StackIndex(s) < STACK_LEN && r == PushToStack(s, value)
    ensures TopDefined(r) && BelowDefined(r) && Top(r) == Stored(s, value) && Below(r) == Top(s)
    ensures r.memory[SlotIndex(s, -1)] == Below(s)
  {
    PushThenTop(s, value);
  }

  /**
   * An arithmetic opcode is defined once its operands are, and runs
   * `ArithmeticStep` whatever its parameter: the arithmetic cases never read it.
   */
  lemma ArithmeticDispatches(s: State, op: Opcode, p: int)
    requires Valid(s) && IsArithmetic(op) && ArithmeticDefined(s, op)
    ensures Defined(s, op, p) && Execute(s, op, p) == ArithmeticStep(s, op)
  {
    assert GroupOf(op) == ArithmeticGroup;
  }

  // ---------------------------------------------------------------------------
  // Control flow.

  /** A conditional jump whose comparison fails changes nothing at all. */
  lemma FailedJumpFallsThrough(s: State, op: Opcode, p: int)
    requires Valid(s) && op in {Jeq, Jneq, Jgt, Jgte, Jlt, Jlte} && OperandsDefined(s)
    requires !Taken(op, Top(s), Below(s))
    ensures Defined(s, op, p) && Execute(s, op, p) == s
  {
    assert GroupOf(op) == ControlGroup;
  }

  lemma ExecuteJump(s: State, p: int)
    requires Valid(s) && HasLabel(s, p)
    ensures Defined(s, Jump, p) && Execute(s, Jump, p) == JumpToLabel(s, p)
  {
  }

  lemma ExecuteRtn(s: State, p: int)
    requires Valid(s)
    ensures Defined(s, Rtn, p)
    ensures Execute(s, Rtn, p) == JumpToAddress(s, Address(s.registers[RETURN_POINTER_HIGH], s.registers[RETURN_POINTER_LOW]))
  {
  }

  /**
   * A jump sends the program counter to the label's address and keeps the
   * counter it replaced in the return registers; RTN then brings that
   * counter back, byte for byte.
   */
  lemma JumpThenReturn(s: State, p: int)
    requires Valid(s) && HasLabel(s, p)
    ensures Defined(s, Jump, p)
    ensures Execute(s, Jump, p).registers[INSTRUCTION_POINTER_HIGH] == Stored(s, s.program.value.labels[p].high)
    ensures Execute(s, Jump, p).registers[INSTRUCTION_POINTER_LOW] == Stored(s, s.program.value.labels[p].low)
    ensures Execute(Execute(s, Jump, p), Rtn, 0).registers[INSTRUCTION_POINTER_HIGH] ==
      Stored(s, s.registers[INSTRUCTION_POINTER_HIGH])
    ensures Execute(Execute(s, Jump, p), Rtn, 0).registers[INSTRUCTION_POINTER_LOW] ==
      Stored(s, s.registers[INSTRUCTION_POINTER_LOW])
  {
    ExecuteJump(s, p);
    var t := JumpToLabel(s, p);
    ExecuteRtn(t, 0);
    assert t.registers[RETURN_POINTER_HIGH] == Stored(s, s.registers[INSTRUCTION_POINTER_HIGH]);
    assert t.registers[RETURN_POINTER_LOW] == Stored(s, s.registers[INSTRUCTION_POINTER_LOW]);
    StoredIdempotent(s, t, s.registers[INSTRUCTION_POINTER_HIGH]);
    var v := SetRegister(t, INSTRUCTION_POINTER_HIGH, t.registers[RETURN_POINTER_HIGH]);
    StoredIdempotent(s, v, s.registers[INSTRUCTION_POINTER_LOW]);
  }

  /**
   * A cycle that is not sleeping and reads a nonzero code naming `op` first
   * moves the counter past the instruction and then executes `op` with the
   * parameter stored after the code.
   */
  lemma CycleDispatches(s: State, op: Opcode)
    requires Valid(s) && GetRegister(s, SLEEP_COUNTER) <= 0 && Fetch(s, 2 * Pc(s)) == Some(Code(op))
    requires Defined(Advance(s, Pc(s)), op, Parameter(s, Pc(s)))
    ensures CycleDefined(s)
    ensures Cycle(s) == Step(Execute(Advance(s, Pc(s)), op, Parameter(s, Pc(s))), Some(Code(op)))
  {
    ExecuteOwnCode(Advance(s, Pc(s)), op, Parameter(s, Pc(s)));
  }

  /** The stored code of an opcode runs that opcode. */
  lemma ExecuteOwnCode(t: State, op: Opcode, p: int)
    requires Valid(t) && Defined(t, op, p)
    ensures CodeDefined(t, Code(op), p) && ExecuteCode(t, Code(op), p) == Execute(t, op, p)
  {
    CodeRoundTrip(op);
  }

  /** A stored code outside [1, 59] matches no case of the switch and changes nothing. */
  lemma UnknownCodeIsIgnored(t: State, code: int, p: int)
    requires Valid(t) && !(FIRST_CODE <= code <= LAST_CODE)
    ensures CodeDefined(t, code, p) && ExecuteCode(t, code, p) == t
  {
  }

  /** With `WRAP_VALUES` low, RTN sets the counter to the instruction the two return registers name. */
  lemma ReturnToSaved(t: State, p: int)
    requires Valid(t) && !ValueIsHigh(t.registers[WRAP_VALUES])
    requires 0 <= t.registers[RETURN_POINTER_HIGH] < 256 && 0 <= t.registers[RETURN_POINTER_LOW] < 256
    ensures Defined(t, Rtn, p)
    ensures Pc(Execute(t, Rtn, p)) == WordToNumber(t.registers[RETURN_POINTER_HIGH], t.registers[RETURN_POINTER_LOW])
  {
    ExecuteRtn(t, p);
  }

  /**
   * A cycle that executes a JUMP at instruction `pc` (with `WRAP_VALUES` low)
   * leaves `pc + 1` in the return registers, so that a later RTN (see
   * `ReturnToSaved`) resumes right after the jump.
   */
  lemma JumpCycleSavesNext(s: State)
    requires Valid(s) && !ValueIsHigh(s.registers[WRAP_VALUES]) && GetRegister(s, SLEEP_COUNTER) <= 0
    requires Fetch(s, 2 * Pc(s)) == Some(Code(Jump)) && HasLabel(s, Parameter(s, Pc(s)))
    ensures CycleDefined(s)
    ensures var u := Cycle(s).state;
      && 0 <= u.registers[RETURN_POINTER_HIGH] < 256 && 0 <= u.registers[RETURN_POINTER_LOW] < 256
      && WordToNumber(u.registers[RETURN_POINTER_HIGH], u.registers[RETURN_POINTER_LOW]) == (Pc(s) + 1) % 65536
  {
    var index := Pc(s);
    var p := Parameter(s, index);
    var t := Advance(s, index);
    assert t.program == s.program;
    AdvanceCounts(s, index);
    ExecuteJump(t, p);
    CycleDispatches(s, Jump);
    var next := NumberToWord(index + 1);
    assert t.registers[INSTRUCTION_POINTER_HIGH] == next.high && t.registers[INSTRUCTION_POINTER_LOW] == next.low;
    assert Cycle(s).state == JumpToLabel(t, p);
  }

  // ---------------------------------------------------------------------------
  // Saving and loading.

  lemma ExecuteSave(s: State, p: int)
    requires Valid(s) && s.program.Some?
    ensures Defined(s, Save, p)
    ensures Execute(s, Save, p) == s.(saves := s.saves[s.program.value.name := SaveArea(s)])
  {
  }

  lemma ExecuteLoad(s: State, p: int)
    requires Valid(s) && s.program.Some?
    ensures Defined(s, Load, p)
    ensures Execute(s, Load, p) == s.(memory := Write(s.memory, SAVE_DATA_ADDR, SavedBytes(s)))
  {
  }

  /**
   * LOAD after SAVE, with any steps between them that keep the program and the
   * save slots, puts the saved 256 bytes back into the save area and leaves
   * the rest of memory as it was.
   */
  lemma SaveThenLoad(s: State, t: State)
    requires Valid(s) && s.program.Some? && Valid(t)
    requires t.program == s.program && t.saves == s.saves[s.program.value.name := SaveArea(s)]
    ensures Defined(s, Save, 0) && Execute(s, Save, 0).saves == t.saves
    ensures Defined(t, Load, 0)
    ensures SaveArea(Execute(t, Load, 0)) == SaveArea(s)
    ensures forall k :: 0 <= k < MEMORY_SIZE && !(SAVE_DATA_ADDR <= k < SAVE_DATA_ADDR + SAVE_DATA_LEN) ==>
      Execute(t, Load, 0).memory[k] == t.memory[k]
  {
    ExecuteSave(s, 0);
    ExecuteLoad(t, 0);
    var bytes := SaveArea(s);
    assert SavedBytes(t) == bytes;
    var cells := Write(t.memory, SAVE_DATA_ADDR, bytes);
    WriteEverywhere(t.memory, SAVE_DATA_ADDR, bytes);
    assert cells[SAVE_DATA_ADDR..SAVE_DATA_ADDR + SAVE_DATA_LEN] == bytes;
  }

  /** LOAD right after SAVE changes nothing: the save area already holds those bytes. */
  lemma LoadAfterSaveIsIdle(s: State)
    requires Valid(s) && s.program.Some?
    ensures Defined(s, Save, 0) && Defined(Execute(s, Save, 0), Load, 0)
    ensures Execute(Execute(s, Save, 0), Load, 0) == Execute(s, Save, 0)
  {
    ExecuteSave(s, 0);
    var t := Execute(s, Save, 0);
    ExecuteLoad(t, 0);
    assert SavedBytes(t) == t.memory[SAVE_DATA_ADDR..SAVE_DATA_ADDR + SAVE_DATA_LEN];
    WriteSame(t.memory, SAVE_DATA_ADDR, SAVE_DATA_LEN);
  }

  /** LOAD for a program that has never saved writes the empty array, which changes nothing. */
  lemma LoadWithoutSave(s: State)
    requires Valid(s) && s.program.Some? && s.program.value.name !in s.saves
    ensures Defined(s, Load, 0) && Execute(s, Load, 0) == s
  {
    ExecuteLoad(s, 0);
  }

  // ---------------------------------------------------------------------------
  // The display.

  /** DRAW writes `parameter % 4` to exactly one cell, when that cell exists, and nothing else. */
  lemma DrawWritesOnePixel(s: State, p: int)
    requires Valid(s) && OperandsDefined(s)
    ensures Defined(s, Draw, p)
    ensures var i := VIDEO_ADDR + PixelIndex(Top(s), Below(s));
      Execute(s, Draw, p).memory == if InMemory(s, i) then s.memory[i := JsRem(p, 4)] else s.memory
    ensures Execute(s, Draw, p).registers == s.registers
  {
    var i := VIDEO_ADDR + PixelIndex(Top(s), Below(s));
    WriteEverywhere(s.memory, i, [JsRem(p, 4)]);
    var r := Execute(s, Draw, p);
    assert r == WriteMemory(s, i, [JsRem(p, 4)]);
    if InMemory(s, i) {
      assert r.memory == s.memory[i := JsRem(p, 4)];
    } else {
      assert r.memory == s.memory;
    }
  }

  /** CLEAR fills the 512 video cells with its parameter and leaves the rest of memory alone. */
  lemma ClearFillsVideo(s: State, p: int)
    requires Valid(s)
    ensures Defined(s, Clear, p)
    ensures forall k :: 0 <= k < MEMORY_SIZE ==>
      Execute(s, Clear, p).memory[k] == if VIDEO_ADDR <= k < VIDEO_ADDR + VIDEO_LEN then p else s.memory[k]
    ensures Execute(s, Clear, p).registers == s.registers
  {
    WriteEverywhere(s.memory, VIDEO_ADDR, seq(VIDEO_LEN, _ => p));
  }

  // ---------------------------------------------------------------------------
  // The cycle.

  /** While the sleep counter is positive a cycle only counts it down, and reports the code at the counter. */
  lemma CycleSleeps(s: State)
    requires Valid(s) && GetRegister(s, SLEEP_COUNTER) > 0
    ensures CycleDefined(s)
    ensures Cycle(s).state == s.(registers := s.registers[SLEEP_COUNTER := Stored(s, s.registers[SLEEP_COUNTER] - 1)])
    ensures Cycle(s).code == Fetch(s, 2 * Pc(s))
  {
  }

  /** Code 0 at the counter sends it back to instruction 0 and executes nothing. */
  lemma CycleHalts(s: State)
    requires Valid(s) && GetRegister(s, SLEEP_COUNTER) <= 0 && Fetch(s, 2 * Pc(s)) == Some(0)
    ensures CycleDefined(s) && Cycle(s).code == Some(0)
    ensures Cycle(s).state == s.(registers := s.registers[INSTRUCTION_POINTER_HIGH := 0][INSTRUCTION_POINTER_LOW := 0])
    ensures Pc(Cycle(s).state) == 0
  {
    assert Cycle(s).state == JumpToAddress(s, Address(0, 0));
    JumpToByteAddress(s, Address(0, 0));
  }

  /** With `WRAP_VALUES` low, moving past instruction `index` leaves `(index + 1) mod 65536` in the counter. */
  lemma AdvanceCounts(s: State, index: int)
    requires Valid(s) && !ValueIsHigh(s.registers[WRAP_VALUES])
    ensures Pc(Advance(s, index)) == (index + 1) % 65536
  {
    NumberToWordWraps(index + 1);
  }

  /**
   * With `WRAP_VALUES` high the counter bytes go through `% 255` as well, so
   * moving past instruction 254 lands on instruction 0 instead of 255.
   */
  lemma WrapFoldsCounter(s: State)
    requires Valid(s) && ValueIsHigh(s.registers[WRAP_VALUES])
    ensures Pc(Advance(s, 254)) == 0
  {
    assert NumberToWord(255) == Address(0, 255);
  }

  /** The opcodes that leave both halves of the program counter alone. */
  predicate KeepsCounter(op: Opcode, p: int) {
    GroupOf(op) != ControlGroup && !(op == Mov && (p == INSTRUCTION_POINTER_HIGH || p == INSTRUCTION_POINTER_LOW))
  }

  /** Both halves of the program counter agree. */
  predicate SameCounter(s: State, t: State)
    requires Valid(s) && Valid(t)
  {
    && s.registers[INSTRUCTION_POINTER_HIGH] == t.registers[INSTRUCTION_POINTER_HIGH]
    && s.registers[INSTRUCTION_POINTER_LOW] == t.registers[INSTRUCTION_POINTER_LOW]
  }

  lemma ExecuteKeepsCounter(s: State, op: Opcode, p: int)
    requires Valid(s) && Defined(s, op, p) && KeepsCounter(op, p)
    ensures SameCounter(Execute(s, op, p), s)
  {
    match GroupOf(op)
    case StackGroup => StackKeepsCounter(s, op, p);
    case ArithmeticGroup =>
    case RegisterGroup => RegisterKeepsCounter(s, op, p);
    case DeviceGroup => DeviceKeepsCounter(s, op, p);
    case NoEffect =>
  }

  lemma StackKeepsCounter(s: State, op: Opcode, p: int)
    requires Valid(s) && GroupOf(op) == StackGroup && StackDefined(s, op, p)
    ensures SameCounter(StackStep(s, op, p), s)
  {
  }

  lemma RegisterKeepsCounter(s: State, op: Opcode, p: int)
    requires Valid(s) && GroupOf(op) == RegisterGroup && RegisterDefined(s, op) && KeepsCounter(op, p)
    ensures SameCounter(RegisterStep(s, op, p), s)
  {
  }

  lemma DeviceKeepsCounter(s: State, op: Opcode, p: int)
    requires Valid(s) && GroupOf(op) == DeviceGroup && DeviceDefined(s, op, p)
    ensures SameCounter(DeviceStep(s, op, p), s)
  {
  }

  /**
   * A cycle that executes an instruction which does not write the counter
   * leaves the counter on the next instruction; a code that names no
   * instruction is skipped the same way.
   */
  lemma CycleAdvances(s: State)
    requires Valid(s) && GetRegister(s, SLEEP_COUNTER) <= 0 && !ValueIsHigh(s.registers[WRAP_VALUES])
    requires Fetch(s, 2 * Pc(s)).Some? && Fetch(s, 2 * Pc(s)) != Some(0)
    requires var code := Fetch(s, 2 * Pc(s)).value;
      FromCode(code).Some? ==> KeepsCounter(FromCode(code).value, Parameter(s, Pc(s)))
    requires CycleDefined(s)
    ensures Pc(Cycle(s).state) == (Pc(s) + 1) % 65536
  {
    var index := Pc(s);
    var t := Advance(s, index);
    AdvanceCounts(s, index);
    var code := Fetch(s, 2 * index).value;
    if FromCode(code).Some? {
      ExecuteKeepsCounter(t, FromCode(code).value, Parameter(s, index));
      assert SameCounter(Cycle(s).state, t);
    }
  }

  /**
   * SLEEP with counter `k` in [1, 255]: the next `k` cycles only count it
   * down to 0, as long as the code at the counter is not 0 (a code 0 would
   * end the tick).
   */
  lemma {:induction false} SleepWaits(s: State, k: nat)
    requires Valid(s) && 0 < k < 256 && s.registers[SLEEP_COUNTER] == k
    requires Fetch(s, 2 * Pc(s)) != Some(0)
    ensures RunDefined(s, k)
    ensures RunCycles(s, k) == s.(registers := s.registers[SLEEP_COUNTER := 0])
    decreases k
  {
    var t := s.(registers := s.registers[SLEEP_COUNTER := k - 1]);
    if ValueIsHigh(s.registers[WRAP_VALUES]) {
      WrapSmall(k - 1);
    }
    assert Cycle(s).state == t;
    if k > 1 {
      assert Pc(t) == Pc(s);
      SleepWaits(t, k - 1);
      assert t.(registers := t.registers[SLEEP_COUNTER := 0]) == s.(registers := s.registers[SLEEP_COUNTER := 0]);
    }
  }

  /**
   * A tick stops early at code 0: once the counter is on a 0, the rest of the
   * batch is that one cycle, which only sends the counter back to instruction 0.
   */
  lemma HaltEndsBatch(s: State, n: nat)
    requires Valid(s) && n > 0 && GetRegister(s, SLEEP_COUNTER) <= 0 && Fetch(s, 2 * Pc(s)) == Some(0)
    ensures RunDefined(s, n)
      && RunCycles(s, n) == s.(registers := s.registers[INSTRUCTION_POINTER_HIGH := 0][INSTRUCTION_POINTER_LOW := 0])
  {
    CycleHalts(s);
    RunStopsAtHalt(s, n);
  }

  /** A batch whose first cycle reads code 0 is that cycle alone. */
  lemma RunStopsAtHalt(s: State, n: nat)
    requires Valid(s) && n > 0 && CycleDefined(s) && Cycle(s).code == Some(0)
    ensures RunDefined(s, n) && RunCycles(s, n) == Cycle(s).state
  {
  }
}
