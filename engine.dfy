/**
 * The `TamaGo` class (src/lib/TamaGo.ts:408-940) as a Dafny class: memory
 * and storage are arrays changed in place, the register file, the loaded
 * program, the save slots and the running flag are fields. Every method is
 * proved to take the object from `old(View())` to the state the matching
 * function of machine.dfy or cpu.dfy describes, so the laws proved about
 * those functions hold of the object as well.
 */
module Engine {
  import opened Wrappers
  import opened Bytes
  import opened Isa
  import opened Assembler
  import opened Machine
  import opened Cpu

  /** `Array.prototype.fill(value)`: every cell of `cells` becomes `value`. */
  method Fill(cells: array<int>, value: int)
    modifies cells
    ensures cells[..] == seq(cells.Length, _ => value)
  {
    var i := 0;
    while i < cells.Length
      invariant 0 <= i <= cells.Length
      invariant cells[..i] == seq(i, _ => value)
    {
      cells[i] := value;
      assert cells[..i + 1] == cells[..i] + [value];
      i := i + 1;
    }
    assert cells[..] == cells[..cells.Length];
  }

  /**
   * The loop of `writeToMemory` / `writeToStorage`: `bytes[i]` goes to
   * `index + i` until the first position that is not a cell.
   */
  method WriteCells(cells: array<int>, index: int, bytes: seq<int>)
    modifies cells
    ensures cells[..] == Write(old(cells[..]), index, bytes)
  {
    var i := 0;
    while i < |bytes|
      invariant 0 <= i <= |bytes|
      invariant Write(cells[..], index + i, bytes[i..]) == Write(old(cells[..]), index, bytes)
    {
      if !(0 <= index + i < cells.Length) {
        return;
      }
      ghost var before := cells[..];
      cells[index + i] := bytes[i];
      assert cells[..] == before[index + i := bytes[i]];
      assert bytes[i..][1..] == bytes[i + 1..];
      i := i + 1;
    }
  }

  class TamaGo {
    const memory: array<int>
    const storage: array<int>
    var registers: seq<int>
    var program: Option<Program>
    /** The browser's save store, by program name. */
    var saves: map<string, seq<int>>
    var running: bool

    ghost predicate Valid()
      reads this
    {
      memory.Length == MEMORY_SIZE && storage.Length == STORAGE_SIZE && |registers| == REGISTER_COUNT
    }

    /** The object's state as a value. */
    function View(): (s: State)
      reads this, memory, storage
      ensures Valid() ==> Machine.Valid(s)
    {
      State(memory[..], storage[..], registers, program, saves, running)
    }

    /** A new console: all memory, storage and registers zero, no program, paused. */
    constructor (saved: map<string, seq<int>>)
      ensures Valid() && fresh(memory) && fresh(storage)
      ensures View() == State(Zeros(MEMORY_SIZE), Zeros(STORAGE_SIZE), Zeros(REGISTER_COUNT), None, saved, false)
    {
      memory := new int[MEMORY_SIZE](_ => 0);
      storage := new int[STORAGE_SIZE](_ => 0);
      registers := Zeros(REGISTER_COUNT);
      program := None;
      saves := saved;
      running := false;
    }

    // -------------------------------------------------------------------------
    // Registers.

    method SetRegister(index: int, value: int)
      requires Valid()
      modifies this
      ensures Valid() && View() == Machine.SetRegister(old(View()), index, value)
    {
      if !(0 <= index < REGISTER_COUNT) {
        return;
      }
      var stored := if ValueIsHigh(registers[WRAP_VALUES]) then JsRem(value, 255) else ClampByte(value);
      registers := registers[index := stored];
    }

    method GetRegister(index: int) returns (value: int)
      requires Valid()
      ensures value == Machine.GetRegister(View(), index)
    {
      value := if 0 <= index < REGISTER_COUNT then registers[index] else 0;
    }

    // -------------------------------------------------------------------------
    // The stack.

    method IncrementStackPointer(amount: int)
      requires Valid()
      modifies this
      ensures Valid() && View() == Increment(old(View()), amount)
    {
      registers := registers[STACK_INDEX := JsRem(registers[STACK_INDEX] + amount, STACK_LEN)];
    }

    method DecrementStackPointer(amount: int)
      requires Valid()
      modifies this
      ensures Valid() && View() == Decrement(old(View()), amount)
    {
      registers := registers[STACK_INDEX := registers[STACK_INDEX] - amount];
      if registers[STACK_INDEX] < 0 {
        registers := registers[STACK_INDEX := STACK_LEN + registers[STACK_INDEX]];
      }
    }

    method PushToStack(value: int)
      requires Valid() && CanPush(View())
      modifies this, memory
      ensures Valid() && View() == Machine.PushToStack(old(View()), value)
    {
      var stored := if ValueIsHigh(registers[WRAP_VALUES]) then JsRem(value, 255) else ClampByte(value);
      IncrementStackPointer(1);
      memory[STACK_ADDR + registers[STACK_INDEX]] := stored;
    }

    /**
     * `getFromStack(index)`: no index reads the top slot, a negative one
     * counts down from it, any other is a slot number; a negative position
     * gains 256 once. `None` stands for JavaScript's `undefined`.
     */
    method GetFromStack(index: Option<int>) returns (value: Option<int>)
      requires Valid()
      ensures index.None? ==> value == (if TopDefined(View()) then Some(Top(View())) else None)
      ensures index == Some(-1) ==> value == (if BelowDefined(View()) then Some(Below(View())) else None)
      ensures index.Some? && index.value >= 0 ==>
        value == (if index.value < MEMORY_SIZE then Some(memory[index.value]) else None)
    {
      var i := match index case None => registers[STACK_INDEX]
        case Some(k) => if k < 0 then registers[STACK_INDEX] + k else k;
      if i < 0 {
        i := STACK_LEN + i;
      }
      value := if 0 <= STACK_ADDR + i < memory.Length then Some(memory[STACK_ADDR + i]) else None;
    }

    // -------------------------------------------------------------------------
    // Memory and storage.

    method WriteToMemory(index: int, bytes: seq<int>)
      requires Valid()
      modifies memory
      ensures Valid() && View() == WriteMemory(old(View()), index, bytes)
    {
      WriteCells(memory, index, bytes);
    }

    method WriteToStorage(index: int, bytes: seq<int>)
      requires Valid()
      modifies storage
      ensures Valid() && View() == old(View()).(storage := Write(old(storage[..]), index, bytes))
    {
      WriteCells(storage, index, bytes);
    }

    // -------------------------------------------------------------------------
    // The program counter.

    method JumpToAddress(address: Address)
      requires Valid()
      modifies this
      ensures Valid() && View() == Machine.JumpToAddress(old(View()), address)
    {
      SetRegister(INSTRUCTION_POINTER_HIGH, address.high);
      SetRegister(INSTRUCTION_POINTER_LOW, address.low);
    }

    method JumpToLabel(id: int)
      requires Valid() && HasLabel(View(), id)
      modifies this
      ensures Valid() && View() == Machine.JumpToLabel(old(View()), id)
    {
      var high := GetRegister(INSTRUCTION_POINTER_HIGH);
      SetRegister(RETURN_POINTER_HIGH, high);
      var low := GetRegister(INSTRUCTION_POINTER_LOW);
      SetRegister(RETURN_POINTER_LOW, low);
      JumpToAddress(program.value.labels[id]);
    }

    // -------------------------------------------------------------------------
    // Lifecycle.

    method Reset()
      requires Valid()
      modifies this, memory
      ensures Valid() && View() == Machine.Reset(old(View()))
    {
      var k := 0;
      while k < REGISTER_COUNT
        invariant 0 <= k <= REGISTER_COUNT && |registers| == REGISTER_COUNT
        invariant forall j :: 0 <= j < k ==> registers[j] == 0
        invariant forall j :: k <= j < REGISTER_COUNT ==> registers[j] == old(registers[j])
        invariant program == old(program) && saves == old(saves) && running == old(running)
      {
        registers := registers[k := 0];
        k := k + 1;
      }
      Fill(memory, 0);
      assert registers == Zeros(REGISTER_COUNT);
    }

    method Run()
      requires Valid()
      modifies this
      ensures Valid() && View() == Machine.Run(old(View()))
    {
      if running {
        return;
      }
      running := true;
    }

    method Pause()
      requires Valid()
      modifies this
      ensures Valid() && View() == Machine.Pause(old(View()))
    {
      running := false;
    }

    method LoadProgram(p: Program)
      requires Valid()
      modifies this, memory, storage
      ensures Valid() && View() == Machine.LoadProgram(old(View()), p)
    {
      Pause();
      Reset();
      Fill(storage, 0);
      program := Some(p);
      WriteToStorage(0, p.storage);
      ghost var base := storage[..];
      assert base == Write(Zeros(STORAGE_SIZE), 0, p.storage);
      var i := 0;
      while i < |p.tokens|
        invariant 0 <= i <= |p.tokens| && Valid()
        invariant storage[..] == WriteTokens(base, p.tokens, i)
        invariant View() == Machine.Reset(Machine.Pause(old(View()))).(storage := storage[..], program := Some(p))
      {
        var token := p.tokens[i];
        WriteToStorage(2 * i, [token.instruction, token.parameter]);
        i := i + 1;
      }
      Run();
    }

    // -------------------------------------------------------------------------
    // Instructions.

    /** `a` and `b` are what `getFromStack()` and `getFromStack(-1)` returned. */
    ghost predicate Operands(a: Option<int>, b: Option<int>)
      requires Valid()
      reads this, memory, storage
    {
      && a == (if TopDefined(View()) then Some(Top(View())) else None)
      && b == (if BelowDefined(View()) then Some(Below(View())) else None)
    }

    method ExecuteStack(op: Opcode, parameter: int, a: Option<int>, b: Option<int>)
      requires Valid() && Operands(a, b) && GroupOf(op) == StackGroup && StackDefined(View(), op, parameter)
      modifies this, memory
      ensures Valid() && View() == StackStep(old(View()), op, parameter)
    {
      match op
      case Const =>
        DecrementStackPointer(1);
        PushToStack(parameter);
      case Push => PushToStack(parameter);
      case PushR =>
        var value := GetRegister(parameter);
        PushToStack(value);
      case Pop =>
        SetRegister(DATA_BUFFER_A, a.value);
        DecrementStackPointer(1);
      case Copy => SetRegister(DATA_BUFFER_A, a.value);
      case Incr => IncrementStackPointer(parameter);
      case Decr => DecrementStackPointer(parameter);
    }

    method ExecuteArithmetic(op: Opcode, a: Option<int>, b: Option<int>)
      requires Valid() && Operands(a, b) && IsArithmetic(op) && ArithmeticDefined(View(), op)
      modifies this, memory
      ensures Valid() && View() == ArithmeticStep(old(View()), op)
    {
      if op == Not {
        PushToStack(JsNot(a.value));
      } else {
        PushToStack(Arithmetic(op, a.value, b.value));
      }
    }

    method ExecuteRegister(op: Opcode, parameter: int, a: Option<int>, b: Option<int>)
      requires Valid() && Operands(a, b) && GroupOf(op) == RegisterGroup && RegisterDefined(View(), op)
      modifies this, memory
      ensures Valid() && View() == RegisterStep(old(View()), op, parameter)
    {
      match op
      case Set => SetRegister(DATA_BUFFER_A, parameter);
      case Get =>
        var value := GetRegister(parameter);
        SetRegister(DATA_BUFFER_A, value);
      case Mov =>
        var value := GetRegister(DATA_BUFFER_A);
        SetRegister(parameter, value);
      case MAddr =>
        SetRegister(MEMORY_POINTER_HIGH, b.value);
        SetRegister(MEMORY_POINTER_LOW, a.value);
      case Peek =>
        var high := GetRegister(MEMORY_POINTER_HIGH);
        var low := GetRegister(MEMORY_POINTER_LOW);
        SetRegister(DATA_BUFFER_A, memory[WordToNumber(high, low)]);
      case Poke =>
        var high := GetRegister(MEMORY_POINTER_HIGH);
        var low := GetRegister(MEMORY_POINTER_LOW);
        var value := GetRegister(DATA_BUFFER_A);
        memory[WordToNumber(high, low)] := value;
      case Save =>
        saves := saves[program.value.name := memory[SAVE_DATA_ADDR..SAVE_DATA_ADDR + SAVE_DATA_LEN]];
      case Load =>
        var name := program.value.name;
        WriteToMemory(SAVE_DATA_ADDR, if name in saves then saves[name] else []);
      case SAddr =>
        SetRegister(STORAGE_POINTER_HIGH, b.value);
        SetRegister(STORAGE_POINTER_LOW, a.value);
      case Read =>
        var high := GetRegister(STORAGE_POINTER_HIGH);
        var low := GetRegister(STORAGE_POINTER_LOW);
        SetRegister(DATA_BUFFER_A, storage[WordToNumber(high, low)]);
    }

    method ExecuteControl(op: Opcode, parameter: int, a: Option<int>, b: Option<int>)
      requires Valid() && Operands(a, b) && GroupOf(op) == ControlGroup && ControlDefined(View(), op, parameter)
      modifies this
      ensures Valid() && View() == ControlStep(old(View()), op, parameter)
    {
      match op
      case Goto =>
        SetRegister(INSTRUCTION_POINTER_HIGH, b.value);
        SetRegister(INSTRUCTION_POINTER_LOW, a.value);
      case Jump => JumpToLabel(parameter);
      case Rtn =>
        var high := GetRegister(RETURN_POINTER_HIGH);
        var low := GetRegister(RETURN_POINTER_LOW);
        JumpToAddress(Address(high, low));
      case Jeq => if b.value == a.value { JumpToLabel(parameter); }
      case Jneq => if b.value != a.value { JumpToLabel(parameter); }
      case Jgt => if b.value > a.value { JumpToLabel(parameter); }
      case Jgte => if b.value >= a.value { JumpToLabel(parameter); }
      case Jlt => if b.value < a.value { JumpToLabel(parameter); }
      case Jlte => if b.value <= a.value { JumpToLabel(parameter); }
    }

    method ExecuteDevice(op: Opcode, parameter: int, a: Option<int>, b: Option<int>)
      requires Valid() && Operands(a, b) && GroupOf(op) == DeviceGroup && DeviceDefined(View(), op, parameter)
      modifies this, memory
      ensures Valid() && View() == DeviceStep(old(View()), op, parameter)
    {
      match op
      case Btn =>
        var pressed := a.Some? && 0 <= BUTTON_ADDR + a.value < memory.Length && memory[BUTTON_ADDR + a.value] == 1;
        SetRegister(DATA_BUFFER_A, if pressed then HIGH else LOW);
      case Btnd =>
        var held := a.Some? && 0 <= BUTTON_ADDR + a.value < memory.Length
          && (memory[BUTTON_ADDR + a.value] == 1 || memory[BUTTON_ADDR + a.value] == 2);
        SetRegister(DATA_BUFFER_A, if held then HIGH else LOW);
      case Tick => SetRegister(DATA_BUFFER_A, memory[TIMER_ADDR]);
      case Pin => SetRegister(DATA_BUFFER_A, memory[SERIAL_PIN_ADDR + parameter]);
      case Pout =>
        var value := GetRegister(DATA_BUFFER_A);
        WriteToMemory(SERIAL_PIN_ADDR + parameter, [value]);
      case Send => WriteToMemory(SERIAL_STATE_ADDR, [HIGH, LOW]);
      case Recv =>
        var state := memory[SERIAL_STATE_ADDR..SERIAL_STATE_ADDR + 2];
        SetRegister(DATA_BUFFER_A, if !ValueIsHigh(state[0]) && ValueIsHigh(state[1]) then HIGH else LOW);
      case Clear => WriteToMemory(VIDEO_ADDR, seq(VIDEO_LEN, _ => parameter));
      case Draw =>
        var index := JsRem(b.value, DISPLAY_WIDTH) + a.value * DISPLAY_WIDTH;
        WriteToMemory(VIDEO_ADDR + index, [JsRem(parameter, 4)]);
      case Shade =>
        var index := JsRem(b.value, DISPLAY_WIDTH) + a.value * DISPLAY_WIDTH;
        SetRegister(DATA_BUFFER_A, memory[VIDEO_ADDR + index]);
      case Tone => WriteToMemory(AUDIO_ADDR, [b.value, a.value]);
      case Sleep => SetRegister(SLEEP_COUNTER, parameter);
    }

    /** `executeInstruction`: a code that names no opcode matches no case and changes nothing. */
    method ExecuteInstruction(code: int, parameter: int)
      requires Valid() && CodeDefined(View(), code, parameter)
      modifies this, memory
      ensures Valid() && View() == ExecuteCode(old(View()), code, parameter)
    {
      var a := GetFromStack(None);
      var b := GetFromStack(Some(-1));
      match FromCode(code)
      case None =>
      case Some(op) =>
        match GroupOf(op)
        case StackGroup => ExecuteStack(op, parameter, a, b);
        case ArithmeticGroup => ExecuteArithmetic(op, a, b);
        case RegisterGroup => ExecuteRegister(op, parameter, a, b);
        case ControlGroup => ExecuteControl(op, parameter, a, b);
        case DeviceGroup => ExecuteDevice(op, parameter, a, b);
        case NoEffect =>
    }

    /** `runCycle`: returns the code it read at the counter, `None` for `undefined`. */
    method RunCycle() returns (code: Option<int>)
      requires Valid() && CycleDefined(View())
      modifies this, memory
      ensures Valid() && View() == Cycle(old(View())).state && code == Cycle(old(View())).code
    {
      var high := GetRegister(INSTRUCTION_POINTER_HIGH);
      var low := GetRegister(INSTRUCTION_POINTER_LOW);
      var index := WordToNumber(high, low);
      code := if 0 <= 2 * index < storage.Length then Some(storage[2 * index]) else None;
      var sleep := GetRegister(SLEEP_COUNTER);
      if sleep > 0 {
        SetRegister(SLEEP_COUNTER, sleep - 1);
        return;
      }
      if code == Some(0) {
        SetRegister(INSTRUCTION_POINTER_HIGH, 0);
        SetRegister(INSTRUCTION_POINTER_LOW, 0);
        return;
      }
      var next := NumberToWord(index + 1);
      SetRegister(INSTRUCTION_POINTER_HIGH, next.high);
      SetRegister(INSTRUCTION_POINTER_LOW, next.low);
      var parameter := if 0 <= 2 * index + 1 < storage.Length then storage[2 * index + 1] else 0;
      if code.Some? {
        ExecuteInstruction(code.value, parameter);
      }
    }

    /** The batch of one tick in `loop`: up to CYCLES_PER_TICK cycles, ending after one that read code 0. */
    method RunTick()
      requires Valid() && RunDefined(View(), CYCLES_PER_TICK)
      modifies this, memory
      ensures Valid() && View() == RunCycles(old(View()), CYCLES_PER_TICK)
    {
      ghost var batch := RunCycles(View(), CYCLES_PER_TICK);
      var i := 0;
      while i < CYCLES_PER_TICK
        invariant 0 <= i <= CYCLES_PER_TICK && Valid()
        invariant RunDefined(View(), CYCLES_PER_TICK - i)
        invariant RunCycles(View(), CYCLES_PER_TICK - i) == batch
      {
        ghost var before := View();
        RunUnfolds(before, CYCLES_PER_TICK - i);
        var code := RunCycle();
        if code == Some(0) {
          return;
        }
        i := i + 1;
      }
    }
  }
}
