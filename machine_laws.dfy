/**
 * Laws of the state operations in machine.dfy: the store policy is
 * idempotent, a register reads back what was stored, a push leaves its
 * value on top with the old top below it, a guarded write of a region's own
 * bytes changes nothing, and `loadProgram` lays the tokens out two bytes
 * each from address 0.
 */
module MachineLaws {
  import opened Wrappers
  import opened Bytes
  import opened Isa
  import opened Assembler
  import opened Machine

  /** The wrapping remainder leaves a value strictly between -255 and 255 as it is. */
  lemma WrapSmall(x: int)
    requires -255 < x < 255
    ensures JsRem(x, 255) == x
  {
    assert Abs(x) % 255 == Abs(x);
  }

  /** Storing a stored value again gives it back, under the same `WRAP_VALUES`. */
  lemma StoredIdempotent(s: State, t: State, value: int)
    requires Valid(s) && Valid(t) && s.registers[WRAP_VALUES] == t.registers[WRAP_VALUES]
    ensures Stored(t, Stored(s, value)) == Stored(s, value)
  {
    if ValueIsHigh(s.registers[WRAP_VALUES]) {
      WrapSmall(Stored(s, value));
    }
  }

  /** `getRegister` after `setRegister` reads the stored value; every other register is untouched. */
  lemma SetThenGet(s: State, index: int, value: int, other: int)
    requires Valid(s) && 0 <= index < REGISTER_COUNT && other != index
    ensures GetRegister(SetRegister(s, index, value), index) == Stored(s, value)
    ensures GetRegister(SetRegister(s, index, value), other) == GetRegister(s, other)
  {
  }

  /**
   * On a stack index in [0, 256), a push leaves the stored value on top, the
   * old top right below it, and every other stack slot as it was.
   */
  lemma PushThenTop(s: State, value: int)
    requires Valid(s) && 0 <= StackIndex(s) < STACK_LEN
    ensures CanPush(s)
    ensures InMemory(PushToStack(s, value), SlotIndex(PushToStack(s, value), 0))
    ensures InMemory(PushToStack(s, value), SlotIndex(PushToStack(s, value), -1))
    ensures Top(PushToStack(s, value)) == Stored(s, value)
    ensures Below(PushToStack(s, value)) == Top(s)
    ensures SlotIndex(PushToStack(s, value), -1) == StackIndex(s)
  {
    var r := PushToStack(s, value);
    assert StackIndex(r) == (StackIndex(s) + 1) % STACK_LEN;
  }

  /**
   * Jumping to an address whose bytes lie in [0, 255) stores both bytes
   * unchanged under either store policy, so the counter then reads that
   * address; nothing else changes.
   */
  lemma JumpToByteAddress(s: State, address: Address)
    requires Valid(s) && 0 <= address.high < 255 && 0 <= address.low < 255
    ensures JumpToAddress(s, address) ==
      s.(registers := s.registers[INSTRUCTION_POINTER_HIGH := address.high][INSTRUCTION_POINTER_LOW := address.low])
    ensures Pc(JumpToAddress(s, address)) == 256 * address.high + address.low
  {
    var t := SetRegister(s, INSTRUCTION_POINTER_HIGH, address.high);
    if ValueIsHigh(s.registers[WRAP_VALUES]) {
      WrapSmall(address.high);
      WrapSmall(address.low);
    }
    assert t.registers[WRAP_VALUES] == s.registers[WRAP_VALUES];
    assert ToInt32(address.high * 256) == address.high * 256;
  }

  /** Writing a region's own bytes back to it leaves the cells as they were. */
  lemma WriteSame(cells: seq<int>, index: int, n: int)
    requires 0 <= index && 0 <= n && index + n <= |cells|
    ensures Write(cells, index, cells[index..index + n]) == cells
  {
    WriteEverywhere(cells, index, cells[index..index + n]);
  }

  /**
   * The cell `k` after the first `n` tokens were written: a token's code at an
   * even address below `2n`, its parameter at the odd one after it, and the
   * earlier contents past them.
   */
  lemma {:induction false} WriteTokensAt(cells: seq<int>, tokens: seq<Token>, n: nat, k: int)
    requires n <= |tokens| && 2 * n <= |cells| && 0 <= k < |cells|
    ensures WriteTokens(cells, tokens, n)[k] ==
      if k >= 2 * n then cells[k]
      else if k % 2 == 0 then tokens[k / 2].instruction
      else tokens[k / 2].parameter
  {
    if n > 0 {
      var t := tokens[n - 1];
      var before := WriteTokens(cells, tokens, n - 1);
      WriteAt(before, 2 * (n - 1), [t.instruction, t.parameter], k);
      WriteTokensAt(cells, tokens, n - 1, k);
    }
  }

  /**
   * The storage `loadProgram` prepares, for a program of at most 32768
   * tokens: token `i` at `2i` and `2i + 1`, the program's own storage bytes
   * past the tokens, and zeros past those.
   */
  lemma LoadedStorageLayout(p: Program, k: int)
    requires |p.tokens| <= STORAGE_SIZE / 2 && 0 <= k < STORAGE_SIZE
    ensures LoadedStorage(p)[k] ==
      if k < 2 * |p.tokens| then
        (if k % 2 == 0 then p.tokens[k / 2].instruction else p.tokens[k / 2].parameter)
      else if k < |p.storage| then p.storage[k]
      else 0
  {
    var base := Write(Zeros(STORAGE_SIZE), 0, p.storage);
    WriteAt(Zeros(STORAGE_SIZE), 0, p.storage, k);
    WriteTokensAt(base, p.tokens, |p.tokens|, k);
  }

  /**
   * After `loadProgram` the machine runs the new program from instruction 0
   * with every register and memory cell zero; the save slots are kept.
   */
  lemma LoadProgramStarts(s: State, p: Program)
    requires Valid(s)
    ensures LoadProgram(s, p).running
    ensures LoadProgram(s, p).program == Some(p)
    ensures LoadProgram(s, p).saves == s.saves
    ensures forall k :: 0 <= k < REGISTER_COUNT ==> LoadProgram(s, p).registers[k] == 0
    ensures forall k :: 0 <= k < MEMORY_SIZE ==> LoadProgram(s, p).memory[k] == 0
    ensures Pc(LoadProgram(s, p)) == 0 && StackIndex(LoadProgram(s, p)) == 0
  {
  }

  /** `reset` zeroes the fifteen registers and all of memory, and keeps storage, the program, the saves and the flag. */
  lemma ResetClears(s: State)
    requires Valid(s)
    ensures forall k :: 0 <= k < REGISTER_COUNT ==> Reset(s).registers[k] == 0
    ensures forall k :: 0 <= k < MEMORY_SIZE ==> Reset(s).memory[k] == 0
    ensures Reset(s).storage == s.storage && Reset(s).program == s.program
    ensures Reset(s).saves == s.saves && Reset(s).running == s.running
  {
  }
}
