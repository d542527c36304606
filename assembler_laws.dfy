/**
 * What `compileFromSource` (src/lib/TamaGo.ts:330-401) guarantees about the
 * tokens and labels it produces: which opcode each line gets, how each kind
 * of parameter is resolved, and which id and address each label receives.
 */
module AssemblerLaws {
  import opened Wrappers
  import opened Text
  import opened Bytes
  import opened Isa
  import opened Assembler

  // ---------------------------------------------------------------------------
  // Source lines.

  /**
   * The line filter works line by line: the kept lines of two blocks of text
   * are the kept lines of the first followed by those of the second, so no
   * code line is lost and the order is kept.
   */
  lemma {:induction false} CodeLinesAppend(a: seq<string>, b: seq<string>)
    ensures CodeLines(a + b) == CodeLines(a) + CodeLines(b)
    decreases |a|
  {
    if |a| == 0 {
      assert a + b == b;
    } else {
      assert (a + b)[1..] == a[1..] + b;
      CodeLinesAppend(a[1..], b);
    }
  }

  /** A single line is kept, trimmed, exactly when it is neither blank nor a `#` comment. */
  lemma CodeLinesOne(line: string)
    ensures CodeLines([line]) == if IsCode(Trim(line)) then [Trim(line)] else []
  {
    assert [line][1..] == [];
  }

  // ---------------------------------------------------------------------------
  // Opcodes.

  /** A `$NAME` definition line is not an opcode name, so it compiles to a NOP. */
  lemma DefinitionLineIsNop(line: Line, definitions: map<string, nat>, ids: map<string, int>)
    requires IsDefinition(line)
    ensures EmitToken(line, definitions, ids).instruction == Code(Nop)
  {
    assert !IsLabel(line);
    assert line.instruction[0] == '$';
  }

  /** A line whose upper-cased instruction word is no mnemonic compiles to a NOP. */
  lemma UnknownNameIsNop(line: Line, definitions: map<string, nat>, ids: map<string, int>)
    requires line.instruction !in MNEMONICS
    ensures EmitToken(line, definitions, ids).instruction == Code(Nop)
  {
  }

  // ---------------------------------------------------------------------------
  // Parameters of instructions outside the jump family.

  /** A register symbol is a lower-case word: not a number and not a `$` reference. */
  lemma RegisterNamesAreWords(r: int)
    requires 0 <= r < REGISTER_COUNT
    ensures NumberValue(REGISTER_NAMES[r]).None?
    ensures !StartsWith(REGISTER_NAMES[r], '$')
  {
    assert 'a' <= REGISTER_NAMES[r][0] <= 'z';
    assert !IsDigit(REGISTER_NAMES[r][0]);
  }

  /**
   * The parameter of an instruction outside the jump family: 0 when missing,
   * the value of a `$NAME` (or 0 when undefined) modulo 256, a decimal number
   * modulo 256.
   */
  lemma NonJumpParameter(line: Line, definitions: map<string, nat>, ids: map<string, int>)
    requires !IsLabel(line) && !IsJumpCode(LineCode(line))
    ensures var t := EmitToken(line, definitions, ids);
      && (line.parameter.None? ==> t.parameter == 0)
      && (line.parameter.Some? && StartsWith(line.parameter.value, '$') ==>
            t.parameter == if Upper(line.parameter.value) in definitions
                           then definitions[Upper(line.parameter.value)] % 256 else 0)
      && (line.parameter.Some? && !StartsWith(line.parameter.value, '$')
          && NumberValue(line.parameter.value).Some? ==>
            t.parameter == NumberValue(line.parameter.value).value % 256)
  {
  }

  lemma ByteModulo(x: int)
    requires 0 <= x < 256
    ensures x % 256 == x
  {
  }

  /** Outside labels and the jump family, the parameter is the byte of the resolved word. */
  lemma NonJumpToken(line: Line, definitions: map<string, nat>, ids: map<string, int>)
    requires !IsLabel(line) && !IsJumpCode(LineCode(line))
    ensures EmitToken(line, definitions, ids).parameter == ParameterByte(Resolve(line.parameter, definitions))
  {
  }

  /** A word that is not a number becomes its register ordinal, or 0 when it names no register. */
  lemma WordByte(w: string)
    requires NumberValue(w).None?
    ensures RegisterOrdinal(w).Some? ==> ParameterByte(Word(w)) == RegisterOrdinal(w).value
    ensures w !in REGISTER_NAMES ==> ParameterByte(Word(w)) == 0
  {
    var ordinal := RegisterOrdinal(w);
    assert ParameterByte(Word(w)) == ordinal.GetOr(0) % 256;
    if ordinal.Some? {
      ByteModulo(ordinal.value);
    }
  }

  /**
   * A word parameter of an instruction outside the jump family that is
   * neither a `$NAME` nor a number: a register symbol becomes the register's
   * ordinal, any other word 0.
   */
  lemma WordParameter(line: Line, definitions: map<string, nat>, ids: map<string, int>)
    requires !IsLabel(line) && !IsJumpCode(LineCode(line))
    requires line.parameter.Some? && !StartsWith(line.parameter.value, '$')
    requires NumberValue(line.parameter.value).None?
    ensures RegisterOrdinal(line.parameter.value).Some? ==>
      EmitToken(line, definitions, ids).parameter == RegisterOrdinal(line.parameter.value).value
    ensures line.parameter.value !in REGISTER_NAMES ==> EmitToken(line, definitions, ids).parameter == 0
  {
    var w := line.parameter.value;
    assert Resolve(line.parameter, definitions) == Word(w);
    NonJumpToken(line, definitions, ids);
    WordByte(w);
  }

  /** A register symbol parameter of an instruction outside the jump family becomes the register's ordinal. */
  lemma RegisterParameter(line: Line, definitions: map<string, nat>, ids: map<string, int>, r: int)
    requires !IsLabel(line) && !IsJumpCode(LineCode(line))
    requires 0 <= r < REGISTER_COUNT && line.parameter == Some(REGISTER_NAMES[r])
    ensures EmitToken(line, definitions, ids).parameter == r
  {
    RegisterOrdinalOfName(r);
    RegisterNamesAreWords(r);
    WordParameter(line, definitions, ids);
  }

  /**
   * A `$NAME` parameter takes the value of the last line anywhere in the program
   * that defines `NAME` (before or after the use), modulo 256, and 0 when no line does.
   */
  lemma DefinedConstantParameter(lines: seq<Line>, k: nat)
    requires k < |lines|
    requires !IsLabel(lines[k]) && !IsJumpCode(LineCode(lines[k]))
    requires lines[k].parameter.Some? && StartsWith(lines[k].parameter.value, '$')
    ensures var key := Upper(lines[k].parameter.value);
      && ((forall j :: 0 <= j < |lines| ==> !Defines(lines[j], key)) ==> TokenAt(lines, k).parameter == 0)
      && (forall j :: (0 <= j < |lines| && Defines(lines[j], key)
                       && forall j' :: j < j' < |lines| ==> !Defines(lines[j'], key)) ==>
            TokenAt(lines, k).parameter == DefinitionValue(lines[j].parameter) % 256)
  {
    var key := Upper(lines[k].parameter.value);
    NonJumpParameter(lines[k], Definitions(lines), LabelsBefore(lines, k).ids);
    if forall j :: 0 <= j < |lines| ==> !Defines(lines[j], key) {
      Undefined(lines, key);
    }
    forall j | 0 <= j < |lines| && Defines(lines[j], key)
        && (forall j' :: j < j' < |lines| ==> !Defines(lines[j'], key))
      ensures TokenAt(lines, k).parameter == DefinitionValue(lines[j].parameter) % 256
    {
      DefinedByLast(lines, key, j);
    }
  }

  // ---------------------------------------------------------------------------
  // Labels.

  /** The number of label lines among the first `i` lines. */
  function LabelCount(lines: seq<Line>, i: nat): (n: nat)
    requires i <= |lines|
    ensures n <= i
  {
    if i == 0 then 0 else LabelCount(lines, i - 1) + (if IsLabel(lines[i - 1]) then 1 else 0)
  }

  lemma {:induction false} LabelCountMonotone(lines: seq<Line>, i: nat, j: nat)
    requires i <= j <= |lines|
    ensures LabelCount(lines, i) <= LabelCount(lines, j)
    decreases j - i
  {
    if i < j {
      LabelCountMonotone(lines, i, j - 1);
    }
  }

  function Min(a: int, b: int): int {
    if a <= b then a else b
  }

  /**
   * After `i` lines the label table holds one address per id 0, 1, ... up to
   * the number of labels seen (at most 256), and every declared name maps to
   * one of those ids.
   */
  lemma {:induction false} LabelTableShape(lines: seq<Line>, i: nat)
    requires i <= |lines|
    ensures |LabelsBefore(lines, i).labels| == Min(LabelCount(lines, i), 256)
    ensures forall id :: id in LabelsBefore(lines, i).labels <==> 0 <= id < Min(LabelCount(lines, i), 256)
    ensures forall name :: name in LabelsBefore(lines, i).ids ==>
      LabelsBefore(lines, i).ids[name] in LabelsBefore(lines, i).labels
  {
    if i > 0 {
      LabelTableShape(lines, i - 1);
      var t := LabelsBefore(lines, i - 1);
      var n := Min(LabelCount(lines, i - 1), 256);
      if IsLabel(lines[i - 1]) {
        if n < 256 {
          assert NextId(t) == n && n !in t.labels;
        } else {
          assert NextId(t) == 0 && 0 in t.labels;
        }
      }
    }
  }

  /** The k-th label line, counting from 0, gets id k while fewer than 256 labels precede it. */
  lemma KthLabelId(lines: seq<Line>, j: nat)
    requires j < |lines| && IsLabel(lines[j]) && LabelCount(lines, j) < 256
    ensures AssignedId(lines, j) == LabelCount(lines, j)
  {
    LabelTableShape(lines, j);
  }

  /** Once 256 labels have been declared, every further label gets id 0 again. */
  lemma LabelIdsWrap(lines: seq<Line>, j: nat)
    requires j < |lines| && LabelCount(lines, j) >= 256
    ensures AssignedId(lines, j) == 0
  {
    LabelTableShape(lines, j);
  }

  /**
   * With at most 256 labels in the first `i` lines, the id of the label on
   * line `j` still holds the address of line `j` after line `i`.
   */
  lemma {:induction false} LabelAddressKept(lines: seq<Line>, j: nat, i: nat)
    requires j < i <= |lines| && IsLabel(lines[j]) && LabelCount(lines, i) <= 256
    ensures LabelCount(lines, j) in LabelsBefore(lines, i).labels
    ensures LabelsBefore(lines, i).labels[LabelCount(lines, j)] == NumberToWord(j)
  {
    LabelCountMonotone(lines, j + 1, i);
    if i == j + 1 {
      KthLabelId(lines, j);
    } else {
      LabelAddressKept(lines, j, i - 1);
      if IsLabel(lines[i - 1]) {
        LabelCountMonotone(lines, j + 1, i - 1);
        KthLabelId(lines, i - 1);
      }
    }
  }

  /** A name that no line before `i` declares is not in the label table at `i`. */
  lemma {:induction false} NoLabelBefore(lines: seq<Line>, i: nat, name: string)
    requires i <= |lines|
    requires forall j :: 0 <= j < i ==> !DeclaresLabel(lines[j], name)
    ensures name !in LabelsBefore(lines, i).ids
  {
    if i > 0 {
      NoLabelBefore(lines, i - 1, name);
    }
  }

  /** At line `i` a name holds the id given to the last earlier line that declares it. */
  lemma {:induction false} LabelIdOfLast(lines: seq<Line>, i: nat, name: string, j: nat)
    requires j < i <= |lines| && DeclaresLabel(lines[j], name)
    requires forall j' :: j < j' < i ==> !DeclaresLabel(lines[j'], name)
    ensures name in LabelsBefore(lines, i).ids && LabelsBefore(lines, i).ids[name] == AssignedId(lines, j)
  {
    if j < i - 1 {
      LabelIdOfLast(lines, i - 1, name, j);
    }
  }

  /**
   * A jump-family instruction gets the id of the last label with its (not
   * upper-cased) parameter as name declared on an earlier line, and 0 when
   * there is none, in particular when the label is only declared later.
   */
  lemma JumpParameter(lines: seq<Line>, definitions: map<string, nat>, k: nat)
    requires k < |lines|
    requires !IsLabel(lines[k]) && IsJumpCode(LineCode(lines[k]))
    ensures var key := LabelKey(Resolve(lines[k].parameter, definitions));
      var t := EmitToken(lines[k], definitions, LabelsBefore(lines, k).ids);
      && ((forall j :: 0 <= j < k ==> !DeclaresLabel(lines[j], key)) ==> t.parameter == 0)
      && (forall j :: (0 <= j < k && DeclaresLabel(lines[j], key)
                       && forall j' :: j < j' < k ==> !DeclaresLabel(lines[j'], key)) ==>
            t.parameter == AssignedId(lines, j))
  {
    var key := LabelKey(Resolve(lines[k].parameter, definitions));
    if forall j :: 0 <= j < k ==> !DeclaresLabel(lines[j], key) {
      NoLabelBefore(lines, k, key);
    }
    forall j | 0 <= j < k && DeclaresLabel(lines[j], key) && (forall j' :: j < j' < k ==> !DeclaresLabel(lines[j'], key))
      ensures EmitToken(lines[k], definitions, LabelsBefore(lines, k).ids).parameter == AssignedId(lines, j)
    {
      LabelIdOfLast(lines, k, key, j);
    }
  }
}
