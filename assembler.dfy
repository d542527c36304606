/**
 * `compileFromSource` (src/lib/TamaGo.ts:330-401): the assembler that turns
 * source text into the token list and the label table of a program.
 *
 * The source is cut into lines, each line is trimmed, and blank lines and
 * `#` comments are dropped. A first pass records every `$NAME value`
 * definition; a second pass emits exactly one token per remaining line:
 * a NOP placeholder for a `:NAME` label (which also receives the next label
 * id and the address of its line), and otherwise the named opcode with its
 * parameter resolved to a label id, a definition, a number modulo 256, a
 * register ordinal, or 0.
 */
module Assembler {
  import opened Wrappers
  import opened Text
  import opened Bytes
  import opened Isa

  /**
   * A line split on spaces: its first word, upper-cased as both passes do
   * right after splitting, and its second word when there is one.
   */
  datatype Line = Line(instruction: string, parameter: Option<string>)

  /** One emitted instruction: `{ instruction, parameter }`. */
  datatype Token = Token(instruction: int, parameter: int)

  /** What `compileFromSource` returns: the tokens and the label table (label id to address). */
  datatype Compiled = Compiled(tokens: seq<Token>, labels: map<int, Address>)

  /** The value of the `parameter` variable once a `$NAME` has been substituted. */
  datatype Param = Number(n: nat) | Word(w: string)

  /** A kept line: not blank and not a `#` comment. */
  predicate IsCode(text: string) {
    text != "" && !StartsWith(text, '#')
  }

  /** The trimmed source lines that are neither blank nor comments, in order. */
  function CodeLines(raw: seq<string>): (r: seq<string>)
    ensures |r| <= |raw|
    ensures forall k :: 0 <= k < |r| ==> IsCode(r[k]) && r[k] == Trim(r[k])
  {
    if |raw| == 0 then []
    else
      var text := Trim(raw[0]);
      TrimIsIdempotent(raw[0]);
      (if IsCode(text) then [text] else []) + CodeLines(raw[1..])
  }

  lemma TrimIsIdempotent(s: string)
    ensures Trim(Trim(s)) == Trim(s)
  {
    var t := Trim(s);
    assert TrimStart(t) == t;
  }

  /** `source.trim().split('\n').map(trim).filter(...)`. */
  function SourceLines(source: string): seq<string> {
    CodeLines(Split(Trim(source), '\n'))
  }

  /** `line.split(' ')`, keeping the first two words; the instruction word is upper-cased. */
  function ParseLine(text: string): Line {
    var words := Split(text, ' ');
    Line(Upper(words[0]), if |words| >= 2 then Some(words[1]) else None)
  }

  function ParseLines(texts: seq<string>): (r: seq<Line>)
    ensures |r| == |texts|
    ensures forall k :: 0 <= k < |texts| ==> r[k] == ParseLine(texts[k])
  {
    if |texts| == 0 then [] else [ParseLine(texts[0])] + ParseLines(texts[1..])
  }

  function Lines(source: string): (r: seq<Line>)
    ensures |r| == |SourceLines(source)|
  {
    ParseLines(SourceLines(source))
  }

  // ---------------------------------------------------------------------------
  // First pass: `$NAME value` definitions.

  predicate IsDefinition(line: Line) {
    StartsWith(line.instruction, '$')
  }

  /** The line defines `key` (`key` keeps its `$` and is upper case). */
  predicate Defines(line: Line, key: string) {
    IsDefinition(line) && line.instruction == key
  }

  /** The value a definition line binds: its numeric parameter, or 0 when missing or not a number. */
  function DefinitionValue(parameter: Option<string>): nat {
    match parameter
    case None => 0
    case Some(w) => NumberValue(w).GetOr(0)
  }

  /** `definitions` after the first pass has seen `lines`. */
  function Definitions(lines: seq<Line>): map<string, nat>
    decreases |lines|
  {
    if |lines| == 0 then map[]
    else
      var before := Definitions(lines[..|lines| - 1]);
      var last := lines[|lines| - 1];
      if IsDefinition(last) then before[last.instruction := DefinitionValue(last.parameter)]
      else before
  }

  /** A name that no line defines is absent from the definitions. */
  lemma {:induction false} Undefined(lines: seq<Line>, key: string)
    requires forall j :: 0 <= j < |lines| ==> !Defines(lines[j], key)
    ensures key !in Definitions(lines)
    decreases |lines|
  {
    if |lines| > 0 {
      var n := |lines| - 1;
      assert forall j :: 0 <= j < n ==> lines[..n][j] == lines[j];
      Undefined(lines[..n], key);
    }
  }

  /** A name holds the value bound by the last line that defines it. */
  lemma {:induction false} DefinedByLast(lines: seq<Line>, key: string, j: nat)
    requires j < |lines| && Defines(lines[j], key)
    requires forall j' :: j < j' < |lines| ==> !Defines(lines[j'], key)
    ensures key in Definitions(lines) && Definitions(lines)[key] == DefinitionValue(lines[j].parameter)
    decreases |lines|
  {
    var n := |lines| - 1;
    if j < n {
      var before := lines[..n];
      assert forall j' :: 0 <= j' < n ==> before[j'] == lines[j'];
      DefinedByLast(before, key, j);
    }
  }

  // ---------------------------------------------------------------------------
  // Second pass: labels and tokens.

  predicate IsLabel(line: Line) {
    StartsWith(line.instruction, ':')
  }

  /** The name a label line declares: its upper-cased word without the leading `:`. */
  function LabelName(line: Line): string
    requires IsLabel(line)
  {
    line.instruction[1..]
  }

  predicate DeclaresLabel(line: Line, name: string) {
    IsLabel(line) && LabelName(line) == name
  }

  /** `labelMap` (label name to id) and `labels` (id to address). */
  datatype LabelTable = LabelTable(ids: map<string, int>, labels: map<int, Address>)

  /** The id the next label receives: `Object.keys(labels).length % 256`. */
  function NextId(t: LabelTable): int {
    |t.labels| % 256
  }

  /** The effect of line number `index` on the label table. */
  function Declare(t: LabelTable, line: Line, index: int): LabelTable {
    if IsLabel(line) then
      LabelTable(t.ids[LabelName(line) := NextId(t)], t.labels[NextId(t) := NumberToWord(index)])
    else t
  }

  /** The label table as the second pass finds it when it reaches line `i`. */
  function LabelsBefore(lines: seq<Line>, i: nat): LabelTable
    requires i <= |lines|
  {
    if i == 0 then LabelTable(map[], map[]) else Declare(LabelsBefore(lines, i - 1), lines[i - 1], i - 1)
  }

  /** The id given to the label on line `j`. */
  function AssignedId(lines: seq<Line>, j: nat): int
    requires j < |lines|
  {
    NextId(LabelsBefore(lines, j))
  }

  /** The parameter word after `$NAME` substitution; a missing word is the number 0. */
  function Resolve(parameter: Option<string>, definitions: map<string, nat>): Param {
    match parameter
    case None => Number(0)
    case Some(w) =>
      if StartsWith(w, '$') then
        Number(if Upper(w) in definitions then definitions[Upper(w)] else 0)
      else Word(w)
  }

  /** `Number(parameter) || 0`. */
  function NumberOrZero(p: Param): nat {
    match p
    case Number(n) => n
    case Word(w) => NumberValue(w).GetOr(0)
  }

  /** The property key `labelMap[parameter]` looks up: a number is read as its decimal string. */
  function LabelKey(p: Param): string {
    match p
    case Number(n) => DecimalString(n)
    case Word(w) => w
  }

  /** The parameter of a non-jump instruction: a number modulo 256, else a register ordinal, else 0. */
  function ParameterByte(p: Param): (r: int)
    ensures 0 <= r < 256
  {
    match p
    case Number(n) => n % 256
    case Word(w) =>
      match NumberValue(w)
      case Some(n) => n % 256
      case None => RegisterOrdinal(w).GetOr(0) % 256
  }

  /** The code of the opcode a non-label line names; an unknown name is NOP. */
  function LineCode(line: Line): int {
    FromName(line.instruction).GetOr(Code(Nop))
  }

  /** The token the second pass emits for `line`, given the definitions and the label ids seen so far. */
  function EmitToken(line: Line, definitions: map<string, nat>, ids: map<string, int>): (r: Token)
    ensures IsLabel(line) ==> r.instruction == Code(Nop)
    ensures !IsLabel(line) ==> r.instruction == LineCode(line)
    ensures !IsLabel(line) && !IsJumpCode(r.instruction) ==> 0 <= r.parameter < 256
  {
    var p := Resolve(line.parameter, definitions);
    if IsLabel(line) then Token(Code(Nop), NumberOrZero(p))
    else
      var op := LineCode(line);
      if IsJumpCode(op) then
        Token(op, if LabelKey(p) in ids then ids[LabelKey(p)] else 0)
      else Token(op, ParameterByte(p))
  }

  /** The token emitted for line `k` of a compiled source. */
  function TokenAt(lines: seq<Line>, k: nat): Token
    requires k < |lines|
  {
    TokenOf(lines, Definitions(lines), k)
  }

  /**
   * `compileFromSource(source)`: the kept lines, the definitions of the first
   * pass, then the tokens and labels of the second.
   */
  method CompileFromSource(source: string) returns (program: Compiled)
    ensures |program.tokens| == |SourceLines(source)|
    ensures forall k :: 0 <= k < |program.tokens| ==> program.tokens[k] == TokenAt(Lines(source), k)
    ensures program.labels == LabelsBefore(Lines(source), |Lines(source)|).labels
  {
    var lines := Lines(source);
    var definitions := CollectDefinitions(lines);
    program := EmitTokens(lines, definitions);
  }

  /** The first pass: every `$NAME` line records its value, a later line overriding an earlier one. */
  method CollectDefinitions(lines: seq<Line>) returns (definitions: map<string, nat>)
    ensures definitions == Definitions(lines)
  {
    definitions := map[];
    var i := 0;
    while i < |lines|
      invariant 0 <= i <= |lines|
      invariant definitions == Definitions(lines[..i])
    {
      var instruction := lines[i].instruction;
      assert lines[..i + 1][..i] == lines[..i];
      if StartsWith(instruction, '$') {
        definitions := definitions[instruction := DefinitionValue(lines[i].parameter)];
      }
      i := i + 1;
    }
    assert lines[..|lines|] == lines;
  }

  /** The token of line `k`, emitted with the label ids declared before it. */
  function TokenOf(lines: seq<Line>, definitions: map<string, nat>, k: nat): Token
    requires k < |lines|
  {
    EmitToken(lines[k], definitions, LabelsBefore(lines, k).ids)
  }

  /** The first `n` values of `f`, in order. */
  function Prefix<T>(f: nat -> T, n: nat): seq<T> {
    if n == 0 then [] else Prefix(f, n - 1) + [f(n - 1)]
  }

  /** `Prefix(f, n)` holds `n` values, `f(k)` at index `k`. */
  lemma {:induction false} PrefixAt<T>(f: nat -> T, n: nat, k: nat)
    requires k < n
    ensures |Prefix(f, n)| == n && Prefix(f, n)[k] == f(k)
  {
    if k < n - 1 {
      PrefixAt(f, n - 1, k);
    } else if n > 1 {
      PrefixAt(f, n - 1, 0);
    }
  }

  /** Line `k`'s token at every `k` below `|lines|`. */
  function TokenFunction(lines: seq<Line>, definitions: map<string, nat>): nat -> Token {
    (k: nat) => if k < |lines| then TokenOf(lines, definitions, k) else Token(Code(Nop), 0)
  }

  /** Emitting line `i` with the label ids seen before it extends the tokens of the lines before. */
  lemma EmitStep(lines: seq<Line>, definitions: map<string, nat>, i: nat, table: LabelTable)
    requires i < |lines| && table == LabelsBefore(lines, i)
    ensures Prefix(TokenFunction(lines, definitions), i + 1) ==
      Prefix(TokenFunction(lines, definitions), i) + [EmitToken(lines[i], definitions, table.ids)]
  {
  }

  /** The tokens of all lines: one per line, line `k`'s token at index `k`. */
  lemma EmittedTokens(lines: seq<Line>, definitions: map<string, nat>)
    ensures |Prefix(TokenFunction(lines, definitions), |lines|)| == |lines|
    ensures forall k :: 0 <= k < |lines| ==>
      Prefix(TokenFunction(lines, definitions), |lines|)[k] == TokenOf(lines, definitions, k)
  {
    var f := TokenFunction(lines, definitions);
    if |lines| > 0 {
      PrefixAt(f, |lines|, 0);
    }
    forall k | 0 <= k < |lines|
      ensures Prefix(f, |lines|)[k] == TokenOf(lines, definitions, k)
    {
      PrefixAt(f, |lines|, k);
    }
  }

  /** The second pass: one token per line, and a label id and address for every `:NAME` line. */
  method EmitTokens(lines: seq<Line>, definitions: map<string, nat>) returns (program: Compiled)
    ensures |program.tokens| == |lines|
    ensures forall k :: 0 <= k < |lines| ==> program.tokens[k] == TokenOf(lines, definitions, k)
    ensures program.labels == LabelsBefore(lines, |lines|).labels
  {
    var tokens: seq<Token> := [];
    var table := LabelTable(map[], map[]);
    var i := 0;
    while i < |lines|
      invariant 0 <= i <= |lines|
      invariant table == LabelsBefore(lines, i)
      invariant tokens == Prefix(TokenFunction(lines, definitions), i)
    {
      EmitStep(lines, definitions, i, table);
      tokens := tokens + [EmitToken(lines[i], definitions, table.ids)];
      table := Declare(table, lines[i], i);
      i := i + 1;
    }
    EmittedTokens(lines, definitions);
    program := Compiled(tokens, table.labels);
  }
}
