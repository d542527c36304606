/**
 * The instruction set and the register file of the console
 * (src/lib/TamaGo.ts:43-273): an opcode per `InstructionCode` member, numbered
 * from CONST = 1 to NOP = 59 in declaration order, and fifteen registers
 * addressed by their ordinal in the `Register` enumeration.
 */
module Isa {
  import opened Wrappers

  /** One `InstructionCode` member. */
  datatype Opcode =
    Const | Push | PushR | Pop | Copy | Incr | Decr | Add | Sub | Mul | Div | Mod | Rand |
    Sin | Cos | And | Or | Xor | Not | LShft | RShft | Set | Get | Mov | MAddr | Peek | Poke |
    Save | Load | SAddr | Read | Goto | Jump | Rtn | Jeq | Jneq | Jgt | Jgte | Jlt | Jlte |
    Btn | Btnd | Tick | Pin | Pout | Send | Recv | Clear | Draw | Shade | Tile | Spr | Icon |
    Print | Tone | Sleep | LogR | LogS | Nop
  {
    /** The jump family, whose parameter the assembler reads as a label name. */
    predicate IsJump() {
      match this
      case Jump | Jeq | Jneq | Jgt | Jgte | Jlt | Jlte => true
      case _ => false
    }
  }

  const FIRST_CODE: int := 1
  const LAST_CODE: int := 59

  /** The numeric value of an opcode, as stored in a program image. */
  function Code(op: Opcode): (c: int)
    ensures FIRST_CODE <= c <= LAST_CODE
  {
    match op
    case Const => 1
    case Push => 2
    case PushR => 3
    case Pop => 4
    case Copy => 5
    case Incr => 6
    case Decr => 7
    case Add => 8
    case Sub => 9
    case Mul => 10
    case Div => 11
    case Mod => 12
    case Rand => 13
    case Sin => 14
    case Cos => 15
    case And => 16
    case Or => 17
    case Xor => 18
    case Not => 19
    case LShft => 20
    case RShft => 21
    case Set => 22
    case Get => 23
    case Mov => 24
    case MAddr => 25
    case Peek => 26
    case Poke => 27
    case Save => 28
    case Load => 29
    case SAddr => 30
    case Read => 31
    case Goto => 32
    case Jump => 33
    case Rtn => 34
    case Jeq => 35
    case Jneq => 36
    case Jgt => 37
    case Jgte => 38
    case Jlt => 39
    case Jlte => 40
    case Btn => 41
    case Btnd => 42
    case Tick => 43
    case Pin => 44
    case Pout => 45
    case Send => 46
    case Recv => 47
    case Clear => 48
    case Draw => 49
    case Shade => 50
    case Tile => 51
    case Spr => 52
    case Icon => 53
    case Print => 54
    case Tone => 55
    case Sleep => 56
    case LogR => 57
    case LogS => 58
    case Nop => 59
  }

  /** The opcode stored as `c`, if any: codes outside [1, 59] name no instruction. */
  function FromCode(c: int): (r: Option<Opcode>)
    ensures r.Some? <==> FIRST_CODE <= c <= LAST_CODE
  {
    if c == 1 then Some(Const)
    else if c == 2 then Some(Push)
    else if c == 3 then Some(PushR)
    else if c == 4 then Some(Pop)
    else if c == 5 then Some(Copy)
    else if c == 6 then Some(Incr)
    else if c == 7 then Some(Decr)
    else if c == 8 then Some(Add)
    else if c == 9 then Some(Sub)
    else if c == 10 then Some(Mul)
    else if c == 11 then Some(Div)
    else if c == 12 then Some(Mod)
    else if c == 13 then Some(Rand)
    else if c == 14 then Some(Sin)
    else if c == 15 then Some(Cos)
    else if c == 16 then Some(And)
    else if c == 17 then Some(Or)
    else if c == 18 then Some(Xor)
    else if c == 19 then Some(Not)
    else if c == 20 then Some(LShft)
    else if c == 21 then Some(RShft)
    else if c == 22 then Some(Set)
    else if c == 23 then Some(Get)
    else if c == 24 then Some(Mov)
    else if c == 25 then Some(MAddr)
    else if c == 26 then Some(Peek)
    else if c == 27 then Some(Poke)
    else if c == 28 then Some(Save)
    else if c == 29 then Some(Load)
    else if c == 30 then Some(SAddr)
    else if c == 31 then Some(Read)
    else if c == 32 then Some(Goto)
    else if c == 33 then Some(Jump)
    else if c == 34 then Some(Rtn)
    else if c == 35 then Some(Jeq)
    else if c == 36 then Some(Jneq)
    else if c == 37 then Some(Jgt)
    else if c == 38 then Some(Jgte)
    else if c == 39 then Some(Jlt)
    else if c == 40 then Some(Jlte)
    else if c == 41 then Some(Btn)
    else if c == 42 then Some(Btnd)
    else if c == 43 then Some(Tick)
    else if c == 44 then Some(Pin)
    else if c == 45 then Some(Pout)
    else if c == 46 then Some(Send)
    else if c == 47 then Some(Recv)
    else if c == 48 then Some(Clear)
    else if c == 49 then Some(Draw)
    else if c == 50 then Some(Shade)
    else if c == 51 then Some(Tile)
    else if c == 52 then Some(Spr)
    else if c == 53 then Some(Icon)
    else if c == 54 then Some(Print)
    else if c == 55 then Some(Tone)
    else if c == 56 then Some(Sleep)
    else if c == 57 then Some(LogR)
    else if c == 58 then Some(LogS)
    else if c == 59 then Some(Nop)
    else None
  }

  /** Every stored code decodes back to its opcode. */
  lemma CodeRoundTrip(op: Opcode)
    ensures FromCode(Code(op)) == Some(op)
  {
    if Code(op) <= 15 {
      CodeRoundTripFirst(op);
    } else if Code(op) <= 30 {
      CodeRoundTripSecond(op);
    } else if Code(op) <= 45 {
      CodeRoundTripThird(op);
    } else {
      CodeRoundTripFourth(op);
    }
  }

  lemma CodeRoundTripFirst(op: Opcode)
    requires 1 <= Code(op) <= 15
    ensures FromCode(Code(op)) == Some(op)
  {
  }

  lemma CodeRoundTripSecond(op: Opcode)
    requires 16 <= Code(op) <= 30
    ensures FromCode(Code(op)) == Some(op)
  {
  }

  lemma CodeRoundTripThird(op: Opcode)
    requires 31 <= Code(op) <= 45
    ensures FromCode(Code(op)) == Some(op)
  {
  }

  lemma CodeRoundTripFourth(op: Opcode)
    requires 46 <= Code(op) <= 59
    ensures FromCode(Code(op)) == Some(op)
  {
  }

  /** The mnemonics in declaration order: the one at index `i` names the opcode with code `i + 1`. */
  const MNEMONICS: seq<string> := [
    "CONST", "PUSH", "PUSHR", "POP", "COPY", "INCR", "DECR", "ADD", "SUB", "MUL", "DIV", "MOD",
    "RAND", "SIN", "COS", "AND", "OR", "XOR", "NOT", "LSHFT", "RSHFT", "SET", "GET", "MOV",
    "MADDR", "PEEK", "POKE", "SAVE", "LOAD", "SADDR", "READ", "GOTO", "JUMP", "RTN", "JEQ",
    "JNEQ", "JGT", "JGTE", "JLT", "JLTE", "BTN", "BTND", "TICK", "PIN", "POUT", "SEND", "RECV",
    "CLEAR", "DRAW", "SHADE", "TILE", "SPR", "ICON", "PRINT", "TONE", "SLEEP", "LOGR", "LOGS",
    "NOP"
  ]

  /**
   * `InstructionCode[name]`: the code of the opcode whose mnemonic is `name`, if any.
   * Every mnemonic starts with a capital letter, so any other word is rejected first.
   */
  function FromName(name: string): (r: Option<int>)
    ensures r.Some? ==> FIRST_CODE <= r.value <= LAST_CODE && MNEMONICS[r.value - 1] == name
    ensures r.None? <==> |name| == 0 || !('A' <= name[0] <= 'Z') || name !in MNEMONICS
  {
    if |name| == 0 || !('A' <= name[0] <= 'Z') then None
    else
      match MnemonicFrom(name, 0)
      case Some(i) => Some(i + 1)
      case None => None
  }

  /** The first index at or after `i` whose mnemonic is `name`, if any. */
  function MnemonicFrom(name: string, i: nat): (r: Option<nat>)
    requires i <= |MNEMONICS|
    ensures r.Some? ==> i <= r.value < |MNEMONICS| && MNEMONICS[r.value] == name
    ensures r.None? <==> forall j :: i <= j < |MNEMONICS| ==> MNEMONICS[j] != name
    decreases |MNEMONICS| - i
  {
    if i == |MNEMONICS| then None
    else if MNEMONICS[i] == name then Some(i)
    else MnemonicFrom(name, i + 1)
  }

  /** The codes of the jump family: JUMP = 33 and JEQ = 35 through JLTE = 40. */
  predicate IsJumpCode(c: int) {
    c == 33 || 35 <= c <= 40
  }

  /** `IsJumpCode` picks out exactly the codes of the jump family. */
  lemma JumpCodes(op: Opcode)
    ensures IsJumpCode(Code(op)) <==> op.IsJump()
  {
  }

  // Registers (src/lib/TamaGo.ts:253-269): the ordinal of each symbol in `Register`.
  const DATA_BUFFER_A: int := 0
  const DATA_BUFFER_B: int := 1
  const INSTRUCTION_POINTER_HIGH: int := 2
  const INSTRUCTION_POINTER_LOW: int := 3
  const STACK_INDEX: int := 4
  const MEMORY_POINTER_HIGH: int := 5
  const MEMORY_POINTER_LOW: int := 6
  const STORAGE_POINTER_HIGH: int := 7
  const STORAGE_POINTER_LOW: int := 8
  const RETURN_POINTER_HIGH: int := 9
  const RETURN_POINTER_LOW: int := 10
  const SLEEP_COUNTER: int := 11
  const TIMER_PAUSED: int := 12
  const DRAW_FROM_MEMORY: int := 13
  const WRAP_VALUES: int := 14

  const REGISTER_COUNT: int := 15

  /** The register symbols, at their ordinals. */
  const REGISTER_NAMES: seq<string> :=
    ["xa", "xb", "pch", "pcl", "si", "mph", "mpl", "sph", "spl", "rph", "rpl", "sc", "tp", "dm", "wv"]

  /** `RegisterMap[name]`: the ordinal of a register symbol, or nothing for any other word. */
  function RegisterOrdinal(name: string): (r: Option<nat>)
    ensures r.Some? ==> 0 <= r.value < REGISTER_COUNT && REGISTER_NAMES[r.value] == name
    ensures r.None? <==> name !in REGISTER_NAMES
  {
    RegisterFrom(name, 0)
  }

  /** The first ordinal at or after `i` whose symbol is `name`, if any. */
  function RegisterFrom(name: string, i: nat): (r: Option<nat>)
    requires i <= |REGISTER_NAMES|
    ensures r.Some? ==> i <= r.value < |REGISTER_NAMES| && REGISTER_NAMES[r.value] == name
    ensures r.None? <==> forall j :: i <= j < |REGISTER_NAMES| ==> REGISTER_NAMES[j] != name
    decreases |REGISTER_NAMES| - i
  {
    if i == |REGISTER_NAMES| then None
    else if REGISTER_NAMES[i] == name then Some(i)
    else RegisterFrom(name, i + 1)
  }

  /** No two registers share a symbol. */
  lemma RegisterNamesDistinct()
    ensures forall i, j :: 0 <= i < j < REGISTER_COUNT ==> REGISTER_NAMES[i] != REGISTER_NAMES[j]
  {
  }

  /** Each register symbol names its own ordinal. */
  lemma RegisterOrdinalOfName(r: int)
    requires 0 <= r < REGISTER_COUNT
    ensures RegisterOrdinal(REGISTER_NAMES[r]) == Some(r)
  {
    RegisterNamesDistinct();
  }
}
