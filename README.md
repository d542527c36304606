# TamaGo console core in Dafny

A model of the fantasy console in `src/lib/TamaGo.ts`. The console is a small
stack machine with 3200 bytes of memory and 65536 bytes of storage. It comes
with an assembler that turns line-oriented source text into the token list
the machine loads. The model covers four parts:

- **Byte and word helpers** (`bytes.dfy`): `clampByte`, `valueIsHigh`,
  `wordToNumber` and `numberToWord`. It also holds the JavaScript integer
  operators the machine relies on: the truncated `%`, and the 32-bit `& | ^ ~ << >>`.
- **Instruction set and register file** (`isa.dfy`): the opcodes `CONST = 1`
  to `NOP = 59` in declaration order, and the fifteen register symbols `xa`
  to `wv` by ordinal.
- **Assembler** (`text.dfy`, `assembler.dfy`, `assembler_laws.dfy`):
  `compileFromSource` as a method with two loops. The first loop collects
  `$NAME value` definitions. The second loop emits one token per kept line
  and builds the label table. Both are proved against recursive
  specification functions, and the laws about those functions state how
  each line and parameter is resolved.
- **Machine** (`machine.dfy`, `cpu.dfy`, `engine.dfy`, and the laws in
  `machine_laws.dfy`, `cpu_laws.dfy` and `instruction_laws.dfy`, which has
  one lemma per opcode and the last-in, first-out law of the stack). The class `Engine.TamaGo` keeps
  memory and storage as arrays changed in place. It keeps the register file
  as a 15-slot sequence indexed by ordinal. It also holds the loaded
  program, the save store and the `running` flag. Every method is proved to
  move the object from `old(View())` to the state given by a function of
  `Machine` or `Cpu`. The laws are proved about those functions.

Every register write and every push goes through one store policy
(src/lib/TamaGo.ts:584-586, 607-609). With `WRAP_VALUES` at least 1, a value
is stored as JavaScript's `value % 255` (`Bytes.JsRem`), so negative results
stay negative and 255 becomes 0. Otherwise a value is clamped to [0, 255].

Behaviour worth knowing:

- `CONST p` (src/lib/TamaGo.ts:692-696) steps the stack index down and then
  pushes. It therefore replaces the top slot, as the comment on the opcode
  says (src/lib/TamaGo.ts:52), and leaves the index where it was
  (`CpuLaws.ConstOverwritesTop`).
- The arithmetic opcodes (src/lib/TamaGo.ts:722-765) push `b ∘ a`, pop
  neither operand, and ignore their parameter, so a compiled `ADD 5` behaves
  as `ADD` (`CpuLaws.ArithmeticKeepsOperands`, `CpuLaws.ArithmeticDispatches`).
- `LOAD` for a program name with no save writes the empty array
  (src/lib/TamaGo.ts:804), so memory does not change (`CpuLaws.LoadWithoutSave`).
- `BTN` and `BTND` read the button cell `512 + a`, where `a` is the top of
  the stack, and ignore their parameter (src/lib/TamaGo.ts:855-864). The
  comments on the opcodes (src/lib/TamaGo.ts:185, 188) describe the button
  as given by the parameter (`InstructionLaws.ExecuteBtn`).
- A label's id is the number of ids already in the table, modulo 256
  (src/lib/TamaGo.ts:371-372). Once ids 0 to 255 are all taken, every
  further label gets id 0 and replaces that id's address
  (`AssemblerLaws.LabelIdsWrap`).
- A jump looks up its parameter exactly as written, but label names are
  upper-cased (src/lib/TamaGo.ts:361, 386). So `JUMP loop` does not find
  `:loop`. A label declared only on a later line resolves to 0
  (`AssemblerLaws.JumpParameter`).
- With `WRAP_VALUES` set, the two program-counter bytes also go through
  `% 255`. So moving past instruction 254 lands on instruction 0
  (`CpuLaws.WrapFoldsCounter`).

## Model

| member | source | states |
|---|---|---|
| Bytes.ClampByte | src/lib/TamaGo.ts:304-309 | the result lies in [0, 255], is the value itself on bytes, 0 below and 255 above |
| Bytes.JsRem | src/lib/TamaGo.ts:585 | JavaScript `%` (also at lines 575, 608 and 739): x minus the result is a multiple of y, the magnitude is below the divisor's, the sign is the dividend's, and it equals the Euclidean remainder for non-negative operands |
| Bytes.JsAnd | src/lib/TamaGo.ts:742-745 | `b & a` is a signed 32-bit integer; for non-negative 32-bit operands it is non-negative and no larger than either operand |
| Bytes.JsOr | src/lib/TamaGo.ts:746-749 | the OR of `b` and `a` is a signed 32-bit integer; for non-negative 32-bit operands it is at least either operand, and for bytes it is still a byte |
| Bytes.JsXor | src/lib/TamaGo.ts:750-753 | `b ^ a` is a signed 32-bit integer, and a byte for byte operands |
| Bytes.XorInverse | src/lib/TamaGo.ts:750-753 | XOR with the same operand twice gives back the first operand's 32-bit value |
| Bytes.JsNot | src/lib/TamaGo.ts:754-757 | `~a` is a signed 32-bit integer |
| Bytes.JsShl | src/lib/TamaGo.ts:758-761 | `b << a` is a signed 32-bit integer |
| Bytes.JsSar | src/lib/TamaGo.ts:762-765 | `b >> a` is the signed 32-bit `b` divided by 2 to the power `a mod 32`, rounded toward minus infinity |
| Bytes.HalveTimes | src/lib/TamaGo.ts:762-765 | halving k times, each toward minus infinity, is dividing by 2^k toward minus infinity; it keeps the sign and never grows the magnitude |
| Bytes.WordToNumber | src/lib/TamaGo.ts:315-317 | the low byte of the result is `byte1 & 0xff`, and without 32-bit overflow the result is `256 * byte0 + (byte1 & 0xff)` |
| Bytes.NumberToWord | src/lib/TamaGo.ts:319-324 | both bytes of the pair lie in [0, 256) |
| Bytes.NumberToWordWraps | src/lib/TamaGo.ts:315-324 | for every integer x, `wordToNumber(numberToWord(x)) == x mod 65536` |
| Bytes.WordRoundTrip | src/lib/TamaGo.ts:315-324 | for 0 ≤ x < 65536, `wordToNumber(numberToWord(x)) == x` |
| Bytes.ByteRoundTrip | src/lib/TamaGo.ts:315-324 | for bytes h, l, `wordToNumber(h, l)` is a 16-bit index and `numberToWord` gives back `(h, l)` |
| Text.Trim | src/lib/TamaGo.ts:331-334 | the trimmed line neither starts nor ends with white space |
| Text.TrimCutsSpace | src/lib/TamaGo.ts:331-334 | the trimmed line is a slice of the line, and everything cut before and after it is white space |
| Text.JoinSplit | src/lib/TamaGo.ts:331-333 | splitting on a character loses nothing: joining the pieces gives the text back |
| Text.Upper | src/lib/TamaGo.ts:341 | upper-casing keeps the length and maps every character on its own |
| Text.NumberValue | src/lib/TamaGo.ts:343-344 | a word reads as a number exactly when it is made of decimal digits |
| Text.NumberOfDecimalString | src/lib/TamaGo.ts:386 | a number used as a property key reads back as the same number |
| Isa.Code | src/lib/TamaGo.ts:43-251 | every opcode's code lies in [1, 59] |
| Isa.FromCode | src/lib/TamaGo.ts:43-251 | a stored code names an opcode exactly when it lies in [1, 59] |
| Isa.CodeRoundTrip | src/lib/TamaGo.ts:43-251 | decoding an opcode's code gives the opcode back |
| Isa.FromName | src/lib/TamaGo.ts:376 | a name gives the code whose mnemonic it is, and nothing exactly when it is no mnemonic |
| Isa.JumpCodes | src/lib/TamaGo.ts:378-387 | the jump-family test on codes picks out exactly JUMP, JEQ, JNEQ, JGT, JGTE, JLT, JLTE |
| Isa.RegisterOrdinal | src/lib/TamaGo.ts:253-273 | a word gives the ordinal whose symbol it is, and nothing exactly when it is no register symbol |
| Isa.RegisterNamesDistinct | src/lib/TamaGo.ts:253-269 | no two registers share a symbol |
| Isa.RegisterOrdinalOfName | src/lib/TamaGo.ts:271-273 | each register symbol maps to its own ordinal |
| Assembler.CodeLines | src/lib/TamaGo.ts:331-335 | every kept line is trimmed, not blank and not a `#` comment |
| AssemblerLaws.CodeLinesAppend | src/lib/TamaGo.ts:334-335 | the kept lines of two texts joined are the kept lines of each, in order |
| AssemblerLaws.CodeLinesOne | src/lib/TamaGo.ts:334-335 | one line is kept, trimmed, exactly when its trimmed form is neither blank nor a `#` comment |
| Assembler.ParameterByte | src/lib/TamaGo.ts:390-394 | the parameter of a non-jump instruction lies in [0, 256) |
| Assembler.EmitToken | src/lib/TamaGo.ts:363-397 | a label line emits NOP; any other line emits the code its name gives (NOP when unknown), with a byte parameter outside the jump family |
| Assembler.Undefined | src/lib/TamaGo.ts:339-350 | a name no line defines is absent from the definitions |
| Assembler.DefinedByLast | src/lib/TamaGo.ts:339-350 | a defined name holds the value of the last line that defines it |
| Assembler.CollectDefinitions | src/lib/TamaGo.ts:337-350 | the first pass's loop builds exactly the definitions of all kept lines |
| Assembler.EmitTokens | src/lib/TamaGo.ts:352-398 | the second pass's loop emits one token per line, line k's token at index k, and the label table of all lines |
| Assembler.CompileFromSource | src/lib/TamaGo.ts:330-401 | exactly one token per non-blank, non-comment line, each the token of its line, and the label table of all lines |
| AssemblerLaws.DefinitionLineIsNop | src/lib/TamaGo.ts:346-349 | a `$NAME` definition line compiles to NOP |
| AssemblerLaws.UnknownNameIsNop | src/lib/TamaGo.ts:376 | a line whose name is no mnemonic compiles to NOP |
| AssemblerLaws.NonJumpParameter | src/lib/TamaGo.ts:363-366 | outside the jump family, a missing parameter is 0, a `$NAME` is its value mod 256 (0 when undefined), a number is itself mod 256 |
| AssemblerLaws.WordParameter | src/lib/TamaGo.ts:390-391 | outside the jump family, a word that is not a number becomes its register ordinal, or 0 when it names no register |
| AssemblerLaws.RegisterParameter | src/lib/TamaGo.ts:390-391 | a register symbol as parameter compiles to that register's ordinal |
| AssemblerLaws.DefinedConstantParameter | src/lib/TamaGo.ts:337-366 | a `$NAME` parameter takes the value of the last defining line anywhere in the source, mod 256, and 0 when none |
| AssemblerLaws.LabelTableShape | src/lib/TamaGo.ts:368-373 | after i lines the table holds ids 0 up to min(labels seen, 256), and every declared name maps to one of them |
| AssemblerLaws.KthLabelId | src/lib/TamaGo.ts:371-372 | the k-th label line gets id k while fewer than 256 labels precede it |
| AssemblerLaws.LabelIdsWrap | src/lib/TamaGo.ts:371-372 | once 256 labels are declared, every further label gets id 0 |
| AssemblerLaws.LabelAddressKept | src/lib/TamaGo.ts:371-372 | the id of the label on line j holds `numberToWord(j)` in the final table (at most 256 labels) |
| AssemblerLaws.NoLabelBefore | src/lib/TamaGo.ts:371 | a name no earlier line declares is not yet in the label map |
| AssemblerLaws.LabelIdOfLast | src/lib/TamaGo.ts:371 | a name maps to the id of the last earlier line declaring it |
| AssemblerLaws.JumpParameter | src/lib/TamaGo.ts:378-387 | a jump gets the id of the last label of that name on an earlier line, and 0 when there is none (forward references included) |
| Machine.Stored | src/lib/TamaGo.ts:607-609 | with `WRAP_VALUES` high the stored value is JavaScript's `value % 255`, in (-255, 255); otherwise it is `clampByte(value)`, in [0, 255], and bytes are kept |
| Machine.Increment | src/lib/TamaGo.ts:574-576 | the stack index becomes JavaScript's `(index + amount) % 256`, in [0, 256) whenever the sum is non-negative; no other register and nothing else changes |
| Machine.Decrement | src/lib/TamaGo.ts:578-581 | the stack index becomes `index - amount`, plus 256 when that is negative, which is `(index - amount) mod 256` for an index in [0, 256) and an amount in [0, 256]; no other register and nothing else changes |
| Machine.PushToStack | src/lib/TamaGo.ts:583-590 | the index becomes `(si + 1) % 256`, that slot receives the stored value, and no other register, storage, program or save changes |
| Machine.SetRegister | src/lib/TamaGo.ts:601-612 | an ordinal in [0, 15) receives the stored value; any other ordinal leaves the state as it is |
| Machine.GetRegister | src/lib/TamaGo.ts:614-621 | reads the register at an ordinal in [0, 15), and 0 for any other |
| Machine.JumpToAddress | src/lib/TamaGo.ts:674-677 | the two counter registers receive the stored address bytes; nothing else changes |
| Machine.JumpToLabel | src/lib/TamaGo.ts:679-685 | the return registers receive the stored old counter bytes, the counter receives the stored bytes of the label's address, and nothing else changes |
| Machine.Write | src/lib/TamaGo.ts:649-654 | a guarded write never changes the length |
| Machine.WriteAt | src/lib/TamaGo.ts:667-672 | after a guarded write, exactly the existing cells `index .. index + n - 1` hold their bytes; all others are unchanged |
| Machine.Run | src/lib/TamaGo.ts:493-498 | `run` leaves the machine running, changes only the flag, and does nothing when already running |
| Machine.Pause | src/lib/TamaGo.ts:500-503 | `pause` clears the flag and changes nothing else |
| MachineLaws.StoredIdempotent | src/lib/TamaGo.ts:583-586 | storing a stored value again gives it back |
| MachineLaws.SetThenGet | src/lib/TamaGo.ts:601-621 | `getRegister` after `setRegister` reads the stored value, and other registers are untouched |
| MachineLaws.PushThenTop | src/lib/TamaGo.ts:583-599 | after a push, the stored value is on top and the old top is right below it |
| MachineLaws.JumpToByteAddress | src/lib/TamaGo.ts:674-677 | jumping to an address of bytes below 255 sets exactly the two counter registers and the counter reads that address |
| MachineLaws.WriteSame | src/lib/TamaGo.ts:649-654 | writing a region's own bytes back changes nothing |
| MachineLaws.WriteTokensAt | src/lib/TamaGo.ts:476-478 | after n tokens are written, token i's code is at 2i and its parameter at 2i + 1 |
| MachineLaws.LoadedStorageLayout | src/lib/TamaGo.ts:466-481 | loaded storage holds the tokens two bytes each from 0, then the program's storage bytes, then zeros |
| MachineLaws.LoadProgramStarts | src/lib/TamaGo.ts:466-481 | after `loadProgram`, the machine runs the new program with all registers and memory zero and the saves kept |
| MachineLaws.ResetClears | src/lib/TamaGo.ts:483-491 | `reset` zeroes all fifteen registers and all memory, and keeps storage, program, saves and flag |
| Cpu.RoundDiv | src/lib/TamaGo.ts:734-737 | `Math.round(b / a)`: the integer nearest to b / a, a half rounding up |
| CpuLaws.ExecuteOwnCode | src/lib/TamaGo.ts:691-938 | the stored code of an opcode runs that opcode's case of the switch |
| CpuLaws.UnknownCodeIsIgnored | src/lib/TamaGo.ts:691-938 | a code outside [1, 59] matches no case and changes nothing |
| Cpu.SaveArea | src/lib/TamaGo.ts:795 | the save window read from memory has 256 bytes |
| Cpu.Execute | src/lib/TamaGo.ts:687-939 | no instruction resizes memory, storage or the register file |
| Cpu.Cycle | src/lib/TamaGo.ts:548-572 | no cycle resizes memory, storage or the register file |
| Cpu.RunCycles | src/lib/TamaGo.ts:517-524 | no batch of cycles resizes memory, storage or the register file |
| CpuLaws.ConstOverwritesTop | src/lib/TamaGo.ts:692-696 | CONST leaves the stack index as it was and replaces only the top slot with the stored parameter |
| CpuLaws.PushThenPop | src/lib/TamaGo.ts:697-709 | PUSH then POP puts the stored value in the data buffer and restores the stack index |
| CpuLaws.ArithmeticKeepsOperands | src/lib/TamaGo.ts:722-765 | an arithmetic opcode with any parameter pushes the stored `b ∘ a`, the old top is right below it, and `b` keeps its slot |
| CpuLaws.ArithmeticDispatches | src/lib/TamaGo.ts:722-765 | an arithmetic opcode whose operands exist, whose push has room, and (for DIV and MOD) whose divisor is non-zero is defined with any parameter, and runs the arithmetic case: push `b ∘ a`, the parameter unread |
| CpuLaws.FailedJumpFallsThrough | src/lib/TamaGo.ts:831-853 | a conditional jump whose comparison of b against a fails changes nothing |
| CpuLaws.ExecuteJump | src/lib/TamaGo.ts:822-825 | JUMP is `jumpToLabel` on its parameter |
| CpuLaws.ExecuteRtn | src/lib/TamaGo.ts:826-830 | RTN jumps to the address held in the return registers |
| CpuLaws.JumpThenReturn | src/lib/TamaGo.ts:679-685 | a jump loads the label's address into the counter, and a following RTN restores the counter it replaced |
| CpuLaws.CycleDispatches | src/lib/TamaGo.ts:564-569 | a cycle that runs an instruction first advances the counter, then executes the opcode with the stored parameter |
| CpuLaws.ReturnToSaved | src/lib/TamaGo.ts:826-830 | with `WRAP_VALUES` low, RTN sets the counter to the instruction the return registers name |
| CpuLaws.JumpCycleSavesNext | src/lib/TamaGo.ts:564-569 | a cycle executing JUMP at pc leaves pc + 1 in the return registers, so a later RTN resumes after the jump |
| CpuLaws.ExecuteSave | src/lib/TamaGo.ts:791-799 | SAVE stores the 256-byte save window under the program's name and changes nothing else |
| CpuLaws.ExecuteLoad | src/lib/TamaGo.ts:800-807 | LOAD writes the saved bytes for the program's name into the save window |
| CpuLaws.SaveThenLoad | src/lib/TamaGo.ts:791-807 | LOAD after SAVE, with the saves kept between them, restores the saved window exactly and leaves the rest of memory alone |
| CpuLaws.LoadAfterSaveIsIdle | src/lib/TamaGo.ts:791-807 | LOAD right after SAVE changes nothing |
| CpuLaws.LoadWithoutSave | src/lib/TamaGo.ts:804 | LOAD for a name with no save changes nothing |
| CpuLaws.DrawWritesOnePixel | src/lib/TamaGo.ts:893-897 | DRAW writes `parameter % 4` to the one cell `640 + b % 32 + 32a` when it exists, and nothing else |
| CpuLaws.ClearFillsVideo | src/lib/TamaGo.ts:887-892 | CLEAR sets all 512 video bytes to the parameter and leaves the rest of memory and the registers alone |
| CpuLaws.CycleSleeps | src/lib/TamaGo.ts:552-556 | while the sleep counter is positive, a cycle only decrements it and reports the code at the counter |
| CpuLaws.CycleHalts | src/lib/TamaGo.ts:558-562 | code 0 at the counter sets the counter to (0, 0) and changes nothing else |
| CpuLaws.AdvanceCounts | src/lib/TamaGo.ts:564-566 | with `WRAP_VALUES` low, advancing past instruction i leaves (i + 1) mod 65536 in the counter |
| CpuLaws.WrapFoldsCounter | src/lib/TamaGo.ts:564-566 | with `WRAP_VALUES` high, advancing past instruction 254 lands on instruction 0 |
| CpuLaws.ExecuteKeepsCounter | src/lib/TamaGo.ts:687-939 | every opcode outside the control group, except MOV into a counter register, leaves both counter bytes alone |
| CpuLaws.StackKeepsCounter | src/lib/TamaGo.ts:692-720 | the stack opcodes leave both counter bytes alone |
| CpuLaws.RegisterKeepsCounter | src/lib/TamaGo.ts:766-816 | the register and memory opcodes leave both counter bytes alone, except MOV into a counter register |
| CpuLaws.DeviceKeepsCounter | src/lib/TamaGo.ts:855-926 | the device opcodes leave both counter bytes alone |
| CpuLaws.CycleAdvances | src/lib/TamaGo.ts:548-572 | a cycle running an opcode that does not write the counter leaves it at pc + 1 |
| CpuLaws.SleepWaits | src/lib/TamaGo.ts:923-926 | with the sleep counter at k in [1, 255], the next k cycles only count it down to 0 |
| Cpu.RunUnfolds | src/lib/TamaGo.ts:520-523 | a batch of n cycles is its first cycle, followed, unless that cycle read code 0, by a batch of n - 1 |
| CpuLaws.HaltEndsBatch | src/lib/TamaGo.ts:520-523 | a batch whose first cycle reads code 0 ends after that cycle and only the instruction counter has changed, to 0 |
| CpuLaws.RunStopsAtHalt | src/lib/TamaGo.ts:520-523 | whenever a cycle reports code 0, the batch it starts is that cycle alone |
| InstructionLaws.ExecutePush | src/lib/TamaGo.ts:697-700 | PUSH is `pushToStack` of its parameter |
| InstructionLaws.ExecutePushR | src/lib/TamaGo.ts:701-704 | PUSHR is `pushToStack` of register `p` (0 for an unknown ordinal) |
| InstructionLaws.ExecutePop | src/lib/TamaGo.ts:705-709 | POP puts the stored top slot in the data buffer, steps the index down by one modulo 256, and changes nothing else |
| InstructionLaws.ExecuteCopy | src/lib/TamaGo.ts:710-713 | COPY puts the stored top slot in the data buffer and changes nothing else |
| InstructionLaws.ExecuteIncrDecr | src/lib/TamaGo.ts:714-721 | INCR and DECR are `incrementStackPointer` and `decrementStackPointer` by the parameter |
| InstructionLaws.IncrThenDecr | src/lib/TamaGo.ts:714-721 | DECR after INCR by the same amount in [0, 256] gives back the state, for an index in [0, 256) |
| InstructionLaws.PushesIndex | src/lib/TamaGo.ts:697-700 | n PUSHes move the stack index up by n modulo 256 and keep the store policy |
| InstructionLaws.PushesSlot | src/lib/TamaGo.ts:697-700 | after at most 256 PUSHes, push j sits, stored, in slot `index + 1 + j` modulo 256 |
| InstructionLaws.PopsIndex | src/lib/TamaGo.ts:705-709 | n POPs move the stack index down by n modulo 256 and leave memory alone |
| InstructionLaws.PopsValue | src/lib/TamaGo.ts:705-709 | POP j hands over, stored, the slot `index - j` modulo 256 |
| InstructionLaws.LastInFirstOut | src/lib/TamaGo.ts:697-709 | after at most 256 PUSHes, as many POPs hand the pushed values back, stored, in reverse order, and the stack index is back where it was |
| InstructionLaws.PopReadsPush | src/lib/TamaGo.ts:697-709 | POP j after n PUSHes hands back push `n - 1 - j`, stored |
| InstructionLaws.ExecuteSet | src/lib/TamaGo.ts:766-769 | SET stores its parameter in the data buffer and changes nothing else |
| InstructionLaws.ExecuteGet | src/lib/TamaGo.ts:770-773 | GET copies register `p` (0 for an unknown ordinal), stored, into the data buffer and changes nothing else |
| InstructionLaws.ExecuteMov | src/lib/TamaGo.ts:774-777 | MOV copies the data buffer, stored, into register `p` and changes nothing else; an unknown ordinal changes nothing |
| InstructionLaws.GetThenMov | src/lib/TamaGo.ts:770-777 | MOV after GET of the same register leaves the register's stored value in it |
| InstructionLaws.ExecuteMAddr | src/lib/TamaGo.ts:778-782 | MADDR stores `b` and `a` in the memory pointer, which then reads `256 b + a` for bytes in clamp mode; nothing else changes |
| InstructionLaws.ExecutePeek | src/lib/TamaGo.ts:783-786 | PEEK loads the memory cell under the memory pointer, stored, into the data buffer and changes nothing else |
| InstructionLaws.ExecutePoke | src/lib/TamaGo.ts:787-790 | POKE writes the data buffer, as it is, to the memory cell under the memory pointer and changes nothing else |
| InstructionLaws.PokeThenPeek | src/lib/TamaGo.ts:783-790 | PEEK after POKE reads the data buffer back, stored |
| InstructionLaws.ExecuteSAddr | src/lib/TamaGo.ts:808-812 | SADDR stores `b` and `a` in the storage pointer, which then reads `256 b + a` for bytes in clamp mode; nothing else changes |
| InstructionLaws.ExecuteRead | src/lib/TamaGo.ts:813-816 | READ loads the storage byte under the storage pointer, stored, into the data buffer and changes nothing else |
| InstructionLaws.ExecuteGoto | src/lib/TamaGo.ts:817-821 | GOTO stores `b` and `a` in the counter, saves no return address, and the counter then reads `256 b + a` for bytes in clamp mode |
| InstructionLaws.TakenJumpGoesToLabel | src/lib/TamaGo.ts:831-853 | a conditional jump whose comparison of `b` against `a` holds is `jumpToLabel` of its parameter |
| InstructionLaws.ExecuteBtn | src/lib/TamaGo.ts:855-859 | BTN sets the data buffer to the stored HIGH when button cell `512 + a` reads 1, and to LOW otherwise; nothing else changes |
| InstructionLaws.ExecuteBtnd | src/lib/TamaGo.ts:860-864 | BTND sets the data buffer to the stored HIGH when button cell `512 + a` reads 1 or 2, and to LOW otherwise; nothing else changes |
| InstructionLaws.ExecuteTick | src/lib/TamaGo.ts:865-868 | TICK loads the timer byte, stored, into the data buffer and changes nothing else |
| InstructionLaws.ExecutePin | src/lib/TamaGo.ts:869-872 | PIN loads serial pin `p`, stored, into the data buffer and changes nothing else |
| InstructionLaws.ExecutePout | src/lib/TamaGo.ts:873-876 | POUT writes the data buffer to serial pin `p` when that cell exists, and otherwise changes nothing |
| InstructionLaws.ExecuteSend | src/lib/TamaGo.ts:877-880 | SEND writes HIGH and LOW to the two serial state bytes and changes nothing else |
| InstructionLaws.ExecuteRecv | src/lib/TamaGo.ts:881-886 | RECV sets the data buffer high exactly when the first serial state byte is low and the second high; nothing else changes |
| InstructionLaws.ExecuteShade | src/lib/TamaGo.ts:898-902 | SHADE loads video cell `b % 32 + 32 a`, stored, into the data buffer and changes nothing else |
| InstructionLaws.ExecuteTone | src/lib/TamaGo.ts:919-922 | TONE writes `b` and `a` to the two audio bytes and changes nothing else |
| InstructionLaws.ExecuteSleep | src/lib/TamaGo.ts:923-926 | SLEEP stores its parameter in the sleep counter and changes nothing else |
| InstructionLaws.ExecuteNoEffect | src/lib/TamaGo.ts:903-937 | TILE, SPR, ICON, PRINT, LOGR, LOGS, NOP, and RAND, SIN and COS (which have no case) leave the machine as it is |
| Engine.Fill | src/lib/TamaGo.ts:490 | `fill(0)` sets every cell of the array to the value |
| Engine.WriteCells | src/lib/TamaGo.ts:649-654 | the write loop leaves the array equal to the guarded write of the bytes |
| Engine.TamaGo.constructor | src/lib/TamaGo.ts:452-457 | a new console has zero memory, storage and registers, no program, and is paused |
| Engine.TamaGo.SetRegister | src/lib/TamaGo.ts:601-612 | an ordinal in range receives the stored value; any other ordinal changes nothing |
| Engine.TamaGo.GetRegister | src/lib/TamaGo.ts:614-621 | reads the register at an ordinal in range, and 0 for any other |
| Engine.TamaGo.IncrementStackPointer | src/lib/TamaGo.ts:574-576 | the object moves to `Machine.Increment` of its old state |
| Engine.TamaGo.DecrementStackPointer | src/lib/TamaGo.ts:578-581 | the object moves to `Machine.Decrement` of its old state |
| Engine.TamaGo.PushToStack | src/lib/TamaGo.ts:583-590 | the object moves to `Machine.PushToStack` of its old state |
| Engine.TamaGo.GetFromStack | src/lib/TamaGo.ts:592-599 | returns the top slot, the slot below it, or a given slot, and nothing when it lies outside memory |
| Engine.TamaGo.WriteToMemory | src/lib/TamaGo.ts:649-654 | memory becomes the guarded write of the bytes; nothing else changes |
| Engine.TamaGo.WriteToStorage | src/lib/TamaGo.ts:667-672 | storage becomes the guarded write of the bytes; nothing else changes |
| Engine.TamaGo.JumpToAddress | src/lib/TamaGo.ts:674-677 | both counter bytes go through `setRegister` |
| Engine.TamaGo.JumpToLabel | src/lib/TamaGo.ts:679-685 | the counter goes to the return registers, then the label's address goes to the counter |
| Engine.TamaGo.Reset | src/lib/TamaGo.ts:483-491 | the object moves to `Machine.Reset` of its old state |
| Engine.TamaGo.Run | src/lib/TamaGo.ts:493-498 | the object moves to `Machine.Run` of its old state |
| Engine.TamaGo.Pause | src/lib/TamaGo.ts:500-503 | the object moves to `Machine.Pause` of its old state |
| Engine.TamaGo.LoadProgram | src/lib/TamaGo.ts:466-481 | the object moves to `Machine.LoadProgram` of its old state |
| Engine.TamaGo.ExecuteStack | src/lib/TamaGo.ts:692-720 | a stack opcode moves the object to `Cpu.StackStep` of its old state |
| Engine.TamaGo.ExecuteArithmetic | src/lib/TamaGo.ts:722-765 | an arithmetic opcode moves the object to `Cpu.ArithmeticStep` of its old state |
| Engine.TamaGo.ExecuteRegister | src/lib/TamaGo.ts:766-816 | a register, memory, storage or save opcode moves the object to `Cpu.RegisterStep` of its old state |
| Engine.TamaGo.ExecuteControl | src/lib/TamaGo.ts:817-854 | a control opcode moves the object to `Cpu.ControlStep` of its old state |
| Engine.TamaGo.ExecuteDevice | src/lib/TamaGo.ts:855-926 | a device opcode moves the object to `Cpu.DeviceStep` of its old state |
| Engine.TamaGo.ExecuteInstruction | src/lib/TamaGo.ts:687-939 | the object moves to `Cpu.ExecuteCode` of its old state; a code naming no opcode changes nothing |
| Engine.TamaGo.RunCycle | src/lib/TamaGo.ts:548-572 | the object moves to `Cpu.Cycle` of its old state, and the method returns the code read at the counter |
| Engine.TamaGo.RunTick | src/lib/TamaGo.ts:520-523 | the object moves to `Cpu.RunCycles` of its old state for up to 2880 cycles |

## Left out

- Rendering: `useCanvas`, `draw`, and the shade palette (src/lib/TamaGo.ts:459-464, 529-546). These are host canvas calls.
- Frame scheduling in `loop` (src/lib/TamaGo.ts:505-527): `requestAnimationFrame`, `performance.now`, and the floating-point accumulator with `tickLen = 1000 / 30`. Only the inner batch is modelled (`Engine.TamaGo.RunTick`): `Math.round(96000 / tickLen)` = 2880 cycles, ending after a cycle that reads code 0. `run` and `loadProgram` set the flag but start no loop.
- The save store: `localStorage` and JSON are replaced by a field `saves: map<string, seq<int>>`, passed in at construction.
- `console.log` in `LOGR` and `LOGS`: modelled as no-ops.
- The stubs `TILE`, `SPR`, `ICON` and `PRINT`, and `RAND`, `SIN` and `COS` (which have no case): modelled as no-ops.
- Floating point: `DIV` is the exact integer nearest to b / a, a half rounding up. Division and `MOD` by zero (`Infinity`/`NaN`) are excluded by `Cpu.ArithmeticDefined`.
- Reads that JavaScript answers with `undefined`, and writes that would add a property to an array: these are excluded by preconditions (`Cpu.Defined`, `Cpu.CycleDefined`, `Machine.CanPush`), not modelled. They cover an operand slot outside memory, an out-of-range `PEEK`/`POKE`/`READ`/`PIN`/`SHADE`, a jump to a missing label, `SAVE`/`LOAD` before a program is loaded, and a push to a negative slot.
- `Number(...)` parsing in the assembler: only words of decimal digits (and the empty word, which is 0) read as numbers. Hex, exponent, fractional, signed and `Infinity` literals read as non-numbers.
- Lookups that succeed in JavaScript through the prototype chain or the enum's reverse mapping: `InstructionCode["1"]`, and names such as `constructor` or `toString` in `InstructionCode`, `RegisterMap` or `labelMap`. In the model these names find nothing.
- `toUpperCase` beyond ASCII letters: other characters are kept as they are.
- The `cutout` image of a program, and the `icons` contents (kept as strings, never read).
- `src/App.tsx` (the UI and reducer) and `src/lib/TamaGo copy.ts` (an older draft of the engine) are not part of this model.
- Bytes.JsAnd, Bytes.JsOr, Bytes.JsXor: state the 32-bit range and the bounds above, not the bitwise value. That value is given by the definition, which applies `BitAnd`, `BitOr` or `BitXor` digit by digit to the two unsigned 32-bit forms. `Bytes.XorInverse` is the one law stated about it.
- Bytes.JsNot: states only that the result is a signed 32-bit integer. The bitwise value is given by the function's definition, not by its contract.
- Bytes.JsShl: states only that the result is a signed 32-bit integer. The shifted value is given by the function's definition.
- Cpu.Execute: its own contract states only that sizes are kept. What each opcode does is stated by one lemma per opcode or family in `CpuLaws` and `InstructionLaws`, and by the class methods.
- Cpu.Cycle: its own contract states only that sizes are kept. The cycle's cases are stated by `CpuLaws.CycleSleeps`, `CpuLaws.CycleHalts`, `CpuLaws.CycleDispatches` and `CpuLaws.CycleAdvances`.
- Cpu.RunCycles: its own contract states only that sizes are kept. Its behaviour is stated by `CpuLaws.SleepWaits` and `CpuLaws.HaltEndsBatch`.
- Cpu.StackStep, Cpu.ArithmeticStep, Cpu.RegisterStep, Cpu.ControlStep and Cpu.DeviceStep: their own contracts state only that the state stays well formed. Each opcode they handle has its own lemma in `CpuLaws` or `InstructionLaws`.
- Cpu.ExecuteCode: its own contract states only that the state stays well formed. Its two cases are stated by `CpuLaws.ExecuteOwnCode` and `CpuLaws.UnknownCodeIsIgnored`.
- Cpu.Advance: its own contract states only that the state stays well formed. Its effect on the counter is stated by `CpuLaws.AdvanceCounts` and `CpuLaws.WrapFoldsCounter`.
- Assembler.Definitions: has no contract of its own. Its meaning is stated by `Assembler.Undefined` and `Assembler.DefinedByLast`.
- Assembler.LabelsBefore: has no contract of its own. Its meaning is stated by `AssemblerLaws.LabelTableShape`, `AssemblerLaws.KthLabelId`, `AssemblerLaws.LabelIdsWrap`, `AssemblerLaws.LabelAddressKept`, `AssemblerLaws.NoLabelBefore` and `AssemblerLaws.LabelIdOfLast`.
- Assembler.TokenAt: has no contract of its own. Its meaning is stated by `Assembler.EmitToken` and the parameter lemmas of `AssemblerLaws`.
- Bytes.ValueIsHigh: a predicate with no contract. How it selects the store policy is stated by `Machine.Stored`, and its use in RECV by `InstructionLaws.ExecuteRecv`.
