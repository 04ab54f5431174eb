# riscvemu in Dafny

A model of the core of riscvemu, a small RV32I toolchain written in Go. It
has three layers:

- The **instruction codec** (`assembler/opcode.go`, `assembler/instruction.go`).
  An `Instruction` is a 32-bit word. It has field getters and setters, and
  it decodes and encodes the I, S, B and J immediates. `Opcode.String`
  names an opcode.
- The **assembler** (`assembler/util.go`, `assembler/parser.go`,
  `assembler/preparser.go`). It strips comments and whitespace and splits
  labels off a line. `ParseInstruction` is driven by the table of operand
  regular expressions and builders. Two passes run over a file:
  - the first binds labels to byte addresses;
  - the second rewrites `j`, replaces label operands by their offsets and
    parses every instruction line.
- The **execution engine** (`arch/memory.go`, `arch/cpu.go`,
  `arch/machine.go`). It has a bounds-checked little-endian byte memory, a
  processor with 32 registers and a program counter that executes ADD, SUB,
  SLT, ADDI, SLLI, LW, SW, BEQ, BNE, BLT, JAL and JALR, and a machine that
  loads programs, resets and steps.

Each layer follows the form of its Go source:

- Pure code becomes functions with contracts and lemmas.
- State that Go updates in place becomes Dafny classes:
  - `ArchMemory.Memory` holds the byte `array`;
  - `ArchCpu.Cpu` holds the register `array` and the program counter;
  - `ArchMachine.Machine` holds the processor and the memory.
- Go's loops become methods with loop invariants:
  - `removeAllWhitespace`;
  - `splitLabelsAndInstruction`;
  - the `instrLookup` fill;
  - the two passes of `AssembleFile`;
  - `WriteProgramWords`.

Each method is proved against a function on values: `NonSpace`, `SplitLabels`,
`LookupOf`, `Collect`, `Assemble`, `PutWord`/`Read`, `Execute`/`Next` and
`WriteProgram`. The lemmas then state the properties of those functions.

Modules, one per file:

| module | file | models |
|---|---|---|
| `Results` | results.dfy | `Result`/`Option`, the error path of every fallible operation |
| `Word32` | word32.dfy | `uint32`/`int32` conversions, bytes of a word |
| `AsmOpcode` | opcode.dfy | opcode and funct constants, `Opcode.String` |
| `AsmInstruction` | instruction.dfy | `Instruction` fields, immediates, `Type` |
| `GoText` | gotext.dfy | the `unicode`, `strings`, `strconv` functions the assembler calls |
| `AsmUtil` | asmutil.dfy | `util.go` |
| `AsmOperands` | asmoperands.dfy | the six anchored operand regular expressions and their submatch |
| `AsmParser` | asmparser.dfy | `parser.go` |
| `AsmPreparser` | preparser.dfy | `preparser.go` |
| `ArchMemory` | memory.dfy | `memory.go` |
| `ArchCpu` | cpu.dfy | `cpu.go` |
| `ArchMachine` | machine.dfy | `machine.go` |

Four constants are used but not defined in the files this model is built
from:

- `FUNCT3_SLT` and `FUNCT3_SLLI` use the RV32I values 2 and 1.
- `OPCODE_INVALID` is 0, which is none of the seven opcodes. Any other
  value not in the seven falls to `exec`'s default branch. That branch is
  also an error and also changes nothing.
- `INSTRUCTION_SIZE` is 4.

Some tests in the repository still expect LW and SW to be unimplemented.
This model follows the code, which executes both.

## Model

| member | source | states |
|---|---|---|
| AsmOpcode.OpcodesDistinct | assembler/opcode.go:10-27 | the seven opcodes are pairwise distinct, fit the 7-bit field, and OPCODE_INVALID is none of them |
| AsmOpcode.FunctsDistinct | assembler/opcode.go:30-53 | the funct3/funct7 values that tell instructions of one opcode apart differ; LW and SW share funct3 2 |
| AsmOpcode.HexRoundTrip | assembler/opcode.go:72 | `%X` writes upper-case hex digits without a leading zero, and reading them back gives the number |
| AsmOpcode.Name | assembler/opcode.go:55-74 | `Opcode.String`: a fixed name for each of the seven opcodes, `Unknown(0x<hex>)` for any other value; NameUnknown and NameExamples state which |
| AsmOpcode.NameUnknown | assembler/opcode.go:55-74 | exactly the values outside the seven opcodes are named `Unknown(0x<hex>)`, and the hex reads back to the value |
| AsmOpcode.NameExamples | assembler/opcode.go:55-74 | the names of the seven opcodes, and `Unknown(0xFF)` |
| AsmInstruction.Opcode | assembler/instruction.go:5-7 | the opcode field is below 0x80 |
| AsmInstruction.Rd | assembler/instruction.go:9-11 | the rd field is below 32 |
| AsmInstruction.Funct3 | assembler/instruction.go:13-15 | the funct3 field is below 8 |
| AsmInstruction.Rs1 | assembler/instruction.go:17-19 | the rs1 field is below 32 |
| AsmInstruction.Rs2 | assembler/instruction.go:21-23 | the rs2 field is below 32 |
| AsmInstruction.Funct7 | assembler/instruction.go:25-27 | the funct7 field is below 0x80 |
| AsmInstruction.SetOpcode | assembler/instruction.go:29-31 | bits outside 0..6 are unchanged and the getter returns the masked value |
| AsmInstruction.SetRd | assembler/instruction.go:33-35 | bits outside 7..11 are unchanged and the getter returns the masked value |
| AsmInstruction.SetFunct3 | assembler/instruction.go:37-39 | bits outside 12..14 are unchanged and the getter returns the masked value |
| AsmInstruction.SetRs1 | assembler/instruction.go:41-43 | bits outside 15..19 are unchanged and the getter returns the masked value |
| AsmInstruction.SetRs2 | assembler/instruction.go:45-47 | bits outside 20..24 are unchanged and the getter returns the masked value |
| AsmInstruction.SetFunct7 | assembler/instruction.go:49-51 | bits outside 25..31 are unchanged and the getter returns the masked value |
| AsmInstruction.Ext | assembler/instruction.go:5-27 | the six fields cover the word: words with equal fields are equal |
| AsmInstruction.SetGet | assembler/instruction.go:5-51 | writing back the value a getter read changes nothing |
| AsmInstruction.SetSet | assembler/instruction.go:29-51 | of two writes to one field the later wins |
| AsmInstruction.GetOther | assembler/instruction.go:5-51 | a setter leaves every other field's getter unchanged |
| AsmInstruction.SetCommute | assembler/instruction.go:29-51 | setters of different fields commute |
| AsmInstruction.ImmI | assembler/instruction.go:53-60 | bits 20..31 read as a signed 12-bit number; ImmIRange bounds it and ImmIRoundTrip shows it undoes SetImmI |
| AsmInstruction.ImmS | assembler/instruction.go:62-69 | bits 7..11 and 25..31 read as a signed 12-bit number; ImmSRange bounds it and ImmSRoundTrip shows it undoes SetImmS |
| AsmInstruction.ImmB | assembler/instruction.go:71-83 | bits 31, 7, 25..30 and 8..11 read as a signed 13-bit even number; ImmBRange bounds it and ImmBRoundTrip shows it undoes SetImmB |
| AsmInstruction.ImmJ | assembler/instruction.go:85-97 | bits 31, 12..19, 20 and 21..30 read as a signed 21-bit even number; ImmJRange bounds it and ImmJRoundTrip shows it undoes SetImmJ |
| AsmInstruction.SetImmI | assembler/instruction.go:99-103 | writes the low 12 bits of the immediate; SetImmIFrame, SetImmIKeeps and ImmIRoundTrip state what changes and what reads back |
| AsmInstruction.SetImmS | assembler/instruction.go:105-113 | writes the low 12 bits of the immediate split over two fields; SetImmSFrame, SetImmSKeeps and ImmSRoundTrip state what changes and what reads back |
| AsmInstruction.SetImmB | assembler/instruction.go:115-128 | writes bits 1..12 of the immediate over four fields; SetImmBFrame, SetImmBKeeps and ImmBRoundTrip state what changes and what reads back |
| AsmInstruction.SetImmJ | assembler/instruction.go:130-143 | writes bits 1..20 of the immediate over four fields; SetImmJFrame, SetImmJKeeps and ImmJRoundTrip state what changes and what reads back |
| AsmInstruction.ImmIRoundTrip | assembler/instruction.go:53-60 | an I immediate in [-2048, 2047] is decoded as it was encoded by SetImmI |
| AsmInstruction.ImmSRoundTrip | assembler/instruction.go:62-69 | an S immediate in [-2048, 2047] is decoded as it was encoded by SetImmS |
| AsmInstruction.ImmBRoundTrip | assembler/instruction.go:71-83 | a B immediate in [-4096, 4095] comes back with bit 0 cleared |
| AsmInstruction.ImmJRoundTrip | assembler/instruction.go:85-97 | a J immediate in [-2^20, 2^20 - 1] comes back with bit 0 cleared |
| AsmInstruction.ImmIRange | assembler/instruction.go:53-60 | every decoded I immediate lies in [-2048, 2047] |
| AsmInstruction.ImmSRange | assembler/instruction.go:62-69 | every decoded S immediate lies in [-2048, 2047] |
| AsmInstruction.ImmBRange | assembler/instruction.go:71-83 | every decoded B immediate is even and lies in [-4096, 4094] |
| AsmInstruction.ImmJRange | assembler/instruction.go:85-97 | every decoded J immediate is even and lies in [-2^20, 2^20 - 2] |
| AsmInstruction.SetImmIFrame | assembler/instruction.go:99-103 | SetImmI changes only bits 20..31 |
| AsmInstruction.SetImmSFrame | assembler/instruction.go:105-113 | SetImmS changes only bits 7..11 and 25..31 |
| AsmInstruction.SetImmBFrame | assembler/instruction.go:115-128 | SetImmB changes only bits 7..11 and 25..31 |
| AsmInstruction.SetImmJFrame | assembler/instruction.go:130-143 | SetImmJ changes only bits 12..31 |
| AsmInstruction.SetImmIKeeps | assembler/instruction.go:99-103 | SetImmI keeps opcode, rd, funct3 and rs1 |
| AsmInstruction.SetImmSKeeps | assembler/instruction.go:105-113 | SetImmS keeps opcode, funct3, rs1 and rs2 |
| AsmInstruction.SetImmBKeeps | assembler/instruction.go:115-128 | SetImmB keeps opcode, funct3, rs1 and rs2 |
| AsmInstruction.SetImmJKeeps | assembler/instruction.go:130-143 | SetImmJ keeps opcode and rd |
| AsmInstruction.SetImmIShamt | assembler/instruction.go:99-103 | a shift amount below 32 written as an I immediate leaves funct7 zero |
| AsmInstruction.TypeValid | assembler/instruction.go:145-160 | the format letter of each opcode, "unknown" exactly for the values outside the seven, both directions |
| AsmInstruction.TypeOfOpcode | assembler/instruction.go:145-160 | Type reads only the opcode field |
| AsmInstruction.Type | assembler/instruction.go:145-160 | the format letter of the opcode field; TypeValid and TypeOfOpcode state it |
| GoText.NonSpace | assembler/util.go:11-19 | the result has no whitespace and is no longer than the input |
| GoText.NonSpaceAppend | assembler/util.go:11-19 | filtering whitespace distributes over concatenation |
| GoText.NonSpaceId | assembler/util.go:11-19 | filtering whitespace is the identity exactly on whitespace-free strings |
| GoText.TrimSpace | assembler/util.go:26 | the trim neither starts nor ends with whitespace and is no longer than the input |
| GoText.TrimSpaceEmpty | assembler/util.go:26 | the trim is empty exactly when the input is all whitespace |
| GoText.TrimSpaceOf | assembler/util.go:26 | a string that is empty, or neither starts nor ends with whitespace, is its own trim |
| GoText.TrimSpaceIdempotent | assembler/util.go:26 | trimming twice is trimming once |
| GoText.TrimCommute | assembler/util.go:26 | trimming the left end first or the right end first gives the same |
| GoText.TrimSpacePad | assembler/util.go:26 | whitespace added around a string does not survive the trim |
| GoText.IndexAny | assembler/util.go:23 | the index of the first rune in the set, or -1 exactly when there is none |
| GoText.Index | assembler/util.go:33 | the index of the first occurrence of the rune, or -1 exactly when it is absent |
| GoText.Fields | assembler/parser.go:247 | every field is non-empty and has no whitespace |
| GoText.FieldsJoin | assembler/preparser.go:72-73 | splitting words joined with single spaces gives the words back |
| GoText.JoinFields | assembler/parser.go:251-252 | gluing the fields of a string together leaves exactly its non-whitespace runes |
| GoText.FieldsEmpty | assembler/parser.go:247-250 | a string has no fields exactly when it is all whitespace |
| GoText.IntStrRoundTrip | assembler/preparser.go:72 | a number formatted with `%d` matches `-?\d+` and reads back as the same number |
| GoText.ParseInt32 | assembler/parser.go:40-43 | `strconv.ParseInt(s, 10, 32)` with the error dropped: the value, or the nearer int32 bound when out of range |
| GoText.ParseUint32 | assembler/parser.go:45-48 | `strconv.ParseUint(s, 10, 32)` with the error dropped: the value, or 2^32 - 1 when above it |
| GoText.Atoi | assembler/preparser.go:59 | Atoi accepts only an optional sign followed by digits, with a value in int64 |
| GoText.AtoiIntStr | assembler/preparser.go:59 | Atoi reads back every int64 formatted with `%d` |
| AsmUtil.RemoveAllWhitespace | assembler/util.go:11-19 | the loop returns the input's non-whitespace runes in order |
| AsmUtil.StripComment | assembler/util.go:23-25 | the prefix of the line before its first comment character, or all of it when there is none |
| AsmUtil.RemoveCommentAndTrim | assembler/util.go:22-27 | the result holds no '#' or ';', neither starts nor ends with whitespace, and gains no ':' |
| AsmUtil.RemoveCommentKeeps | assembler/util.go:22-27 | the result is the trimmed text before the first comment character, whatever follows it |
| AsmUtil.RemoveCommentAndTrimIdempotent | assembler/util.go:22-27 | stripping twice is stripping once |
| AsmUtil.RemoveCommentAndTrimPad | assembler/util.go:22-27 | whitespace around a line makes no difference |
| AsmUtil.SplitLabelsAndInstruction | assembler/util.go:31-45 | the loop computes SplitLabels: the labels left to right and the instruction part |
| AsmUtil.SplitLabelsValid | assembler/util.go:31-45 | no label is blank or holds ':' or a comment character; the instruction part holds neither and is trimmed |
| AsmUtil.SplitNoColon | assembler/util.go:32-36 | a line without ':' has no labels, and its instruction part is its comment-stripped trimmed text |
| AsmUtil.SplitLabelOnly | assembler/util.go:31-45 | a line of labels only, with or without a comment, gives those labels in order and an empty instruction part |
| AsmUtil.SplitFrom | assembler/util.go:32-43 | the loop on values from a trimmed line; SplitLabelsParts states what it gives |
| AsmUtil.SplitLabels | assembler/util.go:31-45 | splitLabelsAndInstruction on values; SplitLabelsParts, SplitInstructionEmpty and SplitLabelsValid state it |
| AsmUtil.SplitLabelsParts | assembler/util.go:31-45 | for every line: the labels are the non-blank trimmed texts before each ':' of the comment-free line, in order, and the instruction part is the trimmed text after its last ':' |
| AsmUtil.SplitInstructionEmpty | assembler/util.go:31-45 | for every line: the instruction part is empty exactly when the trimmed comment-free line is empty or ends with ':' |
| AsmUtil.AfterLastColonSuffix | assembler/util.go:33-42 | the text after the last ':' is a ':'-free suffix, all of the text when it has no ':', otherwise right after a ':' |
| AsmUtil.AfterLastColonEnd | assembler/util.go:33-42 | that text is empty when the line ends with ':', and otherwise ends with the line's last rune |
| AsmUtil.PartsTrim | assembler/util.go:41 | trimming a text changes neither its labels nor the trim of what follows its last ':' |
| AsmOperands.MatchSound | assembler/parser.go:32-38 | every submatch found fits the groups and renders back to the operands |
| AsmOperands.MatchComplete | assembler/parser.go:32-38 | on the six operand expressions, operands rendered from fitting captures are matched with exactly those captures |
| AsmOperands.MatchFails | assembler/parser.go:32-38 | the match fails exactly on operands that no fitting captures render to |
| AsmOperands.Match | assembler/parser.go:32-38 | a whole-string match of an operand expression, with its capture groups; MatchSound, MatchComplete and MatchFails relate it to rendering |
| AsmParser.BuildLookup | assembler/parser.go:230-238 | the nested loop builds LookupOf(table) |
| AsmParser.LookupOf | assembler/parser.go:230-238 | the mnemonic map of a table; LookupSpec and TableLookup state its keys and values |
| AsmParser.LookupSpec | assembler/parser.go:230-238 | the map holds exactly the listed mnemonics, each bound to the last entry listing it, and every value is an entry of the table |
| AsmParser.TableLookup | assembler/parser.go:57-238 | the lookup map of the table holds exactly the twelve mnemonics, each bound to its entry, whose regex is the one its builder reads |
| AsmParser.RegField | assembler/parser.go:45-48 | a register operand's field is its saturated value modulo 32 |
| AsmParser.BuildR | assembler/parser.go:75-119 | R_TYPE opcode, the three registers in order, and the given funct3 and funct7 |
| AsmParser.BuildImmI | assembler/parser.go:58-74 | an error naming the immediate exactly when it is outside [-2048, 2047], otherwise the fields and the I immediate |
| AsmParser.BuildBranch | assembler/parser.go:120-143 | an error exactly when the immediate is outside [-4096, 4095], else BRANCH, rs1, rs2, the mnemonic's funct3 and the immediate with bit 0 cleared |
| AsmParser.BuildJal | assembler/parser.go:144-158 | an error exactly when the immediate is outside [-2^20, 2^20 - 1], else JAL, rd and the immediate with bit 0 cleared |
| AsmParser.BuildSlli | assembler/parser.go:193-209 | an error exactly when the shift amount is above 31, else I_TYPE, SLLI, rd, rs1, the amount as I immediate and funct7 0 |
| AsmParser.BuildStore | assembler/parser.go:210-226 | an error exactly when the immediate is outside [-2048, 2047], else STORE, SW, rs1 the base, rs2 the source and the S immediate |
| AsmParser.Select | assembler/parser.go:255-262 | a selected builder's captures fit its regular expression |
| AsmParser.OperationErrors | assembler/parser.go:255-263 | an operation fails only as unsupported, invalid operands, or an immediate or shift amount out of range |
| AsmParser.BuildErrors | assembler/parser.go:57-227 | a builder fails only on an immediate or shift amount out of range |
| AsmParser.Build | assembler/parser.go:57-227 | the builders of the table; BuildR, BuildImmI, BuildBranch, BuildJal, BuildSlli, BuildStore and BuildErrors state each |
| AsmParser.ParseOperation | assembler/parser.go:255-263 | the lookup, the operand match and the builder; Select and OperationErrors state its outcomes |
| AsmParser.ParseInstruction | assembler/parser.go:241-264 | the whole parse of a line; ParseEmptyLine, ParseByFields, ParseUnsupported, OperandsRejected and the per-mnemonic lemmas state it |
| AsmParser.ParseEmptyLine | assembler/parser.go:242-245 | "empty line" exactly when nothing is left once the comment and surrounding whitespace are removed |
| AsmParser.ParseBlankLine | assembler/parser.go:242-245 | a blank or comment-only line is an empty line |
| AsmParser.ParseNeverInvalid | assembler/parser.go:247-250 | the invalid-instruction error cannot occur |
| AsmParser.ParseByFields | assembler/parser.go:241-263 | the mnemonic is the first field and the operands are the other fields glued together |
| AsmParser.ParseUnsupported | assembler/parser.go:255-258 | a first field that is not one of the twelve mnemonics is unsupported |
| AsmParser.OperandsRejected | assembler/parser.go:259-262 | for a known mnemonic, "invalid operands" exactly when the operands do not have the entry's form |
| AsmParser.ParseWords | assembler/parser.go:241-263 | a mnemonic and operand words written with single spaces parse as the mnemonic on the glued words |
| AsmParser.ParseIgnoresComment | assembler/parser.go:242 | a trailing comment changes nothing |
| AsmParser.ParseIgnoresPadding | assembler/parser.go:242 | whitespace before and after a line changes nothing |
| AsmParser.ParseRType | assembler/parser.go:75-119 | add, sub and slt give R_TYPE with rd, rs1, rs2 in order, funct3 ADD_SUB or SLT and funct7 ADD or SUB |
| AsmParser.ParseAddi | assembler/parser.go:58-74 | addi is the I builder with ADDI on rd, rs1 and the immediate |
| AsmParser.ParseJalrLw | assembler/parser.go:159-192 | jalr and lw put rd first, the base in rs1 and the offset in the I immediate |
| AsmParser.ParseBranch | assembler/parser.go:120-143 | beq, bne and blt are the branch builder, with funct3 BEQ, BNE and SLT |
| AsmParser.ParseJal | assembler/parser.go:144-158 | jal is the jal builder on rd and the offset |
| AsmParser.ParseSlli | assembler/parser.go:193-209 | slli is the slli builder on rd, rs1 and the shift amount |
| AsmParser.ParseSw | assembler/parser.go:210-226 | sw puts its first register in rs2 and its base in rs1 |
| AsmPreparser.PreprocessJump | assembler/preparser.go:12-24 | `j T` becomes `jal x0, T` |
| AsmPreparser.PreprocessOnlyJump | assembler/preparser.go:12-24 | only a two-field line starting with `j` is rewritten |
| AsmPreparser.JumpParsesAsJal | assembler/preparser.go:12-24 | `j <offset>` assembles as jal with link register x0 |
| AsmPreparser.Preprocess | assembler/preparser.go:12-24 | the `j` rewrite; PreprocessJump and PreprocessOnlyJump state both directions |
| AsmPreparser.LabelField | assembler/preparser.go:36-54 | the label operand is the last field, of a four-field branch or a three-field jal |
| AsmPreparser.ReplaceError | assembler/preparser.go:64-67 | the only error names the last operand, which is neither a number nor a bound label |
| AsmPreparser.ReplaceBranch | assembler/preparser.go:39-73 | a branch to a bound label gets the label's address minus 4 × the instruction index |
| AsmPreparser.ReplaceJal | assembler/preparser.go:39-73 | a jal to a bound label gets the label's address minus 4 × the instruction index |
| AsmPreparser.ReplaceBackward | assembler/preparser.go:68-73 | a branch at index 1 to `start` at 0 gets -4 |
| AsmPreparser.ReplaceForward | assembler/preparser.go:68-73 | a branch at index 1 to `loop` at 8 gets 4 |
| AsmPreparser.ReplaceNumeric | assembler/preparser.go:59-61 | a branch that already has an offset is kept |
| AsmPreparser.ReplaceMissing | assembler/preparser.go:64-67 | an unbound label is an error |
| AsmPreparser.ReplaceOther | assembler/preparser.go:30-54 | an instruction other than a branch or jal is kept |
| AsmPreparser.ReplaceKeeps | assembler/preparser.go:30-61 | a line without a label operand is returned unchanged |
| AsmPreparser.ReplaceIdempotent | assembler/preparser.go:29-74 | a line the replacement produced is left unchanged by any later replacement |
| AsmPreparser.ReplaceLabel | assembler/preparser.go:29-74 | the label replacement; LabelField, ReplaceError, ReplaceBranch, ReplaceJal, ReplaceKeeps and ReplaceIdempotent state it |
| AsmPreparser.BindLabelsSpec | assembler/preparser.go:118-120 | each listed label is bound to the address; other keys keep their binding |
| AsmPreparser.AddLabels | assembler/preparser.go:118-120 | the inner loop computes BindLabels |
| AsmPreparser.ParseLabelsAndInstructions | assembler/preparser.go:111-129 | the loops compute Collect: the label map and the instruction lines |
| AsmPreparser.Collect | assembler/preparser.go:111-129 | the first pass on values; CollectParts, InstructionsClean, LabelKeys, LabelAddress and CollectNextLine state it |
| AsmPreparser.CollectParts | assembler/preparser.go:121-125 | the instruction lines are the non-empty instruction parts, in order |
| AsmPreparser.InstructionsClean | assembler/preparser.go:111-129 | no instruction line is empty or holds ':' or a comment, and each is trimmed |
| AsmPreparser.LabelKeys | assembler/preparser.go:111-129 | a label is bound exactly when some line lists it |
| AsmPreparser.LabelAddress | assembler/preparser.go:116-120 | a label is bound to 4 × the number of instructions before the last line listing it |
| AsmPreparser.CollectLabelOnly | assembler/preparser.go:111-129 | a label-only line, with or without a comment, adds no instruction and binds its labels to the next instruction's address |
| AsmPreparser.CollectNextLine | assembler/preparser.go:116-126 | for every appended line: its labels are bound to 4 × the number of instructions before it, and its instruction part is appended unless the comment-free trimmed line is empty or ends with ':' |
| AsmPreparser.CollectLabelLine | assembler/preparser.go:116-126 | a line whose comment-free trimmed text is empty or ends with ':' adds no instruction line and binds its labels to the next instruction's address |
| AsmPreparser.PassErr | assembler/preparser.go:95-105 | an error in a prefix of the lines is the error of the whole pass |
| AsmPreparser.PassSpec | assembler/preparser.go:93-106 | the pass succeeds exactly when every line does, and gives those instructions in order; otherwise it reports the first failing line, numbered from 1, with its error |
| AsmPreparser.AssembleLine | assembler/preparser.go:95-105 | one line of the second pass: rewrite, replace, parse; AssembleOne computes it as the loop body does |
| AsmPreparser.AssembleOne | assembler/preparser.go:96-104 | the loop body computes AssembleLine: the replacement error, else the parse error, else the instruction |
| AsmPreparser.Pass | assembler/preparser.go:93-106 | the loop of the second pass; PassSpec and PassErr state it |
| AsmPreparser.Assemble | assembler/preparser.go:77-107 | the first pass then the second on its output; AssembleFile computes it and PassSpec states its outcome |
| AsmPreparser.AssembleFile | assembler/preparser.go:77-107 | the loop computes Assemble: all instructions or the first error, never a partial program |
| ArchMemory.Read | arch/memory.go:41-46 | an error exactly when the word does not fit in the buffer |
| ArchMemory.Load | arch/memory.go:18-23 | an error exactly when the word does not fit; otherwise the int32 whose pattern is the stored word |
| ArchMemory.WordAt | arch/memory.go:41-46 | the word's bytes are the buffer's four bytes, least significant first |
| ArchMemory.PutWord | arch/memory.go:33-39 | the four bytes take the word little-endian; the length and every other byte are unchanged |
| ArchMemory.Zeros | arch/memory.go:12-16 | n bytes, all zero |
| ArchMemory.Memory.constructor | arch/memory.go:12-16 | a fresh buffer of `size` zero bytes |
| ArchMemory.Memory.ReadWord | arch/memory.go:41-46 | the result is Read of the contents |
| ArchMemory.Memory.LoadWord | arch/memory.go:18-23 | the result is Load of the contents |
| ArchMemory.Memory.WriteWord | arch/memory.go:33-39 | in bounds, the contents become PutWord of the old ones; out of bounds, an error and no byte changes |
| ArchMemory.Memory.StoreWord | arch/memory.go:25-31 | as WriteWord with the int32's bit pattern |
| ArchMemory.ReadAfterWrite | arch/memory.go:33-46 | a word reads back as written |
| ArchMemory.ReadOtherWrite | arch/memory.go:33-46 | a write elsewhere leaves a word unchanged |
| ArchMemory.WriteTwice | arch/memory.go:33-39 | a second write to the same address replaces the first |
| ArchMemory.WriteSame | arch/memory.go:33-46 | writing back the word that is there changes nothing |
| ArchMemory.LoadAfterStore | arch/memory.go:18-31 | LoadWord after StoreWord gives the int32 back |
| ArchMemory.StoreLoadViews | arch/memory.go:18-46 | the int32 accessors are the int32 view of the uint32 accessors on the same bytes |
| ArchMemory.GuardWraps | arch/memory.go:19 | the guard as written lets through an address whose word lies past the end |
| ArchCpu.RegNum | arch/cpu.go:23-27 | a register index below 32, zero exactly for register field 0 |
| ArchCpu.WriteReg | arch/cpu.go:23-27 | register 0 is never written; register n gets the value; every other register is unchanged |
| ArchCpu.Shamt | arch/cpu.go:88-90 | `imm & 0x1F`: the low five bits of the immediate's pattern |
| ArchCpu.Shl | arch/cpu.go:90 | Go's `a << b` on a uint32 by a non-negative int32: zero once the count reaches 32; SLLI only shifts by Shamt, which is below 32 |
| ArchCpu.Jump | arch/cpu.go:135 | `uint32(int32(pc) + imm)`; JumpValue states it is pc + offset modulo 2^32 |
| ArchCpu.OpR | arch/cpu.go:60-82 | ADD, SUB and SLT into rd; ExecuteOnlyRd, ExecuteKeepsZero and NextAdvances state it, and Cpu.ExecR computes it |
| ArchCpu.OpI | arch/cpu.go:83-93 | ADDI and SLLI into rd; ShamtOfImmI, ExecuteOnlyRd and NextAdvances state it, and Cpu.ExecI computes it |
| ArchCpu.OpLoad | arch/cpu.go:94-108 | LW into rd, failing out of bounds; ExecuteFails and ExecuteOnlyRd state it, and Cpu.ExecLoad computes it |
| ArchCpu.OpStore | arch/cpu.go:109-118 | SW of rs2 at rs1 + offset; ExecuteStore and ExecuteFails state it, and Cpu.ExecStore computes it |
| ArchCpu.OpBranch | arch/cpu.go:119-130 | BEQ, BNE and BLT on the program counter; NextBranch and TakenMeans state it, and Cpu.ExecBranch computes it |
| ArchCpu.OpJal | arch/cpu.go:131-136 | the JAL link and jump; NextJal states it |
| ArchCpu.OpJalr | arch/cpu.go:137-144 | the JALR link and jump; NextJalr and TargetEven state it |
| ArchCpu.Execute | arch/cpu.go:54-149 | exec on values; ExecuteFails, ExecuteKeepsZero, ExecuteKeepsMemory, ExecuteOnlyRd and ExecuteKeepsPc state it, and Cpu.Exec computes it |
| ArchCpu.Next | arch/cpu.go:151-170 | fetch, execute and advance on values; NextFails, NextKeepsZero, NextAdvances, NextBranch, NextJal and NextJalr state it, and Cpu.Step computes it |
| ArchCpu.SupportedOpcode | arch/cpu.go:54-149 | every instruction exec implements has one of the seven opcodes |
| ArchCpu.ExecuteFails | arch/cpu.go:54-149 | an instruction fails exactly when it is not implemented or its memory access is out of bounds |
| ArchCpu.NextFails | arch/cpu.go:151-170 | a step fails exactly when the fetch is out of bounds or the fetched instruction fails |
| ArchCpu.ExecuteKeepsZero | arch/cpu.go:30-43 | a successful instruction keeps register 0 |
| ArchCpu.NextKeepsZero | arch/cpu.go:151-170 | a successful step keeps register 0 |
| ArchCpu.ExecuteKeepsMemory | arch/cpu.go:54-149 | a successful instruction other than SW leaves memory alone |
| ArchCpu.ExecuteStore | arch/cpu.go:109-118 | a successful SW stores register rs2 at rs1 + offset and changes nothing else |
| ArchCpu.ExecuteOnlyRd | arch/cpu.go:54-149 | a successful instruction changes no register except rd |
| ArchCpu.ExecuteKeepsPc | arch/cpu.go:54-149 | only BRANCH, JAL and JALR set the program counter |
| ArchCpu.NextAdvances | arch/cpu.go:162-168 | a successful R-type, I-type, LOAD or STORE step moves the program counter by exactly 4, wrapping |
| ArchCpu.NextBranch | arch/cpu.go:119-130 | a branch step jumps by the B immediate when its condition holds, else moves by 4, and changes nothing else |
| ArchCpu.TakenMeans | arch/cpu.go:119-130 | BEQ tests equality, BNE inequality and BLT signed less-than |
| ArchCpu.NextJal | arch/cpu.go:131-136 | JAL sets rd to pc + 4 and the program counter to pc + ImmJ |
| ArchCpu.NextJalr | arch/cpu.go:137-144 | JALR sets rd to pc + 4 and the program counter to (rs1 + ImmI) with bit 0 cleared, using rs1 as it was before the write |
| ArchCpu.TargetEven | arch/cpu.go:140 | a JALR target is even |
| ArchCpu.JumpValue | arch/cpu.go:131-136 | a jump target is pc + offset modulo 2^32 |
| ArchCpu.ShamtOfImmI | arch/cpu.go:88-90 | SLLI shifts by the low five bits of the I immediate |
| ArchCpu.Cpu.constructor | arch/cpu.go:16-21 | all registers and the program counter zero |
| ArchCpu.Cpu.SetReg | arch/cpu.go:23-27 | the registers become WriteReg of the old ones |
| ArchCpu.Cpu.WriteRd | arch/cpu.go:103-105 | the registers become WriteReg of the old ones at rd |
| ArchCpu.Cpu.AluRType | arch/cpu.go:30-35 | rd gets op(rs1, rs2), unless rd is register 0 |
| ArchCpu.Cpu.AluIType | arch/cpu.go:38-43 | rd gets op(rs1, imm), unless rd is register 0 |
| ArchCpu.Cpu.Branch | arch/cpu.go:46-52 | pc + imm when the condition holds, else pc + 4 |
| ArchCpu.Cpu.ExecR | arch/cpu.go:60-82 | the R-type case agrees with OpR |
| ArchCpu.Cpu.ExecI | arch/cpu.go:83-93 | the I-type case agrees with OpI |
| ArchCpu.Cpu.ExecLoad | arch/cpu.go:94-108 | the LOAD case agrees with OpLoad |
| ArchCpu.Cpu.ExecStore | arch/cpu.go:109-118 | the STORE case agrees with OpStore |
| ArchCpu.Cpu.ExecBranch | arch/cpu.go:119-130 | the BRANCH case agrees with OpBranch |
| ArchCpu.Cpu.ExecJal | arch/cpu.go:131-136 | the JAL case is OpJal |
| ArchCpu.Cpu.ExecJalr | arch/cpu.go:137-144 | the JALR case is OpJalr |
| ArchCpu.Cpu.Exec | arch/cpu.go:54-149 | exec agrees with Execute: its new state on success; on failure its error and no change |
| ArchCpu.Cpu.Step | arch/cpu.go:151-170 | Step agrees with Next: its new state on success; on failure its error and no change |
| ArchMachine.ProgramAddrValue | arch/machine.go:34 | the address of word k is start + 4k, wrapping at 2^32 |
| ArchMachine.WordAddrValue | arch/machine.go:34 | without wrap, word k sits 4k bytes after the start |
| ArchMachine.WriteFrom | arch/machine.go:31-39 | the loop of the program load from the word at base on; the memory keeps its length, and WriteFromOk, WriteFromPlaces, WriteFromFrame, WriteFromSticks and WriteFromStops state the rest |
| ArchMachine.WriteProgram | arch/machine.go:31-39 | the program load from start; the memory keeps its length, and LoadPlaces states where the words go |
| ArchMachine.WriteFromOk | arch/machine.go:31-39 | a load succeeds exactly when every word's four bytes lie in memory |
| ArchMachine.WriteFromFits | arch/machine.go:31-39 | a load that fits below 2^32 and inside memory succeeds |
| ArchMachine.WriteFromPlaces | arch/machine.go:31-39 | in a load that fits, word k sits at start + 4k |
| ArchMachine.WriteFromFrame | arch/machine.go:31-39 | a load that fits changes no byte outside the program's range |
| ArchMachine.WriteFromSticks | arch/machine.go:35-37 | once a load has failed, the later words change nothing |
| ArchMachine.WriteFromStops | arch/machine.go:31-39 | a failed load stopped at the first word that does not fit: the words before it stay written and nothing else is |
| ArchMachine.LoadPlaces | arch/machine.go:31-39 | a program that fits is written, word k at start + 4k, no other byte changed |
| ArchMachine.LoadedFetch | arch/machine.go:42-48 | after such a load the first fetch from start sees the first word |
| ArchMachine.Machine.constructor | arch/machine.go:13-18 | a fresh processor with zero registers and program counter, and n zero bytes |
| ArchMachine.Machine.Step | arch/machine.go:20-22 | the processor's step on the machine's memory |
| ArchMachine.Machine.Reset | arch/machine.go:24-28 | a fresh processor and a zero memory of the same length |
| ArchMachine.Machine.WriteProgramWords | arch/machine.go:31-39 | the loop computes WriteProgram: the memory and the outcome, partial writes included |
| ArchMachine.Machine.LoadProgram | arch/machine.go:42-48 | writes the program; the program counter becomes start on success and is unchanged on failure; the registers are unchanged |
| Word32.SignedFromInt | arch/memory.go:18-31 | `int32(uint32(v))` is v for every int32 |
| Word32.FromIntSigned | arch/memory.go:18-31 | `uint32(int32(w))` is w for every word |
| Word32.UnsignedFromInt | arch/cpu.go:87 | `uint32(v)` is v modulo 2^32 |

## Left out

- File reading is not modelled (I/O). This covers `linesFromFile`, the `os.Open`/`bufio` part of `AssembleFile` and scanner errors. `Assemble` takes the lines of the file.
- The filename prefix of `AssembleFile`'s errors is left out, and so is the formatted text of every error. Errors are datatypes that carry the same data: the line number, the mnemonic, the value or the field.
- The `fmt.Printf` traces at arch/cpu.go:80, arch/cpu.go:153 and arch/machine.go:33 are output only.
- `WordHandler` (arch/interfaces.go:3-6) is an interface. `Cpu.Exec` and `Cpu.Step` take the `Memory` class directly, which is the only implementation in the core.
- `cli`, `main.go`, `assembler/assembler.go` and `assembler/file.go` are not part of this model. They are the front end, a stale type and an older `AssembleFile` without labels.
- Go's regexp engine is not modelled in general. The six operand expressions are models of token sequences, and `MatchComplete`/`MatchFails` prove that they find the RE2 submatch.
- `\d` is ASCII only, as in Go's regexp. `unicode.IsSpace` is the fixed set of Unicode White_Space runes. Strings are sequences of runes, so invalid UTF-8 is out of scope.
- The `uint32(len(m.Data))` conversion is taken without wrap. Memories of 4 GiB or more are out of scope.
- Go's slice panic on an access that passes the wrapping guard is not modelled. The model uses the mathematical bound (see Findings).
- The shift `a << b` has a negative-count branch where Go panics. The model cannot reach it, because the count is always `imm & 0x1F`.
- ArchMachine.ProgramAddr steps the address by 4 per word, wrapping each step. Go computes `startAddr + uint32(i*4)` instead. The two agree whenever `i*4` fits Go's `int`.
- ArchMachine.Machine.Reset: Go's `Reset` returns an error that is always nil, so the method has no result.
- The instruction setters are functions from the old word to the new one. Go writes them through a `*Instruction` receiver, but since `Instruction` is a plain `uint32` the two are the same.
- AsmPreparser.ReplaceIdempotent requires every produced offset to fit int64. Go's `int` cannot hold larger offsets, and `strconv.Atoi` would reject them.
- AsmPreparser.Assemble gives the second pass through the generic `Pass`, which takes the per-line step as a parameter. `PassSpec` is stated for every step, so it holds for the real one.

## Findings

| source | as written | input that shows it | evidently intended | confidence | as-written member | corrected member |
|---|---|---|---|---|---|---|
| arch/memory.go:19, 26, 34, 42 | the bounds guard `addr+4 > uint32(len(m.Data))` is computed in wrapping uint32 | address 0xFFFFFFFE on a 16-byte memory: `addr+4` wraps to 2, the guard passes, and the slice `m.Data[addr:addr+4]` panics | the word must lie inside the buffer: addr + 4 <= len, as numbers | not executed | ArchMemory.GuardAsWritten, shown by ArchMemory.GuardWraps | ArchMemory.InBounds, used by ArchMemory.Read and ArchMemory.Load and by every Memory method |
