# 8-bit CPU assembler and simulation driver, modelled in Dafny

`sim_main.cpp` is the Verilator driver of a small 8-bit processor. It holds
three things, each modelled here:

- **The encoder** (`isa.dfy`, module `Isa`): the sixteen opcodes and the
  eight `make*` functions that pack an opcode and its masked operands into
  one 8-bit instruction word, in three layouts: ALU (`rd:1 ra:1 rb:2`), two
  2-bit fields (LDUR, STOR, B, CMP) and move (`reg:3`, bit 0 clear). C's
  `x & mask` on a 32-bit `int` is modelled bit by bit (`BitAnd`) and proved
  to be the residue `x % 2^k`, so a negative operand is truncated as the
  two's-complement bits say. Every word is decoded again by bit slices, and
  the encoders are proved to be their inverses.
- **The assembler** (`lexer.dfy`, `assembler.dfy`, modules `Lexer` and
  `Assembler`): `iss >> mnemonic`, `std::toupper`, the lookup in
  `opcodeMap`, and the chain of name tests that reads as many `int`
  operands as the name calls for. An unknown mnemonic, which `assemble`
  throws, is a `Failure(UnknownInstruction(...))` carrying the upper-cased
  token. The chain as written (`Chain`) is proved to agree with a
  layout-driven encoding of the table entry (`Encode`), and its closing
  `unsupported mnemonic` throw is proved unreachable. `example_program.dfy`
  assembles a few lines of the program text in `main` by proof.
- **The driver** (`batch.dfy`, `testbench.dfy`, `simulation.dfy`): the
  loop that assembles the text line by line and skips lines that throw;
  the `tick` helper; and the four phases of `main` (reset, program load, a
  256-cycle run, a 16-cycle data-memory readback). The driver is a class
  `Testbench` holding the CPU (`Cpu`, a class whose fields are its pins), the
  time counter `main_time`, the trace the VCD writer dumps and the readout
  lines printed during readback. What the processor computes (`eval`) is not
  visible, so `Cpu.Eval` may change only the data-memory output.

Points where the model had to choose:

- `makeNOP` returns `0x00`, which is also the word of `ADD 0 0 0`
  (`NopIsAddOfZeros`). The processor cannot tell the two apart: it executes
  the stall word as `ADD 0 0 0`.
- `assemble` has an error only for an unknown mnemonic; it has none for a
  malformed operand. The stream's failure state is never inspected: a
  non-numeric token makes `iss >> x` store 0 and fail the stream, a missing
  operand (or any extraction after a failure) leaves `x` as it was, which
  for these uninitialised locals is indeterminate. The model takes
  well-formed operands as a precondition (`OperandsWellFormed`).
- The error carries the upper-cased mnemonic, because `assemble`
  upper-cases before it throws (sim_main.cpp:85-88).
- A skipped line shifts every later word down one address; the model keeps
  this (`AssembledLineAddress`, `RejectedLineDropped`).
- During readback the driver ticks first and only then sets the address, so
  the tick of cycle `c` evaluates with the address set in cycle `c - 1`.
  The model keeps this ordering as written and states it as a property
  (`SessionOnPins`).

## Model

| member | source | states |
|---|---|---|
| Isa.OpcodeFromCode | sim_main.cpp:16-33 | the enumerator with value `c` has `Code() == c`: every 4-bit value names exactly one opcode |
| Isa.CodeRoundTrip | sim_main.cpp:16-33 | an opcode's value maps back to the same opcode, so the enumeration is one-to-one |
| Isa.AluOpcodesComeFirst | sim_main.cpp:16-33 | the ALU-layout opcodes are exactly those with value below 10 |
| Isa.FieldIsResidue | sim_main.cpp:41 | `x & (2^k - 1)` on a 32-bit int equals `x mod 2^k` and lies in `[0, 2^k)` |
| Isa.BitAndLowMask | sim_main.cpp:41 | bitwise AND with a low mask of `k` ones is the residue modulo `2^k`, for negative `x` as well |
| Isa.LowBitsSplit | sim_main.cpp:41 | an integer is `2^k` times its arithmetic right shift by `k` plus its low `k` bits |
| Isa.MakeAluOp | sim_main.cpp:40-42 | the opcode lands in bits 7-4, and bit 3, bit 2 and bits 1-0 decode to `rd mod 2`, `ra mod 2` and `rb mod 4` |
| Isa.MakePair | sim_main.cpp:44-58 | the opcode lands in bits 7-4, and bits 3-2 and 1-0 decode to the operands modulo 4 |
| Isa.MakeLoad | sim_main.cpp:44-46 | a LDUR word whose two fields decode to `reg mod 4` and `addr mod 4` |
| Isa.MakeStor | sim_main.cpp:48-50 | a STOR word whose two fields decode to `rAddr mod 4` and `addr mod 4` |
| Isa.MakeB | sim_main.cpp:52-54 | a B word whose two fields decode to the condition and the register, modulo 4 |
| Isa.MakeCmp | sim_main.cpp:56-58 | a CMP word whose two fields decode to the two registers, modulo 4 |
| Isa.MakeMove | sim_main.cpp:60-66 | the opcode lands in bits 7-4, bits 3-1 decode to `reg mod 8`, bit 0 is clear |
| Isa.MakeMov1 | sim_main.cpp:60-62 | a MOV1 word with bits 3-1 equal to `rd mod 8` and bit 0 clear |
| Isa.MakeMov2 | sim_main.cpp:64-66 | a MOV2 word with bits 3-1 equal to `rs mod 8` and bit 0 clear |
| Isa.HighNibble | sim_main.cpp:40-66 | the high nibble of every word is the value of the opcode it decodes to |
| Isa.AluSlicesDetermineWord | sim_main.cpp:40-42 | two words with the same opcode and the same ALU fields are equal |
| Isa.PairSlicesDetermineWord | sim_main.cpp:44-58 | two words with the same opcode and the same two fields are equal |
| Isa.MoveSlicesDetermineWord | sim_main.cpp:60-66 | two words with the same opcode, register field and bit 0 are equal |
| Isa.AluEncodeDecode | sim_main.cpp:40-42 | every word with an ALU opcode is what makeALUOP builds from its decoded fields |
| Isa.PairEncodeDecode | sim_main.cpp:44-58 | every LDUR, STOR, B or CMP word is re-encoded from its decoded fields |
| Isa.MoveEncodeDecode | sim_main.cpp:60-66 | a MOV1 or MOV2 word is re-encoded from its register field exactly when its bit 0 is clear |
| Isa.AluTruncation | sim_main.cpp:41 | operands that agree modulo their field widths encode to the same word: out-of-range operands are truncated, not rejected |
| Isa.PairTruncation | sim_main.cpp:44-58 | two-field operands that agree modulo 4 encode alike |
| Isa.MoveTruncation | sim_main.cpp:60-66 | move registers that agree modulo 8 encode alike |
| Isa.LoadStoreShareLayout | sim_main.cpp:44-50 | makeLOAD and makeSTOR agree on the low nibble and differ only in bit 4 |
| Isa.MakeNop | sim_main.cpp:38 | the stall word decodes as ADD with every field zero |
| Isa.BitAnd | sim_main.cpp:41-65 | `x & y` for a non-negative mask lies between 0 and the mask; `BitAndLowMask` gives its value |
| Isa.Field | sim_main.cpp:41-65 | an operand masked to `k` bits lies in `[0, 2^k)` |
| Isa.NopIsAddOfZeros | sim_main.cpp:38 | the stall word equals the word of `ADD 0 0 0`, whose opcode is ADD |
| Lexer.SkipSpacesSplits | sim_main.cpp:82 | skipping leading white space drops only white space and stops at a non-space or the end |
| Lexer.WordPrefixSplits | sim_main.cpp:82 | the token read is the longest space-free prefix, and what follows it starts with a space |
| Lexer.NextToken | sim_main.cpp:82 | the token read is empty or a word without white space (white space being the six characters `std::isspace` accepts in the "C" locale, `IsSpace`), and the rest of the stream is empty or starts with white space |
| Lexer.NextTokenSplits | sim_main.cpp:82 | `iss >> mnemonic` splits the line into skipped spaces, a word and a remainder starting at a space; an empty token means an all-space line |
| Lexer.NextTokenOfWord | sim_main.cpp:82 | a line made of spaces, a word and a space-led remainder yields exactly that word and remainder |
| Lexer.UpperChar | sim_main.cpp:85 | `std::toupper` maps `a`-`z` to `A`-`Z` and leaves every other character alone |
| Lexer.ToUpper | sim_main.cpp:85 | same length, each of `a`-`z` becomes its upper-case counterpart, and every other character is unchanged |
| Lexer.ToUpperIdempotent | sim_main.cpp:85 | upper-casing twice is upper-casing once, and an upper-cased word is still a word |
| Lexer.UppercaseInPlace | sim_main.cpp:85 | the in-place loop leaves the array holding the upper-cased original |
| Lexer.ReadInts | sim_main.cpp:98-128 | `iss >> x1 >> ... >> xk` yields exactly `k` values, each the value (`NumeralValue`) of a token in the decimal syntax with optional sign that `iss >> int` accepts within 32 bits (`IsIntToken`) |
| Lexer.ReadTokenThen | sim_main.cpp:98-128 | any `int` token after white space, in front of a space-led stream holding `k` ints, gives a stream holding `k + 1` whose first value is the token's |
| Lexer.ReadJoinedTokens | sim_main.cpp:98-128 | reading `int` tokens separated by white space, followed by any space-led tail, succeeds and gives the tokens' values in order |
| Assembler.EveryOpcodeNamed | sim_main.cpp:71-77 | every opcode is in the table under its own enumerator name |
| Assembler.EntrySpellsItsKey | sim_main.cpp:71-77 | NOP alone maps to the sentinel and every other key maps to the opcode it spells, so no two names share an entry |
| Assembler.Arity | sim_main.cpp:95-130 | an ALU mnemonic reads three operands, a two-field one two, a move one one |
| Assembler.Assemble | sim_main.cpp:79-133 | the mnemonic is the first token, upper-cased (`MnemonicOf`, sim_main.cpp:82-85); fails exactly when the upper-cased mnemonic is not a table key, with that mnemonic in the error; otherwise gives the table entry's encoding of the operands read |
| Assembler.Encode | sim_main.cpp:92-130 | NOP gives `0x00`; an opcode gives a word with that opcode whose fields decode to the operands modulo their capacity |
| Assembler.Chain | sim_main.cpp:92-132 | the chain as written fails only on a name that no branch tests |
| Assembler.ChainArityMatchesTable | sim_main.cpp:95-130 | for every table key the chain reads as many operands as the entry's layout calls for |
| Assembler.ChainAgreesWithTable | sim_main.cpp:90-132 | for every table key the chain of tests gives the layout encoding of the table entry, so the closing throw is unreachable |
| Assembler.AssembleIgnoresCase | sim_main.cpp:85-87 | two spellings of a mnemonic that upper-case alike assemble alike |
| Assembler.NopInAnyCase | sim_main.cpp:92-94 | a line whose mnemonic is `nop` in any case assembles to `0x00`, whatever follows |
| Assembler.AssembleThenDecode | sim_main.cpp:90-130 | a known mnemonic always assembles, and its word decodes to the mnemonic's opcode and to each operand modulo its field's capacity |
| Assembler.UnknownNeverAssembles | sim_main.cpp:87-88 | a line whose mnemonic is not a key fails with `UnknownInstruction` of the upper-cased mnemonic |
| Assembler.AssembleLine | sim_main.cpp:79-133 | every line made of white space, a mnemonic in any case, the `int` operands it calls for (each after white space, signs and several digits allowed) and a space-led tail assembles to the table entry's encoding of the operands' values |
| ExampleProgram.AssembleAddiLine | sim_main.cpp:192 | `ADDI 0 0 3` assembles to `0x13` |
| ExampleProgram.AssembleMov1Line | sim_main.cpp:200 | `MOV1 6` assembles to `0xEC` |
| ExampleProgram.AssembleStoreLine | sim_main.cpp:205 | `STOR 2 2` assembles to `0xBA` |
| ExampleProgram.AssembleBranchLine | sim_main.cpp:256 | `B 2 2` assembles to `0xDA` |
| ExampleProgram.AssembleLowerCaseNop | sim_main.cpp:85-94 | `nop` in lower case assembles to the stall word |
| ExampleProgram.AssembleUnknownLine | sim_main.cpp:87-88 | `foo 1 2` fails with `UnknownInstruction("FOO")` |
| Batch.Words | sim_main.cpp:263 | the program never has more words than there are lines |
| Batch.Rejections | sim_main.cpp:264-266 | there are never more reports than lines |
| Batch.AssembleAll | sim_main.cpp:260-267 | the program has one word for every line not rejected |
| Batch.AssembleProgram | sim_main.cpp:260-267 | the loop's program is the words of the lines that assembled, in order, and its reports are the lines that threw, in order |
| Batch.WordsAppend | sim_main.cpp:260-267 | the program and the reports of two pieces of text are those of each piece, one after the other |
| Batch.WordsAndReportsPartition | sim_main.cpp:262-266 | every line adds either one word or one report, never both |
| Batch.NoLossIffNoFailure | sim_main.cpp:262-266 | every line reaches the program exactly when nothing is reported, exactly when every outcome succeeded |
| Batch.NoLossIffAllKnown | sim_main.cpp:260-267 | the program has one word per line exactly when every mnemonic of the text is a table key |
| Batch.SuccessLandsAtAddress | sim_main.cpp:263 | a line that assembles puts its word at its index minus the number of lines rejected before it |
| Batch.FailureIsSkipped | sim_main.cpp:264-266 | a rejected line adds nothing to the program, and its report sits between those of the lines around it |
| Batch.AssembledLineAddress | sim_main.cpp:260-267 | on the text: line `k`, when it assembles, has its word at address `k` minus the rejections before it |
| Batch.RejectedLineDropped | sim_main.cpp:260-267 | on the text: the program is the one the text gives without a rejected line |
| Testbench.Cpu.Eval | sim_main.cpp:140 | evaluation changes only the data-memory output; every pin the driver sets keeps its value |
| Testbench.Testbench.constructor | sim_main.cpp:156-164 | a new driver on a new CPU, time 0, nothing dumped, nothing read back |
| Testbench.Testbench.Tick | sim_main.cpp:138-148 | the time advances by 2, the clock is left low, the inputs are unchanged, and when tracing two dumps are appended at the two time stamps, clock high then low |
| Testbench.Testbench.Edge | sim_main.cpp:139-142 | one half of a tick: the clock at the given level, one evaluation, one dump stamped with the old time, the time advanced by 1 |
| Testbench.Testbench.Reset | sim_main.cpp:269-277 | one tick with reset, program-memory reset and service mode high and write-enable low; both resets released afterwards |
| Testbench.Testbench.WriteWord | sim_main.cpp:281-284 | one load iteration: address, word and write-enable on the pins during one tick |
| Testbench.Testbench.Load | sim_main.cpp:279-286 | tick `a` of the load drives address `a`, word `program[a]` and write-enable; `2 * N` time units pass; write-enable is low afterwards |
| Testbench.Testbench.Run | sim_main.cpp:288-294 | service mode off, then 256 ticks with the inputs untouched |
| Testbench.Testbench.ReadCycle | sim_main.cpp:299-304 | one tick, then the cycle put on the data-memory address and the output left by that tick recorded as readout `c` |
| Testbench.Testbench.Readback | sim_main.cpp:296-305 | service mode on, 16 ticks; tick `c` evaluates with the address set in cycle `c - 1`, and 16 readouts `(c, output)` are recorded in order |
| Testbench.Testbench.BringUp | sim_main.cpp:269-286 | reset then load, `2 + 2 * N` time units |
| Testbench.Testbench.Execute | sim_main.cpp:288-305 | run then readback, `2 * (256 + 16)` time units and 16 readouts |
| Testbench.Testbench.Session | sim_main.cpp:269-305 | a session takes `1 + N + 256 + 16` ticks, leaves the dumps of every phase in order and appends 16 readouts |
| Testbench.SessionOnPins | sim_main.cpp:269-305 | on the dumped pins: load tick `a` writes `program[a]` at address `a` with write-enable set, in service mode and out of reset; every run tick has write-enable and service mode low; readback tick `c > 0` shows address `c - 1`, and readout `c` is cycle `c` with that tick's output |
| Simulation.Simulate | sim_main.cpp:153-312 | `main` end to end: the reports are the rejected lines, the session runs on the assembled program from the power-up pins, lasting `2 * (1 + N + 256 + 16)` time units with 16 readouts |

## Left out

- Console output (`std::cout`, `std::cerr`): the readout lines and the error
  reports are values (`readback`, `rejected`), not printed text; the
  hexadecimal formatting is not modelled.
- The VCD writer: opening, closing and the file format of `cpu8_trace.vcd`.
  A dump is a `Sample` of the pins with its time stamp, appended to `trace`.
- `Verilated::commandArgs`, `traceEverOn`, `top->trace(tfp, 99)`, `new` and
  `delete`: set-up and tear-down with no effect on the driven pins.
- What the processor computes in `eval`: the generated model is not part of
  this model, so `Cpu.Eval` leaves the data-memory output arbitrary and the
  run phase says nothing about the program's effect (the Fibonacci numbers
  the example program is meant to leave in data memory).
- `alu_8_tb.cpp` and `cpu_8_tb.cpp`, the other testbenches, are not part of
  this model.
- Testbench.Testbench.Reset, Load, Run, Readback, Session, BringUp,
  Execute, WriteWord, ReadCycle: require a trace to be open, because `main`
  always opens one; `Tick` and `Edge` model the `if (tfp)` test both ways.
- Assembler.Assemble: requires well-formed operands (`OperandsWellFormed`).
  Not modelled: a non-numeric operand token, which `iss >> x` turns into 0;
  a missing operand, which leaves `x` indeterminate; and an operand token
  with characters after its digits (`3;`, `2//loop`), which `iss >> x`
  reads as its numeric prefix but which the model does not count as an
  `int` token.
- Lexer.ReadInts: reads numerals in the range of a 32-bit `int`; the
  overflow behaviour of `iss >> x` on a numeral out of that range is not
  modelled (such a token is not well-formed here).
- Pin widths: the address pins are unbounded naturals; the Verilated
  pin widths (and the truncation of `size_t addr` and `int cycle` on
  assignment to them) are not modelled.
