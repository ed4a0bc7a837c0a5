/** The one-line assembler: the mnemonic table, `assemble` and the chain of
    name tests inside it. An unknown mnemonic, which `assemble` reports by
    throwing, is a `Failure` here. */
module Assembler {
  import opened Isa
  import opened Lexer

  datatype Result<+T, +E> = Success(value: T) | Failure(error: E)

  /** What the mnemonic table maps a name to: an opcode, or the NOP sentinel
      (stored in the source as the out-of-range enumerator -1). */
  datatype Mnemonic = Nop | Op(opcode: Opcode)

  /** The two exceptions `assemble` can throw. */
  datatype AsmError =
    | UnknownInstruction(mnemonic: string)
    | UnsupportedMnemonic(mnemonic: string)

  /** `opcodeMap`: the 16 opcode names and NOP, upper case. */
  const OpcodeMap: map<string, Mnemonic> := map[
    "ADD" := Op(ADD), "ADDI" := Op(ADDI), "SUB" := Op(SUB), "SUBI" := Op(SUBI),
    "AND" := Op(AND), "OR" := Op(OR), "XOR" := Op(XOR), "NOT" := Op(NOT),
    "LSL" := Op(LSL), "LSR" := Op(LSR), "LDUR" := Op(LDUR), "STOR" := Op(STOR),
    "CMP" := Op(CMP), "B" := Op(B), "MOV1" := Op(MOV1), "MOV2" := Op(MOV2),
    "NOP" := Nop
  ]

  /** The number of `int` operands `assemble` reads after each mnemonic. */
  function Arity(m: Mnemonic): (n: nat)
    ensures m.Op? && m.opcode.IsAlu() ==> n == 3
    ensures m.Op? && m.opcode.IsPair() ==> n == 2
    ensures m.Op? && m.opcode.IsMove() ==> n == 1
  {
    match m
    case Nop => 0
    case Op(opcode) =>
      if opcode.IsAlu() then 3 else if opcode.IsMove() then 1 else 2
  }

  /** The first token of the line, upper-cased: the key looked up in the table. */
  function MnemonicOf(line: string): string {
    ToUpper(NextToken(line).0)
  }

  /** The operands the mnemonic of `line` calls for are there and are `int`
      numerals. `assemble` does not check this (a missing or malformed
      operand leaves its variable unset), so it is demanded of the caller. */
  predicate OperandsWellFormed(line: string) {
    var m := MnemonicOf(line);
    m in OpcodeMap ==> HasInts(NextToken(line).1, Arity(OpcodeMap[m]))
  }

  /** `assemble`: read the mnemonic, upper-case it, look it up, then run the
      chain of name tests, which reads as many `int` operands as the name
      calls for and encodes them. Fails exactly when the mnemonic is not a
      table key, carrying the upper-cased token; the chain's own closing
      error is never reached. A successful word is the table entry's
      encoding of the operands read. */
  function Assemble(line: string): (r: Result<Word, AsmError>)
    requires OperandsWellFormed(line)
    ensures r.Failure? <==> MnemonicOf(line) !in OpcodeMap
    ensures r.Failure? ==> r.error == UnknownInstruction(MnemonicOf(line))
    ensures r.Success? ==> r.value == Encode(OpcodeMap[MnemonicOf(line)], Operands(line))
  {
    var next := NextToken(line);
    var mnemonic := ToUpper(next.0);
    if mnemonic !in OpcodeMap then Failure(UnknownInstruction(mnemonic))
    else
      var entry := OpcodeMap[mnemonic];
      // NOP's entry is the out-of-range enumerator -1, which its branch never reads.
      var opc := if entry.Op? then entry.opcode else ADD;
      ChainArityMatchesTable(mnemonic);
      var v := ReadInts(next.1, ChainArity(mnemonic));
      ChainAgreesWithTable(mnemonic, opc, v);
      Chain(mnemonic, opc, v)
  }

  /** What a table entry assembles to, by layout: NOP gives the zero word,
      and an opcode gives a word whose fields decode to the operands reduced
      modulo their capacity. `ChainAgreesWithTable` shows that the chain of
      name tests in `assemble` computes exactly this for every key. */
  function Encode(entry: Mnemonic, v: seq<CInt>): (w: Word)
    requires |v| == Arity(entry)
    ensures match entry
      case Nop => w == 0x00
      case Op(opcode) =>
        OpcodeOf(w) == opcode
        && (opcode.IsAlu() ==> AluRd(w) == v[0] % 2 && AluRa(w) == v[1] % 2 && LowField(w) == v[2] % 4)
        && (opcode.IsPair() ==> PairFirst(w) == v[0] % 4 && LowField(w) == v[1] % 4)
        && (opcode.IsMove() ==> MoveReg(w) == v[0] % 8 && BitZero(w) == 0)
  {
    match entry
    case Nop => MakeNop()
    case Op(opcode) =>
      if opcode.IsAlu() then MakeAluOp(opcode, v[0], v[1], v[2])
      else if opcode == LDUR then MakeLoad(v[0], v[1])
      else if opcode == STOR then MakeStor(v[0], v[1])
      else if opcode == B then MakeB(v[0], v[1])
      else if opcode == CMP then MakeCmp(v[0], v[1])
      else if opcode == MOV1 then MakeMov1(v[0])
      else MakeMov2(v[0])
  }

  /** The table's keys are exactly the seventeen names the chain of tests in
      `assemble` compares against: every key is caught by some branch. */
  lemma TableKeys(m: string)
    ensures m in OpcodeMap <==>
      m == "NOP" || m == "ADD" || m == "ADDI" || m == "SUB" || m == "SUBI"
      || m == "AND" || m == "OR" || m == "XOR" || m == "NOT" || m == "LSL" || m == "LSR"
      || m == "LDUR" || m == "STOR" || m == "B" || m == "CMP" || m == "MOV1" || m == "MOV2"
  {
  }

  /** The table's entries, key by key: each name tested in the chain maps to
      the opcode of the encoder its branch calls (NOP to the sentinel). */
  lemma TableEntries()
    ensures OpcodeMap["NOP"] == Nop
    ensures OpcodeMap["ADD"] == Op(ADD) && OpcodeMap["ADDI"] == Op(ADDI)
    ensures OpcodeMap["SUB"] == Op(SUB) && OpcodeMap["SUBI"] == Op(SUBI)
    ensures OpcodeMap["AND"] == Op(AND) && OpcodeMap["OR"] == Op(OR)
    ensures OpcodeMap["XOR"] == Op(XOR) && OpcodeMap["NOT"] == Op(NOT)
    ensures OpcodeMap["LSL"] == Op(LSL) && OpcodeMap["LSR"] == Op(LSR)
    ensures OpcodeMap["LDUR"] == Op(LDUR) && OpcodeMap["STOR"] == Op(STOR)
    ensures OpcodeMap["CMP"] == Op(CMP) && OpcodeMap["B"] == Op(B)
    ensures OpcodeMap["MOV1"] == Op(MOV1) && OpcodeMap["MOV2"] == Op(MOV2)
  {
    ArithmeticEntries();
    LogicEntries();
    PairAndMoveEntries();
  }

  /** NOP and the add and subtract names. */
  lemma ArithmeticEntries()
    ensures "NOP" in OpcodeMap && OpcodeMap["NOP"] == Nop
    ensures "ADD" in OpcodeMap && OpcodeMap["ADD"] == Op(ADD) && "ADDI" in OpcodeMap && OpcodeMap["ADDI"] == Op(ADDI)
    ensures "SUB" in OpcodeMap && OpcodeMap["SUB"] == Op(SUB) && "SUBI" in OpcodeMap && OpcodeMap["SUBI"] == Op(SUBI)
  {
  }

  /** The logic and shift names. */
  lemma LogicEntries()
    ensures "AND" in OpcodeMap && OpcodeMap["AND"] == Op(AND) && "OR" in OpcodeMap && OpcodeMap["OR"] == Op(OR)
    ensures "XOR" in OpcodeMap && OpcodeMap["XOR"] == Op(XOR) && "NOT" in OpcodeMap && OpcodeMap["NOT"] == Op(NOT)
    ensures "LSL" in OpcodeMap && OpcodeMap["LSL"] == Op(LSL) && "LSR" in OpcodeMap && OpcodeMap["LSR"] == Op(LSR)
  {
  }

  /** The two-field and move names. */
  lemma PairAndMoveEntries()
    ensures "LDUR" in OpcodeMap && OpcodeMap["LDUR"] == Op(LDUR) && "STOR" in OpcodeMap && OpcodeMap["STOR"] == Op(STOR)
    ensures "CMP" in OpcodeMap && OpcodeMap["CMP"] == Op(CMP) && "B" in OpcodeMap && OpcodeMap["B"] == Op(B)
    ensures "MOV1" in OpcodeMap && OpcodeMap["MOV1"] == Op(MOV1) && "MOV2" in OpcodeMap && OpcodeMap["MOV2"] == Op(MOV2)
  {
  }

  /** The enumerator's own spelling. */
  function NameOf(op: Opcode): string {
    match op
    case ADD => "ADD"
    case ADDI => "ADDI"
    case SUB => "SUB"
    case SUBI => "SUBI"
    case AND => "AND"
    case OR => "OR"
    case XOR => "XOR"
    case NOT => "NOT"
    case LSL => "LSL"
    case LSR => "LSR"
    case LDUR => "LDUR"
    case STOR => "STOR"
    case CMP => "CMP"
    case B => "B"
    case MOV1 => "MOV1"
    case MOV2 => "MOV2"
  }

  /** Every opcode can be written: the table holds it under its own name. */
  lemma EveryOpcodeNamed(op: Opcode)
    ensures NameOf(op) in OpcodeMap && OpcodeMap[NameOf(op)] == Op(op)
  {
    ArithmeticEntries();
    LogicEntries();
    PairAndMoveEntries();
  }

  /** No two names share an entry: NOP alone maps to the sentinel, and every
      other key maps to the opcode that it spells. */
  lemma EntrySpellsItsKey(m: string)
    requires m in OpcodeMap
    ensures OpcodeMap[m] == Nop <==> m == "NOP"
    ensures OpcodeMap[m].Op? ==> NameOf(OpcodeMap[m].opcode) == m
  {
    TableKeys(m);
    if m == "NOP" || IsAluName(m) {
      ArithmeticEntries();
      LogicEntries();
    } else {
      PairAndMoveEntries();
    }
  }

  /** How many operands the name-testing chain reads for the name `m`. */
  function ChainArity(m: string): nat {
    if m == "NOP" then 0
    else if IsAluName(m) then 3
    else if IsPairName(m) then 2
    else if m == "MOV1" || m == "MOV2" then 1
    else 0
  }

  /** The chain of tests in `assemble` as written, on the upper-cased name
      `m`, the table's entry `opc` for it and the operands `v` read for it:
      each branch calls its encoder, and a name no branch tests reaches the
      closing `unsupported mnemonic` error. */
  function Chain(m: string, opc: Opcode, v: seq<CInt>): (r: Result<Word, AsmError>)
    requires |v| == ChainArity(m)
    ensures r.Failure? <==> ChainArity(m) == 0 && m != "NOP"
  {
    if m == "NOP" then Success(MakeNop())
    else if m == "ADD" || m == "ADDI" || m == "SUB" || m == "SUBI" || m == "AND"
      || m == "OR" || m == "XOR" || m == "NOT" || m == "LSL" || m == "LSR" then
      Success(MakeAluOp(opc, v[0], v[1], v[2]))
    else if m == "LDUR" then Success(MakeLoad(v[0], v[1]))
    else if m == "STOR" then Success(MakeStor(v[0], v[1]))
    else if m == "B" then Success(MakeB(v[0], v[1]))
    else if m == "CMP" then Success(MakeCmp(v[0], v[1]))
    else if m == "MOV1" then Success(MakeMov1(v[0]))
    else if m == "MOV2" then Success(MakeMov2(v[0]))
    else Failure(UnsupportedMnemonic(m))
  }

  /** For every table key, the chain of name tests reads as many operands as
      the table entry's layout calls for. */
  lemma ChainArityMatchesTable(m: string)
    requires m in OpcodeMap
    ensures ChainArity(m) == Arity(OpcodeMap[m])
  {
    TableKeys(m);
    if m == "NOP" {
      ArithmeticEntries();
    } else if IsAluName(m) {
      AluArity(m);
    } else if IsPairName(m) {
      PairArity(m);
    } else {
      MoveArity(m);
    }
  }

  /** The names the chain sends to `makeALUOP`. */
  predicate IsAluName(m: string) {
    m == "ADD" || m == "ADDI" || m == "SUB" || m == "SUBI" || m == "AND"
    || m == "OR" || m == "XOR" || m == "NOT" || m == "LSL" || m == "LSR"
  }

  /** The names the chain sends to a two-field encoder. */
  predicate IsPairName(m: string) {
    m == "LDUR" || m == "STOR" || m == "B" || m == "CMP"
  }

  /** The chain and the table agree on three operands for ALU names. */
  lemma AluArity(m: string)
    requires IsAluName(m)
    ensures m in OpcodeMap && ChainArity(m) == 3 && Arity(OpcodeMap[m]) == 3
  {
    if m == "ADD" || m == "ADDI" || m == "SUB" || m == "SUBI" {
      ArithmeticArity(m);
    } else {
      LogicArity(m);
    }
  }

  /** Three operands for the add and subtract names. */
  lemma ArithmeticArity(m: string)
    requires m == "ADD" || m == "ADDI" || m == "SUB" || m == "SUBI"
    ensures m in OpcodeMap && ChainArity(m) == 3 && Arity(OpcodeMap[m]) == 3
  {
    ArithmeticEntries();
  }

  /** Three operands for the logic and shift names. */
  lemma LogicArity(m: string)
    requires m == "AND" || m == "OR" || m == "XOR" || m == "NOT" || m == "LSL" || m == "LSR"
    ensures m in OpcodeMap && ChainArity(m) == 3 && Arity(OpcodeMap[m]) == 3
  {
    LogicEntries();
  }

  /** Two operands for the two-field names. */
  lemma PairArity(m: string)
    requires IsPairName(m)
    ensures m in OpcodeMap && ChainArity(m) == 2 && Arity(OpcodeMap[m]) == 2
  {
    PairAndMoveEntries();
  }

  /** One operand for the move names. */
  lemma MoveArity(m: string)
    requires m == "MOV1" || m == "MOV2"
    ensures m in OpcodeMap && ChainArity(m) == 1 && Arity(OpcodeMap[m]) == 1
  {
    PairAndMoveEntries();
  }

  /** For every table key, the chain of name tests reads as many operands as
      the entry calls for and builds the same word as `Encode` on the entry:
      no key reaches the closing `unsupported mnemonic` error. */
  lemma ChainAgreesWithTable(m: string, opc: Opcode, v: seq<CInt>)
    requires m in OpcodeMap && |v| == Arity(OpcodeMap[m])
    requires OpcodeMap[m].Op? ==> opc == OpcodeMap[m].opcode
    ensures ChainArity(m) == Arity(OpcodeMap[m])
    ensures Chain(m, opc, v) == Success(Encode(OpcodeMap[m], v))
  {
    ChainArityMatchesTable(m);
    TableKeys(m);
    TableEntries();
    if m == "NOP" {
    } else if m == "ADD" {
      assert OpcodeMap[m] == Op(ADD) && opc == ADD;
    } else if m == "ADDI" {
      assert OpcodeMap[m] == Op(ADDI) && opc == ADDI;
    } else if m == "SUB" {
      assert OpcodeMap[m] == Op(SUB) && opc == SUB;
    } else if m == "SUBI" {
      assert OpcodeMap[m] == Op(SUBI) && opc == SUBI;
    } else if m == "AND" {
      assert OpcodeMap[m] == Op(AND) && opc == AND;
    } else if m == "OR" {
      assert OpcodeMap[m] == Op(OR) && opc == OR;
    } else if m == "XOR" {
      assert OpcodeMap[m] == Op(XOR) && opc == XOR;
    } else if m == "NOT" {
      assert OpcodeMap[m] == Op(NOT) && opc == NOT;
    } else if m == "LSL" {
      assert OpcodeMap[m] == Op(LSL) && opc == LSL;
    } else if m == "LSR" {
      assert OpcodeMap[m] == Op(LSR) && opc == LSR;
    } else if m == "LDUR" {
      assert OpcodeMap[m] == Op(LDUR) && opc == LDUR;
    } else if m == "STOR" {
      assert OpcodeMap[m] == Op(STOR) && opc == STOR;
    } else if m == "CMP" {
      assert OpcodeMap[m] == Op(CMP) && opc == CMP;
    } else if m == "B" {
      assert OpcodeMap[m] == Op(B) && opc == B;
    } else if m == "MOV1" {
      assert OpcodeMap[m] == Op(MOV1) && opc == MOV1;
    } else if m == "MOV2" {
      assert OpcodeMap[m] == Op(MOV2) && opc == MOV2;
    }
  }

  // ---------------------------------------------------------------------
  // Properties of one line
  // ---------------------------------------------------------------------

  /** The operands `assemble` reads for a known mnemonic. */
  function Operands(line: string): (v: seq<CInt>)
    requires OperandsWellFormed(line) && MnemonicOf(line) in OpcodeMap
    ensures |v| == Arity(OpcodeMap[MnemonicOf(line)])
  {
    ReadInts(NextToken(line).1, Arity(OpcodeMap[MnemonicOf(line)]))
  }

  /** Mnemonics match whatever their letter case: two spellings of the
      mnemonic that upper-case alike assemble alike, with the same operands. */
  lemma AssembleIgnoresCase(spaces: string, m1: string, m2: string, rest: string)
    requires AllSpaces(spaces) && IsWord(m1) && IsWord(m2) && ToUpper(m1) == ToUpper(m2)
    requires rest == [] || IsSpace(rest[0])
    requires OperandsWellFormed(spaces + m1 + rest)
    ensures OperandsWellFormed(spaces + m2 + rest)
    ensures Assemble(spaces + m1 + rest) == Assemble(spaces + m2 + rest)
  {
    NextTokenOfWord(spaces, m1, rest);
    NextTokenOfWord(spaces, m2, rest);
  }

  /** A line whose mnemonic is `nop` in any letter case assembles to the zero
      word, whatever follows it. */
  lemma NopInAnyCase(line: string)
    requires MnemonicOf(line) == "NOP"
    ensures OperandsWellFormed(line) && Assemble(line) == Success(0x00)
  {
    ArithmeticEntries();
  }

  /** Decoding an assembled line's word gives back the mnemonic's opcode and
      every operand the line supplies, reduced modulo its field's capacity. */
  lemma AssembleThenDecode(line: string)
    requires OperandsWellFormed(line) && MnemonicOf(line) in OpcodeMap
    ensures Assemble(line).Success?
    ensures var w, v := Assemble(line).value, Operands(line);
      match OpcodeMap[MnemonicOf(line)]
      case Nop => w == 0x00
      case Op(opcode) =>
        OpcodeOf(w) == opcode
        && (opcode.IsAlu() ==> AluRd(w) == v[0] % 2 && AluRa(w) == v[1] % 2 && LowField(w) == v[2] % 4)
        && (opcode.IsPair() ==> PairFirst(w) == v[0] % 4 && LowField(w) == v[1] % 4)
        && (opcode.IsMove() ==> MoveReg(w) == v[0] % 8 && BitZero(w) == 0)
  {
    var entry := OpcodeMap[MnemonicOf(line)];
    assert Assemble(line).value == Encode(entry, Operands(line));
  }

  /** A line whose mnemonic is not a table key never yields a word. */
  lemma UnknownNeverAssembles(line: string)
    requires MnemonicOf(line) !in OpcodeMap
    ensures OperandsWellFormed(line)
    ensures Assemble(line) == Failure(UnknownInstruction(MnemonicOf(line)))
  {
  }

  /** Any line of the shape the program text uses: white space, a mnemonic
      in any letter case, as many `int` operands as it calls for, each after
      its own white space, and any space-led tail, which is never read. It
      assembles to the table entry's encoding of the operands' values. */
  lemma AssembleLine(spaces: string, m: string, seps: seq<string>, ts: seq<string>, tail: string)
    requires AllSpaces(spaces) && IsWord(m) && ToUpper(m) in OpcodeMap
    requires |seps| == |ts| == Arity(OpcodeMap[ToUpper(m)]) && Separators(seps) && AllIntTokens(ts)
    requires tail == [] || IsSpace(tail[0])
    ensures OperandsWellFormed(spaces + m + Joined(seps, ts, tail))
    ensures Assemble(spaces + m + Joined(seps, ts, tail)) == Success(Encode(OpcodeMap[ToUpper(m)], NumeralValues(ts)))
  {
    var rest := Joined(seps, ts, tail);
    var line := spaces + m + rest;
    ReadJoinedTokens(seps, ts, tail);
    JoinedSpaceLed(seps, ts, tail);
    NextTokenOfWord(spaces, m, rest);
    assert MnemonicOf(line) == ToUpper(m);
    assert Operands(line) == NumeralValues(ts);
  }
}
