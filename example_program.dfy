/** The example program the testbench assembles: a handful of its lines,
    assembled by hand and checked against the assembler. */
module ExampleProgram {
  import opened Isa
  import opened Lexer
  import opened Assembler

  // ---------------------------------------------------------------------
  // The words the encoders build for them
  // ---------------------------------------------------------------------

  /** rd 0, ra 0, rb 3 under opcode 1: 0001 0 0 11. */
  lemma AddiWord()
    ensures MakeAluOp(ADDI, 0, 0, 3) == 0x13 && Encode(Op(ADDI), [0, 0, 3]) == 0x13
  {
    var expected: Word := 0x13;
    assert (expected >> 4) as int == 1 && OpcodeOf(expected) == ADDI;
    assert AluRd(expected) == 0 && AluRa(expected) == 0 && LowField(expected) == 3;
    AluSlicesDetermineWord(MakeAluOp(ADDI, 0, 0, 3), expected);
  }

  /** Register 6 under opcode 14: 1110 110 0. */
  lemma Mov1Word()
    ensures MakeMov1(6) == 0xEC && Encode(Op(MOV1), [6]) == 0xEC
  {
    var expected: Word := 0xEC;
    assert (expected >> 4) as int == 14 && OpcodeOf(expected) == MOV1;
    assert MoveReg(expected) == 6 && BitZero(expected) == 0;
    MoveSlicesDetermineWord(MakeMov1(6), expected);
  }

  /** Condition 2 and register 2 under opcode 13: 1101 10 10. */
  lemma BranchWord()
    ensures MakeB(2, 2) == 0xDA && Encode(Op(B), [2, 2]) == 0xDA
  {
    var expected: Word := 0xDA;
    assert (expected >> 4) as int == 13 && OpcodeOf(expected) == B;
    assert PairFirst(expected) == 2 && LowField(expected) == 2;
    PairSlicesDetermineWord(MakeB(2, 2), expected);
  }

  /** Fields 2 and 2 under opcode 11: 1011 10 10. */
  lemma StoreWord()
    ensures MakeStor(2, 2) == 0xBA && Encode(Op(STOR), [2, 2]) == 0xBA
  {
    var expected: Word := 0xBA;
    assert (expected >> 4) as int == 11 && OpcodeOf(expected) == STOR;
    assert PairFirst(expected) == 2 && LowField(expected) == 2;
    PairSlicesDetermineWord(MakeStor(2, 2), expected);
  }

  // ---------------------------------------------------------------------
  // Reading the lines
  // ---------------------------------------------------------------------

  /** These mnemonics are words, already upper case. */
  lemma MnemonicsAreUpperCase()
    ensures IsWord("ADDI") && IsWord("MOV1") && IsWord("B") && IsWord("STOR")
    ensures ToUpper("ADDI") == "ADDI" && ToUpper("MOV1") == "MOV1"
    ensures ToUpper("B") == "B" && ToUpper("STOR") == "STOR"
  {
  }

  /** The operand tokens of these lines and their values. */
  lemma OperandTokens()
    ensures IsIntToken("0") && NumeralValue("0") == 0
    ensures IsIntToken("2") && NumeralValue("2") == 2
    ensures IsIntToken("3") && NumeralValue("3") == 3
    ensures IsIntToken("6") && NumeralValue("6") == 6
  {
    assert "0"[1..] == "2"[1..] == "3"[1..] == "6"[1..] == [];
  }

  /** One space before each operand. */
  lemma SingleSpaces()
    ensures Separators([" "]) && Separators([" ", " "]) && Separators([" ", " ", " "])
  {
  }

  /** The line in its parsed form assembles to the entry's encoding. */
  lemma AddiLineParsed()
    ensures OperandsWellFormed("" + "ADDI" + Joined([" ", " ", " "], ["0", "0", "3"], ""))
    ensures Assemble("" + "ADDI" + Joined([" ", " ", " "], ["0", "0", "3"], "")) == Success(Encode(Op(ADDI), [0, 0, 3]))
  {
    MnemonicsAreUpperCase();
    OperandTokens();
    SingleSpaces();
    ArithmeticEntries();
    var ts := ["0", "0", "3"];
    assert AllIntTokens(ts) && NumeralValues(ts) == [0, 0, 3];
    AssembleLine("", "ADDI", [" ", " ", " "], ts, "");
  }

  /** `ADDI 0 0 3` adds 3 to register 2: opcode 1, rd 0, ra 0, rb 3. */
  lemma AssembleAddiLine()
    ensures OperandsWellFormed("ADDI 0 0 3") && Assemble("ADDI 0 0 3") == Success(0x13)
  {
    assert "ADDI 0 0 3" == "" + "ADDI" + Joined([" ", " ", " "], ["0", "0", "3"], "");
    AddiLineParsed();
    AddiWord();
  }

  /** The line in its parsed form assembles to the entry's encoding. */
  lemma Mov1LineParsed()
    ensures OperandsWellFormed("" + "MOV1" + Joined([" "], ["6"], ""))
    ensures Assemble("" + "MOV1" + Joined([" "], ["6"], "")) == Success(Encode(Op(MOV1), [6]))
  {
    MnemonicsAreUpperCase();
    OperandTokens();
    SingleSpaces();
    PairAndMoveEntries();
    var ts := ["6"];
    assert AllIntTokens(ts) && NumeralValues(ts) == [6];
    AssembleLine("", "MOV1", [" "], ts, "");
  }

  /** `MOV1 6`, the first half of a move into register 6: opcode 14, register 6. */
  lemma AssembleMov1Line()
    ensures OperandsWellFormed("MOV1 6") && Assemble("MOV1 6") == Success(0xEC)
  {
    assert "MOV1 6" == "" + "MOV1" + Joined([" "], ["6"], "");
    Mov1LineParsed();
    Mov1Word();
  }

  /** The line in its parsed form assembles to the entry's encoding. */
  lemma BranchLineParsed()
    ensures OperandsWellFormed("" + "B" + Joined([" ", " "], ["2", "2"], ""))
    ensures Assemble("" + "B" + Joined([" ", " "], ["2", "2"], "")) == Success(Encode(Op(B), [2, 2]))
  {
    MnemonicsAreUpperCase();
    OperandTokens();
    SingleSpaces();
    PairAndMoveEntries();
    var ts := ["2", "2"];
    assert AllIntTokens(ts) && NumeralValues(ts) == [2, 2];
    AssembleLine("", "B", [" ", " "], ts, "");
  }

  /** `B 2 2`, the loop's closing branch: opcode 13, condition 2, register 2. */
  lemma AssembleBranchLine()
    ensures OperandsWellFormed("B 2 2") && Assemble("B 2 2") == Success(0xDA)
  {
    assert "B 2 2" == "" + "B" + Joined([" ", " "], ["2", "2"], "");
    BranchLineParsed();
    BranchWord();
  }

  /** The line in its parsed form assembles to the entry's encoding. */
  lemma StoreLineParsed()
    ensures OperandsWellFormed("" + "STOR" + Joined([" ", " "], ["2", "2"], ""))
    ensures Assemble("" + "STOR" + Joined([" ", " "], ["2", "2"], "")) == Success(Encode(Op(STOR), [2, 2]))
  {
    MnemonicsAreUpperCase();
    OperandTokens();
    SingleSpaces();
    PairAndMoveEntries();
    var ts := ["2", "2"];
    assert AllIntTokens(ts) && NumeralValues(ts) == [2, 2];
    AssembleLine("", "STOR", [" ", " "], ts, "");
  }

  /** `STOR 2 2`: opcode 11, both fields 2. */
  lemma AssembleStoreLine()
    ensures OperandsWellFormed("STOR 2 2") && Assemble("STOR 2 2") == Success(0xBA)
  {
    assert "STOR 2 2" == "" + "STOR" + Joined([" ", " "], ["2", "2"], "");
    StoreLineParsed();
    StoreWord();
  }

  /** `nop` in lower case is the stall word. */
  lemma AssembleLowerCaseNop()
    ensures OperandsWellFormed("nop") && Assemble("nop") == Success(0x00)
  {
    assert "nop" == "" + "nop" + "";
    NextTokenOfWord("", "nop", "");
    assert ToUpper("nop") == "NOP";
    NopInAnyCase("nop");
  }

  /** A mnemonic outside the table, whatever its operands, is reported with
      its upper-cased spelling. */
  lemma AssembleUnknownLine()
    ensures OperandsWellFormed("foo 1 2")
    ensures Assemble("foo 1 2") == Failure(UnknownInstruction("FOO"))
  {
    assert "foo 1 2" == "" + "foo" + " 1 2";
    NextTokenOfWord("", "foo", " 1 2");
    assert ToUpper("foo") == "FOO";
    TableKeys("FOO");
    UnknownNeverAssembles("foo 1 2");
  }
}
