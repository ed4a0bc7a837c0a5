/** The instruction set of the 8-bit processor: the opcode enumeration, C's
    `int & mask` on two's-complement integers, the eight packing functions of
    the encoder, the bit-slice decoders that invert them, and the round-trip
    facts that tie the two together. */
module Isa {

  /** A C `int`: the type of every operand the encoder receives. */
  type CInt = x: int | -0x8000_0000 <= x < 0x8000_0000

  /** Width of a C `int` in bits. */
  const IntWidth: nat := 32

  /** An instruction word: the 8-bit value exchanged between the assembler and
      the program memory. */
  type Word = bv8

  /** The 16 opcode classes; `Code()` is the enumerator's value, which always
      lands in bits 7-4 of the word. */
  datatype Opcode =
    | ADD | ADDI | SUB | SUBI | AND | OR | XOR | NOT | LSL | LSR
    | LDUR | STOR | CMP | B | MOV1 | MOV2
  {
    function Code(): (c: nat)
      ensures c < 16
    {
      match this
      case ADD => 0x0
      case ADDI => 0x1
      case SUB => 0x2
      case SUBI => 0x3
      case AND => 0x4
      case OR => 0x5
      case XOR => 0x6
      case NOT => 0x7
      case LSL => 0x8
      case LSR => 0x9
      case LDUR => 0xA
      case STOR => 0xB
      case CMP => 0xC
      case B => 0xD
      case MOV1 => 0xE
      case MOV2 => 0xF
    }

    /** LDUR, STOR, CMP and B: the layout with two 2-bit fields. */
    predicate IsPair() {
      this == LDUR || this == STOR || this == CMP || this == B
    }

    /** MOV1 and MOV2: the layout with one 3-bit field and bit 0 clear. */
    predicate IsMove() {
      this == MOV1 || this == MOV2
    }

    /** The other ten opcodes have the ALU layout rd:1, ra:1, rb:2. */
    predicate IsAlu() {
      !IsPair() && !IsMove()
    }
  }

  /** The enumerator whose value is `c`: the inverse of `Code`. */
  function OpcodeFromCode(c: nat): (op: Opcode)
    requires c < 16
    ensures op.Code() == c
  {
    if c == 0x0 then ADD else if c == 0x1 then ADDI
    else if c == 0x2 then SUB else if c == 0x3 then SUBI
    else if c == 0x4 then AND else if c == 0x5 then OR
    else if c == 0x6 then XOR else if c == 0x7 then NOT
    else if c == 0x8 then LSL else if c == 0x9 then LSR
    else if c == 0xA then LDUR else if c == 0xB then STOR
    else if c == 0xC then CMP else if c == 0xD then B
    else if c == 0xE then MOV1 else MOV2
  }

  /** The ALU opcodes are exactly the ten with the lowest values, 0 to 9. */
  lemma AluOpcodesComeFirst(op: Opcode)
    ensures op.IsAlu() <==> op.Code() < 10
  {
  }

  lemma CodeRoundTrip(op: Opcode)
    ensures OpcodeFromCode(op.Code()) == op
  {
  }

  // ---------------------------------------------------------------------
  // C's `&` on two's-complement integers
  // ---------------------------------------------------------------------

  function Pow2(k: nat): (p: nat)
    ensures p >= 1
  {
    if k == 0 then 1 else 2 * Pow2(k - 1)
  }

  /** `x & y` on two's-complement integers, for a mask `y >= 0`. Bit 0 of an
      integer is `x % 2` and the remaining bits are those of `x / 2`; Dafny's
      `/` by 2 rounds toward minus infinity, which is the arithmetic right
      shift, so a negative `x` contributes its two's-complement bits. Every
      bit of a non-negative `y` above its highest set bit is zero, so the
      recursion stops when `y` reaches 0. */
  function BitAnd(x: int, y: int): (r: int)
    requires y >= 0
    ensures 0 <= r <= y
    decreases y
  {
    if y == 0 then 0
    else 2 * BitAnd(x / 2, y / 2) + (if x % 2 == 1 && y % 2 == 1 then 1 else 0)
  }

  /** `x & (2^k - 1)` on a C int: the operand masked to a field of `k` bits
      (the mask is a non-negative `int` for every `k` below the width). */
  function Field(x: CInt, k: nat): (f: int)
    requires k < IntWidth
    ensures 0 <= f < Pow2(k)
  {
    BitAnd(x, Pow2(k) - 1)
  }

  /** Euclidean division is unique: a quotient and remainder in range are
      the ones `/` and `%` compute. */
  lemma ModUnique(x: int, m: nat, q: int, r: int)
    requires m > 0 && x == m * q + r && 0 <= r < m
    ensures x % m == r
  {
    var q', r' := x / m, x % m;
    assert m * (q - q') == r' - r by {
      assert m * q + r == m * q' + r';
    }
    if q > q' {
      MulAtLeast(m, q - q');
    } else if q < q' {
      MulAtLeast(m, q' - q);
    }
  }

  lemma MulAtLeast(m: nat, t: int)
    requires t >= 1
    ensures m * t >= m
  {
    assert m * t == m * (t - 1) + m;
  }

  /** Masking is truncation: `x & (2^k - 1)` keeps the residue of `x` modulo
      `2^k`, negative `x` included (Euclidean residue, the one Dafny's `%`
      computes). */
  lemma BitAndLowMask(x: int, k: nat)
    ensures BitAnd(x, Pow2(k) - 1) == x % Pow2(k)
  {
    LowBitsSplit(x, k);
    ModUnique(x, Pow2(k), Shifted(x, k), BitAnd(x, Pow2(k) - 1));
  }

  /** `x` shifted right arithmetically by `k` bits. */
  function Shifted(x: int, k: nat): int
    decreases k
  {
    if k == 0 then x else Shifted(x / 2, k - 1)
  }

  /** An integer is its high part times `2^k` plus its `k` low bits. */
  lemma {:induction false} LowBitsSplit(x: int, k: nat)
    ensures x == Pow2(k) * Shifted(x, k) + BitAnd(x, Pow2(k) - 1)
    decreases k
  {
    if k > 0 {
      var p, m := Pow2(k - 1), Pow2(k) - 1;
      LowBitsSplit(x / 2, k - 1);
      HalvedMask(k);
      BitAndOddMask(x, m);
      Regroup(x, x / 2, x % 2, p, Shifted(x / 2, k - 1), BitAnd(x / 2, p - 1), Pow2(k), BitAnd(x, m));
    }
  }

  /** The arithmetic of one more low bit: `x = 2h + b` and `h = p·hi + lo`
      give `x = (2p)·hi + (2·lo + b)`. */
  lemma Regroup(x: int, h: int, b: int, p: int, hi: int, lo: int, big: int, low: int)
    requires x == 2 * h + b && h == p * hi + lo
    requires big == 2 * p && low == 2 * lo + b
    ensures x == big * hi + low
  {
    assert big * hi == 2 * (p * hi);
  }

  /** The mask of `k > 0` low bits is odd, and halving it gives the mask of
      `k - 1` low bits. */
  lemma HalvedMask(k: nat)
    requires k > 0
    ensures (Pow2(k) - 1) % 2 == 1 && (Pow2(k) - 1) / 2 == Pow2(k - 1) - 1
  {
    var p := Pow2(k - 1);
    assert Pow2(k) - 1 == 2 * (p - 1) + 1;
  }

  /** With an odd mask, bit 0 of `x` is kept as it is. */
  lemma BitAndOddMask(x: int, m: int)
    requires m >= 0 && m % 2 == 1
    ensures BitAnd(x, m) == 2 * BitAnd(x / 2, m / 2) + x % 2
  {
  }

  /** The masked field of a C int is its residue modulo the field's capacity. */
  lemma FieldIsResidue(x: CInt, k: nat)
    requires k < IntWidth
    ensures Field(x, k) == x % Pow2(k)
    ensures 0 <= Field(x, k) < Pow2(k)
  {
    BitAndLowMask(x, k);
  }

  // ---------------------------------------------------------------------
  // Decoders: the bit slices of a word
  // ---------------------------------------------------------------------

  /** Bits 7-4. */
  function OpcodeOf(w: Word): Opcode {
    OpcodeFromCode((w >> 4) as int)
  }

  /** ALU layout: bit 3. */
  function AluRd(w: Word): (f: nat)
    ensures f < 2
  {
    ((w >> 3) & 1) as int
  }

  /** ALU layout: bit 2. */
  function AluRa(w: Word): (f: nat)
    ensures f < 2
  {
    ((w >> 2) & 1) as int
  }

  /** Two-field layout (LDUR, STOR, B, CMP): bits 3-2. */
  function PairFirst(w: Word): (f: nat)
    ensures f < 4
  {
    ((w >> 2) & 3) as int
  }

  /** Bits 1-0: `rb` in the ALU layout, the second field in the two-field
      layout (LDUR, STOR, B, CMP). */
  function LowField(w: Word): (f: nat)
    ensures f < 4
  {
    (w & 3) as int
  }

  /** Move layout (MOV1, MOV2): bits 3-1. */
  function MoveReg(w: Word): (f: nat)
    ensures f < 8
  {
    ((w >> 1) & 7) as int
  }

  /** Bit 0, which the move layout leaves at zero. */
  function BitZero(w: Word): (f: nat)
    ensures f < 2
  {
    (w & 1) as int
  }

  // ---------------------------------------------------------------------
  // Encoders
  // ---------------------------------------------------------------------

  /** makeNOP: the all-zero stall word, which decodes as ADD with every
      field zero. */
  function MakeNop(): (w: Word)
    ensures OpcodeOf(w) == ADD && AluRd(w) == 0 && AluRa(w) == 0 && LowField(w) == 0
  {
    0x00
  }

  /** Packs the ALU fields, each already within its width, under opcode value `c`. */
  function PackAlu(c: nat, d: nat, a: nat, b: nat): (w: Word)
    requires c < 16 && d < 2 && a < 2 && b < 4
    ensures (w >> 4) as int == c && AluRd(w) == d && AluRa(w) == a && LowField(w) == b
  {
    ((c as bv8) << 4) | ((d as bv8) << 3) | ((a as bv8) << 2) | (b as bv8)
  }

  /** Packs the two 2-bit fields under opcode value `c`. */
  function PackPair(c: nat, f: nat, s: nat): (w: Word)
    requires c < 16 && f < 4 && s < 4
    ensures (w >> 4) as int == c && PairFirst(w) == f && LowField(w) == s
  {
    ((c as bv8) << 4) | ((f as bv8) << 2) | (s as bv8)
  }

  /** Packs the 3-bit register under opcode value `c`, leaving bit 0 clear. */
  function PackMove(c: nat, r: nat): (w: Word)
    requires c < 16 && r < 8
    ensures (w >> 4) as int == c && MoveReg(w) == r && BitZero(w) == 0
  {
    ((c as bv8) << 4) | ((r as bv8) << 1)
  }

  /** makeALUOP: opcode in bits 7-4, `rd & 1` in bit 3, `ra & 1` in bit 2 and
      `rb & 3` in bits 1-0. */
  function MakeAluOp(opcode: Opcode, rd: CInt, ra: CInt, rb: CInt): (w: Word)
    ensures OpcodeOf(w) == opcode
    ensures AluRd(w) == rd % 2 && AluRa(w) == ra % 2 && LowField(w) == rb % 4
  {
    FieldIsResidue(rd, 1);
    FieldIsResidue(ra, 1);
    FieldIsResidue(rb, 2);
    CodeRoundTrip(opcode);
    PackAlu(opcode.Code(), Field(rd, 1), Field(ra, 1), Field(rb, 2))
  }

  /** The layout shared by LDUR, STOR, B and CMP: `first & 3` in bits 3-2 and
      `second & 3` in bits 1-0 under the given opcode. */
  function MakePair(opcode: Opcode, first: CInt, second: CInt): (w: Word)
    ensures OpcodeOf(w) == opcode
    ensures PairFirst(w) == first % 4 && LowField(w) == second % 4
  {
    FieldIsResidue(first, 2);
    FieldIsResidue(second, 2);
    CodeRoundTrip(opcode);
    PackPair(opcode.Code(), Field(first, 2), Field(second, 2))
  }
  /** makeLOAD: LDUR with the register and the address. */
  function MakeLoad(reg: CInt, addr: CInt): (w: Word)
    ensures OpcodeOf(w) == LDUR && PairFirst(w) == reg % 4 && LowField(w) == addr % 4
  {
    MakePair(LDUR, reg, addr)
  }

  /** makeSTOR: STOR with the register holding the value and the address. */
  function MakeStor(rAddr: CInt, addr: CInt): (w: Word)
    ensures OpcodeOf(w) == STOR && PairFirst(w) == rAddr % 4 && LowField(w) == addr % 4
  {
    MakePair(STOR, rAddr, addr)
  }

  /** makeB: B with the condition and the register that holds the target. */
  function MakeB(condition: CInt, regWithAddr: CInt): (w: Word)
    ensures OpcodeOf(w) == B && PairFirst(w) == condition % 4 && LowField(w) == regWithAddr % 4
  {
    MakePair(B, condition, regWithAddr)
  }

  /** makeCMP: CMP with the two compared registers. */
  function MakeCmp(op1: CInt, op2: CInt): (w: Word)
    ensures OpcodeOf(w) == CMP && PairFirst(w) == op1 % 4 && LowField(w) == op2 % 4
  {
    MakePair(CMP, op1, op2)
  }

  /** The layout shared by MOV1 and MOV2: `reg & 7` in bits 3-1, bit 0 zero. */
  function MakeMove(opcode: Opcode, reg: CInt): (w: Word)
    ensures OpcodeOf(w) == opcode && MoveReg(w) == reg % 8 && BitZero(w) == 0
  {
    FieldIsResidue(reg, 3);
    CodeRoundTrip(opcode);
    PackMove(opcode.Code(), Field(reg, 3))
  }

  /** makeMOV1: the destination register. */
  function MakeMov1(rd: CInt): (w: Word)
    ensures OpcodeOf(w) == MOV1 && MoveReg(w) == rd % 8 && BitZero(w) == 0
  {
    MakeMove(MOV1, rd)
  }

  /** makeMOV2: the source register. */
  function MakeMov2(rs: CInt): (w: Word)
    ensures OpcodeOf(w) == MOV2 && MoveReg(w) == rs % 8 && BitZero(w) == 0
  {
    MakeMove(MOV2, rs)
  }

  // ---------------------------------------------------------------------
  // Decoding inverts encoding
  // ---------------------------------------------------------------------

  /** The high nibble is the opcode's value. */
  lemma HighNibble(w: Word)
    ensures (w >> 4) as int == OpcodeOf(w).Code()
  {
  }

  /** An ALU-layout word is determined by its opcode and its three fields. */
  lemma AluSlicesDetermineWord(w: Word, v: Word)
    requires OpcodeOf(w) == OpcodeOf(v)
    requires AluRd(w) == AluRd(v) && AluRa(w) == AluRa(v) && LowField(w) == LowField(v)
    ensures w == v
  {
    HighNibble(w);
    HighNibble(v);
    assert w >> 4 == v >> 4;
  }

  /** A two-field-layout word is determined by its opcode and its two fields. */
  lemma PairSlicesDetermineWord(w: Word, v: Word)
    requires OpcodeOf(w) == OpcodeOf(v)
    requires PairFirst(w) == PairFirst(v) && LowField(w) == LowField(v)
    ensures w == v
  {
    HighNibble(w);
    HighNibble(v);
    assert w >> 4 == v >> 4;
  }

  /** A move-layout word is determined by its opcode, its register and bit 0. */
  lemma MoveSlicesDetermineWord(w: Word, v: Word)
    requires OpcodeOf(w) == OpcodeOf(v)
    requires MoveReg(w) == MoveReg(v) && BitZero(w) == BitZero(v)
    ensures w == v
  {
    HighNibble(w);
    HighNibble(v);
    assert w >> 4 == v >> 4;
  }

  /** Every word whose opcode is an ALU opcode is produced by makeALUOP from
      its own bit slices: the ALU encoder reaches all such words. */
  lemma AluEncodeDecode(w: Word)
    requires OpcodeOf(w).IsAlu()
    ensures MakeAluOp(OpcodeOf(w), AluRd(w), AluRa(w), LowField(w)) == w
  {
    var rd, ra, rb := AluRd(w), AluRa(w), LowField(w);
    assert rd % 2 == rd && ra % 2 == ra && rb % 4 == rb;
    AluSlicesDetermineWord(MakeAluOp(OpcodeOf(w), rd, ra, rb), w);
  }

  /** Every LDUR, STOR, CMP or B word is re-encoded from its bit slices. */
  lemma PairEncodeDecode(w: Word)
    requires OpcodeOf(w).IsPair()
    ensures MakePair(OpcodeOf(w), PairFirst(w), LowField(w)) == w
  {
    var first, second := PairFirst(w), LowField(w);
    assert first % 4 == first && second % 4 == second;
    PairSlicesDetermineWord(MakePair(OpcodeOf(w), first, second), w);
  }

  /** Every MOV1 or MOV2 word with bit 0 clear is re-encoded from its bit
      slices; a word with bit 0 set is produced by no move encoder. */
  lemma MoveEncodeDecode(w: Word)
    requires OpcodeOf(w).IsMove()
    ensures BitZero(w) == 0 <==> MakeMove(OpcodeOf(w), MoveReg(w)) == w
  {
    var reg := MoveReg(w);
    assert reg % 8 == reg;
    if BitZero(w) == 0 {
      MoveSlicesDetermineWord(MakeMove(OpcodeOf(w), reg), w);
    }
  }

  /** ALU operands are truncated, not rejected: operands that agree modulo
      their field's capacity give the same word, negative ones included. */
  lemma AluTruncation(opcode: Opcode, rd: CInt, ra: CInt, rb: CInt, rd': CInt, ra': CInt, rb': CInt)
    requires rd % 2 == rd' % 2 && ra % 2 == ra' % 2 && rb % 4 == rb' % 4
    ensures MakeAluOp(opcode, rd, ra, rb) == MakeAluOp(opcode, rd', ra', rb')
  {
    AluSlicesDetermineWord(MakeAluOp(opcode, rd, ra, rb), MakeAluOp(opcode, rd', ra', rb'));
  }

  /** Two-field operands are truncated to two bits each. */
  lemma PairTruncation(opcode: Opcode, first: CInt, second: CInt, first': CInt, second': CInt)
    requires first % 4 == first' % 4 && second % 4 == second' % 4
    ensures MakePair(opcode, first, second) == MakePair(opcode, first', second')
  {
    PairSlicesDetermineWord(MakePair(opcode, first, second), MakePair(opcode, first', second'));
  }

  /** The move register is truncated to three bits. */
  lemma MoveTruncation(opcode: Opcode, reg: CInt, reg': CInt)
    requires reg % 8 == reg' % 8
    ensures MakeMove(opcode, reg) == MakeMove(opcode, reg')
  {
    MoveSlicesDetermineWord(MakeMove(opcode, reg), MakeMove(opcode, reg'));
  }

  /** makeLOAD and makeSTOR share their layout: the words differ only in the
      opcode nibble, where LDUR and STOR differ only in bit 4. */
  lemma LoadStoreShareLayout(reg: CInt, addr: CInt)
    ensures MakeLoad(reg, addr) & 0x0F == MakeStor(reg, addr) & 0x0F
    ensures MakeStor(reg, addr) == MakeLoad(reg, addr) | 0x10
  {
    var l, s := MakeLoad(reg, addr), MakeStor(reg, addr);
    HighNibble(l);
    HighNibble(s);
  }

  /** The stall word is the word of `ADD 0 0 0`: a processor decoding bit
      slices cannot tell NOP from that addition. */
  lemma NopIsAddOfZeros()
    ensures MakeNop() == MakeAluOp(ADD, 0, 0, 0)
    ensures OpcodeOf(MakeNop()) == ADD
  {
    AluSlicesDetermineWord(MakeNop(), MakeAluOp(ADD, 0, 0, 0));
  }
}
