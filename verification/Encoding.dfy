/** The fields and the immediates of an instruction word as numbers, by the bits at which they stand. */
module Encoding {
  import opened Words
  import opened Quotients
  import opened BitFacts
  import opened Numbers
  import opened Isa

  // ----- masks -----

  lemma SmallMasks()
    ensures IsMask(0x1, 1) && IsMask(0x7, 3) && IsMask(0xf, 4) && IsMask(0x1f, 5) && IsMask(0x3f, 6) && IsMask(0x7f, 7)
  {
    assert IsMask(0x0, 0) && IsMask(0x3, 2);
  }

  lemma LargeMasks()
    ensures IsMask(0xff, 8) && IsMask(0x3ff, 10)
  {
    SmallMasks();
    assert IsMask(0x1ff, 9);
  }

  lemma Powers()
    ensures PowerOfTwo(0) == 1 && PowerOfTwo(1) == 2 && PowerOfTwo(3) == 8 && PowerOfTwo(4) == 16 && PowerOfTwo(5) == 32
    ensures PowerOfTwo(6) == 64
    ensures PowerOfTwo(7) == 128 && PowerOfTwo(8) == 256 && PowerOfTwo(10) == 1024 && PowerOfTwo(11) == 2048
    ensures PowerOfTwo(12) == 4096 && PowerOfTwo(20) == 0x10_0000
  {
    assert PowerOfTwo(2) == 4 && PowerOfTwo(9) == 512;
    assert PowerOfTwo(13) == 0x2000 && PowerOfTwo(14) == 0x4000 && PowerOfTwo(15) == 0x8000 && PowerOfTwo(16) == 0x1_0000;
    assert PowerOfTwo(17) == 0x2_0000 && PowerOfTwo(18) == 0x4_0000 && PowerOfTwo(19) == 0x8_0000;
  }

  // ----- fields -----

  lemma OpcodeUnfolds(inst: bv32) ensures Opcode(inst) == And(Right(inst, 0), 0x7f) {}

  lemma Funct3Unfolds(inst: bv32) ensures Funct3(inst) == And(Right(inst, 12), 0x7) {}

  lemma Funct7Unfolds(inst: bv32) ensures Funct7(inst) == And(Right(inst, 25), 0x7f) {}

  lemma RegistersUnfold(inst: bv32)
    ensures Rd(inst) as bv32 == And(Right(inst, 7), 0x1f)
    ensures Rs1(inst) as bv32 == And(Right(inst, 15), 0x1f)
    ensures Rs2(inst) as bv32 == And(Right(inst, 20), 0x1f)
  {
  }

  lemma SmallNumber(r: bv5)
    ensures Unsigned(r as bv32) == r as int
  {
  }

  /** Where the fields stand in an instruction word. */
  lemma FieldsAre(inst: bv32)
    ensures Unsigned(Opcode(inst)) == Field(inst, 0, 7)
    ensures Unsigned(Funct3(inst)) == Field(inst, 12, 3) && Unsigned(Funct7(inst)) == Field(inst, 25, 7)
    ensures Rd(inst) as int == Field(inst, 7, 5) && Rs1(inst) as int == Field(inst, 15, 5)
    ensures Rs2(inst) as int == Field(inst, 20, 5)
  {
    hide Unsigned;
    hide Opcode;
    hide Funct3;
    hide Funct7;
    hide Rd;
    hide Rs1;
    hide Rs2;
    hide And;
    hide Right;
    hide Field;
    hide IsMask;
    SmallMasks();
    OpcodeUnfolds(inst);
    Funct3Unfolds(inst);
    Funct7Unfolds(inst);
    RegistersUnfold(inst);
    SmallNumber(Rd(inst));
    SmallNumber(Rs1(inst));
    SmallNumber(Rs2(inst));
    FieldIs(inst, 0, 0x7f, 7);
    FieldIs(inst, 12, 0x7, 3);
    FieldIs(inst, 25, 0x7f, 7);
    FieldIs(inst, 7, 0x1f, 5);
    FieldIs(inst, 15, 0x1f, 5);
    FieldIs(inst, 20, 0x1f, 5);
  }

  // ----- sign extension -----

  /** The signed reading of a field whose upper half stands for negative numbers. */
  function Centered(value: int, half: int): int
  {
    if value >= half then value - 2 * half else value
  }

  lemma ExtendIsRaw(value: bv32, sign: bv32) ensures SignExtend(value, sign) == (value ^ sign) - sign {}

  lemma MinusOfXor(value: bv32, sign: bv32) ensures Minus(value ^ sign, sign) == (value ^ sign) - sign {}

  lemma XorIsRaw(value: bv32, sign: bv32) ensures Xor(value, sign) == value ^ sign {}

  lemma ExtendUnfolds(value: bv32, sign: bv32)
    ensures SignExtend(value, sign) == Minus(Xor(value, sign), sign)
  {
    hide SignExtend;
    hide Minus;
    hide Xor;
    ExtendIsRaw(value, sign);
    MinusOfXor(value, sign);
    XorIsRaw(value, sign);
  }

  lemma SetSign(value: bv32, sign: bv32)
    requires And(value, sign) == sign
    ensures And(Xor(value, sign), sign) == 0 && Or(Xor(value, sign), sign) == value
  {
  }

  lemma ClearSign(value: bv32, sign: bv32)
    requires And(value, sign) == 0
    ensures Xor(value, sign) == Or(value, sign)
  {
    XorIsOr(value, sign);
  }

  /** For a single sign bit, and a value that does not reach beyond it. */
  lemma ExtendIs(value: bv32, sign: bv32)
    requires And(value, sign) == 0 || And(value, sign) == sign
    requires And(value, sign) == 0 ==> Unsigned(value) < Unsigned(sign)
    requires Unsigned(value) < 2 * Unsigned(sign) <= TWO31
    ensures Signed(SignExtend(value, sign)) == Centered(Unsigned(value), Unsigned(sign))
  {
    hide Unsigned;
    hide SignExtend;
    hide Minus;
    hide Plus;
    hide Xor;
    hide And;
    hide Or;
    ExtendUnfolds(value, sign);
    MinusIs(Xor(value, sign), sign);
    if And(value, sign) == 0 {
      ClearSign(value, sign);
      OrIs(value, sign);
    } else {
      SetSign(value, sign);
      OrIs(Xor(value, sign), sign);
    }
  }

  lemma SignNumbers()
    ensures Unsigned(0x80) == 0x80 && Unsigned(0x8000) == 0x8000 && Unsigned(0x800) == 0x800
    ensures Unsigned(0x1000) == 0x1000 && Unsigned(0x10_0000) == 0x10_0000
    ensures Unsigned(0x100) == 0x100 && Unsigned(0x1_0000) == 0x1_0000
    ensures Unsigned(0x2000) == 0x2000 && Unsigned(0x20_0000) == 0x20_0000
  {
  }

  lemma ExtendByte(value: bv32)
    requires Unsigned(value) < 0x100
    ensures Signed(SignExtend(value, 0x80)) == Centered(Unsigned(value), 0x80)
  {
    SignNumbers();
    hide Unsigned;
    hide SignExtend;
    LowerIs(value, 0x100);
    SignOfByte(value);
    LowerIs(value, 0x80);
    ExtendIs(value, 0x80);
  }

  lemma ExtendHalf(value: bv32)
    requires Unsigned(value) < 0x1_0000
    ensures Signed(SignExtend(value, 0x8000)) == Centered(Unsigned(value), 0x8000)
  {
    SignNumbers();
    hide Unsigned;
    hide SignExtend;
    LowerIs(value, 0x1_0000);
    SignOfHalf(value);
    LowerIs(value, 0x8000);
    ExtendIs(value, 0x8000);
  }

  lemma ExtendI(value: bv32)
    requires Unsigned(value) < 0x1000
    ensures Signed(SignExtend(value, 0x800)) == Centered(Unsigned(value), 0x800)
  {
    SignNumbers();
    hide Unsigned;
    hide SignExtend;
    LowerIs(value, 0x1000);
    SignOfI(value);
    LowerIs(value, 0x800);
    ExtendIs(value, 0x800);
  }

  lemma ExtendB(value: bv32)
    requires Unsigned(value) < 0x2000
    ensures Signed(SignExtend(value, 0x1000)) == Centered(Unsigned(value), 0x1000)
  {
    SignNumbers();
    hide Unsigned;
    hide SignExtend;
    LowerIs(value, 0x2000);
    SignOfB(value);
    LowerIs(value, 0x1000);
    ExtendIs(value, 0x1000);
  }

  lemma ExtendJ(value: bv32)
    requires Unsigned(value) < 0x20_0000
    ensures Signed(SignExtend(value, 0x10_0000)) == Centered(Unsigned(value), 0x10_0000)
  {
    SignNumbers();
    hide Unsigned;
    hide SignExtend;
    LowerIs(value, 0x20_0000);
    SignOfJ(value);
    LowerIs(value, 0x10_0000);
    ExtendIs(value, 0x10_0000);
  }

  // ----- immediates -----

  /** A field, moved to its place in an immediate. */
  function Part(inst: bv32, from: bv5, mask: bv32, to: bv5): bv32
  {
    Left(And(Right(inst, from), mask), to)
  }

  lemma PartIs(inst: bv32, from: bv5, mask: bv32, width: nat, to: bv5)
    requires IsMask(mask, width) && PowerOfTwo(width) * PowerOfTwo(to as nat) <= TWO32
    ensures Unsigned(Part(inst, from, mask, to)) == Field(inst, from as nat, width) * PowerOfTwo(to as nat)
  {
    hide Unsigned;
    hide And;
    hide Left;
    hide Right;
    hide IsMask;
    hide Scaled;
    hide PowerOfTwo;
    hide Field;
    FieldIs(inst, from, mask, width);
    LeftIs(And(Right(inst, from), mask), to);
    FieldScaled(inst, from as nat, width, to as nat);
  }

  lemma FieldScaled(inst: bv32, from: nat, width: nat, to: nat)
    requires PowerOfTwo(width) * PowerOfTwo(to) <= TWO32
    ensures Scaled(Field(inst, from, width), to) == Field(inst, from, width) * PowerOfTwo(to)
  {
    hide Unsigned;
    hide PowerOfTwo;
    hide Field;
    ProductFits(Field(inst, from, width), PowerOfTwo(width), PowerOfTwo(to), TWO32);
  }

  lemma ImmIUnfolds(inst: bv32)
    ensures ImmI(inst) == SignExtend(Right(inst, 20), 0x800)
  {
    hide SignExtend;
  }

  lemma ImmSUnfolds(inst: bv32)
    ensures ImmS(inst) == SignExtend(Or(Part(inst, 7, 0x1f, 0), Part(inst, 25, 0x7f, 5)), 0x800)
  {
    hide SignExtend;
  }

  lemma ImmSApart(inst: bv32)
    ensures And(Part(inst, 7, 0x1f, 0), Part(inst, 25, 0x7f, 5)) == 0
  {
  }

  lemma ImmBUnfolds(inst: bv32)
    ensures ImmB(inst) == SignExtend(Or(Or(Or(Part(inst, 31, 0x1, 12), Part(inst, 7, 0x1, 11)), Part(inst, 25, 0x3f, 5)),
                                        Part(inst, 8, 0xf, 1)), 0x1000)
  {
    hide SignExtend;
  }

  lemma ImmBApart(inst: bv32)
    ensures And(Part(inst, 31, 0x1, 12), Part(inst, 7, 0x1, 11)) == 0
    ensures And(Or(Part(inst, 31, 0x1, 12), Part(inst, 7, 0x1, 11)), Part(inst, 25, 0x3f, 5)) == 0
    ensures And(Or(Or(Part(inst, 31, 0x1, 12), Part(inst, 7, 0x1, 11)), Part(inst, 25, 0x3f, 5)), Part(inst, 8, 0xf, 1)) == 0
  {
  }

  lemma ImmJUnfolds(inst: bv32)
    ensures ImmJ(inst) == SignExtend(Or(Or(Or(Part(inst, 31, 0x1, 20), Part(inst, 12, 0xff, 12)), Part(inst, 20, 0x1, 11)),
                                        Part(inst, 21, 0x3ff, 1)), 0x10_0000)
  {
    hide SignExtend;
  }

  lemma ImmJApart(inst: bv32)
    ensures And(Part(inst, 31, 0x1, 20), Part(inst, 12, 0xff, 12)) == 0
    ensures And(Or(Part(inst, 31, 0x1, 20), Part(inst, 12, 0xff, 12)), Part(inst, 20, 0x1, 11)) == 0
    ensures And(Or(Or(Part(inst, 31, 0x1, 20), Part(inst, 12, 0xff, 12)), Part(inst, 20, 0x1, 11)),
                Part(inst, 21, 0x3ff, 1)) == 0
  {
  }

  lemma ImmUUnfolds(inst: bv32)
    ensures ImmU(inst) == Left(Right(inst, 12), 12)
  {
  }

  /** A field that ends with the word is what remains above the rest. */
  lemma UpperFields(inst: bv32)
    ensures Field(inst, 20, 12) == Unsigned(inst) / 0x10_0000 && Field(inst, 12, 20) == Unsigned(inst) / 0x1000
  {
    hide Unsigned;
    Powers();
    hide PowerOfTwo;
  }

  /** The immediate of an I-type instruction: bits 31 to 20, signed. */
  lemma ImmIIs(inst: bv32)
    ensures Signed(ImmI(inst)) == Centered(Field(inst, 20, 12), 0x800)
  {
    hide Unsigned;
    hide ImmI;
    hide SignExtend;
    hide Right;
    Powers();
    ImmIUnfolds(inst);
    RightIs(inst, 20);
    UpperFields(inst);
    hide PowerOfTwo;
    hide Field;
    ExtendI(Right(inst, 20));
  }

  /** Of an S-type instruction: bits 31 to 25 above bits 11 to 7. */
  lemma ImmSIs(inst: bv32)
    ensures Signed(ImmS(inst)) == Centered(Field(inst, 25, 7) * 32 + Field(inst, 7, 5), 0x800)
  {
    hide Unsigned;
    hide ImmS;
    hide SignExtend;
    hide Part;
    hide Or;
    hide And;
    hide IsMask;
    hide Field;
    hide PowerOfTwo;
    Powers();
    SmallMasks();
    ImmSUnfolds(inst);
    ImmSApart(inst);
    PartIs(inst, 7, 0x1f, 5, 0);
    PartIs(inst, 25, 0x7f, 7, 5);
    OrIs(Part(inst, 7, 0x1f, 0), Part(inst, 25, 0x7f, 5));
    ExtendI(Or(Part(inst, 7, 0x1f, 0), Part(inst, 25, 0x7f, 5)));
  }

  /** Of a branch: bit 31 is bit 12, bit 7 is bit 11, bits 30 to 25 are bits 10 to 5 and bits 11 to 8 are bits 4 to 1. */
  lemma ImmBIs(inst: bv32)
    ensures Signed(ImmB(inst))
         == Centered(Field(inst, 31, 1) * 0x1000 + Field(inst, 7, 1) * 0x800 + Field(inst, 25, 6) * 32 + Field(inst, 8, 4) * 2,
                     0x1000)
  {
    hide Unsigned;
    hide ImmB;
    hide SignExtend;
    hide Part;
    hide Or;
    hide And;
    hide IsMask;
    hide Field;
    hide PowerOfTwo;
    Powers();
    SmallMasks();
    ImmBUnfolds(inst);
    ImmBApart(inst);
    PartIs(inst, 31, 0x1, 1, 12);
    PartIs(inst, 7, 0x1, 1, 11);
    PartIs(inst, 25, 0x3f, 6, 5);
    PartIs(inst, 8, 0xf, 4, 1);
    var a, b, c, d := Part(inst, 31, 0x1, 12), Part(inst, 7, 0x1, 11), Part(inst, 25, 0x3f, 5), Part(inst, 8, 0xf, 1);
    OrIs(a, b);
    OrIs(Or(a, b), c);
    OrIs(Or(Or(a, b), c), d);
    ExtendB(Or(Or(Or(a, b), c), d));
  }

  /** Of a jump: bit 31 is bit 20, bits 19 to 12 stay, bit 20 is bit 11 and bits 30 to 21 are bits 10 to 1. */
  lemma ImmJIs(inst: bv32)
    ensures Signed(ImmJ(inst))
         == Centered(Field(inst, 31, 1) * 0x10_0000 + Field(inst, 12, 8) * 0x1000 + Field(inst, 20, 1) * 0x800
                     + Field(inst, 21, 10) * 2, 0x10_0000)
  {
    hide Unsigned;
    hide ImmJ;
    hide SignExtend;
    hide Part;
    hide Or;
    hide And;
    hide IsMask;
    hide Field;
    hide PowerOfTwo;
    Powers();
    SmallMasks();
    LargeMasks();
    ImmJUnfolds(inst);
    ImmJApart(inst);
    PartIs(inst, 31, 0x1, 1, 20);
    PartIs(inst, 12, 0xff, 8, 12);
    PartIs(inst, 20, 0x1, 1, 11);
    PartIs(inst, 21, 0x3ff, 10, 1);
    var a, b, c, d := Part(inst, 31, 0x1, 20), Part(inst, 12, 0xff, 12), Part(inst, 20, 0x1, 11), Part(inst, 21, 0x3ff, 1);
    OrIs(a, b);
    OrIs(Or(a, b), c);
    OrIs(Or(Or(a, b), c), d);
    ExtendJ(Or(Or(Or(a, b), c), d));
  }

  /** Of a U-type instruction: bits 31 to 12, above twelve zeros. */
  lemma ImmUIs(inst: bv32)
    ensures Unsigned(ImmU(inst)) == Field(inst, 12, 20) * 0x1000
  {
    hide Unsigned;
    hide ImmU;
    hide Left;
    hide Right;
    Powers();
    ImmUUnfolds(inst);
    RightIs(inst, 12);
    UpperFields(inst);
    hide PowerOfTwo;
    hide Field;
    LeftIs(Right(inst, 12), 12);
  }
}
