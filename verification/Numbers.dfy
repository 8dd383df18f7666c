/** The numbers 32-bit words stand for, and what the operations of the instruction set do to these numbers. */
module Numbers {
  import opened Words
  import opened BitFacts
  import opened Quotients
  import opened Isa

  /** The number a word stands for. */
  function Unsigned(x: bv32): (r: int)
    ensures IsUint32(r)
  {
    x as int
  }

  /** The signed number a word stands for. */
  function Signed(x: bv32): (r: int)
    ensures IsInt32(r)
  {
    AsInt32(Unsigned(x))
  }

  predicate Odd(x: bv32) { x & 1 != 0 }

  function Halved(x: bv32): bv32 { x >> 1 }

  function Digit(b: bool): int { if b then 1 else 0 }

  lemma StepsAdd(x: int, y: int)
    ensures ((x + y) % TWO32 + 1) % TWO32 == (x + (y + 1)) % TWO32
    ensures 0 <= y < TWO32 && (y + 1) % TWO32 > 0 ==> (y + 1) % TWO32 == y + 1
  {
  }

  function PowerOfTwo(n: nat): (r: nat)
    ensures r > 0
  {
    if n == 0 then 1 else 2 * PowerOfTwo(n - 1)
  }

  // ----- binary -----

  /** Below a digit of a word stand the digits of its half, one place up: eight places at a time. */
  lemma HalvesTo8(x: bv32, b: int)
    requires (x & 0x1) as int == 2 * ((Halved(x) & 0x0) as int) + b
    ensures (x & 0x1ff) as int == 2 * ((Halved(x) & 0xff) as int) + b
  {
  }

  lemma HalvesTo16(x: bv32, b: int)
    requires (x & 0x1ff) as int == 2 * ((Halved(x) & 0xff) as int) + b
    ensures (x & 0x1_ffff) as int == 2 * ((Halved(x) & 0xffff) as int) + b
  {
  }

  lemma HalvesTo24(x: bv32, b: int)
    requires (x & 0x1_ffff) as int == 2 * ((Halved(x) & 0xffff) as int) + b
    ensures (x & 0x1ff_ffff) as int == 2 * ((Halved(x) & 0xff_ffff) as int) + b
  {
  }

  lemma HalvesTo31(x: bv32, b: int)
    requires (x & 0x1ff_ffff) as int == 2 * ((Halved(x) & 0xff_ffff) as int) + b
    ensures (x & 0xffff_ffff) as int == 2 * ((Halved(x) & 0x7fff_ffff) as int) + b
  {
  }

  lemma LowestDigit(x: bv32)
    ensures x & 0xffff_ffff == x && Halved(x) & 0x7fff_ffff == Halved(x) && !Negative(Halved(x))
    ensures (x & 0x1) as int == 2 * ((Halved(x) & 0x0) as int) + Digit(Odd(x))
  {
  }

  /** A word is twice its half, and its lowest digit. */
  lemma Halves(x: bv32)
    ensures Unsigned(x) == 2 * Unsigned(Halved(x)) + Digit(Odd(x)) && !Negative(Halved(x))
  {
    hide Halved;
    hide Negative;
    hide Odd;
    var b := Digit(Odd(x));
    LowestDigit(x);
    HalvesTo8(x, b);
    HalvesTo16(x, b);
    HalvesTo24(x, b);
    HalvesTo31(x, b);
  }

  lemma Zero()
    ensures Unsigned(0) == 0 && Unsigned(1) == 1 && Halved(0) == 0 && Halved(1) == 0 && !Odd(0)
  {
  }

  lemma OnlyZero(x: bv32)
    requires Unsigned(x) == 0
    ensures x == 0
  {
  }

  lemma OnlyLast(x: bv32)
    requires Unsigned(x) == 0xffff_ffff
    ensures x == 0xffff_ffff
  {
  }

  lemma SameHalfAndDigit(x: bv32, y: bv32)
    requires Halved(x) == Halved(y) && Odd(x) == Odd(y)
    ensures x == y
  {
  }

  /** Words with the same number are the same. */
  lemma {:induction false} SameNumber(x: bv32, y: bv32)
    requires Unsigned(x) == Unsigned(y)
    ensures x == y
    decreases Unsigned(x)
  {
    hide Unsigned;
    hide Halved;
    hide Odd;
    Halves(x);
    Halves(y);
    if Unsigned(x) > 0 {
      SameNumber(Halved(x), Halved(y));
      SameHalfAndDigit(x, y);
    } else {
      OnlyZero(x);
      OnlyZero(y);
    }
  }

  // ----- addition and subtraction -----

  function Next(x: bv32): bv32 { x + 1 }

  function Before(x: bv32): bv32 { x - 1 }

  lemma EvenStep(z: bv32)
    requires !Odd(z)
    ensures Halved(Next(z)) == Halved(z) && Odd(Next(z))
  {
    NextOfEven(z);
    NextOfEvenIsOdd(z);
  }

  lemma OddStep(z: bv32)
    requires Odd(z) && z != 0xffff_ffff
    ensures Halved(Next(z)) == Next(Halved(z)) && !Odd(Next(z)) && Halved(z) != 0xffff_ffff
  {
    NextOfOdd(z);
    NextOfOddIsEven(z);
    HalfIsNotLast(z);
  }

  lemma LastWord()
    ensures Unsigned(0xffff_ffff) == 0xffff_ffff && Next(0xffff_ffff) == 0 && Unsigned(0) == 0
  {
  }

  /** The word after a word, half by half. */
  lemma {:induction false} NextIs(z: bv32)
    ensures Unsigned(Next(z)) == (Unsigned(z) + 1) % TWO32
    decreases Unsigned(z)
  {
    hide Unsigned;
    hide Odd;
    hide Halved;
    hide Next;
    LastWord();
    Halves(z);
    Halves(Next(z));
    if z == 0xffff_ffff {
    } else if Odd(z) {
      OddStep(z);
      if Unsigned(Halved(z)) == 0xffff_ffff { OnlyLast(Halved(z)); }
      NextIs(Halved(z));
    } else {
      EvenStep(z);
    }
  }

  lemma NextUnfolds(x: bv32, y: bv32) ensures Next(x + (y - 1)) == x + y {}

  lemma PlusUnfolds(x: bv32, y: bv32) ensures Plus(x, y) == x + y {}

  lemma PlusBefore(x: bv32, y: bv32) ensures Plus(x, y - 1) == x + (y - 1) {}

  lemma NextBefore(y: bv32) ensures Next(y - 1) == y {}

  lemma BeforeUnfolds(y: bv32) ensures Before(y) == y - 1 {}

  lemma Stepwise(x: bv32, y: bv32)
    ensures Next(Plus(x, Before(y))) == Plus(x, y) && Next(Before(y)) == y
  {
    hide Plus;
    hide Next;
    hide Before;
    NextUnfolds(x, y);
    PlusUnfolds(x, y);
    PlusBefore(x, y);
    NextBefore(y);
    BeforeUnfolds(y);
  }

  lemma PlusZero(x: bv32) ensures Plus(x, 0) == x {}

  /** Addition is addition modulo 2^32: y steps from x. */
  lemma {:induction false} PlusIs(x: bv32, y: bv32)
    ensures Unsigned(Plus(x, y)) == (Unsigned(x) + Unsigned(y)) % TWO32
    decreases Unsigned(y)
  {
    hide Unsigned;
    hide Plus;
    hide Next;
    hide Before;
    if Unsigned(y) == 0 {
      OnlyZero(y);
      PlusZero(x);
    } else {
      Stepwise(x, y);
      NextIs(Before(y));
      PlusIs(x, Before(y));
      NextIs(Plus(x, Before(y)));
      StepsAdd(Unsigned(x), Unsigned(Before(y)));
    }
  }

  lemma SignedRemainder(x: int, y: int)
    requires IsUint32(y)
    ensures (x + y) % TWO32 == (x + AsInt32(y)) % TWO32
  {
  }

  /** Adding a word is adding its signed number, modulo 2^32. */
  lemma PlusSigned(x: bv32, y: bv32)
    ensures Unsigned(Plus(x, y)) == (Unsigned(x) + Signed(y)) % TWO32
  {
    hide Unsigned;
    hide Plus;
    PlusIs(x, y);
    SignedRemainder(Unsigned(x), Unsigned(y));
  }

  lemma DifferenceRestores(x: bv32, y: bv32) ensures Plus(x - y, y) == x {}

  lemma MinusUnfolds(x: bv32, y: bv32) ensures Minus(x, y) == x - y {}

  /** Subtraction is subtraction modulo 2^32: it undoes addition. */
  lemma MinusIs(x: bv32, y: bv32)
    ensures Plus(Minus(x, y), y) == x
    ensures Unsigned(Minus(x, y)) == (Unsigned(x) - Unsigned(y)) % TWO32
  {
    hide Unsigned;
    hide Plus;
    hide Minus;
    DifferenceRestores(x, y);
    MinusUnfolds(x, y);
    PlusIs(Minus(x, y), y);
  }

  // ----- order -----

  lemma ShiftsDecide(x: bv32, y: bv32)
    ensures Lower(x >> 1, y >> 1) ==> Lower(x, y)
  {
    HigherBitsDecide(x, y);
  }

  lemma HalvesDecide(x: bv32, y: bv32)
    ensures Lower(Halved(x), Halved(y)) ==> Lower(x, y)
  {
    hide Lower;
    ShiftsDecide(x, y);
  }

  lemma OddWins(x: bv32, y: bv32)
    requires x >> 1 == y >> 1 && !Odd(x) && Odd(y)
    ensures Lower(x, y)
  {
    OddIsHigher(x, y);
  }

  lemma WinnerIsOdd(x: bv32, y: bv32)
    requires x >> 1 == y >> 1 && Lower(x, y)
    ensures !Odd(x) && Odd(y)
  {
    HigherIsOdd(x, y);
  }

  lemma DigitDecides(x: bv32, y: bv32)
    requires Halved(x) == Halved(y)
    ensures Lower(x, y) <==> !Odd(x) && Odd(y)
  {
    hide Lower;
    hide Odd;
    if !Odd(x) && Odd(y) { OddWins(x, y); }
    if Lower(x, y) { WinnerIsOdd(x, y); }
  }

  lemma OneIsLower(x: bv32, y: bv32)
    ensures Lower(x, y) ==> !Lower(y, x)
  {
  }

  /** The unsigned order is the order of the numbers. */
  lemma {:induction false} LowerIs(x: bv32, y: bv32)
    ensures Lower(x, y) <==> Unsigned(x) < Unsigned(y)
    decreases Unsigned(x) + Unsigned(y)
  {
    hide Unsigned;
    hide Odd;
    hide Halved;
    hide Lower;
    Halves(x);
    Halves(y);
    OneIsLower(x, y);
    if Unsigned(Halved(x)) == Unsigned(Halved(y)) {
      SameNumber(Halved(x), Halved(y));
      DigitDecides(x, y);
    } else {
      LowerIs(Halved(x), Halved(y));
      LowerIs(Halved(y), Halved(x));
      HalvesDecide(x, y);
      HalvesDecide(y, x);
    }
  }

  lemma NegativeIsLarge(x: bv32)
    ensures Negative(x) <==> Unsigned(x) >= TWO31
  {
  }

  lemma BelowBySign(x: bv32, y: bv32)
    ensures Below(x, y) <==> if Negative(x) != Negative(y) then Negative(x) else Lower(x, y)
  {
  }

  /** The signed order is the order of the signed numbers. */
  lemma BelowIs(x: bv32, y: bv32)
    ensures Below(x, y) <==> Signed(x) < Signed(y)
  {
    hide Unsigned;
    hide Negative;
    hide Lower;
    hide Below;
    BelowBySign(x, y);
    LowerIs(x, y);
    NegativeIsLarge(x);
    NegativeIsLarge(y);
  }

  // ----- bit by bit -----

  /** Bit i of a number. */
  predicate HasBit(x: int, i: nat)
  {
    x / PowerOfTwo(i) % 2 == 1
  }

  lemma BitOfHalf(x: bv32, i: nat)
    ensures HasBit(Unsigned(x), 0) <==> Odd(x)
    ensures HasBit(Unsigned(x), i + 1) <==> HasBit(Unsigned(Halved(x)), i)
  {
    hide Unsigned;
    hide Odd;
    hide Halved;
    Halves(x);
    HalfFirst(Unsigned(x), PowerOfTwo(i));
  }

  lemma HalfOfAnd(x: bv32, y: bv32) ensures Halved(And(x, y)) == And(Halved(x), Halved(y)) {}

  lemma HalfOfOr(x: bv32, y: bv32) ensures Halved(Or(x, y)) == Or(Halved(x), Halved(y)) {}

  lemma HalfOfXor(x: bv32, y: bv32) ensures Halved(Xor(x, y)) == Xor(Halved(x), Halved(y)) {}

  lemma DigitOfAnd(x: bv32, y: bv32) ensures Odd(And(x, y)) <==> Odd(x) && Odd(y) {}

  lemma DigitOfOr(x: bv32, y: bv32) ensures Odd(Or(x, y)) <==> Odd(x) || Odd(y) {}

  lemma DigitOfXor(x: bv32, y: bv32) ensures Odd(Xor(x, y)) <==> Odd(x) != Odd(y) {}

  lemma HalvesOfBitwise(x: bv32, y: bv32)
    ensures Halved(And(x, y)) == And(Halved(x), Halved(y)) && (Odd(And(x, y)) <==> Odd(x) && Odd(y))
    ensures Halved(Or(x, y)) == Or(Halved(x), Halved(y)) && (Odd(Or(x, y)) <==> Odd(x) || Odd(y))
    ensures Halved(Xor(x, y)) == Xor(Halved(x), Halved(y)) && (Odd(Xor(x, y)) <==> Odd(x) != Odd(y))
  {
    hide Halved;
    hide Odd;
    hide And;
    hide Or;
    hide Xor;
    HalfOfAnd(x, y);
    HalfOfOr(x, y);
    HalfOfXor(x, y);
    DigitOfAnd(x, y);
    DigitOfOr(x, y);
    DigitOfXor(x, y);
  }

  /** Bitwise operations work on each bit of the numbers. */
  lemma {:induction false} BitwiseIs(x: bv32, y: bv32, i: nat)
    ensures var a, b := HasBit(Unsigned(x), i), HasBit(Unsigned(y), i);
            && (HasBit(Unsigned(And(x, y)), i) <==> a && b) && (HasBit(Unsigned(Or(x, y)), i) <==> a || b)
            && (HasBit(Unsigned(Xor(x, y)), i) <==> a != b)
    decreases i
  {
    hide Unsigned;
    hide Odd;
    hide Halved;
    hide And;
    hide Or;
    hide Xor;
    hide HasBit;
    var j := if i == 0 then 0 else i - 1;
    HalvesOfBitwise(x, y);
    BitOfHalf(x, j);
    BitOfHalf(y, j);
    BitOfHalf(And(x, y), j);
    BitOfHalf(Or(x, y), j);
    BitOfHalf(Xor(x, y), j);
    if i > 0 { BitwiseIs(Halved(x), Halved(y), i - 1); }
  }

  /** The bits of 2^n - 1. */
  lemma {:induction false} AllOnes(n: nat, i: nat)
    ensures HasBit(PowerOfTwo(n) - 1, i) <==> i < n
    decreases n
  {
    if n > 0 {
      var x := PowerOfTwo(n) - 1;
      assert x / 2 == PowerOfTwo(n - 1) - 1 && x % 2 == 1;
      if i > 0 {
        HalfFirst(x, PowerOfTwo(i - 1));
        AllOnes(n - 1, i - 1);
      }
    } else {
      assert 0 / PowerOfTwo(i) == 0;
    }
  }

  // ----- shifts -----

  function Doubled(x: bv32): bv32 { x << 1 }

  lemma DoubledUnfolds(x: bv32) ensures Doubled(x) == Plus(x, x) { DoubleIsSum(x); }

  lemma LeftOnce(x: bv32, n: bv5)
    requires n < 31
    ensures Left(x, n + 1) == Doubled(Left(x, n))
  {
    ShiftOnce(x, n);
  }

  lemma RightOnce(x: bv32, n: bv5)
    requires n < 31
    ensures Right(x, n + 1) == Halved(Right(x, n))
  {
    UnshiftOnce(x, n);
  }

  lemma NoShift(x: bv32)
    ensures Left(x, 0) == x && Right(x, 0) == x && Filled(x, 0) == x
  {
  }

  lemma Fewer(n: bv5)
    requires n != 0
    ensures n - 1 < 31 && (n - 1) + 1 == n && n as nat == (n - 1) as nat + 1
  {
  }

  function Scaled(x: int, n: nat): int
  {
    (x * PowerOfTwo(n)) % TWO32
  }

  lemma ScaledOnce(x: int, n: nat)
    ensures Scaled(x, n + 1) == (Scaled(x, n) + Scaled(x, n)) % TWO32
    ensures Scaled(x, 0) == x % TWO32
  {
    DoubledRemainder(x, PowerOfTwo(n), TWO32);
  }

  lemma LeftDoubles(x: bv32, n: bv5)
    requires n < 31
    ensures Unsigned(Left(x, n + 1)) == (Unsigned(Left(x, n)) + Unsigned(Left(x, n))) % TWO32
  {
    hide Unsigned;
    hide Left;
    hide Doubled;
    hide Plus;
    LeftOnce(x, n);
    DoubledUnfolds(Left(x, n));
    PlusIs(Left(x, n), Left(x, n));
  }

  /** A left shift multiplies modulo 2^32. */
  lemma {:induction false} LeftIs(x: bv32, n: bv5)
    ensures Unsigned(Left(x, n)) == Scaled(Unsigned(x), n as nat)
    decreases n as nat
  {
    hide Unsigned;
    hide Left;
    hide Scaled;
    if n == 0 {
      NoShift(x);
      ScaledOnce(Unsigned(x), 0);
    } else {
      Fewer(n);
      LeftIs(x, n - 1);
      LeftDoubles(x, n - 1);
      ScaledOnce(Unsigned(x), (n - 1) as nat);
    }
  }

  /** A right shift divides. */
  lemma {:induction false} RightIs(x: bv32, n: bv5)
    ensures Unsigned(Right(x, n)) == Unsigned(x) / PowerOfTwo(n as nat)
    decreases n as nat
  {
    hide Unsigned;
    hide Right;
    hide Halved;
    hide Odd;
    if n == 0 {
      NoShift(x);
    } else {
      Fewer(n);
      RightIs(x, n - 1);
      RightOnce(x, n - 1);
      Halves(Right(x, n - 1));
      HalfLast(Unsigned(x), PowerOfTwo((n - 1) as nat));
    }
  }

  lemma PositiveUnfolds(x: bv32, n: bv5)
    requires !Negative(x)
    ensures Filled(x, n) == (x >> n) | 0
  {
  }

  lemma NothingAdded(x: bv32, n: bv5)
    ensures (x >> n) | 0 == Right(x, n)
  {
  }

  lemma FilledOfPositive(x: bv32, n: bv5)
    requires !Negative(x)
    ensures Filled(x, n) == Right(x, n)
  {
    hide Filled;
    hide Right;
    hide Negative;
    PositiveUnfolds(x, n);
    NothingAdded(x, n);
  }

  lemma StaysPositive(x: bv32, n: bv5)
    requires !Negative(x)
    ensures !Negative(Right(x, n))
  {
    NoFill(x, n);
  }

  function Not(x: bv32): bv32 { !x }

  lemma NotIsMinus(x: bv32)
    ensures Not(x) == Minus(0xffff_ffff, x)
  {
    Complement(x);
  }

  lemma FilledUnfolds(x: bv32, n: bv5)
    requires Negative(x)
    ensures Filled(x, n) == (x >> n) | !(0xffff_ffff >> n)
  {
  }

  lemma NotUnfolds(x: bv32, n: bv5)
    ensures Right(!x, n) == !x >> n && Not(!x >> n) == !(!x >> n) && Not(x) == !x
  {
  }

  /** Filling with ones is shifting zeros in among the complements. */
  lemma FilledOfNegative(x: bv32, n: bv5)
    requires Negative(x)
    ensures Filled(x, n) == Not(Right(Not(x), n))
  {
    OnesShiftedIn(x, n);
    FilledUnfolds(x, n);
    NotUnfolds(x, n);
    hide Filled;
    hide Not;
    hide Right;
  }

  lemma NotIs(x: bv32)
    ensures Unsigned(Not(x)) == 0xffff_ffff - Unsigned(x)
  {
    hide Unsigned;
    hide Not;
    hide Minus;
    NotIsMinus(x);
    MinusIs(0xffff_ffff, x);
    LastWord();
  }

  /** An arithmetic right shift divides the signed number, rounding down. */
  lemma FilledIs(x: bv32, n: bv5)
    ensures Signed(Filled(x, n)) == Signed(x) / PowerOfTwo(n as nat)
  {
    hide Unsigned;
    hide Right;
    hide Filled;
    hide Negative;
    hide Not;
    NegativeIsLarge(x);
    var p := PowerOfTwo(n as nat);
    if Negative(x) {
      FilledOfNegative(x, n);
      NotIs(x);
      RightIs(Not(x), n);
      NotIs(Right(Not(x), n));
      QuotientOfNegative(Signed(x), p);
      NegativeIsLarge(Not(x));
      StaysPositive(Not(x), n);
      NegativeIsLarge(Right(Not(x), n));
    } else {
      FilledOfPositive(x, n);
      RightIs(x, n);
      StaysPositive(x, n);
      NegativeIsLarge(Right(x, n));
    }
  }

  // ----- fields -----

  /** The word whose `width` lowest bits are set. */
  predicate IsMask(mask: bv32, width: nat)
  {
    if width == 0 then mask == 0 else Odd(mask) && IsMask(Halved(mask), width - 1)
  }

  lemma AndZero(x: bv32) ensures And(x, 0) == 0 {}

  /** Masking keeps the remainder. */
  lemma {:induction false} MaskIs(x: bv32, mask: bv32, width: nat)
    requires IsMask(mask, width)
    ensures Unsigned(And(x, mask)) == Unsigned(x) % PowerOfTwo(width)
    decreases width
  {
    hide Unsigned;
    hide Odd;
    hide Halved;
    hide And;
    hide Xor;
    hide Or;
    assert PowerOfTwo(width) == if width == 0 then 1 else 2 * PowerOfTwo(width - 1);
    hide PowerOfTwo;
    if width == 0 {
      AndZero(x);
      Zero();
    } else {
      MaskIs(Halved(x), Halved(mask), width - 1);
      HalvesOfBitwise(x, mask);
      Halves(x);
      Halves(And(x, mask));
      HalfFirst(Unsigned(x), PowerOfTwo(width - 1));
    }
  }

  lemma NothingInCommon(x: bv32, y: bv32)
    requires And(x, y) == 0
    ensures And(Halved(x), Halved(y)) == 0 && !(Odd(x) && Odd(y))
  {
    HalvesOfBitwise(x, y);
    Zero();
  }

  lemma OrZero(x: bv32) ensures Or(0, x) == x {}

  /** Words without a common bit are joined by adding them. */
  lemma {:induction false} OrIs(x: bv32, y: bv32)
    requires And(x, y) == 0
    ensures Unsigned(Or(x, y)) == Unsigned(x) + Unsigned(y)
    decreases Unsigned(x)
  {
    hide Unsigned;
    hide Odd;
    hide Halved;
    hide And;
    hide Or;
    Halves(x);
    Halves(y);
    if Unsigned(x) == 0 {
      OnlyZero(x);
      OrZero(y);
    } else {
      NothingInCommon(x, y);
      OrIs(Halved(x), Halved(y));
      HalvesOfBitwise(x, y);
      Halves(Or(x, y));
    }
  }

  /** The field of an instruction word that starts at bit `from`. */
  function Field(inst: bv32, from: nat, width: nat): (r: int)
    ensures 0 <= r < PowerOfTwo(width)
  {
    Unsigned(inst) / PowerOfTwo(from) % PowerOfTwo(width)
  }

  lemma FieldIs(inst: bv32, from: bv5, mask: bv32, width: nat)
    requires IsMask(mask, width)
    ensures Unsigned(And(Right(inst, from), mask)) == Field(inst, from as nat, width)
  {
    hide Unsigned;
    hide And;
    hide Right;
    hide IsMask;
    RightIs(inst, from);
    MaskIs(Right(inst, from), mask, width);
  }

  // ----- back -----

  lemma DoubleFits(x: int)
    requires IsUint32(x) && x > 0
    ensures (x / 2 + x / 2) % TWO32 == x - x % 2 && (x % 2 == 1 ==> (x - 1 + 1) % TWO32 == x)
  {
  }

  /** The word that stands for a number, digit by digit. */
  function FromUnsigned(x: int): (r: bv32)
    requires IsUint32(x)
    ensures Unsigned(r) == x
  {
    hide Unsigned;
    hide Plus;
    hide Next;
    if x == 0 then Zero(); 0
    else
      var h := FromUnsigned(x / 2);
      PlusIs(h, h);
      NextIs(Plus(h, h));
      DoubleFits(x);
      if x % 2 == 1 then Next(Plus(h, h)) else Plus(h, h)
  }
}
