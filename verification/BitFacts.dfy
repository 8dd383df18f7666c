/** Facts about the bits of 32-bit words, each small enough for the solver to see through. */
module BitFacts {
  lemma NextOfEven(z: bv32)
    requires z & 1 == 0
    ensures (z + 1) >> 1 == z >> 1
  {
  }

  lemma NextOfEvenIsOdd(z: bv32)
    requires z & 1 == 0
    ensures (z + 1) & 1 != 0
  {
  }

  lemma NextOfOdd(z: bv32)
    requires z & 1 != 0 && z != 0xffff_ffff
    ensures (z + 1) >> 1 == (z >> 1) + 1
  {
  }

  lemma NextOfOddIsEven(z: bv32)
    requires z & 1 != 0
    ensures (z + 1) & 1 == 0
  {
  }

  lemma HalfIsNotLast(z: bv32)
    ensures z >> 1 != 0xffff_ffff
  {
  }

  lemma HigherBitsDecide(x: bv32, y: bv32)
    ensures x >> 1 < y >> 1 ==> x < y
  {
  }

  lemma OddIsHigher(x: bv32, y: bv32)
    requires x >> 1 == y >> 1 && x & 1 == 0 && y & 1 != 0
    ensures x < y
  {
  }

  lemma HigherIsOdd(x: bv32, y: bv32)
    requires x >> 1 == y >> 1 && x < y
    ensures x & 1 == 0 && y & 1 != 0
  {
  }

  lemma ShiftOnce(x: bv32, n: bv5)
    requires n < 31
    ensures x << (n + 1) == (x << n) << 1
  {
    if n & 1 != 0 {} else { assert x << (n + 1) == x << (n | 1); }
  }

  lemma DoubleIsSum(x: bv32)
    ensures x << 1 == x + x
  {
  }

  lemma UnshiftOnce(x: bv32, n: bv5)
    requires n < 31
    ensures x >> (n + 1) == (x >> n) >> 1
  {
    if n & 1 != 0 {} else { assert x >> (n + 1) == x >> (n | 1); }
  }

  lemma OnesShiftedIn(x: bv32, n: bv5)
    ensures (x >> n) | !(0xffff_ffff >> n) == !(!x >> n)
  {
    if n & 16 != 0 {} else {}
  }

  lemma Complement(x: bv32)
    ensures !x == 0xffff_ffff - x
  {
  }

  lemma NoFill(x: bv32, n: bv5)
    requires x & 0x8000_0000 == 0
    ensures (x >> n) & 0x8000_0000 == 0
  {
  }

  lemma XorIsOr(x: bv32, y: bv32)
    requires x & y == 0
    ensures x ^ y == x | y
  {
  }

  lemma SignOfByte(v: bv32)
    requires v < 0x100
    ensures v & 0x80 == 0x80 || (v & 0x80 == 0 && v < 0x80)
  {
  }

  lemma SignOfHalf(v: bv32)
    requires v < 0x1_0000
    ensures v & 0x8000 == 0x8000 || (v & 0x8000 == 0 && v < 0x8000)
  {
  }

  lemma SignOfI(v: bv32)
    requires v < 0x1000
    ensures v & 0x800 == 0x800 || (v & 0x800 == 0 && v < 0x800)
  {
  }

  lemma SignOfB(v: bv32)
    requires v < 0x2000
    ensures v & 0x1000 == 0x1000 || (v & 0x1000 == 0 && v < 0x1000)
  {
  }

  lemma SignOfJ(v: bv32)
    requires v < 0x20_0000
    ensures v & 0x10_0000 == 0x10_0000 || (v & 0x10_0000 == 0 && v < 0x10_0000)
  {
  }

  lemma FourDivides(x: bv32)
    ensures x % 4 == x & 3
  {
  }

  lemma NotIsXor(x: bv32)
    ensures !x == x ^ 0xffff_ffff
  {
  }
}
