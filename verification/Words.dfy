/** Fixed-width machine words.  `UINT32` and `UINT64` arithmetic is written out with its
    wrap-around; `INT32` values are mathematical integers whose range is a separate theorem. */
module Words {
  const TWO31: int := 0x8000_0000
  const TWO32: int := 0x1_0000_0000
  const TWO64: int := 0x1_0000_0000_0000_0000
  const WORD_BYTES: int := 4

  /** Reduction of an integer to an unsigned 32-bit word. */
  function U32(x: int): (r: int)
    ensures 0 <= r < TWO32
    ensures 0 <= x < TWO32 ==> r == x
  {
    x % TWO32
  }

  /** Reduction of an integer to an unsigned 64-bit word. */
  function U64(x: int): (r: int)
    ensures 0 <= r < TWO64
    ensures 0 <= x < TWO64 ==> r == x
  {
    x % TWO64
  }

  /** The signed reading of an unsigned 32-bit word. */
  function AsInt32(x: int): int
  {
    if x < TWO31 then x else x - TWO32
  }

  predicate IsInt32(x: int)
  {
    -TWO31 <= x < TWO31
  }

  predicate IsUint32(x: int)
  {
    0 <= x < TWO32
  }

  function Abs(x: int): nat
  {
    if x < 0 then -x else x
  }

  function Min(x: int, y: int): int
  {
    if x <= y then x else y
  }

  function Times(x: nat, y: nat): nat
  {
    x * y
  }

  lemma MultiplesGrow(x: nat, y: nat, w: nat)
    requires x <= y
    ensures Times(x, w) <= Times(y, w) && Times(x + 1, w) == Times(x, w) + w && Times(0, w) == 0
    ensures Times(y, w) == Times(x, w) + Times(y - x, w)
  {
    assert (y - x) * w >= 0;
  }
}
