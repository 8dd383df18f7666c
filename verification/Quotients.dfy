/** Division by products. */
module Quotients {
  lemma MultiplesAreFar(d: int, q: int, q': int)
    requires d > 0 && q < q'
    ensures d * q + d <= d * q'
  {
    assert d * (q' - q - 1) >= 0;
  }

  lemma QuotientIs(x: int, d: int, q: int, r: int)
    requires d > 0 && x == d * q + r && 0 <= r < d
    ensures x / d == q && x % d == r
  {
    if q < x / d { MultiplesAreFar(d, q, x / d); }
    if x / d < q { MultiplesAreFar(d, x / d, q); }
  }

  /** Dividing by 2 * b is halving and then dividing by b. */
  lemma HalfFirst(x: int, b: int)
    requires b > 0
    ensures x / (2 * b) == x / 2 / b && x % (2 * b) == 2 * (x / 2 % b) + x % 2
  {
    var q, r := x / 2 / b, x / 2 % b;
    assert x == 2 * (b * q + r) + x % 2;
    assert 2 * (b * q) == (2 * b) * q;
    QuotientIs(x, 2 * b, q, 2 * r + x % 2);
  }

  /** So is dividing by b and then halving. */
  lemma HalfLast(x: int, b: int)
    requires b > 0
    ensures x / (2 * b) == x / b / 2
  {
    var q, r := x / b / 2, x / b % 2;
    assert x == b * (2 * q + r) + x % b;
    assert b * (2 * q + r) == (2 * b) * q + b * r && (r == 0 ==> b * r == 0) && (r == 1 ==> b * r == b);
    QuotientIs(x, 2 * b, q, b * r + x % b);
  }

  lemma RemainderDoubled(x: int, d: int)
    requires d > 0
    ensures (x % d + x % d) % d == (2 * x) % d
  {
    var q, r := x / d, x % d;
    var q', r' := (r + r) / d, (r + r) % d;
    assert 2 * x == d * (2 * q + q') + r';
    QuotientIs(2 * x, d, 2 * q + q', r');
  }

  lemma DoubledRemainder(x: int, p: int, d: int)
    requires d > 0
    ensures ((x * p) % d + (x * p) % d) % d == (x * (2 * p)) % d
  {
    RemainderDoubled(x * p, d);
    assert 2 * (x * p) == x * (2 * p);
  }

  /** Rounding down, seen from above. */
  lemma QuotientOfNegative(x: int, d: int)
    requires d > 0
    ensures x / d == -1 - (-1 - x) / d
  {
    var q, r := (-1 - x) / d, (-1 - x) % d;
    assert x == d * (-1 - q) + (d - 1 - r);
    QuotientIs(x, d, -1 - q, d - 1 - r);
  }

  lemma ProductFits(f: int, q: int, p: int, m: int)
    requires 0 <= f < q && p > 0 && q * p <= m
    ensures 0 <= f * p < m
  {
    assert (q - f) * p > 0;
  }
}
