/** Facts about products and truncating division that the quoting and risk arithmetic rest on. */
module Arithmetic {
  import opened Types

  lemma MulMono(a: int, b: int, k: int)
    requires a <= b && 0 <= k
    ensures a * k <= b * k
  {
  }

  lemma MulAssoc(a: int, b: int, c: int)
    ensures (a * b) * c == a * (b * c)
  {
  }

  lemma CancelFactor(a: int, b: int, k: int)
    requires 0 < k && a * k < b * k
    ensures a < b
  {
    if b <= a {
      MulMono(b, a, k);
    }
  }

  lemma DivModUnique(x: int, d: int, q: int, r: int)
    requires d > 0 && x == d * q + r && 0 <= r < d
    ensures x / d == q && x % d == r
  {
    var q' := x / d;
    assert x == d * q' + x % d;
    assert d * (q - q') == x % d - r;
    assert q - q' >= 1 ==> d * (q - q') >= d;
    assert q - q' <= -1 ==> d * (q - q') <= -d;
  }

  /** In a range of size `p` the upper half of the remainders stands for the negative values. */
  function FromTwosComplement(u: int, p: int): int { if u < p / 2 then u else u - p }

  lemma TwosComplement(v: int, p: int)
    requires p > 0 && p % 2 == 0 && -(p / 2) <= v < p / 2
    ensures FromTwosComplement(v % p, p) == v
  {
    if v < 0 {
      DivModUnique(v, p, -1, v + p);
    } else {
      DivModUnique(v, p, 0, v);
    }
  }

  /** The quotient, rounded toward zero, and what the remainder leaves. */
  lemma TruncDivBounds(x: int, d: int)
    requires d > 0
    ensures var q := TruncDiv(x, d);
      if x >= 0 then q >= 0 && q * d <= x < q * d + d else q <= 0 && q * d - d < x <= q * d
  {
    FloorBounds(if x >= 0 then x else -x, d);
    var a := (if x >= 0 then x else -x) / d;
    assert (-a) * d == -(a * d);
  }

  lemma FloorBounds(x: nat, d: int)
    requires d > 0
    ensures x / d >= 0 && (x / d) * d <= x < (x / d) * d + d
  {
  }

  lemma TruncDivOdd(x: int, d: int)
    requires d > 0
    ensures TruncDiv(-x, d) == -TruncDiv(x, d)
  {
  }

  /** A quotient from below a fraction and one from above a larger fraction are ordered. */
  lemma QuotientsOrdered(q1: int, d1: int, x1: int, q2: int, d2: int, x2: int)
    requires d1 > 0 && d2 > 0 && x1 * d2 <= x2 * d1
    requires q1 * d1 <= x1 && x2 < q2 * d2
    ensures q1 < q2
  {
    var k := d1 * d2;
    MulMono(q1 * d1, x1, d2);
    MulAssoc(q1, d1, d2);
    assert x2 * d1 < (q2 * d2) * d1;
    MulAssoc(q2, d2, d1);
    CancelFactor(q1, q2, k);
  }

  lemma NonNegativeQuotients(q1: int, d1: int, x1: int, q2: int, d2: int, x2: int)
    requires d1 > 0 && d2 > 0 && x1 * d2 <= x2 * d1
    requires q1 * d1 <= x1 && x2 < q2 * d2 + d2
    ensures q1 <= q2
  {
    assert (q2 + 1) * d2 == q2 * d2 + d2;
    QuotientsOrdered(q1, d1, x1, q2 + 1, d2, x2);
  }

  lemma NegativeQuotients(q1: int, d1: int, x1: int, q2: int, d2: int, x2: int)
    requires d1 > 0 && d2 > 0 && x1 * d2 <= x2 * d1
    requires q1 * d1 - d1 < x1 && x2 <= q2 * d2
    ensures q1 <= q2
  {
    assert (-x2) * d1 == -(x2 * d1) && (-x1) * d2 == -(x1 * d2);
    assert (-q2) * d2 == -(q2 * d2) && (1 - q1) * d1 == d1 - q1 * d1;
    QuotientsOrdered(-q2, d2, -x2, 1 - q1, d1, -x1);
  }

  lemma FractionSigns(x1: int, d1: int, x2: int, d2: int)
    requires d1 > 0 && d2 > 0 && x1 * d2 <= x2 * d1 && x1 >= 0
    ensures x2 >= 0
  {
    MulMono(0, x1, d2);
    if x2 <= -1 {
      MulMono(x2, -1, d1);
    }
  }

  /** Division respects the order of fractions x1/d1 <= x2/d2. */
  lemma TruncDivMonotone(x1: int, d1: int, x2: int, d2: int)
    requires d1 > 0 && d2 > 0 && x1 * d2 <= x2 * d1
    ensures TruncDiv(x1, d1) <= TruncDiv(x2, d2)
  {
    TruncDivBounds(x1, d1);
    TruncDivBounds(x2, d2);
    if x1 >= 0 {
      FractionSigns(x1, d1, x2, d2);
      NonNegativeQuotients(TruncDiv(x1, d1), d1, x1, TruncDiv(x2, d2), d2, x2);
    } else if x2 < 0 {
      NegativeQuotients(TruncDiv(x1, d1), d1, x1, TruncDiv(x2, d2), d2, x2);
    }
  }

  lemma TruncDivExact(k: nat, d: int)
    requires d > 0
    ensures TruncDiv(k * d, d) == k
  {
    var q := TruncDiv(k * d, d);
    MulMono(0, k, d);
    TruncDivBounds(k * d, d);
    assert (q + 1) * d == q * d + d && (k + 1) * d == k * d + d;
    CancelFactor(k, q + 1, d);
    CancelFactor(q, k + 1, d);
  }
}
