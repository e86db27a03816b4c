/**
 * Integer facts behind the colour arithmetic. Python's `int(x)` on a float
 * truncates toward zero; with the float replaced by the exact rational `a / b`
 * (b > 0) that is `TruncDiv(a, b)`. Python's `//` with a positive divisor floors,
 * which is what Dafny's `/` does for a positive divisor.
 */
module Arith {

  lemma DivBounds(a: nat, b: int)
    requires b > 0
    ensures a / b >= 0 && b * (a / b) <= a < b * (a / b) + b
  {
    assert a == b * (a / b) + a % b;
  }

  /** `int(a / b)`: the quotient truncated toward zero. */
  function TruncDiv(a: int, b: int): (q: int)
    requires b > 0
    ensures a >= 0 ==> q >= 0 && b * q <= a < b * q + b
    ensures a < 0 ==> q <= 0 && b * q - b < a <= b * q
  {
    if a >= 0 then
      DivBounds(a, b);
      a / b
    else
      DivBounds(-a, b);
      var p := (-a) / b;
      assert b * (-p) == -(b * p);
      -p
  }

  lemma MulNonneg(x: int, y: int)
    ensures x >= 0 && y >= 0 ==> x * y >= 0
  {
  }

  lemma DivMonotone(a: nat, b: nat, d: int)
    requires 0 < d && a <= b
    ensures a / d <= b / d
  {
    var qa, qb := a / d, b / d;
    assert a == d * qa + a % d && b == d * qb + b % d;
    assert d * qa == d * qb + d + d * (qa - qb - 1);
    MulNonneg(d, qa - qb - 1);
  }

  /** Truncating division is monotone in the dividend. */
  lemma TruncDivMonotone(a1: int, a2: int, b: int)
    requires 0 < b && a1 <= a2
    ensures TruncDiv(a1, b) <= TruncDiv(a2, b)
  {
    if a1 >= 0 {
      DivMonotone(a1, a2, b);
    } else if a2 < 0 {
      DivMonotone(-a2, -a1, b);
    }
  }

  /** Dividing an exact multiple gives the multiplier back, for either sign. */
  lemma TruncDivExact(c: int, b: int)
    requires 0 < b
    ensures TruncDiv(c * b, b) == c
  {
    var q := TruncDiv(c * b, b);
    if c >= 0 {
      assert c * b >= 0;
      assert b * q <= b * c < b * q + b;
    } else {
      assert c * b < 0;
      assert b * q - b < b * c <= b * q;
    }
    assert b * c == b * q + b + b * (c - q - 1);
    assert b * q == b * c + b + b * (q - c - 1);
    MulNonneg(b, c - q - 1);
    MulNonneg(b, q - c - 1);
  }

  /** A dividend between `lo * b` and `hi * b` truncates to a quotient between `lo` and `hi`. */
  lemma TruncDivBetween(a: int, b: int, lo: int, hi: int)
    requires 0 < b && lo * b <= a <= hi * b
    ensures lo <= TruncDiv(a, b) <= hi
  {
    TruncDivMonotone(lo * b, a, b);
    TruncDivMonotone(a, hi * b, b);
    TruncDivExact(lo, b);
    TruncDivExact(hi, b);
  }

  /** A non-negative dividend below `(hi + 1) * b` truncates to at most `hi`. */
  lemma TruncDivBelow(a: int, b: int, hi: int)
    requires 0 < b && 0 <= a < hi * b + b
    ensures TruncDiv(a, b) <= hi
  {
    var q := TruncDiv(a, b);
    assert b * q < b * hi + b;
    assert b * q == b * hi + b + b * (q - hi - 1);
    MulNonneg(b, q - hi - 1);
  }

  /** Scaling by a factor in [0, d] stays between 0 and the full product, for either sign. */
  lemma ScaleBetween(c: int, k: int, d: int)
    requires 0 <= k <= d
    ensures c >= 0 ==> 0 <= c * k <= c * d
    ensures c < 0 ==> c * d <= c * k <= 0
  {
    assert c * d - c * k == c * (d - k);
    if c >= 0 {
      assert c * (d - k) >= 0 && c * k >= 0;
    } else {
      assert (-c) * (d - k) >= 0 && (-c) * k >= 0;
    }
  }
}
