/** `Math.round` applied to a quotient of integers, in exact arithmetic.
    `Math.round(x)` is the integer nearest `x`, with halves rounded up, i.e.
    `floor(x + 1/2)`; for `x = a / b` with `b > 0` that is `(2a + b) div 2b`. */
module Rounding {

  /** `Math.round(a / b)` for a positive divisor: twice the distance from
      `r * b` to `a` is at most `b`, and a tie goes up. */
  function RoundDiv(a: int, b: int): (r: int)
    requires b > 0
    ensures 2 * a - b < 2 * r * b <= 2 * a + b
  {
    var r := (2 * a + b) / (2 * b);
    var m := (2 * a + b) % (2 * b);
    assert 2 * a + b == (2 * b) * r + m && 0 <= m < 2 * b;
    assert 2 * r * b == (2 * b) * r;
    r
  }

  /** The rounding bound picks exactly one integer. */
  lemma RoundDivUnique(a: int, b: int, r: int)
    requires b > 0
    requires 2 * a - b < 2 * r * b <= 2 * a + b
    ensures r == RoundDiv(a, b)
  {
    var q := RoundDiv(a, b);
    assert (r - q) * b == r * b - q * b;
    FactorBetween(r - q, b, -1, 1);
  }

  /** A multiple `d * b` strictly between `lo * b` and `hi * b` has `lo < d < hi`. */
  lemma FactorBetween(d: int, b: int, lo: int, hi: int)
    requires b > 0 && lo * b < d * b < hi * b
    ensures lo < d < hi
  {
  }

  /** Rounding `t / n` for `t` within `[0, n * limit]` gives a value within
      `[0, limit]`. */
  lemma RoundWithin(t: int, n: int, r: int, limit: int)
    requires n > 0 && 0 <= t <= n * limit
    requires 2 * t - n < 2 * r * n <= 2 * t + n
    ensures 0 <= r <= limit
  {
    assert (-1) * (2 * n) < r * (2 * n);
    assert 2 * t + n <= 2 * (n * limit) + n < (limit + 1) * (2 * n);
    FactorBetween(r, 2 * n, -1, limit + 1);
  }

  /** `whole > 0 ? Math.round((part / whole) * 100) : 0`. */
  function Percent(part: int, whole: int): (r: int)
    ensures whole <= 0 ==> r == 0
    ensures whole > 0 ==> 200 * part - whole < 2 * r * whole <= 200 * part + whole
    ensures 0 <= part <= whole ==> 0 <= r <= 100
    ensures whole > 0 && part == whole ==> r == 100
  {
    if whole > 0 then
      var r := RoundDiv(100 * part, whole);
      PercentRange(part, whole, r);
      r
    else 0
  }

  lemma PercentRange(part: int, whole: int, r: int)
    requires whole > 0
    requires 200 * part - whole < 2 * r * whole <= 200 * part + whole
    ensures 0 <= part <= whole ==> 0 <= r <= 100
    ensures part == whole ==> r == 100
  {
    if 0 <= part <= whole {
      assert (-1) * (2 * whole) < r * (2 * whole) < 101 * (2 * whole);
      FactorBetween(r, 2 * whole, -1, 101);
    }
    if part == whole {
      assert 99 * (2 * whole) < r * (2 * whole) < 101 * (2 * whole);
      FactorBetween(r, 2 * whole, 99, 101);
    }
  }
}
