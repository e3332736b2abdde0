/** The few JavaScript `Math` operations the engines use, on exact reals.
    Amounts are modelled as rationals, so IEEE-754 rounding never shows up here. */
module JsMath {

  /** `Math.round`: the nearest integer, halves rounded towards +infinity
      (so `Math.round(-2.5) == -2`). */
  function Round(x: real): (r: int)
    ensures r as real - 0.5 <= x < r as real + 0.5
  {
    (x + 0.5).Floor
  }

  /** `Math.ceil`: the least integer not below `x`. */
  function Ceil(x: real): (r: int)
    ensures r as real - 1.0 < x <= r as real
  {
    -((-x).Floor)
  }

  /** `Math.min` on two numbers. */
  function MinR(a: real, b: real): (r: real)
    ensures r <= a && r <= b && (r == a || r == b)
  {
    if a <= b then a else b
  }

  /** `Math.max` on two numbers. */
  function MaxR(a: real, b: real): (r: real)
    ensures r >= a && r >= b && (r == a || r == b)
  {
    if a >= b then a else b
  }

  /** Rounding an integer gives it back. */
  lemma RoundOfInt(k: int)
    ensures Round(k as real) == k
  {
  }

  /** Rounding is monotone. */
  lemma RoundMonotone(x: real, y: real)
    requires x <= y
    ensures Round(x) <= Round(y)
  {
  }

  /** `Math.round(x / m) * m` is the multiple of `m` nearest to `x` (halves up). */
  lemma RoundToMultiple(x: real, m: int)
    requires m > 0
    ensures var r := Round(x / m as real) * m;
      r % m == 0 && r as real - m as real / 2.0 <= x < r as real + m as real / 2.0
  {
    var k := Round(x / m as real);
    MultipleMod(k, m);
    NearestMultiple(x, m as real, k as real);
  }

  lemma MultipleMod(k: int, m: int)
    requires m > 0
    ensures (k * m) % m == 0
  {
    var q := (k * m) / m;
    var rem := (k * m) % m;
    assert k * m == q * m + rem && 0 <= rem < m;
    assert (k - q) * m == rem;
    if k - q > 0 {
      MulPositive(k - q, m);
    } else if k - q < 0 {
      MulPositive(q - k, m);
    }
  }

  lemma MulPositive(a: int, m: int)
    requires a >= 1 && m > 0
    ensures a * m >= m
  {
    assert a * m == (a - 1) * m + m;
  }

  lemma NearestMultiple(x: real, mr: real, k: real)
    requires mr > 0.0
    requires k - 0.5 <= x / mr < k + 0.5
    ensures k * mr - mr / 2.0 <= x < k * mr + mr / 2.0
  {
    if x >= (k + 0.5) * mr {
      DivAtLeast(x, k + 0.5, mr);
    }
    if x < (k - 0.5) * mr {
      DivBelow(x, k - 0.5, mr);
    }
  }

  lemma DivAtLeast(x: real, c: real, m: real)
    requires m > 0.0 && x >= c * m
    ensures x / m >= c
  {
  }

  lemma DivBelow(x: real, c: real, m: real)
    requires m > 0.0 && x < c * m
    ensures x / m < c
  {
  }
}
