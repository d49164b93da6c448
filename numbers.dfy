/** The rounding the components apply to numbers before storing or showing them:
    `Math.round` and `parseFloat(x.toFixed(k))`, in exact real arithmetic. */
module Numbers {

  /** `Math.round(x)`: the nearest integer, halves rounded up. */
  function MathRound(x: real): (r: int)
    ensures x - 0.5 < r as real <= x + 0.5
  {
    (x + 0.5).Floor
  }

  /** The scale of `toFixed(1)` and of `toFixed(2)`. */
  const OneDecimal: real := 10.0
  const TwoDecimals: real := 100.0

  /** `parseFloat(x.toFixed(k))` with `scale` = 10^k: `x` rounded to a multiple of
      1/scale, halves away from zero. */
  function ToFixed(x: real, scale: real): real
    requires scale > 0.0
  {
    if x >= 0.0 then MathRound(x * scale) as real / scale
    else -(MathRound(-x * scale) as real / scale)
  }

  /** Rounding moves a value by at most half a unit in the last place, and keeps
      the sign of a non-negative value. */
  lemma ToFixedClose(x: real, scale: real)
    requires scale > 0.0
    ensures x - 0.5 / scale <= ToFixed(x, scale) <= x + 0.5 / scale
    ensures x >= 0.0 ==> ToFixed(x, scale) >= 0.0
  {
    if x >= 0.0 {
      ToFixedCloseNonNeg(x, scale);
    } else {
      ToFixedCloseNonNeg(-x, scale);
      assert ToFixed(x, scale) == -ToFixed(-x, scale);
    }
  }

  lemma ToFixedCloseNonNeg(x: real, scale: real)
    requires x >= 0.0 && scale > 0.0
    ensures x - 0.5 / scale <= ToFixed(x, scale) <= x + 0.5 / scale
    ensures ToFixed(x, scale) >= 0.0
  {
    var n := MathRound(x * scale) as real;
    var e := n - x * scale;
    assert ToFixed(x, scale) == n / scale;
    DivideShift(n, x, scale);
    DivideBounds(e, 0.5, scale);
    NonNegDivide(n, scale);
  }

  lemma DivideShift(n: real, y: real, c: real)
    requires c > 0.0
    ensures n / c - y == (n - y * c) / c
  {
  }

  lemma DivideBounds(e: real, h: real, c: real)
    requires c > 0.0 && -h < e <= h
    ensures -(h / c) < e / c <= h / c
  {
  }

  lemma NonNegDivide(n: real, c: real)
    requires c > 0.0 && n >= 0.0
    ensures n / c >= 0.0
  {
  }
}
