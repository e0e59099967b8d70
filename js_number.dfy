/** The JavaScript `number` values the auth helpers test: a finite value, NaN
    or an infinity, with `Math.trunc`, `Math.floor` and `Number.isFinite`.
    Finite values are exact reals; rounding to doubles is not modelled. */
module JsNumber {

  datatype Num = Finite(value: real) | NaN | Infinity(positive: bool)

  predicate IsFinite(x: Num) {
    x.Finite?
  }

  /** `Math.floor` on a finite value: the greatest integer not above it. */
  function Floor(x: real): (r: int)
    ensures r as real <= x < r as real + 1.0
  {
    x.Floor
  }

  /** `Math.trunc` on a finite value: rounds toward zero. */
  function Trunc(x: real): (r: int)
    ensures x >= 0.0 ==> 0 <= r && r as real <= x < r as real + 1.0
    ensures x < 0.0 ==> r <= 0 && r as real - 1.0 < x <= r as real
  {
    if x >= 0.0 then x.Floor else -((-x).Floor)
  }

  /** The integers in `lo..hi` that `Trunc` yields are exactly those of the
      reals in `[lo, hi + 1)` when `lo` is positive. */
  lemma TruncInRange(x: real, lo: int, hi: int)
    requires 0 < lo <= hi
    ensures lo <= Trunc(x) <= hi <==> lo as real <= x < hi as real + 1.0
  {
    if x < 0.0 {
      assert Trunc(x) <= 0;
    }
  }
}
