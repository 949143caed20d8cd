/**
 * The JavaScript number operations the calendar code relies on, stated on
 * unbounded integers: `Math.floor(a / b)` and the truncating remainder `a % b`.
 * Dafny's own `/` and `%` are Euclidean, so they are written out here and then
 * related to Dafny's operators.
 */
module JsMath {

  /** `Math.floor(a / b)` for a non-zero integer divisor. */
  function FloorDiv(a: int, b: int): int
    requires b != 0
  {
    if b > 0 then a / b else (-a) / (-b)
  }

  /** JavaScript's `a % b`: the remainder takes the sign of the dividend. */
  function JsRem(a: int, b: int): int
    requires b != 0
  {
    var m := if b > 0 then b else -b;
    if a >= 0 then a % m else -((-a) % m)
  }

  function Min(a: int, b: int): int { if a <= b then a else b }

  /** `Math.floor(a / b)` is the largest q with q * b on the dividend's side of a. */
  lemma FloorDivBounds(a: int, b: int)
    requires b != 0
    ensures b > 0 ==> b * FloorDiv(a, b) <= a < b * FloorDiv(a, b) + b
    ensures b < 0 ==> b * FloorDiv(a, b) >= a > b * FloorDiv(a, b) + b
  {
    if b < 0 {
      var q := (-a) / (-b);
      assert (-b) * q <= -a < (-b) * q + (-b);
    }
  }

  /**
   * The idiom `((x % 12) + 12) % 12` with JavaScript's `%` is the Euclidean
   * remainder by 12, for every sign of x; this is what `addMonths` uses to
   * normalise a month index.
   */
  lemma PositiveModulo12(x: int)
    ensures JsRem(JsRem(x, 12) + 12, 12) == x % 12
  {
    if x < 0 {
      var q := (-x) / 12;
      assert -x == 12 * q + (-x) % 12;
      var r := JsRem(x, 12);
      assert r == x + 12 * q;
      assert 0 < r + 12 <= 12;
    }
  }
}
