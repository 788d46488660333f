/**
 * Exact arithmetic standing in for the JavaScript number operations the
 * tracker uses: `Math.round`, `Math.floor` and `Math.ceil` of a quotient,
 * and `Math.min`. Everything is exact (no IEEE-754 rounding).
 */
module Numbers {

  /** `Math.round(x)`: the nearest integer, halves rounded towards +infinity. */
  function Round(x: real): (r: int)
    ensures r as real - 0.5 <= x < r as real + 0.5
  {
    (x + 0.5).Floor
  }

  /** `Math.floor(a / d)` for a positive divisor. */
  function FloorDiv(a: int, d: int): (q: int)
    requires d > 0
    ensures d * q <= a < d * (q + 1)
  {
    a / d
  }

  /** `Math.ceil(a / d)` for a positive divisor. */
  function CeilDiv(a: int, d: int): (q: int)
    requires d > 0
    ensures d * (q - 1) < a <= d * q
  {
    -((-a) / d)
  }

  /** `Math.min(a, b)` on reals. */
  function Min(a: real, b: real): (r: real)
    ensures r <= a && r <= b
    ensures r == a || r == b
  {
    if a <= b then a else b
  }

  /**
   * A ratio `x / n` taken as a percentage, for a positive denominator: it
   * is at most 100 exactly when `x <= n`, at least 100 exactly when `x >= n`,
   * and is non-negative exactly when `x` is.
   */
  lemma PercentOf(x: real, n: real)
    requires n > 0.0
    ensures x <= n <==> x / n * 100.0 <= 100.0
    ensures x >= n <==> x / n * 100.0 >= 100.0
    ensures x >= 0.0 <==> x / n * 100.0 >= 0.0
  {
  }

  /**
   * Comparing a percentage `x / n * 100` with a threshold `k` is the same as
   * comparing the cross-multiplied values, for a positive denominator.
   */
  lemma PercentCompare(x: real, n: real, k: real)
    requires n > 0.0
    ensures x / n * 100.0 < k <==> 100.0 * x < k * n
    ensures x / n * 100.0 == 0.0 <==> x == 0.0
  {
  }
}
