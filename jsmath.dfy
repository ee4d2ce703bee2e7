/** JavaScript's Math.round applied to an exact rational n / d. */
module JsMath {

  /** Math.round(n / d): the integer nearest to n / d, a tie going up (towards
      +infinity), as Math.round does for every sign. */
  function JsRound(n: int, d: int): (r: int)
    requires d > 0
    ensures 2 * d * r - d <= 2 * n < 2 * d * r + d
  {
    var q := (2 * n + d) / (2 * d);
    DivBounds(2 * n + d, 2 * d);
    q
  }

  /** The Euclidean quotient of x by a positive y is floor(x / y). */
  lemma DivBounds(x: int, y: int)
    requires y > 0
    ensures y * (x / y) <= x < y * (x / y) + y
  {
  }

  /** The rounded value is unique: any integer that is within one half of n / d,
      a tie counted upwards, is JsRound(n, d). */
  lemma {:induction false} JsRoundUnique(n: int, d: int, r: int)
    requires d > 0
    requires 2 * d * r - d <= 2 * n < 2 * d * r + d
    ensures r == JsRound(n, d)
  {
    var q := JsRound(n, d);
    assert 2 * d * (r - q) < 2 * d;
    assert 2 * d * (q - r) < 2 * d;
    ProductBelowFactor(2 * d, r - q);
    ProductBelowFactor(2 * d, q - r);
  }

  lemma ProductBelowFactor(k: int, a: int)
    requires k > 0 && k * a < k
    ensures a <= 0
  {
  }
}
