/**
  The one piece of JavaScript number semantics the carousel depends on: the
  remainder operator `%`, which truncates toward zero, so that the sign of the
  result follows the dividend. Dafny's own `%` is Euclidean and never negative.
  Only integral operands and a positive divisor are modelled: the divisor used
  by the carousel is a list length, and a zero divisor gives NaN.
 */
module JsArith {

  /** JavaScript's `a % n` on integral numbers (a truncated remainder). */
  function JsRem(a: int, n: int): (r: int)
    requires 0 < n
    ensures 0 <= a ==> 0 <= r < n
    ensures a < 0 ==> -n < r <= 0
    ensures (a - r) % n == 0
  {
    if 0 <= a then
      DivModSplit(a, n);
      MultipleMod(a / n, n);
      a % n
    else
      DivModSplit(-a, n);
      MultipleMod(-((-a) / n), n);
      -((-a) % n)
  }

  lemma DivModSplit(a: int, n: int)
    requires 0 < n
    ensures a == n * (a / n) + a % n
  {
  }

  lemma MultipleMod(k: int, n: int)
    requires 0 < n
    ensures (n * k) % n == 0
  {
    var x := n * k;
    DivModSplit(x, n);
    var d := k - x / n;
    assert x % n == n * d;
  }

  /** Euclidean `%` is determined by congruence and range. */
  lemma ModUnique(y: int, r: int, n: int)
    requires 0 <= r < n
    requires (y - r) % n == 0
    ensures y % n == r
  {
    DivModSplit(y - r, n);
    DivModSplit(y, n);
    var d := (y - r) / n - y / n;
    assert y % n - r == n * d;
  }

  /** Adding a multiple of `n` does not change the Euclidean remainder. */
  lemma ModAddMultiple(y: int, q: int, n: int)
    requires 0 < n
    ensures (y + n * q) % n == y % n
  {
    DivModSplit(y, n);
    MultipleMod(y / n + q, n);
    assert (y + n * q) - y % n == n * (y / n + q);
    ModUnique(y + n * q, y % n, n);
  }

  /** Reducing a summand first does not change the Euclidean remainder of a sum. */
  lemma ModAddLeft(a: int, b: int, n: int)
    requires 0 < n
    ensures (a % n + b) % n == (a + b) % n
  {
    DivModSplit(a, n);
    ModAddMultiple(a % n + b, a / n, n);
  }

  /** A truncated remainder strictly between -n and 0 means `a` is not a multiple of `n`. */
  lemma NonZeroRemainder(a: int, r: int, n: int)
    requires -n < r < 0
    requires (a - r) % n == 0
    ensures a % n != 0
  {
    DivModSplit(a - r, n);
    DivModSplit(a, n);
    var d := a / n - (a - r) / n;
    assert r - a % n == n * d;
    if d < 0 {
      assert n * d <= n * -1;
    }
  }
}
