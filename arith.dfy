// Facts about integer division that the animation and tiling proofs share.
module Arith {
  /** Quotient and remainder are determined by any decomposition x == a * n + r with 0 <= r < n. */
  lemma DivModUnique(x: int, n: int, a: int, r: int)
    requires n > 0 && 0 <= r < n && x == a * n + r
    ensures x / n == a && x % n == r
  {
    var a', r' := x / n, x % n;
    assert x == a' * n + r';
    var d := a - a';
    assert d * n == r' - r by {
      assert a * n - a' * n == (a - a') * n;
    }
    if d > 0 {
      MulAtLeast(d, n);
    } else if d < 0 {
      MulAtLeast(-d, n);
    }
  }

  lemma MulAtLeast(d: int, n: int)
    requires d >= 1 && n > 0
    ensures d * n >= n
  {
    assert d * n == (d - 1) * n + n;
    assert (d - 1) * n >= 0;
  }

  lemma MulMonotone(a: int, b: int, n: int)
    requires a <= b && n >= 0
    ensures a * n <= b * n
  {
    assert b * n - a * n == (b - a) * n;
  }

  /** Rounding down to a multiple of n never goes past x. */
  lemma DivMulBelow(x: int, n: int)
    requires x >= 0 && n > 0
    ensures 0 <= (x / n) * n <= x
  {
    assert x == (x / n) * n + x % n;
  }

  lemma DivMonotone(x: int, y: int, n: int)
    requires 0 <= x <= y && n > 0
    ensures x / n <= y / n
  {
    if x / n > y / n {
      MulMonotone(y / n + 1, x / n, n);
      DivMulBelow(x, n);
      assert false;
    }
  }
}
