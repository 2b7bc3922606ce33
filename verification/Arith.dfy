/** Integer facts the solver needs stated in small steps. */
module Arith {
  lemma {:induction false} MulAtLeast(k: int, d: int)
    requires k >= 1 && d >= 0
    ensures k * d >= d
    decreases k
  {
    if k > 1 {
      MulAtLeast(k - 1, d);
      assert k * d == (k - 1) * d + d;
    }
  }

  lemma MulNonNeg(a: int, b: int)
    requires a >= 0 && b >= 0
    ensures a * b >= 0
  {
  }

  /** A quotient is pinned down by where its multiple falls. */
  lemma QuotientIs(d: int, n: int, q: int)
    requires d > 0 && q * d <= n < q * d + d
    ensures n / d == q
  {
    var p, r := n / d, n % d;
    DivMod(n, d);
    if p < q {
      MulAtLeast(q - p, d);
    } else if p > q {
      MulAtLeast(p - q, d);
    }
  }

  lemma DivMod(n: int, d: int)
    requires d > 0
    ensures n == n / d * d + n % d && 0 <= n % d < d
  {
  }

  lemma MulCancel(a: int, b: int, d: int)
    requires d > 0 && a * d < b * d
    ensures a < b
  {
    if a >= b {
      MulNonNeg(a - b, d);
    }
  }

  lemma MulNext(k: int, d: int)
    ensures (k + 1) * d == k * d + d
    ensures (k - 1) * d == k * d - d
  {
  }

  /** With `n` in the last of `k` intervals of length `d`, a later point before the end of the k-th is in it too. */
  lemma LastInterval(d: int, n: int, pos: int, k: int)
    requires d > 0 && n <= pos && n <= k * d < n + d && pos / d < k
    ensures pos / d == k - 1 && n % d != 0
  {
    var at, m := pos / d, n / d;
    DivMod(pos, d);
    MulNext(k, d);
    MulNext(at, d);
    MulCancel(k - 1, at + 1, d);
    if n % d == 0 {
      DivMod(n, d);
      MulCancel(k - 1, m, d);
      MulCancel(m, at + 1, d);
      assert false;
    }
  }
}
