/** Powers of two, and arithmetic facts the solver does not find by itself. */
module Arithmetic {

  function Power2(k: nat): (p: nat)
    ensures p >= 1
  {
    if k == 0 then 1 else 2 * Power2(k - 1)
  }

  lemma MulBound(d: int, n: nat)
    ensures d >= 1 ==> d * n >= n
    ensures d <= -1 ==> d * n + n <= 0
  {
    if d >= 1 { assert d * n == (d - 1) * n + n; }
    if d <= -1 { assert d * n == (d + 1) * n - n; }
  }

  /** Quotient and remainder are determined by the division equation. */
  lemma DivModUnique(n: nat, x: nat, q: nat, r: nat)
    requires r < n && x == q * n + r
    ensures x / n == q && x % n == r
  {
    var d := x / n - q;
    assert d * n == (x / n) * n - q * n;
    MulBound(d, n);
  }

  /** One step of `n` moves to the next element of the same residue class. */
  lemma StepClass(n: nat, x: nat)
    requires n > 0
    ensures (x + n) % n == x % n && (x + n) / n == x / n + 1
  {
    assert x + n == (x / n + 1) * n + x % n;
    DivModUnique(n, x + n, x / n + 1, x % n);
  }
}
