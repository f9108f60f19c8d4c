/** Integer facts the solver does not find by itself. */
module Arithmetic {

  lemma MulGe(x: int, n: nat)
    requires x >= 1
    ensures x * n >= n
  {
  }

  lemma DivMod(a: int, n: nat)
    requires n > 0
    ensures a == (a / n) * n + a % n && 0 <= a % n < n
  {
  }

  /** Quotient and remainder are determined by their sum. */
  lemma QuotientUnique(q: int, r: nat, q': int, r': nat, n: nat)
    requires r < n && r' < n && q * n + r == q' * n + r'
    ensures q == q' && r == r'
  {
    assert (q - q') * n == q * n - q' * n;
    assert (q' - q) * n == q' * n - q * n;
    if q > q' {
      MulGe(q - q', n);
    } else if q < q' {
      MulGe(q' - q, n);
    }
  }

  lemma DivisionIs(a: int, n: nat, q: int, r: nat)
    requires r < n && a == q * n + r
    ensures a / n == q && a % n == r
  {
    DivMod(a, n);
    QuotientUnique(q, r, a / n, a % n, n);
  }
}
