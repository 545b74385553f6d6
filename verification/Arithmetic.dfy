module Arithmetic {

  /** Quotient and remainder are determined by k == n * q + r with 0 <= r < n. */
  lemma DivModUnique(k: int, n: int, q: int, r: int)
    requires 0 <= r < n && k == n * q + r
    ensures k % n == r && k / n == q
  {
    var d := q - k / n;
    assert n * d == k % n - r;
    assert d >= 1 ==> n * d >= n;
    assert d <= -1 ==> n * d <= -n;
  }
}
