/** Division and remainder by a positive number, as facts the other modules share. */
module Arithmetic {

  lemma DivUnique(n: int, k: int, q: int, r: int)
    requires k > 0 && n == k * q + r && 0 <= r < k
    ensures n / k == q && n % k == r
  {
    var d := n / k - q;
    assert k * d == r - n % k;
    assert d >= 1 ==> k * d >= k;
    assert d <= -1 ==> k * d <= -k;
  }

  /** Whole multiples of the divisor move the quotient and leave the remainder. */
  lemma DivShift(n: int, k: int, q: int)
    requires k > 0
    ensures (n + q * k) / k == n / k + q && (n + q * k) % k == n % k
  {
    assert n + q * k == k * (n / k + q) + n % k;
    DivUnique(n + q * k, k, n / k + q, n % k);
  }

  lemma Multiple(n: int, k: int, q: int)
    requires k > 0 && n == k * q
    ensures n % k == 0 && n / k == q
  {
    DivUnique(n, k, q, 0);
  }
}
