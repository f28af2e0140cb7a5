/** Division facts the solver does not find by itself. */
module Arithmetic {

  /** A quotient and a remainder in range are the quotient and the remainder. */
  lemma DivIs(a: int, n: int, q: int, r: int)
    requires n > 0 && a == n * q + r && 0 <= r < n
    ensures a / n == q && a % n == r
  {
    var d := a / n - q;
    assert n * d == r - a % n;
    assert d >= 1 ==> n * d >= n;
    assert d <= -1 ==> n * d + n <= 0;
  }

  /** In a window of n consecutive numbers, each residue modulo n occurs once. */
  lemma WindowResidues(i: int, k: int, n: int)
    requires n > 0 && i <= k < i + n
    ensures k % n == i % n <==> k == i
    ensures (i + n) % n == i % n && (i + n) / n == i / n + 1
  {
    var q := i / n;
    assert i == n * q + i % n;
    assert n * (q + 1) == n * q + n;
    DivIs(i + n, n, q + 1, i % n);
    if k < n * (q + 1) {
      DivIs(k, n, q, k - n * q);
    } else {
      DivIs(k, n, q + 1, k - n * (q + 1));
    }
  }

  lemma MulLess(n: int, a: int, b: int)
    requires n > 0
    ensures n * a < n * b <==> a < b
    ensures a < b ==> n * a + n <= n * b
  {
    var d := b - a;
    assert n * b == n * a + n * d;
    assert d >= 1 ==> n * d >= n;
    assert d <= 0 ==> n * d <= 0;
  }
}
