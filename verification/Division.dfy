/** Quotients and remainders pinned down by any representation of the dividend. */
module Division {

  lemma OnlyZeroMultiple(n: int, b: int)
    requires 0 < b && -b < n * b < b
    ensures n == 0
  {
  }

  lemma CancelPositive(a: int, b: int, r: int)
    requires 0 < r
    ensures a * r <= b * r <==> a <= b
  {
  }

  lemma QuotientIs(a: int, n: int, q: int, r: int)
    requires 0 < n && 0 <= r < n && a == q * n + r
    ensures a % n == r && a / n == q
  {
    var p, m := a / n, a % n;
    assert a == p * n + m;
    assert (p - q) * n == r - m;
    OnlyZeroMultiple(p - q, n);
  }

  lemma ProductNonNegative(a: int, b: int)
    requires 0 <= a && 0 <= b
    ensures 0 <= a * b
  {
  }
}
