/** Order facts about products and quotients of integers. */
module Arithmetic {

  lemma MulOrder(a: int, b: int, n: int)
    requires n > 0
    ensures a < b <==> a * n < b * n
    ensures a == b <==> a * n == b * n
  {
    assert (b - a) * n == b * n - a * n;
    if b - a > 0 { MulPositive(b - a, n); }
    if b - a < 0 {
      MulPositive(a - b, n);
      assert (a - b) * n == a * n - b * n;
    }
  }

  lemma MulPositive(a: int, n: int)
    requires a > 0 && n > 0
    ensures a * n > 0
  {
  }

  lemma QuotientIs(a: int, d: int, q: int)
    requires d > 0 && q * d <= a < q * d + d
    ensures a / d == q
  {
    var p := a / d;
    assert a == p * d + a % d;
    assert (p + 1) * d == p * d + d && (q + 1) * d == q * d + d;
    MulOrder(p, q + 1, d);
    MulOrder(q, p + 1, d);
  }
}
