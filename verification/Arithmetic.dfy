/** The few facts about products and quotients that the models need. */
module Arithmetic {
  lemma MulMonotone(a: int, b: int, n: int)
    requires n >= 0 && a <= b
    ensures a * n <= b * n
  {
    assert (b - a) * n >= 0;
  }

  lemma DivisionUnique(x: int, a: int, q: int, r: int)
    requires a >= 1 && x == q * a + r && 0 <= r < a
    ensures x / a == q && x % a == r
  {
    var k := x / a;
    assert x == k * a + x % a;
    assert (q + 1) * a == q * a + a && (k + 1) * a == k * a + a;
    if q < k { MulMonotone(q + 1, k, a); } else if k < q { MulMonotone(k + 1, q, a); }
  }
}
