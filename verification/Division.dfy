/** Facts about integer products and rounded quotients that the divider computations need. */
module Division {
  lemma MulMonotone(a: int, b: int, k: int)
    requires a <= b && 0 <= k
    ensures k * a <= k * b
  {
    assert k * b - k * a == k * (b - a);
  }

  lemma MulStrict(a: int, b: int, k: int)
    requires a < b && 0 < k
    ensures k * a + k <= k * b
  {
    MulMonotone(a + 1, b, k);
    assert k * (a + 1) == k * a + k;
  }

  lemma QuotientBounds(x: int, d: int)
    requires d > 0
    ensures d * (x / d) <= x < d * (x / d) + d
    ensures x % d == x - d * (x / d)
  {
  }

  lemma QuotientUnique(x: int, d: int, q: int)
    requires d > 0 && d * q <= x < d * q + d
    ensures x / d == q && x % d == x - d * q
  {
    QuotientBounds(x, d);
    var q' := x / d;
    if q' > q { MulStrict(q, q', d); }
    if q' < q { MulStrict(q', q, d); }
  }

  lemma CommonFactorCancels(k: int, a: int, b: int)
    requires k > 0 && b > 0
    ensures k * b > 0 && (k * a) / (k * b) == a / b
  {
    var q := a / b;
    QuotientBounds(a, b);
    MulStrict(0, b, k);
    MulMonotone(b * q, a, k);
    MulStrict(a, b * q + b, k);
    assert k * (b * q) == (k * b) * q;
    assert k * (b * q + b) == (k * b) * q + k * b;
    QuotientUnique(k * a, k * b, q);
  }

  lemma QuotientAtMost(a: int, d: int)
    requires d > 0 && a >= 0
    ensures 0 <= a / d <= a
  {
    QuotientBounds(a, d);
    var q := a / d;
    if q < 0 { MulStrict(q, 0, d); }
    if q > 0 { MulMonotone(1, d, q); assert q * d == d * q; }
  }
}
