/** Facts about division and remainder that the solver needs help with. */
module IntegerFacts {

  /** Quotient and remainder are unique. */
  lemma DivModUnique(v: int, m: int, q: int, r: int)
    requires m > 0 && 0 <= r < m && v == q * m + r
    ensures v / m == q && v % m == r
  {
    var d := v / m - q;
    assert v == v / m * m + v % m;
    assert d * m == r - v % m by {
      assert (v / m - q) * m == v / m * m - q * m;
    }
    if d >= 1 {
      MulAtLeast(d, m);
    } else if d <= -1 {
      MulAtLeast(-d, m);
    }
  }

  lemma MulAtLeast(d: int, m: int)
    requires d >= 1 && m > 0
    ensures d * m >= m
  {
    assert d * m == m + (d - 1) * m;
  }

  /** Splitting off one digit of base `b`. */
  lemma ModSplit(v: int, p: int, b: int)
    requires v >= 0 && p >= 1 && b >= 1
    ensures b * p > 0 && v % (b * p) == v / p % b * p + v % p
  {
    var q, d, r := v / p / b, v / p % b, v % p;
    assert v == v / p * p + r && v / p == q * b + d;
    assert v / p * p == q * b * p + d * p;
    assert q * b * p == q * (b * p);
    assert d * p + r < b * p by {
      assert (d + 1) * p <= b * p;
      assert (d + 1) * p == d * p + p;
    }
    assert d * p >= 0;
    DivModUnique(v, b * p, q, d * p + r);
  }
}
