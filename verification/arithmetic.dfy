/** Facts about products that the solver needs one at a time. */
module Arithmetic {

  lemma OneMore(n: int, m: int)
    ensures n * m == (n - 1) * m + m
  {
  }

  lemma ScaleIsMonotone(c: int, x: int, y: int)
    requires c >= 0 && x <= y
    ensures c * x <= c * y
  {
    assert c * (y - x) >= 0;
  }

  lemma TimesIsMonotone(x: real, y: real, m: real)
    requires x <= y && m >= 0.0
    ensures x * m <= y * m && m * x <= m * y
  {
    assert (y - x) * m >= 0.0;
  }

  lemma DivisionBounds(m: int, c: int, n: int)
    requires c > 0 && m >= 0
    ensures n <= m / c <==> c * n <= m
  {
    var q := m / c;
    assert m == c * q + m % c;
    if n <= q {
      ScaleIsMonotone(c, n, q);
    } else {
      ScaleIsMonotone(c, q + 1, n);
    }
  }
}
