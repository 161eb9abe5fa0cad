/** Exact division, kept behind a name, and the order of products. */
module Quotients {

  function Quotient(a: real, b: real): real
    requires b != 0.0
  {
    a / b
  }

  lemma QuotientTimes(a: real, b: real)
    requires b > 0.0
    ensures Quotient(a, b) * b == a
    ensures a > 0.0 ==> Quotient(a, b) > 0.0
  {
    var q := a / b;
    assert q * b == a;
    assert q <= 0.0 ==> q * b <= 0.0;
  }

  lemma UniqueQuotient(total: real, b: real, q: real)
    requires b > 0.0 && q * b == total
    ensures Quotient(total, b) == q
  {
    QuotientTimes(total, b);
    var p := Quotient(total, b);
    assert (p - q) * b == 0.0;
    assert p > q ==> (p - q) * b > 0.0;
    assert p < q ==> (q - p) * b > 0.0;
  }

  lemma PositiveTimes(x: real, y: real)
    requires x > 0.0 && y > 0.0
    ensures x * y > 0.0
  {
  }

  lemma NotNegativeTimes(x: real, y: real)
    requires x >= 0.0 && y >= 0.0
    ensures x * y >= 0.0
  {
  }

  /** A larger number has a larger square. */
  lemma SquaresOrdered(x: real, y: real)
    requires x >= 0.0 && y >= 0.0
    ensures x <= y <==> x * x <= y * y
  {
    assert y * y - x * x == (y - x) * (y + x);
    if x < y {
      PositiveTimes(y - x, y + x);
    } else if x > y {
      PositiveTimes(x - y, x + y);
    }
  }
}
