/** Division facts the solver does not find by itself. */
module Arithmetic {

  lemma AtLeast(d: nat, k: nat)
    requires k >= 1
    ensures d * k >= d
  {}

  lemma Distributes(d: int, a: int, b: int)
    ensures d * (a - b) == d * a - d * b
    ensures d * (a + b) == d * a + d * b
  {}

  lemma UniqueQuotient(d: nat, q: nat, r: nat, p: nat, s: nat)
    requires r < d && s < d && d * q + r == d * p + s
    ensures q == p
  {
    if q < p {
      Distributes(d, p, q);
      AtLeast(d, p - q);
    } else if p < q {
      Distributes(d, q, p);
      AtLeast(d, q - p);
    }
  }

  lemma QuotientIs(a: nat, d: nat, q: nat, r: nat)
    requires d > 0 && r < d && a == d * q + r
    ensures a / d == q && a % d == r
  {
    UniqueQuotient(d, a / d, a % d, q, r);
  }

  lemma RemainderBound(x: nat, y: nat, s: nat, r: nat)
    requires s < y && r < x
    ensures x * s + r < x * y
  {
    Distributes(x, y, s);
    AtLeast(x, y - s);
  }

  lemma DivideTwice(a: nat, x: nat, y: nat)
    requires x > 0 && y > 0
    ensures x * y > 0 && a / (x * y) == (a / x) / y
  {
    var q, r := a / x, a % x;
    var p, s := q / y, q % y;
    AtLeast(x, y);
    assert a == x * q + r && q == y * p + s;
    Distributes(x, y * p, -s);
    assert x * (y * p) == (x * y) * p by { Associates(x, y, p); }
    assert a == (x * y) * p + (x * s + r);
    RemainderBound(x, y, s, r);
    QuotientIs(a, x * y, p, x * s + r);
  }

  lemma Associates(x: int, y: int, z: int)
    ensures x * (y * z) == (x * y) * z
  {}

  // Stepping over one whole divisor.
  lemma NextMultiple(b: nat, s: nat)
    requires s > 0
    ensures (b + s) / s == b / s + 1
  {
    Distributes(s, b / s, -1);
    QuotientIs(b + s, s, b / s + 1, b % s);
  }

  lemma Monotone(d: nat, a: int, b: int)
    ensures a <= b ==> d * a <= d * b
  {
    if a <= b {
      Distributes(d, b, a);
      assert d * (b - a) >= 0;
    }
  }

  // What fits below a number fits into its quotient.
  lemma FitsQuotient(q: nat, d: nat, k: int)
    requires d > 0 && k * d <= q
    ensures k <= q / d
  {
    Monotone(d, q / d + 1, k);
    Distributes(d, q / d, 1);
  }
}
