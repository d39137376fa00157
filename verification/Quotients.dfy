/** Go's integer division, which rounds towards zero. */
module Quotients {

  function Quotient(a: int, b: int): int
    requires b > 0
  {
    if a >= 0 then a / b else -((-a) / b)
  }

  lemma ProductForward(d: int, x: int, y: int)
    requires d >= 0 && x <= y
    ensures d * x <= d * y
  {
    assert d * (y - x) == d * y - d * x;
  }

  lemma SameFactor(d: int, x: int, y: int)
    requires d > 0 && d * x == d * y
    ensures x == y
  {
  }

  lemma QuotientBounds(a: int, d: int)
    requires d > 0
    ensures d * (a / d) <= a < d * (a / d + 1)
  {
    assert d * (a / d + 1) == d * (a / d) + d;
  }

  /** Rounding towards zero to a multiple of `d`. */
  lemma QuotientCovers(a: int, d: int)
    requires d > 0
    ensures var r := Quotient(a, d) * d;
            r % d == 0 && (a >= 0 ==> r <= a < r + d) && (a <= 0 ==> r - d < a <= r)
  {
    if a >= 0 { QuotientBounds(a, d); } else { QuotientBounds(-a, d); }
    MultipleIsWhole(Quotient(a, d), d);
  }

  lemma MultipleIsWhole(q: int, d: int)
    requires d > 0
    ensures (q * d) % d == 0
  {
    DivideProduct(q, d);
  }

  lemma QuotientIs(a: int, d: int, q: int)
    requires d > 0 && d * q <= a < d * (q + 1)
    ensures a / d == q
  {
    QuotientBounds(a, d);
  }

  lemma DivideForward(t: int, u: int, d: int)
    requires d > 0 && t <= u
    ensures t / d <= u / d
  {
    QuotientBounds(t, d);
    QuotientBounds(u, d);
  }

  lemma DivideNatural(a: int, d: int)
    requires d > 0 && a >= 0
    ensures a / d >= 0
  {
  }

  lemma QuotientForward(t: int, u: int, d: int)
    requires d > 0 && t <= u
    ensures Quotient(t, d) <= Quotient(u, d)
  {
    if t >= 0 {
      DivideForward(t, u, d);
    } else {
      DivideNatural(-t, d);
      if u >= 0 { DivideNatural(u, d); } else { DivideForward(-u, -t, d); }
    }
  }

  /** Dividing twice is dividing by the product. */
  lemma DivideTwice(a: int, b: int, c: int)
    requires a >= 0 && b > 0 && c > 0
    ensures b * c > 0 && a / b / c == a / (b * c)
  {
    var q := a / b;
    var r := q / c;
    QuotientBounds(a, b);
    QuotientBounds(q, c);
    ProductForward(b, c * r, q);
    ProductForward(b, q + 1, c * (r + 1));
    QuotientIs(a, b * c, r);
  }

  lemma QuotientTwice(a: int, b: int, c: int)
    requires b > 0 && c > 0
    ensures b * c > 0 && Quotient(Quotient(a, b), c) == Quotient(a, b * c)
  {
    if a >= 0 {
      DivideTwice(a, b, c);
      DivideNatural(a, b);
    } else {
      DivideTwice(-a, b, c);
      DivideNatural(-a, b);
    }
  }

  lemma QuotientOfProduct(q: int, b: int)
    requires b > 0
    ensures Quotient(q * b, b) == q
  {
    if q >= 0 {
      ProductForward(b, 0, q);
      DivideProduct(q, b);
    } else {
      ProductForward(b, q, -1);
      DivideProduct(-q, b);
    }
  }

  lemma DivideProduct(q: int, b: int)
    requires b > 0
    ensures (q * b) / b == q && -((-q) * b) == q * b
  {
    assert b * (q + 1) == q * b + b;
    QuotientIs(q * b, b, q);
  }
}
