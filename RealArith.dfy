// Facts about multiplying and dividing reals by a positive factor, stated
// one step at a time so that each proof stays linear for the solver.

module RealArith {

  /** Multiplying by a positive factor keeps a strict order, both ways. */
  lemma ScaleLess(a: real, b: real, e: real)
    requires e > 0.0
    ensures a < b <==> a * e < b * e
  {
  }

  /** Multiplying by a positive factor keeps a non-strict order, both ways. */
  lemma ScaleAtMost(a: real, b: real, e: real)
    requires e > 0.0
    ensures a <= b <==> a * e <= b * e
  {
  }

  lemma BelowScaled(x: real, e: real, q: real, b: real)
    requires e > 0.0 && q * e == x && q < b
    ensures x < b * e
  {
    ScaleLess(q, b, e);
  }

  lemma AboveScaled(x: real, e: real, q: real, a: real)
    requires e > 0.0 && q * e == x && a < q
    ensures a * e < x
  {
    ScaleLess(a, q, e);
  }

  lemma AtMostScaled(x: real, e: real, q: real, b: real)
    requires e > 0.0 && q * e == x && q <= b
    ensures x <= b * e
  {
    ScaleAtMost(q, b, e);
  }

  lemma AtLeastScaled(x: real, e: real, q: real, a: real)
    requires e > 0.0 && q * e == x && a <= q
    ensures a * e <= x
  {
    ScaleAtMost(a, q, e);
  }

  /** The band `m <= q < m + 1`, scaled by `e`. */
  lemma ScaleBandUp(x: real, e: real, q: real, m: real)
    requires e > 0.0 && q * e == x && m <= q < m + 1.0
    ensures m * e <= x < m * e + e
  {
    AtLeastScaled(x, e, q, m);
    BelowScaled(x, e, q, m + 1.0);
    assert (m + 1.0) * e == m * e + e;
  }

  /** The band `m - 1 < q <= m`, scaled by `e`. */
  lemma ScaleBandDown(x: real, e: real, q: real, m: real)
    requires e > 0.0 && q * e == x && m - 1.0 < q <= m
    ensures m * e - e < x <= m * e
  {
    AboveScaled(x, e, q, m - 1.0);
    AtMostScaled(x, e, q, m);
    assert (m - 1.0) * e == m * e - e;
  }

  lemma SignOfQuotient(x: real, e: real, q: real)
    requires e > 0.0 && q * e == x
    ensures q >= 0.0 <==> x >= 0.0
  {
    ScaleAtMost(0.0, q, e);
  }

  lemma UnitBand(x: real, e: real, q: real)
    requires e > 0.0 && q * e == x
    ensures -1.0 < q < 1.0 <==> -e < x < e
  {
    ScaleLess(-1.0, q, e);
    ScaleLess(q, 1.0, e);
  }

  lemma ProductZero(a: real, e: real)
    requires e > 0.0
    ensures a * e == 0.0 <==> a == 0.0
  {
  }

  lemma DivOfProduct(m: real, e: real)
    requires e > 0.0
    ensures (m * e) / e == m
  {
  }

  lemma FractionBelowOne(a: real, b: real)
    requires b > 0.0 && 0.0 <= a < b
    ensures 0.0 <= a / b < 1.0
  {
    var q := a / b;
    assert q * b == a;
    UnitFraction(a, b, q);
  }

  lemma FractionAtMostOne(a: real, b: real)
    requires b > 0.0 && 0.0 <= a <= b
    ensures 0.0 <= a / b <= 1.0
  {
    var q := a / b;
    assert q * b == a;
    UnitFraction(a, b, q);
  }

  lemma UnitFraction(a: real, b: real, q: real)
    requires b > 0.0 && 0.0 <= a <= b && q * b == a
    ensures 0.0 <= q <= 1.0
    ensures a < b ==> q < 1.0
  {
    ScaleAtMost(0.0, q, b);
    ScaleAtMost(q, 1.0, b);
    ScaleLess(q, 1.0, b);
  }

  /** Multiplication distributes over a sum. */
  lemma Distribute(a: real, x: real, y: real)
    ensures a * (x + y) == a * x + a * y
  {
  }

  /** A difference of two multiples is the multiple of the difference. */
  lemma ScaledDifference(a: real, b: real, e: real)
    ensures a * e - b * e == (a - b) * e
  {
  }

  /** A non-zero real divided by itself is 1. */
  lemma DivSelf(x: real)
    requires x != 0.0
    ensures x / x == 1.0
  {
  }
}
