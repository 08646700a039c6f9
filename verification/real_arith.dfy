/** Sign and order facts about products and quotients of reals, used by the closed-form
    queueing formulas. */
module RealArith {

  lemma MulMonotone(a: real, b: real, c: real)
    requires a <= b && 0.0 <= c
    ensures a * c <= b * c
  {
    assert (b - a) * c >= 0.0;
  }

  lemma MulMonotoneLeft(c: real, a: real, b: real)
    requires a <= b && 0.0 <= c
    ensures c * a <= c * b
  {
    assert c * (b - a) >= 0.0;
  }

  lemma MulNonNegative(a: real, b: real)
    requires 0.0 <= a && 0.0 <= b
    ensures 0.0 <= a * b
  {
  }

  lemma MulPositive(a: real, b: real)
    requires 0.0 < a && 0.0 < b
    ensures 0.0 < a * b
  {
  }

  /** A non-zero factor cancels. */
  lemma Cancel(a: real, b: real, c: real)
    requires a * c == b * c && c != 0.0
    ensures a == b
  {
    assert (a - b) * c == 0.0;
  }

  lemma SquareNonNegative(a: real)
    ensures 0.0 <= a * a
  {
    if a < 0.0 {
      MulPositive(-a, -a);
    }
  }

  lemma SquarePositive(a: real)
    requires a != 0.0
    ensures 0.0 < a * a
  {
    if a < 0.0 {
      MulPositive(-a, -a);
    }
  }

  /** Dividing by a positive number keeps the order. */
  lemma QuotientMonotone(a: real, b: real, c: real)
    requires a <= b && 0.0 < c
    ensures a / c <= b / c
  {
    assert (a / c) * c == a && (b / c) * c == b;
  }

  lemma QuotientNonNegative(a: real, b: real)
    requires 0.0 <= a && 0.0 < b
    ensures 0.0 <= a / b
  {
  }

  lemma QuotientPositive(a: real, b: real)
    requires 0.0 < a && 0.0 < b
    ensures 0.0 < a / b
  {
    QuotientNonNegative(a, b);
    assert (a / b) * b == a;
  }

  /** A ratio below 1 for a positive denominator: a < b and 0 < b give a / b < 1. */
  lemma QuotientBelowOne(a: real, b: real)
    requires a < b && 0.0 < b
    ensures a / b < 1.0
  {
    assert (a / b) * b == a;
    if a / b >= 1.0 {
      MulMonotone(1.0, a / b, b);
    }
  }

  lemma SignOfQuotient(a: real, b: real)
    requires b > 0.0
    ensures a / b >= 0.0 <==> a >= 0.0
  {
    assert a / b * b == a;
  }

  lemma ScaleCompare(a: real, b: real, k: real)
    requires k > 0.0
    ensures a >= b <==> a * k >= b * k
  {
    assert a * k - b * k == (a - b) * k;
  }

  lemma ProductSign(a: real, b: real)
    requires a > 0.0
    ensures a * b >= 0.0 <==> b >= 0.0
  {
    if b < 0.0 {
      assert a * (-b) > 0.0;
    }
  }
}
