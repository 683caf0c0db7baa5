/** Products and quotients of reals, named so that equal arguments give equal results. */
module Products {
  function Mul(x: real, y: real): real {
    x * y
  }

  function Quotient(x: real, y: real): (q: real)
    requires y != 0.0
    ensures Mul(q, y) == x
  {
    x / y
  }

  lemma MulLess(x: real, y: real, k: real)
    requires k > 0.0 && x < y
    ensures Mul(x, k) < Mul(y, k)
  {
  }

  lemma MulLessEq(x: real, y: real, k: real)
    requires k >= 0.0 && x <= y
    ensures Mul(x, k) <= Mul(y, k)
  {
  }

  lemma DivLess(x: real, y: real, k: real)
    requires k > 0.0 && Mul(x, k) < Mul(y, k)
    ensures x < y
  {
  }

  lemma DivLessEq(x: real, y: real, k: real)
    requires k > 0.0 && Mul(x, k) <= Mul(y, k)
    ensures x <= y
  {
  }

  lemma DivEq(x: real, y: real, k: real)
    requires k > 0.0 && Mul(x, k) == Mul(y, k)
    ensures x == y
  {
  }

  lemma MulZero(x: real)
    ensures Mul(0.0, x) == 0.0
  {
  }

  lemma MulOne(x: real)
    ensures Mul(1.0, x) == x
  {
  }

  lemma MulCommutes(x: real, y: real)
    ensures Mul(x, y) == Mul(y, x)
  {
  }

  lemma MulNonNegative(x: real, y: real)
    requires x >= 0.0 && y >= 0.0
    ensures Mul(x, y) >= 0.0
  {
  }

  lemma MulPositive(x: real, y: real)
    requires x > 0.0 && y > 0.0
    ensures Mul(x, y) > 0.0
  {
  }

  lemma PositiveFactor(x: real, y: real)
    requires x > 0.0 && Mul(x, y) > 0.0
    ensures y > 0.0
  {
  }

  lemma SquareOrder(x: real, y: real)
    requires 0.0 <= x <= y
    ensures Mul(x, x) <= Mul(y, y)
  {
  }

  lemma SameSquare(x: real, y: real)
    requires x >= 0.0 && y > 0.0 && Mul(x, x) == Mul(y, y)
    ensures x == y
  {
    assert Mul(x - y, x + y) == Mul(x, x) - Mul(y, y);
    MulZero(x + y);
    DivEq(x - y, 0.0, x + y);
  }

  lemma QuotientPositive(x: real, y: real)
    requires x > 0.0 && y > 0.0
    ensures Quotient(x, y) > 0.0
  {
  }
}
