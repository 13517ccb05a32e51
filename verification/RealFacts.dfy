/** Facts about products and quotients of real numbers that the solver needs spelled out. */
module RealFacts {

  function Abs(a: real): real {
    if a < 0.0 then -a else a
  }

  lemma ZeroProduct(x: real, y: real)
    ensures x * y == 0.0 <==> x == 0.0 || y == 0.0
  {
    if x * y == 0.0 && y != 0.0 {
      assert x == x * y / y;
    }
  }

  lemma Square(a: real)
    ensures a * a >= 0.0 && (a * a == 0.0 <==> a == 0.0)
  {
    ZeroProduct(a, a);
  }

  lemma Quotient(n: real, k: real)
    requires k != 0.0
    ensures k * (n / k) == n
  {
  }

  lemma CancelFactor(a: real, b: real, k: real)
    requires k != 0.0 && a * k == b * k
    ensures a == b
  {
    ZeroProduct(a - b, k);
  }

  lemma QuotientIs(n: real, k: real, x: real)
    requires k != 0.0 && n == k * x
    ensures n / k == x
  {
    Quotient(n, k);
    CancelFactor(n / k, x, k);
  }

  lemma AbsOfProduct(a: real, b: real)
    requires b >= 0.0
    ensures Abs(a * b) == Abs(a) * b
  {
  }

  lemma ScaledOrder(a: real, b: real, k: real)
    requires k > 0.0
    ensures a * k <= b * k <==> a <= b
  {
    if a > b {
      ZeroProduct(a - b, k);
      assert (a - b) * k >= 0.0;
    } else {
      assert (b - a) * k >= 0.0;
    }
  }
}
