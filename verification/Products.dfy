/** Products and quotients of reals as functions: equal factors then give equal products,
    which lets proofs reason about sums of products without unfolding them. */
module Products {

  function Mul(x: real, y: real): real {
    x * y
  }

  function Quotient(x: real, n: real): real
    requires n != 0.0
  {
    x / n
  }

  lemma MulSign(x: real, y: real)
    ensures x > 0.0 && y > 0.0 ==> Mul(x, y) > 0.0
    ensures x < 0.0 && y < 0.0 ==> Mul(x, y) > 0.0
    ensures x > 0.0 && y < 0.0 ==> Mul(x, y) < 0.0
    ensures x == 0.0 || y == 0.0 ==> Mul(x, y) == 0.0
  {
  }

  lemma MulCommutes(x: real, y: real)
    ensures Mul(x, y) == Mul(y, x)
  {
  }

  lemma MulDistributes(a: real, x: real, y: real)
    ensures Mul(a, x - y) == Mul(a, x) - Mul(a, y)
  {
  }

  lemma MulQuotient(n: real, x: real)
    requires n != 0.0
    ensures Mul(n, Quotient(x, n)) == x
  {
  }

  lemma MulIsMonotone(n: real, x: real, y: real)
    requires n >= 0.0
    ensures x <= y ==> Mul(n, x) <= Mul(n, y)
    ensures n > 0.0 && x < y ==> Mul(n, x) < Mul(n, y)
  {
    MulDistributes(n, y, x);
    MulSign(n, y - x);
    hide Mul;
  }
}
