/** Sign facts about products of reals. The solver does not carry an equation such as
    `d == b - a` into a product `u * d`, so these facts are stated over `Mul`, which it treats
    as a function symbol and matches up by congruence; a caller connects `Mul(x, y)` with its
    own product by asserting `Mul(x, y) == x * y`. */
module Arith {

  function Mul(a: real, b: real): real
  {
    a * b
  }

  lemma MulPositive(a: real, b: real)
    requires a > 0.0 && b > 0.0
    ensures Mul(a, b) > 0.0
  {
  }

  /** A factor in [0, 1) shrinks a positive width `d` to a value in [0, d). */
  lemma MulUnitBelow(u: real, d: real)
    requires 0.0 <= u < 1.0 && d > 0.0
    ensures 0.0 <= Mul(u, d) < d
  {
  }

  /** A factor in (0, 1) shrinks a positive width `d` to a value in (0, d). */
  lemma MulFractionBelow(t: real, d: real)
    requires 0.0 < t < 1.0 && d > 0.0
    ensures 0.0 < Mul(t, d) < d
  {
    MulUnitBelow(t, d);
    MulPositive(t, d);
  }

  /** A product of two factors in (0, c) stays below `c * c`. */
  lemma MulBelowSquare(a: real, b: real, c: real)
    requires 0.0 < a < c && 0.0 < b < c
    ensures Mul(a, b) < Mul(c, c)
  {
    MulStrictlyIncreasing(b, a, c);
    MulStrictlyIncreasing(c, b, c);
    assert Mul(b, a) == Mul(a, b) && Mul(b, c) == Mul(c, b);
  }

  /** Multiplying by a positive factor keeps a strict order. */
  lemma MulStrictlyIncreasing(a: real, b: real, c: real)
    requires a > 0.0 && b < c
    ensures Mul(a, b) < Mul(a, c)
  {
  }

  /** The square of a non-zero value is positive. */
  lemma SquarePositive(r: real)
    requires r != 0.0
    ensures Mul(r, r) > 0.0
  {
    if r < 0.0 {
      MulPositive(-r, -r);
      assert Mul(-r, -r) == Mul(r, r);
    } else {
      MulPositive(r, r);
    }
  }

  /** A quotient of a value in [0, d) by a positive `d` lies in [0, 1). */
  lemma QuotientBelowOne(a: real, d: real)
    requires 0.0 <= a < d
    ensures 0.0 <= a / d < 1.0
  {
  }
}
