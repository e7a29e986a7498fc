/** Polynomial identities over plain reals. Each is checked on its own, away from the sums it serves. */
module RealAlgebra {

  /** The product of two reals of the same sign. The result is named because the solver rewrites
      the comparison of a square with zero and then loses it. */
  lemma {:induction false} SameSign(x: real, y: real) returns (p: real)
    requires (x > 0.0 && y > 0.0) || (x < 0.0 && y < 0.0)
    ensures p == x * y && p > 0.0
  {
    p := x * y;
  }

  lemma {:induction false} SquareNonNegative(x: real)
    ensures x * x >= 0.0
  {
  }

  lemma {:induction false} ProductNonNegative(x: real, y: real)
    requires x >= 0.0 && y >= 0.0
    ensures x * y >= 0.0
  {
  }

  function Distance(x: real, y: real): real {
    if x < y then y - x else x - y
  }

  lemma {:induction false} ScaledDistance(i: real, x: real, y: real, xi: real, yi: real)
    requires i > 0.0 && xi == x * i && yi == y * i
    ensures Distance(xi, yi) == i * Distance(x, y)
  {
    if x < y {
      var gap := SameSign(i, y - x);
      assert gap == yi - xi;
    } else {
      ProductNonNegative(i, x - y);
      assert i * (x - y) == xi - yi;
    }
  }

  lemma {:induction false} ScaledOrder(i: real, x: real, y: real)
    requires i > 0.0 && x <= y
    ensures i * x <= i * y
  {
    ProductNonNegative(i, y - x);
    assert i * (y - x) == i * y - i * x;
  }

  lemma {:induction false} SpreadStep(n: real, t: real, tt: real, x: real, p: real)
    ensures tt - 2.0 * x * t + n * x * x + (p - x) * (p - x)
         == tt + p * p - 2.0 * x * (t + p) + (n + 1.0) * x * x
  {
  }

  lemma {:induction false} DenominatorStep(n: real, t: real, tt: real, p: real)
    ensures (n + 1.0) * (tt + p * p) - (t + p) * (t + p)
         == n * tt - t * t + (tt - 2.0 * p * t + n * p * p)
  {
  }

  lemma {:induction false} ResidualStep(n: real, t: real, tt: real, y: real, ty: real, yy: real, p: real, z: real,
                                        a: real, b: real)
    ensures yy - 2.0 * a * y - 2.0 * b * ty + n * a * a + 2.0 * a * b * t + b * b * tt
            + (z - (a + b * p)) * (z - (a + b * p))
         == yy + z * z - 2.0 * a * (y + z) - 2.0 * b * (ty + p * z)
            + (n + 1.0) * a * a + 2.0 * a * b * (t + p) + b * b * (tt + p * p)
  {
  }

  /** Moving a line by (u, v) changes its squared residuals by a linear part and a quadratic form. */
  lemma {:induction false} ResidualGain(n: real, t: real, tt: real, y: real, ty: real, yy: real, a: real, b: real,
                                        u: real, v: real)
    ensures yy - 2.0 * (a + u) * y - 2.0 * (b + v) * ty + n * (a + u) * (a + u)
            + 2.0 * (a + u) * (b + v) * t + (b + v) * (b + v) * tt
         == yy - 2.0 * a * y - 2.0 * b * ty + n * a * a + 2.0 * a * b * t + b * b * tt
            + 2.0 * u * (n * a + b * t - y) + 2.0 * v * (a * t + b * tt - ty)
            + (n * u * u + 2.0 * u * v * t + v * v * tt)
  {
  }

  /** The quadratic form of a least-squares problem is definite when its denominator is positive. */
  lemma {:induction false} QuadraticForm(n: real, t: real, tt: real, u: real, v: real)
    requires n > 0.0 && n * tt - t * t > 0.0
    requires u != 0.0 || v != 0.0
    ensures n * u * u + 2.0 * u * v * t + v * v * tt > 0.0
  {
    CompletedSquare(n, t, tt, u, v);
    if v == 0.0 {
      NonZeroProduct(n, u);
    }
    SumOfSquares(n * u + v * t, v, n * tt - t * t);
    PositiveFactor(n, n * u * u + 2.0 * u * v * t + v * v * tt);
  }

  lemma {:induction false} SumOfSquares(w: real, v: real, d: real)
    requires d > 0.0
    requires w != 0.0 || v != 0.0
    ensures w * w + v * v * d > 0.0
  {
    if v != 0.0 {
      var vv := SameSign(v, v);
      var vvd := SameSign(vv, d);
      assert vvd == v * v * d;
    }
    if w != 0.0 {
      var ww := SameSign(w, w);
      assert v == 0.0 ==> v * v * d == 0.0;
    }
  }

  lemma {:induction false} NonZeroProduct(x: real, y: real)
    requires x != 0.0 && y != 0.0
    ensures x * y != 0.0
  {
  }

  lemma {:induction false} PositiveFactor(n: real, x: real)
    requires n > 0.0 && n * x > 0.0
    ensures x > 0.0
  {
  }

  lemma {:induction false} NonPositiveFactor(n: real, x: real)
    requires n > 0.0 && n * x <= 0.0
    ensures x <= 0.0
  {
  }

  lemma {:induction false} CompletedSquare(n: real, t: real, tt: real, u: real, v: real)
    ensures n * (n * u * u + 2.0 * u * v * t + v * v * tt)
         == (n * u + v * t) * (n * u + v * t) + v * v * (n * tt - t * t)
  {
  }

  /** The closed form of the normal equations' solution solves them. */
  lemma {:induction false} NormalEquations(n: real, t: real, tt: real, y: real, ty: real, a: real, b: real)
    requires n != 0.0
    requires b * (n * tt - t * t) == n * ty - t * y
    requires n * a == y - b * t
    ensures a * t + b * tt == ty
  {
    calc {
      n * (a * t + b * tt);
      (n * a) * t + b * (n * tt - t * t) + b * t * t;
      n * ty;
    }
    CancelFactor(n, a * t + b * tt, ty);
  }

  lemma {:induction false} CancelFactor(n: real, x: real, y: real)
    requires n != 0.0 && n * x == n * y
    ensures x == y
  {
    assert n * (x - y) == 0.0;
  }
}
