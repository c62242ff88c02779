/** Fixed-size linear algebra over `real` for the quantities the increment routine
    manipulates with armadillo: 6-component symmetric tensors in Voigt order, 6x6
    operators, and the 2-vectors and 2x2 matrices of the two transformation
    mechanisms (forward, index 0; reverse, index 1). */
module Algebra {

  datatype Vec6 = Vec6(v0: real, v1: real, v2: real, v3: real, v4: real, v5: real) {
    /** The six components in Voigt order. */
    function Components(): (s: seq<real>)
      ensures |s| == 6
    {
      [v0, v1, v2, v3, v4, v5]
    }

    /** Component `i`, as `vec(i)` reads it. */
    function At(i: nat): real
      requires i < 6
    {
      match i
      case 0 => v0
      case 1 => v1
      case 2 => v2
      case 3 => v3
      case 4 => v4
      case _ => v5
    }
  }

  /** A 6x6 operator stored row by row. */
  datatype Mat6 = Mat6(r0: Vec6, r1: Vec6, r2: Vec6, r3: Vec6, r4: Vec6, r5: Vec6)

  datatype Vec2 = Vec2(x0: real, x1: real) {
    function At(i: nat): real
      requires i < 2
    {
      if i == 0 then x0 else x1
    }
  }

  datatype Mat2 = Mat2(m00: real, m01: real, m10: real, m11: real) {
    function At(i: nat, j: nat): real
      requires i < 2 && j < 2
    {
      if i == 0 then (if j == 0 then m00 else m01) else (if j == 0 then m10 else m11)
    }
  }

  function Zero6(): Vec6 { Vec6(0.0, 0.0, 0.0, 0.0, 0.0, 0.0) }

  /** The second-order identity in Voigt notation (`Ith()`). */
  function Ith(): Vec6 { Vec6(1.0, 1.0, 1.0, 0.0, 0.0, 0.0) }

  function Add(a: Vec6, b: Vec6): Vec6
  {
    Vec6(a.v0 + b.v0, a.v1 + b.v1, a.v2 + b.v2, a.v3 + b.v3, a.v4 + b.v4, a.v5 + b.v5)
  }

  function Sub(a: Vec6, b: Vec6): Vec6
  {
    Vec6(a.v0 - b.v0, a.v1 - b.v1, a.v2 - b.v2, a.v3 - b.v3, a.v4 - b.v4, a.v5 - b.v5)
  }

  function Scale(k: real, a: Vec6): Vec6
  {
    Vec6(k * a.v0, k * a.v1, k * a.v2, k * a.v3, k * a.v4, k * a.v5)
  }

  function Neg(a: Vec6): Vec6 { Scale(-1.0, a) }

  /** Each component divided by a non-zero `d` (exact real division). */
  function Over(a: Vec6, d: real): Vec6
    requires d != 0.0
  {
    Vec6(a.v0 / d, a.v1 / d, a.v2 / d, a.v3 / d, a.v4 / d, a.v5 / d)
  }

  /** `sum(a % b)`: the contraction of two Voigt vectors. It is defined through the
      recursive `SumOfProducts` rather than as the six-term sum so that its products stay
      out of the solver's context until a proof asks for them; DotExpand gives the
      six-term closed form. */
  function Dot(a: Vec6, b: Vec6): real
  {
    SumOfProducts(a.Components(), b.Components())
  }

  /** The sum of the pairwise products of two equally long sequences. */
  function SumOfProducts(xs: seq<real>, ys: seq<real>): real
    requires |xs| == |ys|
  {
    if |xs| == 0 then 0.0 else xs[0] * ys[0] + SumOfProducts(xs[1..], ys[1..])
  }

  /** The contraction written out component by component. */
  lemma DotExpand(a: Vec6, b: Vec6)
    ensures Dot(a, b) == a.v0 * b.v0 + a.v1 * b.v1 + a.v2 * b.v2 + a.v3 * b.v3 + a.v4 * b.v4 + a.v5 * b.v5
  {
    var xs, ys := a.Components(), b.Components();
    assert SumOfProducts(xs[6..], ys[6..]) == 0.0;
    assert SumOfProducts(xs[5..], ys[5..]) == a.v5 * b.v5 + SumOfProducts(xs[6..], ys[6..]);
    assert SumOfProducts(xs[4..], ys[4..]) == a.v4 * b.v4 + SumOfProducts(xs[5..], ys[5..]);
    assert SumOfProducts(xs[3..], ys[3..]) == a.v3 * b.v3 + SumOfProducts(xs[4..], ys[4..]);
    assert SumOfProducts(xs[2..], ys[2..]) == a.v2 * b.v2 + SumOfProducts(xs[3..], ys[3..]);
    assert SumOfProducts(xs[1..], ys[1..]) == a.v1 * b.v1 + SumOfProducts(xs[2..], ys[2..]);
    assert SumOfProducts(xs, ys) == a.v0 * b.v0 + SumOfProducts(xs[1..], ys[1..]);
  }

  function MatVec(m: Mat6, a: Vec6): Vec6
  {
    Vec6(Dot(m.r0, a), Dot(m.r1, a), Dot(m.r2, a), Dot(m.r3, a), Dot(m.r4, a), Dot(m.r5, a))
  }

  /** `a * b.t()`: the dyadic product of two Voigt vectors. */
  function Outer(a: Vec6, b: Vec6): Mat6
  {
    Mat6(Scale(a.v0, b), Scale(a.v1, b), Scale(a.v2, b), Scale(a.v3, b), Scale(a.v4, b), Scale(a.v5, b))
  }

  function MatAdd(m: Mat6, n: Mat6): Mat6
  {
    Mat6(Add(m.r0, n.r0), Add(m.r1, n.r1), Add(m.r2, n.r2), Add(m.r3, n.r3), Add(m.r4, n.r4), Add(m.r5, n.r5))
  }

  function MatSub(m: Mat6, n: Mat6): Mat6
  {
    Mat6(Sub(m.r0, n.r0), Sub(m.r1, n.r1), Sub(m.r2, n.r2), Sub(m.r3, n.r3), Sub(m.r4, n.r4), Sub(m.r5, n.r5))
  }

  lemma DotAddRight(r: Vec6, a: Vec6, b: Vec6)
    ensures Dot(r, Add(a, b)) == Dot(r, a) + Dot(r, b)
  {
    DotExpand(r, Add(a, b));
    DotExpand(r, a);
    DotExpand(r, b);
  }

  lemma DotSubRight(r: Vec6, a: Vec6, b: Vec6)
    ensures Dot(r, Sub(a, b)) == Dot(r, a) - Dot(r, b)
  {
    DotExpand(r, Sub(a, b));
    DotExpand(r, a);
    DotExpand(r, b);
  }

  lemma DotAddLeft(a: Vec6, b: Vec6, r: Vec6)
    ensures Dot(Add(a, b), r) == Dot(a, r) + Dot(b, r)
  {
    DotExpand(Add(a, b), r);
    DotExpand(a, r);
    DotExpand(b, r);
  }

  lemma DotSubLeft(a: Vec6, b: Vec6, r: Vec6)
    ensures Dot(Sub(a, b), r) == Dot(a, r) - Dot(b, r)
  {
    DotExpand(Sub(a, b), r);
    DotExpand(a, r);
    DotExpand(b, r);
  }

  lemma DotScaleLeft(k: real, a: Vec6, r: Vec6)
    ensures Dot(Scale(k, a), r) == k * Dot(a, r)
  {
    DotExpand(Scale(k, a), r);
    DotExpand(a, r);
  }

  lemma DotComm(a: Vec6, b: Vec6)
    ensures Dot(a, b) == Dot(b, a)
  {
    DotExpand(a, b);
    DotExpand(b, a);
  }

  lemma DotZeroLeft(r: Vec6)
    ensures Dot(Zero6(), r) == 0.0
  {
    DotExpand(Zero6(), r);
  }

  /** Applying an operator distributes over a sum. */
  lemma MatVecAdd(m: Mat6, a: Vec6, b: Vec6)
    ensures MatVec(m, Add(a, b)) == Add(MatVec(m, a), MatVec(m, b))
  {
    DotAddRight(m.r0, a, b);
    DotAddRight(m.r1, a, b);
    DotAddRight(m.r2, a, b);
    DotAddRight(m.r3, a, b);
    DotAddRight(m.r4, a, b);
    DotAddRight(m.r5, a, b);
  }

  /** Applying a difference or a sum of operators. */
  lemma MatVecSub(m: Mat6, n: Mat6, x: Vec6)
    ensures MatVec(MatSub(m, n), x) == Sub(MatVec(m, x), MatVec(n, x))
  {
    DotSubLeft(m.r0, n.r0, x);
    DotSubLeft(m.r1, n.r1, x);
    DotSubLeft(m.r2, n.r2, x);
    DotSubLeft(m.r3, n.r3, x);
    DotSubLeft(m.r4, n.r4, x);
    DotSubLeft(m.r5, n.r5, x);
  }

  lemma MatVecSum(m: Mat6, n: Mat6, x: Vec6)
    ensures MatVec(MatAdd(m, n), x) == Add(MatVec(m, x), MatVec(n, x))
  {
    DotAddLeft(m.r0, n.r0, x);
    DotAddLeft(m.r1, n.r1, x);
    DotAddLeft(m.r2, n.r2, x);
    DotAddLeft(m.r3, n.r3, x);
    DotAddLeft(m.r4, n.r4, x);
    DotAddLeft(m.r5, n.r5, x);
  }

  /** A dyadic product `a b^T` maps `x` to `a` scaled by `b : x`. */
  lemma MatVecOuter(a: Vec6, b: Vec6, x: Vec6)
    ensures MatVec(Outer(a, b), x) == Scale(Dot(b, x), a)
  {
    DotScaleLeft(a.v0, b, x);
    DotScaleLeft(a.v1, b, x);
    DotScaleLeft(a.v2, b, x);
    DotScaleLeft(a.v3, b, x);
    DotScaleLeft(a.v4, b, x);
    DotScaleLeft(a.v5, b, x);
  }

  function Zero2x2(): Mat2 { Mat2(0.0, 0.0, 0.0, 0.0) }

  function Identity2(): Mat2 { Mat2(1.0, 0.0, 0.0, 1.0) }

  function Neg2(m: Mat2): Mat2 { Mat2(-m.m00, -m.m01, -m.m10, -m.m11) }

  function Det2(m: Mat2): real { m.m00 * m.m11 - m.m01 * m.m10 }

  function Mul2(m: Mat2, n: Mat2): Mat2
  {
    Mat2(m.m00 * n.m00 + m.m01 * n.m10, m.m00 * n.m01 + m.m01 * n.m11,
         m.m10 * n.m00 + m.m11 * n.m10, m.m10 * n.m01 + m.m11 * n.m11)
  }

  /** The inverse of a non-singular 2x2 matrix, by the adjugate formula. */
  function Inverse2(m: Mat2): Mat2
    requires Det2(m) != 0.0
  {
    var d := Det2(m);
    Mat2(m.m11 / d, -m.m01 / d, -m.m10 / d, m.m00 / d)
  }

  /** The adjugate formula gives a two-sided inverse. */
  lemma InverseProducts(m: Mat2)
    requires Det2(m) != 0.0
    ensures Mul2(m, Inverse2(m)) == Identity2() && Mul2(Inverse2(m), m) == Identity2()
  {
    var d := Det2(m);
    OverSum(m.m00, m.m11, m.m01, -m.m10, d);
    OverSum(m.m00, -m.m01, m.m01, m.m00, d);
    OverSum(m.m10, m.m11, m.m11, -m.m10, d);
    OverSum(m.m10, -m.m01, m.m11, m.m00, d);
    OverSum(m.m00, m.m11, m.m10, -m.m01, d);
    OverSum(m.m01, m.m11, m.m11, -m.m01, d);
    OverSum(m.m00, -m.m10, m.m10, m.m00, d);
    OverSum(m.m01, -m.m10, m.m11, m.m00, d);
    DivSelf(d);
  }

  // Facts of real arithmetic that the solver does not find on its own inside larger
  // proofs; each is stated once here and called where a product or quotient is in play.

  /** The product of two non-negative reals is non-negative. */
  lemma MulNonNeg(x: real, y: real)
    requires x >= 0.0 && y >= 0.0
    ensures x * y >= 0.0
  {
  }

  lemma MulPos(x: real, y: real)
    requires x > 0.0 && y > 0.0
    ensures x * y > 0.0
  {
  }

  lemma DivTimes(x: real, d: real)
    requires d != 0.0
    ensures (x / d) * d == x
  {
  }

  lemma SubTimes(x: real, y: real, d: real)
    ensures (x - y) * d == x * d - y * d
  {
  }

  lemma OverSum(a: real, x: real, b: real, y: real, d: real)
    requires d != 0.0
    ensures a * (x / d) + b * (y / d) == (a * x + b * y) / d
    ensures (x / d) * a + (y / d) * b == (a * x + b * y) / d
  {
  }

  /** Quotients by a common divisor add and subtract as their numerators do. */
  lemma CommonDivisor(x: real, y: real, d: real)
    requires d != 0.0
    ensures x / d + y / d == (x + y) / d && x / d - y / d == (x - y) / d
  {
  }

  lemma MulDiv(x: real, d: real)
    requires d != 0.0
    ensures (x * d) / d == x
  {
  }

  lemma DivSelf(d: real)
    requires d != 0.0
    ensures d / d == 1.0 && 0.0 / d == 0.0
  {
  }

  /** A positive factor can be cancelled from both sides of an inequality. */
  lemma CancelPositive(x: real, y: real, d: real)
    requires d > 0.0 && x * d <= y * d
    ensures x <= y
  {
    if x > y {
      SubTimes(x, y, d);
      MulPos(x - y, d);
    }
  }
}
