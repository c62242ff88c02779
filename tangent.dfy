/** The consistent tangent operators after the local solve: the reduced Jacobian
    `Bhat` of the two criteria along their flow directions, its restriction to the
    mechanisms whose multiplier increment exceeds `iota`, the sensitivities of the
    volume fractions to strain and temperature, and the tangent moduli `dSdE` and
    `dSdT`. */
module Tangent {
  import opened Algebra
  import opened Outcomes
  import opened Newton

  /** `Bhat(i, j) = dPhi_i/dsigma : kappa_j - K(i, j)`, from the last iteration. */
  function ReducedJacobian(lin: Linearisation): Mat2
  {
    Mat2(Dot(lin.forward.dsigma, lin.kappa0) - lin.K.m00, Dot(lin.forward.dsigma, lin.kappa1) - lin.K.m01,
         Dot(lin.reverse.dsigma, lin.kappa0) - lin.K.m10, Dot(lin.reverse.dsigma, lin.kappa1) - lin.K.m11)
  }

  /** The matrix the loop hands to the solver is the reduced Jacobian with the opposite
      sign. */
  lemma ReducedJacobianOfIteration(env: Env, st: Iterate)
    ensures var lin := Linearise(env, st);
      ReducedJacobian(lin) == Neg2(lin.B) && Neg2(ReducedJacobian(lin)) == lin.B
  {
  }

  /** Which of the two mechanisms (forward, reverse) the tangent treats as active. */
  datatype Mask = Mask(forward: bool, reverse: bool) {
    /** The 0/1 vector `op` the routine stores. */
    function Values(): Vec2
    {
      Vec2(Indicator(forward), Indicator(reverse))
    }
  }

  /** 1 for an active mechanism, 0 otherwise. */
  function Indicator(active: bool): real
  {
    if active then 1.0 else 0.0
  }

  /** A mechanism is active when its multiplier increment exceeds `iota`. */
  function ActiveMask(Ds: Vec2, iota: real): Mask
  {
    Mask(Ds.x0 > iota, Ds.x1 > iota)
  }

  /** A vector whose entries are 0 or 1, and the mask it stands for. */
  predicate IsMask(op: Vec2)
  {
    (op.x0 == 0.0 || op.x0 == 1.0) && (op.x1 == 0.0 || op.x1 == 1.0)
  }

  function MaskOf(op: Vec2): Mask
  {
    Mask(op.x0 == 1.0, op.x1 == 1.0)
  }

  /** The loop that sets `op(i)` to 1 on a zero vector for each mechanism whose
      multiplier increment exceeds `iota`; it computes a 0/1 vector that stands for the
      active mask. */
  method ActiveSet(Ds: Vec2, iota: real) returns (op: Vec2)
    ensures IsMask(op) && MaskOf(op) == ActiveMask(Ds, iota) && op == ActiveMask(Ds, iota).Values()
  {
    var a := new real[2](_ => 0.0);
    for i := 0 to 2
      invariant forall k :: 0 <= k < i ==> a[k] == Indicator(Ds.At(k) > iota)
      invariant forall k :: i <= k < 2 ==> a[k] == 0.0
    {
      if Ds.At(i) > iota {
        a[i] := 1.0;
      }
    }
    op := Vec2(a[0], a[1]);
  }

  function Delta(i: nat, j: nat): real
  {
    if i == j then 1.0 else 0.0
  }

  /** `Bbar`: `Bhat` on the block of active mechanisms, the identity on the inactive
      ones. */
  function Projected(Bhat: Mat2, m: Mask): Mat2
  {
    Mat2(if m.forward then Bhat.m00 else 1.0,
         if m.forward && m.reverse then Bhat.m01 else 0.0,
         if m.forward && m.reverse then Bhat.m10 else 0.0,
         if m.reverse then Bhat.m11 else 1.0)
  }

  /** A matrix with the rows and columns of inactive mechanisms cleared. */
  function Restricted(x: Mat2, m: Mask): Mat2
  {
    Mat2(if m.forward then x.m00 else 0.0,
         if m.forward && m.reverse then x.m01 else 0.0,
         if m.forward && m.reverse then x.m10 else 0.0,
         if m.reverse then x.m11 else 0.0)
  }

  /** The projection onto the active mechanisms. */
  function Diag(m: Mask): Mat2
  {
    Mat2(Indicator(m.forward), 0.0, 0.0, Indicator(m.reverse))
  }

  /** The routine's entry formula `op(i) op(j) Bhat(i, j) + delta(i, j) (1 - op(i) op(j))`
      gives `Bbar` for a 0/1 vector `op`. */
  lemma ProjectedEntry(Bhat: Mat2, op: Vec2, i: nat, j: nat)
    requires IsMask(op) && i < 2 && j < 2
    ensures op.At(i) * op.At(j) * Bhat.At(i, j) + Delta(i, j) * (1.0 - op.At(i) * op.At(j))
         == Projected(Bhat, MaskOf(op)).At(i, j)
  {
  }

  /** The entry formula `op(i) op(j) m(i, j)` gives the restriction. */
  lemma RestrictedEntry(x: Mat2, op: Vec2, i: nat, j: nat)
    requires IsMask(op) && i < 2 && j < 2
    ensures op.At(i) * op.At(j) * x.At(i, j) == Restricted(x, MaskOf(op)).At(i, j)
  {
  }

  /** The double loop that fills `Bbar`. */
  method Project(Bhat: Mat2, op: Vec2) returns (Bbar: Mat2)
    requires IsMask(op)
    ensures Bbar == Projected(Bhat, MaskOf(op))
  {
    var a := new real[2, 2]((_, _) => 0.0);
    for i := 0 to 2
      invariant forall k, l :: 0 <= k < i && 0 <= l < 2 ==> a[k, l] == Projected(Bhat, MaskOf(op)).At(k, l)
    {
      for j := 0 to 2
        invariant forall k, l :: 0 <= k < i && 0 <= l < 2 ==> a[k, l] == Projected(Bhat, MaskOf(op)).At(k, l)
        invariant forall l :: 0 <= l < j ==> a[i, l] == Projected(Bhat, MaskOf(op)).At(i, l)
      {
        ProjectedEntry(Bhat, op, i, j);
        a[i, j] := op.At(i) * op.At(j) * Bhat.At(i, j) + Delta(i, j) * (1.0 - op.At(i) * op.At(j));
      }
    }
    Bbar := Mat2(a[0, 0], a[0, 1], a[1, 0], a[1, 1]);
  }

  /** The double loop that clears the inactive rows and columns of `inv(Bbar)`. */
  method Restrict(x: Mat2, op: Vec2) returns (r: Mat2)
    requires IsMask(op)
    ensures r == Restricted(x, MaskOf(op))
  {
    var a := new real[2, 2]((_, _) => 0.0);
    for i := 0 to 2
      invariant forall k, l :: 0 <= k < i && 0 <= l < 2 ==> a[k, l] == Restricted(x, MaskOf(op)).At(k, l)
    {
      for j := 0 to 2
        invariant forall k, l :: 0 <= k < i && 0 <= l < 2 ==> a[k, l] == Restricted(x, MaskOf(op)).At(k, l)
        invariant forall l :: 0 <= l < j ==> a[i, l] == Restricted(x, MaskOf(op)).At(i, l)
      {
        RestrictedEntry(x, op, i, j);
        a[i, j] := op.At(i) * op.At(j) * x.At(i, j);
      }
    }
    r := Mat2(a[0, 0], a[0, 1], a[1, 0], a[1, 1]);
  }

  /** The determinant of the block of `Bhat` on the active mechanisms (1 for the empty
      block). */
  function ActiveDeterminant(Bhat: Mat2, m: Mask): real
  {
    if m.forward && m.reverse then Det2(Bhat)
    else if m.forward then Bhat.m00
    else if m.reverse then Bhat.m11
    else 1.0
  }

  /** `Bbar` is singular exactly when the active block of `Bhat` is; with no mechanism
      active it is the identity. */
  lemma ProjectionSingular(Bhat: Mat2, m: Mask)
    ensures Det2(Projected(Bhat, m)) == ActiveDeterminant(Bhat, m)
    ensures !m.forward && !m.reverse ==> Projected(Bhat, m) == Identity2()
    ensures m.forward && m.reverse ==> Projected(Bhat, m) == Bhat
  {
  }

  /** `invBhat`, or the failure of `inv(Bbar)` on a singular matrix. */
  function MaskedInverse(Bhat: Mat2, m: Mask): Result<Mat2>
  {
    var Bbar := Projected(Bhat, m);
    if Det2(Bbar) == 0.0 then Err(SingularProjection) else Ok(Restricted(Inverse2(Bbar), m))
  }

  method InvertProjection(Bhat: Mat2, op: Vec2) returns (r: Result<Mat2>)
    requires IsMask(op)
    ensures r == MaskedInverse(Bhat, MaskOf(op))
  {
    var Bbar := Project(Bhat, op);
    if Det2(Bbar) == 0.0 {
      r := Err(SingularProjection);
    } else {
      var invBhat := Restrict(Inverse2(Bbar), op);
      r := Ok(invBhat);
    }
  }

  /** The inverse of the active block written case by case: the 2x2 inverse, the
      reciprocal of a single active diagonal entry, or nothing. */
  function ActiveInverse(Bhat: Mat2, m: Mask): Result<Mat2>
  {
    if ActiveDeterminant(Bhat, m) == 0.0 then Err(SingularProjection)
    else if m.forward && m.reverse then Ok(Inverse2(Bhat))
    else if m.forward then Ok(Mat2(1.0 / Bhat.m00, 0.0, 0.0, 0.0))
    else if m.reverse then Ok(Mat2(0.0, 0.0, 0.0, 1.0 / Bhat.m11))
    else Ok(Zero2x2())
  }

  /** Masking, inverting and masking again inverts the active block and nothing else. */
  lemma MaskedInverseByCase(Bhat: Mat2, m: Mask)
    ensures MaskedInverse(Bhat, m) == ActiveInverse(Bhat, m)
  {
    ProjectionSingular(Bhat, m);
    if m.forward && m.reverse {
      assert Restricted(Bhat, m) == Bhat;
    } else if m.forward {
      ForwardOnlyInverse(Bhat);
    } else if m.reverse {
      ReverseOnlyInverse(Bhat);
    } else {
      NeitherInverse(Bhat);
    }
  }

  lemma ForwardOnlyInverse(Bhat: Mat2)
    ensures MaskedInverse(Bhat, Mask(true, false)) == ActiveInverse(Bhat, Mask(true, false))
  {
    var P := Projected(Bhat, Mask(true, false));
    assert P == Mat2(Bhat.m00, 0.0, 0.0, 1.0);
    if Bhat.m00 != 0.0 {
      DivSelf(Bhat.m00);
    }
  }

  lemma ReverseOnlyInverse(Bhat: Mat2)
    ensures MaskedInverse(Bhat, Mask(false, true)) == ActiveInverse(Bhat, Mask(false, true))
  {
    var P := Projected(Bhat, Mask(false, true));
    assert P == Mat2(1.0, 0.0, 0.0, Bhat.m11);
    if Bhat.m11 != 0.0 {
      DivSelf(Bhat.m11);
    }
  }

  lemma NeitherInverse(Bhat: Mat2)
    ensures MaskedInverse(Bhat, Mask(false, false)) == ActiveInverse(Bhat, Mask(false, false))
  {
    assert Projected(Bhat, Mask(false, false)) == Identity2();
  }

  /** The restricted `Bhat` and `invBhat` multiply to the projection onto the active
      mechanisms, in both orders, and `invBhat` vanishes on the inactive rows and
      columns. */
  ghost predicate BlockInverse(Bhat: Mat2, m: Mask, inv: Mat2)
  {
    && Mul2(Restricted(Bhat, m), inv) == Diag(m)
    && Mul2(inv, Restricted(Bhat, m)) == Diag(m)
    && Restricted(inv, m) == inv
  }

  /** `invBhat` inverts `Bhat` on the active block. */
  lemma MaskedInverseIsBlockInverse(Bhat: Mat2, m: Mask)
    requires MaskedInverse(Bhat, m).Ok?
    ensures BlockInverse(Bhat, m, MaskedInverse(Bhat, m).value)
  {
    MaskedInverseByCase(Bhat, m);
    if m.forward && m.reverse {
      BothBlockInverse(Bhat);
    } else if m.forward {
      ForwardOnlyBlockInverse(Bhat);
    } else if m.reverse {
      ReverseOnlyBlockInverse(Bhat);
    } else {
      assert Restricted(Bhat, m) == Zero2x2();
    }
  }

  lemma BothBlockInverse(Bhat: Mat2)
    requires Det2(Bhat) != 0.0
    ensures BlockInverse(Bhat, Mask(true, true), Inverse2(Bhat))
  {
    InverseProducts(Bhat);
    assert Restricted(Bhat, Mask(true, true)) == Bhat;
  }

  lemma ForwardOnlyBlockInverse(Bhat: Mat2)
    requires Bhat.m00 != 0.0
    ensures BlockInverse(Bhat, Mask(true, false), Mat2(1.0 / Bhat.m00, 0.0, 0.0, 0.0))
  {
    DivTimes(1.0, Bhat.m00);
  }

  lemma ReverseOnlyBlockInverse(Bhat: Mat2)
    requires Bhat.m11 != 0.0
    ensures BlockInverse(Bhat, Mask(false, true), Mat2(0.0, 0.0, 0.0, 1.0 / Bhat.m11))
  {
    DivTimes(1.0, Bhat.m11);
  }

  /** The sensitivities of the two volume fractions to strain (`P_epsilon`) and to
      temperature (`P_theta`). */
  datatype Sensitivities = Sensitivities(Pe0: Vec6, Pe1: Vec6, Pt0: real, Pt1: real)

  /** `P_epsilon[j] = invBhat(0, j) L dPhiF/dsigma + invBhat(1, j) L dPhiR/dsigma` and
      `P_theta[j] = invBhat(0, j) gF + invBhat(1, j) gR`, with `g = dPhi/dtheta -
      dPhi/dsigma : L alpha`. */
  function SensitivitiesOf(inv: Mat2, u: Vec6, w: Vec6, gF: real, gR: real): Sensitivities
  {
    Sensitivities(Combine(inv.m00, inv.m10, u, w), Combine(inv.m01, inv.m11, u, w),
                  inv.m00 * gF + inv.m10 * gR, inv.m01 * gF + inv.m11 * gR)
  }

  /** The tangent moduli: `dSdE = L - (kappa0 P_epsilon[0]^T + kappa1 P_epsilon[1]^T)`
      and `dSdT = -L alpha` (the transformation correction of `dSdT` is commented out
      in the routine). */
  datatype Moduli = Moduli(mask: Mask, inv: Mat2, sens: Sensitivities, dSdE: Mat6, dSdT: Vec6)

  /** The temperature derivative of the forward criterion after the loop. */
  function ForwardThermalSlope(rhoDs0: real, sigma: Vec6, Dalpha: Vec6): real
  {
    rhoDs0 + Dot(sigma, Dalpha)
  }

  function ReverseThermalSlope(rhoDs0: real, sigma: Vec6, Dalpha: Vec6): real
  {
    -1.0 * rhoDs0 - Dot(sigma, Dalpha)
  }

  /** `dPhi/dtheta - dPhi/dsigma : L alpha`. */
  function ThermalDrive(slope: real, dPhi: Vec6, L: Mat6, alpha: Vec6): real
  {
    slope - Dot(dPhi, MatVec(L, alpha))
  }

  function AssembleModuli(lin: Linearisation, m: Mask, inv: Mat2, alpha: Vec6, sigma: Vec6,
                          rhoDs0: real, Dalpha: Vec6): Moduli
  {
    var L := lin.L;
    var gF, gR := ForwardDrive(lin, alpha, sigma, rhoDs0, Dalpha), ReverseDrive(lin, alpha, sigma, rhoDs0, Dalpha);
    var sens := SensitivitiesOf(inv, MatVec(L, lin.forward.dsigma), MatVec(L, lin.reverse.dsigma), gF, gR);
    Moduli(m, inv, sens, MatSub(L, MatAdd(Outer(lin.kappa0, sens.Pe0), Outer(lin.kappa1, sens.Pe1))),
           Scale(-1.0, MatVec(L, alpha)))
  }

  /** The tangent after the local solve whose last linearisation is `lin` and whose
      final multiplier increments are `Ds`. */
  function TangentOf(lin: Linearisation, Ds: Vec2, iota: real, alpha: Vec6, sigma: Vec6,
                     rhoDs0: real, Dalpha: Vec6): Result<Moduli>
  {
    var m := ActiveMask(Ds, iota);
    match MaskedInverse(ReducedJacobian(lin), m)
    case Err(f) => Err(f)
    case Ok(inv) => Ok(AssembleModuli(lin, m, inv, alpha, sigma, rhoDs0, Dalpha))
  }

  method ComputeTangent(lin: Linearisation, Ds: Vec2, iota: real, alpha: Vec6, sigma: Vec6,
                        rhoDs0: real, Dalpha: Vec6) returns (r: Result<Moduli>)
    ensures r == TangentOf(lin, Ds, iota, alpha, sigma, rhoDs0, Dalpha)
  {
    var inv := MaskAndInvert(ReducedJacobian(lin), Ds, iota);
    if inv.Err? {
      r := Err(inv.failure);
    } else {
      r := Ok(AssembleModuli(lin, ActiveMask(Ds, iota), inv.value, alpha, sigma, rhoDs0, Dalpha));
    }
  }

  /** `op` from the multiplier increments, then `invBhat` from `op`. */
  method MaskAndInvert(Bhat: Mat2, Ds: Vec2, iota: real) returns (r: Result<Mat2>)
    ensures r == MaskedInverse(Bhat, ActiveMask(Ds, iota))
  {
    var op := ActiveSet(Ds, iota);
    r := InvertProjection(Bhat, op);
  }
  /** With no mechanism active the sensitivities vanish and the mechanical tangent is
      the elastic stiffness. */
  lemma ElasticWhenInactive(lin: Linearisation, Ds: Vec2, iota: real, alpha: Vec6, sigma: Vec6,
                            rhoDs0: real, Dalpha: Vec6)
    requires Ds.x0 <= iota && Ds.x1 <= iota
    ensures var t := TangentOf(lin, Ds, iota, alpha, sigma, rhoDs0, Dalpha);
      && t.Ok?
      && t.value.sens == Sensitivities(Zero6(), Zero6(), 0.0, 0.0)
      && t.value.dSdE == lin.L
  {
    var m := ActiveMask(Ds, iota);
    MaskedInverseByCase(ReducedJacobian(lin), m);
    NoFlow(lin, m, alpha, sigma, rhoDs0, Dalpha);
  }

  /** Zero sensitivities leave the stiffness unchanged. */
  lemma NoFlow(lin: Linearisation, m: Mask, alpha: Vec6, sigma: Vec6, rhoDs0: real, Dalpha: Vec6)
    ensures var t := AssembleModuli(lin, m, Zero2x2(), alpha, sigma, rhoDs0, Dalpha);
      t.sens == Sensitivities(Zero6(), Zero6(), 0.0, 0.0) && t.dSdE == lin.L
  {
    var L := lin.L;
    var gF, gR := ForwardDrive(lin, alpha, sigma, rhoDs0, Dalpha), ReverseDrive(lin, alpha, sigma, rhoDs0, Dalpha);
    ZeroSensitivities(MatVec(L, lin.forward.dsigma), MatVec(L, lin.reverse.dsigma), gF, gR);
    NoCorrection(L, lin.kappa0, lin.kappa1);
  }

  lemma ZeroSensitivities(u: Vec6, w: Vec6, gF: real, gR: real)
    ensures SensitivitiesOf(Zero2x2(), u, w, gF, gR) == Sensitivities(Zero6(), Zero6(), 0.0, 0.0)
  {
  }

  lemma NoCorrection(L: Mat6, k0: Vec6, k1: Vec6)
    ensures MatSub(L, MatAdd(Outer(k0, Zero6()), Outer(k1, Zero6()))) == L
  {
    var z := Zero6();
    var Z := Mat6(z, z, z, z, z, z);
    OuterZero(k0);
    OuterZero(k1);
    assert MatAdd(Z, Z) == Z;
    assert MatSub(L, Z) == L;
  }

  lemma OuterZero(k: Vec6)
    ensures var z := Zero6(); Outer(k, z) == Mat6(z, z, z, z, z, z)
  {
  }

  /** `a u + b w`. */
  function Combine(a: real, b: real, u: Vec6, w: Vec6): Vec6
  {
    Vec6(a * u.v0 + b * w.v0, a * u.v1 + b * w.v1, a * u.v2 + b * w.v2,
         a * u.v3 + b * w.v3, a * u.v4 + b * w.v4, a * u.v5 + b * w.v5)
  }

  /** A combination of two combinations `cx`, `cy` of `x` and `y` is a combination of
      `x` and `y`, with the coefficients of the matrix product. */
  lemma Recombine(m0: real, m1: real, a0: real, b0: real, a1: real, b1: real, p: real, q: real,
                  x: real, y: real, cx: real, cy: real)
    requires p == a0 * m0 + a1 * m1 && q == b0 * m0 + b1 * m1
    requires cx == a0 * x + b0 * y && cy == a1 * x + b1 * y
    ensures m0 * cx + m1 * cy == p * x + q * y
  {
  }

  /** The same for six-component vectors. */
  lemma RecombineVec(m0: real, m1: real, a0: real, b0: real, a1: real, b1: real, p: real, q: real,
                     u: Vec6, w: Vec6)
    requires p == a0 * m0 + a1 * m1 && q == b0 * m0 + b1 * m1
    ensures Combine(m0, m1, Combine(a0, b0, u, w), Combine(a1, b1, u, w)) == Combine(p, q, u, w)
  {
    var cu, cw := Combine(a0, b0, u, w), Combine(a1, b1, u, w);
    Recombine(m0, m1, a0, b0, a1, b1, p, q, u.v0, w.v0, cu.v0, cw.v0);
    Recombine(m0, m1, a0, b0, a1, b1, p, q, u.v1, w.v1, cu.v1, cw.v1);
    Recombine(m0, m1, a0, b0, a1, b1, p, q, u.v2, w.v2, cu.v2, cw.v2);
    Recombine(m0, m1, a0, b0, a1, b1, p, q, u.v3, w.v3, cu.v3, cw.v3);
    Recombine(m0, m1, a0, b0, a1, b1, p, q, u.v4, w.v4, cu.v4, cw.v4);
    Recombine(m0, m1, a0, b0, a1, b1, p, q, u.v5, w.v5, cu.v5, cw.v5);
  }

  lemma CombineIndicator(b: bool, u: Vec6, w: Vec6)
    ensures Combine(Indicator(b), 0.0, u, w) == Scale(Indicator(b), u)
    ensures Combine(0.0, Indicator(b), u, w) == Scale(Indicator(b), w)
  {
  }

  /** If `inv * M` is the projection onto the active mechanisms, the sensitivities built
      from `inv` solve the transposed system `M^T P = op * g` for both drives. */
  lemma SolvesTransposed(inv: Mat2, M: Mat2, m: Mask, u: Vec6, w: Vec6, gF: real, gR: real, s: Sensitivities)
    requires Mul2(inv, M) == Diag(m) && s == SensitivitiesOf(inv, u, w, gF, gR)
    ensures
      && Combine(M.m00, M.m10, s.Pe0, s.Pe1) == Scale(Indicator(m.forward), u)
      && Combine(M.m01, M.m11, s.Pe0, s.Pe1) == Scale(Indicator(m.reverse), w)
      && M.m00 * s.Pt0 + M.m10 * s.Pt1 == Indicator(m.forward) * gF
      && M.m01 * s.Pt0 + M.m11 * s.Pt1 == Indicator(m.reverse) * gR
  {
    var f, r := Indicator(m.forward), Indicator(m.reverse);
    Recombine(M.m00, M.m10, inv.m00, inv.m10, inv.m01, inv.m11, f, 0.0, gF, gR, s.Pt0, s.Pt1);
    Recombine(M.m01, M.m11, inv.m00, inv.m10, inv.m01, inv.m11, 0.0, r, gF, gR, s.Pt0, s.Pt1);
    RecombineVec(M.m00, M.m10, inv.m00, inv.m10, inv.m01, inv.m11, f, 0.0, u, w);
    RecombineVec(M.m01, M.m11, inv.m00, inv.m10, inv.m01, inv.m11, 0.0, r, u, w);
    CombineIndicator(m.forward, u, w);
    CombineIndicator(m.reverse, u, w);
  }

  /** Consistency of the tangent: on the active mechanisms the strain sensitivities solve
      the linearised criteria `Bhat^T P_epsilon = L dPhi/dsigma`, and the thermal ones
      `Bhat^T P_theta = dPhi/dtheta - dPhi/dsigma : L alpha`; on inactive mechanisms
      both sides vanish. */
  lemma SensitivitiesSolveActiveSystem(lin: Linearisation, Ds: Vec2, iota: real, alpha: Vec6,
                                       sigma: Vec6, rhoDs0: real, Dalpha: Vec6)
    requires TangentOf(lin, Ds, iota, alpha, sigma, rhoDs0, Dalpha).Ok?
    ensures var t := TangentOf(lin, Ds, iota, alpha, sigma, rhoDs0, Dalpha).value;
      && SolvesActiveSystem(lin, t, Restricted(ReducedJacobian(lin), t.mask), alpha, sigma, rhoDs0, Dalpha)
      && t.mask == ActiveMask(Ds, iota)
      && BlockInverse(ReducedJacobian(lin), t.mask, t.inv)
      && t.dSdT == Scale(-1.0, MatVec(lin.L, alpha))
  {
    var m := ActiveMask(Ds, iota);
    var Bhat := ReducedJacobian(lin);
    var inv := MaskedInverse(Bhat, m).value;
    assert TangentOf(lin, Ds, iota, alpha, sigma, rhoDs0, Dalpha).value == AssembleModuli(lin, m, inv, alpha, sigma, rhoDs0, Dalpha);
    MaskedInverseIsBlockInverse(Bhat, m);
    ModuliSolveActiveSystem(lin, m, inv, Restricted(Bhat, m), alpha, sigma, rhoDs0, Dalpha);
  }

  /** `M^T P_epsilon = op * L dPhi/dsigma` and `M^T P_theta = op * g`, row by row. */
  ghost predicate SolvesActiveSystem(lin: Linearisation, t: Moduli, M: Mat2, alpha: Vec6, sigma: Vec6,
                                     rhoDs0: real, Dalpha: Vec6)
  {
    var f, r := Indicator(t.mask.forward), Indicator(t.mask.reverse);
    && Combine(M.m00, M.m10, t.sens.Pe0, t.sens.Pe1) == Scale(f, MatVec(lin.L, lin.forward.dsigma))
    && Combine(M.m01, M.m11, t.sens.Pe0, t.sens.Pe1) == Scale(r, MatVec(lin.L, lin.reverse.dsigma))
    && M.m00 * t.sens.Pt0 + M.m10 * t.sens.Pt1 == f * ForwardDrive(lin, alpha, sigma, rhoDs0, Dalpha)
    && M.m01 * t.sens.Pt0 + M.m11 * t.sens.Pt1 == r * ReverseDrive(lin, alpha, sigma, rhoDs0, Dalpha)
  }

  /** `g` for each mechanism: `dPhi/dtheta - dPhi/dsigma : L alpha`. */
  function ForwardDrive(lin: Linearisation, alpha: Vec6, sigma: Vec6, rhoDs0: real, Dalpha: Vec6): real
  {
    ThermalDrive(ForwardThermalSlope(rhoDs0, sigma, Dalpha), lin.forward.dsigma, lin.L, alpha)
  }

  function ReverseDrive(lin: Linearisation, alpha: Vec6, sigma: Vec6, rhoDs0: real, Dalpha: Vec6): real
  {
    ThermalDrive(ReverseThermalSlope(rhoDs0, sigma, Dalpha), lin.reverse.dsigma, lin.L, alpha)
  }

  lemma ModuliSolveActiveSystem(lin: Linearisation, m: Mask, inv: Mat2, M: Mat2, alpha: Vec6, sigma: Vec6,
                                rhoDs0: real, Dalpha: Vec6)
    requires Mul2(inv, M) == Diag(m)
    ensures SolvesActiveSystem(lin, AssembleModuli(lin, m, inv, alpha, sigma, rhoDs0, Dalpha), M,
                               alpha, sigma, rhoDs0, Dalpha)
  {
    var gF := ForwardDrive(lin, alpha, sigma, rhoDs0, Dalpha);
    var gR := ReverseDrive(lin, alpha, sigma, rhoDs0, Dalpha);
    var u, w := MatVec(lin.L, lin.forward.dsigma), MatVec(lin.L, lin.reverse.dsigma);
    var t := AssembleModuli(lin, m, inv, alpha, sigma, rhoDs0, Dalpha);
    SolvesTransposed(inv, M, m, u, w, gF, gR, t.sens);
    assert t.mask == m;
    assert SolvesActiveSystem(lin, t, M, alpha, sigma, rhoDs0, Dalpha);
  }

  /** The mechanical tangent applied to a strain increment is the elastic response less
      each flow direction `kappa_j` weighted by the rate `P_epsilon[j] : dE` at which
      the increment drives mechanism `j`. */
  lemma TangentResponse(lin: Linearisation, m: Mask, inv: Mat2, alpha: Vec6, sigma: Vec6,
                        rhoDs0: real, Dalpha: Vec6, dE: Vec6)
    ensures var t := AssembleModuli(lin, m, inv, alpha, sigma, rhoDs0, Dalpha);
      MatVec(t.dSdE, dE)
        == Sub(MatVec(lin.L, dE), Add(Scale(Dot(t.sens.Pe0, dE), lin.kappa0), Scale(Dot(t.sens.Pe1, dE), lin.kappa1)))
  {
    var t := AssembleModuli(lin, m, inv, alpha, sigma, rhoDs0, Dalpha);
    var o0, o1 := Outer(lin.kappa0, t.sens.Pe0), Outer(lin.kappa1, t.sens.Pe1);
    MatVecSub(lin.L, MatAdd(o0, o1), dE);
    MatVecSum(o0, o1, dE);
    MatVecOuter(lin.kappa0, t.sens.Pe0, dE);
    MatVecOuter(lin.kappa1, t.sens.Pe1, dE);
  }
}
