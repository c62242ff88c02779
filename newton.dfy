/** The local Newton loop of the increment: each iteration linearises the forward and
    reverse transformation criteria at the current stress and volume fractions, hands
    them to the Fischer-Burmeister solver, applies its step to the volume fractions and
    the transformation strain, and predicts the stress again. */
module Newton {
  import opened Algebra
  import opened Externals
  import opened Outcomes
  import opened Material

  /** What stays fixed during the local solve: the collaborators and tolerances, the
      material parameters and constants, the strain and temperature of the increment,
      the reference CTE and its phase jump, the compliance jump `DM` and the phase
      moduli. */
  datatype Env = Env(lib: Library, tol: Tolerances, p: Props, c: Constants,
                     Etot: Vec6, DEtot: Vec6, T: real, DT: real, Tinit: real,
                     alpha: Vec6, Dalpha: Vec6, DM: Mat6,
                     KA: real, KM: real, muA: real, muM: real, ndi: int)

  /** One transformation criterion `Phi` linearised at the current point: its value, its
      critical value `Yt`, the thermodynamic force and its partial derivatives, and the
      partial derivatives of the criterion with respect to the stress, the two volume
      fractions and the transformation strain increments. */
  datatype Criterion = Criterion(
    value: real, Yt: real,
    force: real, dForceDsigma: Vec6, dForceDxiF: real, dForceDxiR: real,
    dsigma: Vec6, dxiF: real, dxiR: real, dETF: Vec6, dETR: Vec6)

  /** Everything an iteration computes before calling the solver. */
  datatype Linearisation = Linearisation(
    L: Mat6, lambdaTF: Vec6, lambdaTR: Vec6, kappa0: Vec6, kappa1: Vec6,
    HfF: real, HfR: real, Hcur: real,
    forward: Criterion, reverse: Criterion, K: Mat2, B: Mat2)
  {
    function Phi(): Vec2 { Vec2(forward.value, reverse.value) }
    function Ycrit(): Vec2 { Vec2(forward.Yt, reverse.Yt) }
  }

  /** The loop variables: iteration counter, solver residual, stress, transformation
      strain, total/forward/reverse volume fractions, the solver unknowns `s_j` and
      multipliers `Ds_j`, the accumulated forward and reverse strain increments, the
      mean transformation direction, the transformation strain magnitude, and the
      linearisation of the last iteration (none before the first). */
  datatype Iterate = Iterate(
    count: nat, error: real, sigma: Vec6, ET: Vec6,
    xi: real, xiF: real, xiR: real, s: Vec2, Ds: Vec2,
    DETF: Vec6, DETR: Vec6, ETMean: Vec6, Hcur: real,
    last: Option<Linearisation>)

  /** The stiffness of the mixture at volume fraction `xi`. */
  function Stiffness(env: Env, xi: real): Mat6
  {
    env.lib.lIso(HarmonicMix(env.lib, env.KA, env.KM, xi), HarmonicMix(env.lib, env.muA, env.muM, xi))
  }

  /** The stress predicted elastically from the total strain at the end of the
      increment, less the thermal strain and the transformation strain `ET`. */
  function ElasticPrediction(env: Env, L: Mat6, ET: Vec6): Vec6
  {
    env.lib.elPred(L, Sub(Sub(Add(env.Etot, env.DEtot), Scale(env.T + env.DT - env.Tinit, env.alpha)), ET), env.ndi)
  }

  /** The forward criterion `PhiF = Hcur Prager(sigma) + A_xiF - lambda1 - YtF` and its
      derivatives; the partial derivatives that the routine sets to zero (of `PhihatF`
      and `YtF` with respect to the volume fractions, of `lambda1` with respect to the
      stress) are left out of the sums. */
  function ForwardCriterion(env: Env, sigma: Vec6, xi: real, Hcur: real, sigmastar: real,
                            DMsig: Vec6, HfF: real): Criterion
  {
    var lib, p, c := env.lib, env.p, env.c;
    var dHfF := ForwardHardeningSlope(lib, xi, c.a1, p.n1, p.n2);
    var dHcurdsigma := Scale(p.k1 * (p.Hmax - p.Hmin) * lib.exp(DecayExponent(p, sigmastar)), lib.etaStress(sigma));
    var prager := lib.pragerStress(sigma, p.pragerB, p.pragerN);
    var force := ForwardForce(c, sigma, DMsig, env.Dalpha, env.T + env.DT, env.Tinit, HfF);
    var lambda1 := lib.lagrangePow1(xi, p.cLambda, p.p0Lambda, p.nLambda, p.alphaLambda);
    var dlambda1 := lib.dLagrangePow1(xi, p.cLambda, p.p0Lambda, p.nLambda, p.alphaLambda);
    var YtF := c.Y0t + c.D * Hcur * lib.misesStress(sigma);
    var dPhihat := Add(Scale(prager, dHcurdsigma), Scale(Hcur, lib.dPragerStress(sigma, p.pragerB, p.pragerN)));
    var dForce := Add(DMsig, Scale(env.T + env.DT, env.Dalpha));
    var dYt := Scale(c.D, Add(Scale(lib.misesStress(sigma), dHcurdsigma), Scale(Hcur, lib.etaStress(sigma))));
    Criterion(Hcur * prager + force - lambda1 - YtF, YtF,
              force, dForce, -dHfF, dHfF,
              Sub(Add(dPhihat, dForce), dYt), -dHfF - dlambda1, dHfF - (-1.0 * dlambda1),
              Zero6(), Zero6())
  }

  /** The reverse criterion `PhiR = -sigma:ETMean + A_xiR + lambda0 - YtR` and its
      derivatives, with the divisions by `xi` as the routine writes them. */
  function ReverseCriterion(env: Env, sigma: Vec6, xi: real, ETMean: Vec6, DMsig: Vec6, HfR: real): Criterion
  {
    var lib, p, c := env.lib, env.p, env.c;
    var dHfR := ReverseHardeningSlope(lib, xi, c.a2, p.n3, p.n4);
    var work := Dot(sigma, ETMean);
    var force := ReverseForce(c, sigma, DMsig, env.Dalpha, env.T + env.DT, env.Tinit, HfR);
    var lambda0 := -1.0 * lib.lagrangePow0(xi, p.cLambda, p.p0Lambda, p.nLambda, p.alphaLambda);
    var dlambda0 := lib.dLagrangePow0(xi, p.cLambda, p.p0Lambda, p.nLambda, p.alphaLambda);
    var YtR := c.Y0t + c.D * work;
    var dPhihatdxiF := lib.div(-1.0, xi) * work;
    var dPhihatdxiR := lib.div(1.0, xi) * work;
    var dPhihatdET := VecQuot(lib, sigma, xi);
    var dForce := Sub(Scale(-1.0, DMsig), Scale(env.T + env.DT - env.Tinit, env.Dalpha));
    var dYtdxiF := lib.div(-c.D, xi) * work;
    var dYtdxiR := lib.div(c.D, xi) * work;
    var dYtdET := VecQuot(lib, Scale(c.D, sigma), xi);
    var dET := Sub(Scale(-1.0, dPhihatdET), dYtdET);
    Criterion(-1.0 * work + force + lambda0 - YtR, YtR,
              force, dForce, dHfR, -dHfR,
              Sub(Add(Scale(-1.0, ETMean), dForce), Scale(c.D, ETMean)),
              -1.0 * dPhihatdxiF + dHfR + -1.0 * dlambda0 - dYtdxiF,
              -1.0 * dPhihatdxiR + -dHfR + dlambda0 - dYtdxiR,
              dET, dET)
  }

  /** The linearisation of one iteration at the iterate `st`. The flow direction
      `lambdaTF` uses the magnitude `Hcur` carried over from the previous iteration;
      the criteria use the magnitude recomputed at the current stress. */
  function Linearise(env: Env, st: Iterate): Linearisation
  {
    var lib, p, c := env.lib, env.p, env.c;
    var L := Stiffness(env, st.xi);
    var DMsig := MatVec(env.DM, st.sigma);
    var DalphaT := Scale(env.T + env.DT, env.Dalpha);
    var lambdaTF := Scale(st.Hcur, lib.dPragerStress(st.sigma, p.pragerB, p.pragerN));
    var lambdaTR := Scale(-1.0, st.ETMean);
    var kappa0 := MatVec(L, Add(Add(lambdaTF, DMsig), DalphaT));
    var kappa1 := MatVec(L, Sub(Sub(lambdaTR, DMsig), DalphaT));
    var HfF := ForwardHardening(lib, st.xi, c.a1, c.a3, p.n1, p.n2);
    var HfR := ReverseHardening(lib, st.xi, c.a2, c.a3, p.n3, p.n4);
    var sigmastar := ExcessStress(lib.misesStress(st.sigma), p.sigmacrit);
    var Hcur := SaturationMagnitude(lib, p, sigmastar);
    var F := ForwardCriterion(env, st.sigma, st.xi, Hcur, sigmastar, DMsig, HfF);
    var R := ReverseCriterion(env, st.sigma, st.xi, st.ETMean, DMsig, HfR);
    var K := Mat2(F.dxiF, F.dxiR, R.dxiF + Dot(R.dETF, lambdaTF), R.dxiR + Dot(R.dETR, lambdaTR));
    var B := Mat2(-1.0 * Dot(F.dsigma, kappa0) + K.m00, -1.0 * Dot(F.dsigma, kappa1) + K.m01,
                  -1.0 * Dot(R.dsigma, kappa0) + K.m10, -1.0 * Dot(R.dsigma, kappa1) + K.m11);
    Linearisation(L, lambdaTF, lambdaTR, kappa0, kappa1, HfF, HfR, Hcur, F, R, K, B)
  }

  /** One pass of the loop body: linearise, call the solver, apply its step. */
  function Step(env: Env, st: Iterate): (next: Iterate)
    ensures next.count == st.count + 1
  {
    var lin := Linearise(env, st);
    Advance(env, st, lin, env.lib.fischerBurmeister(lin.Phi(), lin.Ycrit(), lin.B, st.Ds))
  }

  /** The second half of the loop body: apply the solver's step `ds_j` to the unknowns,
      the volume fractions and the transformation strain, and predict the stress again
      with the iteration's stiffness. */
  function Advance(env: Env, st: Iterate, lin: Linearisation, fb: FBStep): Iterate
  {
    var ds := fb.ds;
    var s := Vec2(st.s.x0 + ds.x0, st.s.x1 + ds.x1);
    var ET := Add(Add(st.ET, Scale(ds.x0, lin.lambdaTF)), Scale(ds.x1, lin.lambdaTR));
    var xi := st.xi + ds.x0 - 1.0 * ds.x1;
    var DETF := Add(st.DETF, Scale(ds.x0, lin.lambdaTF));
    var DETR := Add(st.DETR, Scale(-1.0 * ds.x1, lin.lambdaTR));
    var ETMean := MeanDirection(env.lib, ET, xi, lin.lambdaTF, env.tol.precision);
    Iterate(st.count + 1, fb.error, ElasticPrediction(env, lin.L, ET), ET,
            xi, s.x0, s.x1, s, fb.Ds, DETF, DETR, ETMean, lin.Hcur, Some(lin))
  }

  /** `xi - xiF + xiR`: how far the total volume fraction is from the difference of the
      forward and reverse fractions. */
  function XiDefect(st: Iterate): real
  {
    st.xi - st.xiF + st.xiR
  }

  /** `ET - DETF + DETR`: the transformation strain not accounted for by the
      accumulated forward and reverse increments. */
  function StrainDefect(st: Iterate): Vec6
  {
    Add(Sub(st.ET, st.DETF), st.DETR)
  }

  /** The solver unknowns `s_j` are the forward and reverse volume fractions. */
  predicate Tracks(st: Iterate)
  {
    st.s == Vec2(st.xiF, st.xiR)
  }

  /** After one iteration the stress is the elastic prediction from the new
      transformation strain with that iteration's stiffness. */
  predicate Predicted(env: Env, st: Iterate)
  {
    st.last.Some? && st.sigma == ElasticPrediction(env, st.last.value.L, st.ET)
  }

  /** Applying a step moves `ET` by exactly the forward increment minus the reverse
      one, leaves `s_j` equal to `(xiF, xiR)` and, when that held before, changes `xi`
      by exactly the change of `xiF` minus the change of `xiR`; it takes the multipliers and residual from the solver
      and re-predicts the stress. */
  lemma AdvanceBookkeeping(env: Env, st: Iterate, lin: Linearisation, fb: FBStep)
    ensures var next := Advance(env, st, lin, fb);
      && StrainDefect(next) == StrainDefect(st)
      && Tracks(next)
      && (Tracks(st) ==> XiDefect(next) == XiDefect(st)
                         && next.xiF - st.xiF == fb.ds.x0 && next.xiR - st.xiR == fb.ds.x1)
      && next.last == Some(lin) && Predicted(env, next)
      && next.Ds == fb.Ds && next.error == fb.error
  {
    var ds := fb.ds;
    var a, b, b' := Scale(ds.x0, lin.lambdaTF), Scale(ds.x1, lin.lambdaTR), Scale(-1.0 * ds.x1, lin.lambdaTR);
    ScaleCancel(ds.x1, lin.lambdaTR);
    DefectShift(st.ET, st.DETF, st.DETR, a, b, b');
  }

  /** Moving `ET` by `a + b`, `DETF` by `a` and `DETR` by `c` with `b + c = 0` keeps
      `ET - DETF + DETR`. */
  lemma DefectShift(ET: Vec6, DETF: Vec6, DETR: Vec6, a: Vec6, b: Vec6, c: Vec6)
    requires Add(b, c) == Zero6()
    ensures Add(Sub(Add(Add(ET, a), b), Add(DETF, a)), Add(DETR, c)) == Add(Sub(ET, DETF), DETR)
  {
  }

  lemma ScaleCancel(k: real, v: Vec6)
    ensures Add(Scale(k, v), Scale(-1.0 * k, v)) == Zero6()
  {
  }

  /** The same for a whole iteration. */
  lemma StepBookkeeping(env: Env, st: Iterate)
    ensures var next := Step(env, st);
      && StrainDefect(next) == StrainDefect(st)
      && Tracks(next)
      && (Tracks(st) ==> XiDefect(next) == XiDefect(st))
      && Predicted(env, next)
  {
    var lin := Linearise(env, st);
    AdvanceBookkeeping(env, st, lin, env.lib.fischerBurmeister(lin.Phi(), lin.Ycrit(), lin.B, st.Ds));
  }

  /** The loop condition: fewer than `maxiter` iterations have run and the residual is
      above `precision`. */
  predicate Continues(env: Env, st: Iterate)
  {
    st.count < env.tol.maxiter && st.error > env.tol.precision
  }

  /** The loop: iterate while the loop condition holds. */
  function Run(env: Env, st: Iterate): (fin: Iterate)
    decreases env.tol.maxiter - st.count
    ensures st.count <= fin.count
    ensures st.count <= env.tol.maxiter ==> fin.count <= env.tol.maxiter
    ensures fin.count >= env.tol.maxiter || fin.error <= env.tol.precision
    ensures fin.count == st.count ==> fin == st
    ensures fin.count > st.count ==> Predicted(env, fin)
    ensures StrainDefect(fin) == StrainDefect(st)
    ensures Tracks(st) ==> Tracks(fin) && XiDefect(fin) == XiDefect(st)
  {
    if Continues(env, st) then
      StepBookkeeping(env, st);
      Run(env, Step(env, st))
    else
      st
  }

  /** The loop of the routine, run on the loop variables. */
  method LocalSolve(env: Env, init: Iterate) returns (fin: Iterate)
    ensures fin == Run(env, init)
    ensures fin.count >= env.tol.maxiter || fin.error <= env.tol.precision
  {
    fin := init;
    while Continues(env, fin)
      invariant Run(env, fin) == Run(env, init)
      decreases env.tol.maxiter - fin.count
    {
      fin := Step(env, fin);
    }
  }

  /** The two directions of the flow sum to the stiffness applied to the sum of the flow
      directions: the thermal and compliance terms cancel (the derivative with respect
      to `xiR` is minus the one with respect to `xi`). */
  lemma FlowDirectionsSum(env: Env, st: Iterate)
    ensures var lin := Linearise(env, st);
      Add(lin.kappa0, lin.kappa1) == MatVec(lin.L, Add(lin.lambdaTF, lin.lambdaTR))
  {
    var lin := Linearise(env, st);
    var DMsig := MatVec(env.DM, st.sigma);
    var DalphaT := Scale(env.T + env.DT, env.Dalpha);
    var u := Add(Add(lin.lambdaTF, DMsig), DalphaT);
    var v := Sub(Sub(lin.lambdaTR, DMsig), DalphaT);
    MatVecAdd(lin.L, u, v);
    assert Add(u, v) == Add(lin.lambdaTF, lin.lambdaTR);
  }

  /** Both criteria depend on the two volume fractions only through `xi = xiF - xiR`:
      each criterion's derivative with respect to `xiR` is minus its derivative with
      respect to `xiF` (for the reverse criterion, when the divisions by `xi` are
      exact). */
  lemma CriteriaDependOnNetFraction(env: Env, st: Iterate)
    ensures var lin := Linearise(env, st);
      lin.forward.dxiR == -lin.forward.dxiF && lin.K.m01 == -lin.K.m00
    ensures ExactQuotient(env.lib) && st.xi != 0.0 ==>
      var lin := Linearise(env, st);
      lin.reverse.dxiR == -lin.reverse.dxiF
  {
    var lib, p, c := env.lib, env.p, env.c;
    var DMsig := MatVec(env.DM, st.sigma);
    var HfF := ForwardHardening(lib, st.xi, c.a1, c.a3, p.n1, p.n2);
    var HfR := ReverseHardening(lib, st.xi, c.a2, c.a3, p.n3, p.n4);
    var sigmastar := ExcessStress(lib.misesStress(st.sigma), p.sigmacrit);
    var Hcur := SaturationMagnitude(lib, p, sigmastar);
    ForwardNetFraction(env, st.sigma, st.xi, Hcur, sigmastar, DMsig, HfF);
    if ExactQuotient(env.lib) && st.xi != 0.0 {
      ReverseNetFraction(env, st.sigma, st.xi, st.ETMean, DMsig, HfR);
    }
  }

  lemma ForwardNetFraction(env: Env, sigma: Vec6, xi: real, Hcur: real, sigmastar: real,
                           DMsig: Vec6, HfF: real)
    ensures var F := ForwardCriterion(env, sigma, xi, Hcur, sigmastar, DMsig, HfF);
      F.dxiR == -F.dxiF
  {
  }

  lemma ReverseNetFraction(env: Env, sigma: Vec6, xi: real, ETMean: Vec6, DMsig: Vec6, HfR: real)
    requires ExactQuotient(env.lib) && xi != 0.0
    ensures var R := ReverseCriterion(env, sigma, xi, ETMean, DMsig, HfR);
      R.dxiR == -R.dxiF
  {
    var work := Dot(sigma, ETMean);
    NegatedQuotient(1.0, xi, work);
    NegatedQuotient(env.c.D, xi, work);
  }

  lemma NegatedQuotient(a: real, x: real, w: real)
    requires x != 0.0
    ensures (-a / x) * w == -((a / x) * w)
  {
  }
}
