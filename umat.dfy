/** One call of the thermomechanical shape-memory-alloy routine: read the parameters
    and the state variables, reset and calibrate on the first call, rotate the
    transformation strain, run the local Newton loop, compute the tangent, the heat
    source and the work increments, and write the state variables back. */
module Umat {
  import opened Algebra
  import opened Externals
  import opened Outcomes
  import opened Material
  import opened Newton
  import opened Tangent
  import opened Energy
  import opened StateLayout

  /** What the caller prescribes for the increment: the strain at its start and its
      increment, the temperature and its increment, the time increment, the rotation
      increment, the number of direct components and whether this is the first call. */
  datatype Loading = Loading(Etot: Vec6, DEtot: Vec6, T: real, DT: real, DTime: real,
                             DR: Rotation, ndi: int, start: bool)

  /** What the routine returns besides the state variables and the work totals: the
      stress, the heat source and the four tangents. */
  datatype Response = Response(sigma: Vec6, r: real, dSdE: Mat6, dSdT: Vec6, drdE: Vec6, drdT: real)

  /** The state variables and the stress once the first-call reset has been applied. */
  datatype Begun = Begun(state: StateVars, sigma: Vec6)

  /** Everything fixed before the loop: the loop environment, the state after the reset
      and the rotation, the stress at the start of the increment, the two thermodynamic
      forces at the start and the first loop iterate. */
  datatype Setup = Setup(env: Env, start: StateVars, sigmaStart: Vec6, AF0: real, AR0: real, init: Iterate)

  /** The result of a successful increment: the response, the state to store and the
      work increments to add. */
  datatype Outcome = Outcome(response: Response, state: StateVars, work: WorkIncrements)

  /** On the first call the temperature becomes the reference temperature, the stress
      and the transformation strain are zeroed, the forward fraction starts at `limit`
      and the reverse one at zero, and the constants are calibrated; the calibration can
      fail. Otherwise the stored state and the given stress are kept. */
  function Begin(lib: Library, tol: Tolerances, p: Props, ld: Loading, read: StateVars, sigma: Vec6): (r: Result<Begun>)
    ensures r.Err? <==> ld.start && Calibrate(lib, p).Err?
    ensures r.Ok? && ld.start ==>
      && r.value.state == StateVars(ld.T, tol.limit, Zero6(), tol.limit, 0.0, Calibrate(lib, p).value)
      && r.value.sigma == Zero6()
    ensures !ld.start ==> r == Ok(Begun(read, sigma))
  {
    if !ld.start then Ok(Begun(read, sigma))
    else
      match Calibrate(lib, p)
      case Err(f) => Err(f)
      case Ok(c) =>
        var xiF := tol.limit;
        Ok(Begun(StateVars(ld.T, xiF, Zero6(), xiF, 0.0, c), Zero6()))
  }

  /** The loop environment: the phase moduli, the compliance jump, and the CTE of the
      mixture at `xiRead`, the volume fraction read from the state variables before
      any reset. */
  function EnvOf(lib: Library, tol: Tolerances, p: Props, c: Constants, ld: Loading, Tinit: real, xiRead: real): Env
  {
    var KA, muA := BulkModulus(lib, p.EA, p.nuA), ShearModulus(lib, p.EA, p.nuA);
    var KM, muM := BulkModulus(lib, p.EM, p.nuM), ShearModulus(lib, p.EM, p.nuM);
    Env(lib, tol, p, c, ld.Etot, ld.DEtot, ld.T, ld.DT, Tinit,
        CteMix(p.alphaA, p.alphaM, xiRead), CteJump(p.alphaA, p.alphaM),
        MatSub(lib.mIso(KM, muM), lib.mIso(KA, muA)), KA, KM, muA, muM, ld.ndi)
  }

  /** The first loop iterate: the magnitude, forward direction and mean direction
      evaluated at the start stress, and the stress predicted with the stiffness at
      `xiRead`; no increments yet and residual 1. */
  function InitialIterate(env: Env, sv: StateVars, sigma: Vec6, xiRead: real): (it: Iterate)
    ensures it.count == 0 && it.error == 1.0 && it.last.None? && Tracks(it) && XiDefect(it) == sv.xi - sv.xiF + sv.xiR
    ensures it.DETF == Zero6() && it.DETR == Zero6() && it.ET == sv.ET
  {
    var lib, p := env.lib, env.p;
    var Hcur := SaturationMagnitude(lib, p, ExcessStress(lib.misesStress(sigma), p.sigmacrit));
    var lambdaTF := Scale(Hcur, lib.dPragerStress(sigma, p.pragerB, p.pragerN));
    var ETMean := MeanDirectionBeforeLoop(lib, sv.ET, sigma, sv.xi, lambdaTF);
    var predicted := ElasticPrediction(env, Stiffness(env, xiRead), sv.ET);
    Iterate(0, 1.0, predicted, sv.ET, sv.xi, sv.xiF, sv.xiR, Vec2(sv.xiF, sv.xiR), Vec2(0.0, 0.0),
            Zero6(), Zero6(), ETMean, Hcur, None)
  }

  /** Everything before the loop. Fails exactly when the first-call calibration fails. */
  function Prepare(lib: Library, tol: Tolerances, props: seq<real>, ld: Loading, statev: seq<real>, sigma: Vec6): (r: Result<Setup>)
    requires |props| >= 31 && |statev| >= Count
    ensures r.Err? <==> ld.start && Calibrate(lib, ReadProps(props)).Err?
    ensures r.Err? ==> r.failure == SaturationNotPositive
    ensures r.Ok? ==>
      var su := r.value;
      && su.env.tol == tol && su.env.DEtot == ld.DEtot && su.env.T == ld.T && su.env.DT == ld.DT
      && su.init.count == 0 && su.init.error == 1.0 && Tracks(su.init)
      && su.init.ET == su.start.ET && su.init.DETF == Zero6() && su.init.DETR == Zero6()
      && XiDefect(su.init) == su.start.xi - su.start.xiF + su.start.xiR
      && su.start.c == su.env.c && su.start.Tinit == su.env.Tinit
    ensures r.Ok? ==>
      var su, read, p := r.value, Unpack(statev), ReadProps(props);
      && su.start.Tinit == (if ld.start then ld.T else read.Tinit)
      && su.start.c == (if ld.start then Calibrate(lib, p).value else read.c)
      && (ld.start ==> su.start.xi == su.start.xiF == tol.limit && su.start.xiR == 0.0)
      && (!ld.start ==> su.start.xi == read.xi && su.start.xiF == read.xiF && su.start.xiR == read.xiR)
  {
    var p := ReadProps(props);
    var read := Unpack(statev);
    match Begin(lib, tol, p, ld, read, sigma)
    case Err(f) => Err(f)
    case Ok(b) =>
      var c := b.state.c;
      var env := EnvOf(lib, tol, p, c, ld, b.state.Tinit, read.xi);
      var sv := b.state.(ET := lib.rotateStrain(b.state.ET, ld.DR));
      var DMsig := MatVec(env.DM, b.sigma);
      var HfF := ForwardHardeningBeforeLoop(lib, sv.xi, c.a1, c.a3, p.n1, p.n2);
      var HfR := ReverseHardeningBeforeLoop(lib, sv.xi, c.a2, c.a3, p.n3, p.n4);
      var AF0 := ForwardForce(c, b.sigma, DMsig, env.Dalpha, ld.T, env.Tinit, HfF);
      var AR0 := ReverseForce(c, b.sigma, DMsig, env.Dalpha, ld.T, env.Tinit, HfR);
      Ok(Setup(env, sv, b.sigma, AF0, AR0, InitialIterate(env, sv, b.sigma, read.xi)))
  }

  /** The changes of the total, reversible and irreversible entropy over the
      increment, from the start state to the end of the loop. */
  function EntropyOf(su: Setup, fin: Iterate): (e: EntropyChange)
    ensures e.total == e.reversible + e.irreversible && e.irreversible == 0.0
  {
    var env := su.env;
    var h := HeatCapacityOf(env.p.rho, env.p.cpA, env.p.cpM);
    var etaR := ReversibleEntropy(env.lib, h, fin.xi, env.T + env.DT, env.Tinit, env.alpha, fin.sigma, env.c.rhoDs0);
    var etaRStart := ReversibleEntropy(env.lib, h, su.start.xi, env.T, env.Tinit, env.alpha, su.sigmaStart, env.c.rhoDs0);
    EntropyChangeOf(etaR, etaRStart)
  }

  /** What the heat source reads after the loop. */
  function HeatOf(su: Setup, fin: Iterate, DTime: real): (heat: HeatInputs)
    ensures heat.DEtot == su.env.DEtot && heat.DT == su.env.DT && heat.DTime == DTime
  {
    var env := su.env;
    var lib, p, c := env.lib, env.p, env.c;
    var theta := env.T + env.DT;
    var h := HeatCapacityOf(p.rho, p.cpA, p.cpM);
    HeatInputs(env.T, env.DT, DTime, env.DEtot, Sub(fin.ET, su.start.ET), fin.Ds.x0, fin.Ds.x1, fin.sigma, env.alpha,
               ForwardThermalSlope(c.rhoDs0, fin.sigma, env.Dalpha),
               ReverseThermalSlope(c.rhoDs0, fin.sigma, env.Dalpha),
               EntropyForwardSlope(lib, h, theta, env.Tinit, env.Dalpha, fin.sigma, c.rhoDs0),
               EntropyReverseSlope(lib, h, theta, env.Tinit, env.Dalpha, fin.sigma, c.rhoDs0),
               EntropyOf(su, fin).total, h.Mixed(fin.xi) + h.Jump() * fin.xi)
  }

  /** What the work increments read after the loop: the forces at the end are the
      ones of the last linearisation. */
  function WorkOf(su: Setup, fin: Iterate): (w: WorkInputs)
    requires fin.last.Some?
    ensures w.entropy.total == w.entropy.reversible + w.entropy.irreversible && w.entropy.irreversible == 0.0
  {
    var env, lin := su.env, fin.last.value;
    WorkInputs(su.sigmaStart, fin.sigma, env.DEtot, Sub(fin.ET, su.start.ET), su.AF0, lin.forward.force, su.AR0,
               lin.reverse.force, fin.Ds.x0, fin.Ds.x1, env.T, env.DT, EntropyOf(su, fin))
  }

  /** The energy bookkeeping after the loop and the tangent, and the state to store. */
  function Conclude(su: Setup, fin: Iterate, t: Moduli, DTime: real): (o: Outcome)
    requires fin.last.Some?
  {
    var q := HeatSourceOf(fin.last.value, t, HeatOf(su, fin, DTime));
    Outcome(Response(fin.sigma, q.r, t.dSdE, t.dSdT, q.drdE, q.drdT),
            StateVars(su.env.Tinit, fin.xi, fin.ET, fin.xiF, fin.xiR, su.env.c), WorkIncrementsOf(WorkOf(su, fin)))
  }

  /** The whole increment as a function of its inputs. */
  function IncrementOf(lib: Library, tol: Tolerances, props: seq<real>, ld: Loading,
                       statev: seq<real>, sigma: Vec6): Result<Outcome>
    requires |props| >= 31 && |statev| >= Count
    requires tol.maxiter >= 1 && tol.precision < 1.0
  {
    match Prepare(lib, tol, props, ld, statev, sigma)
    case Err(f) => Err(f)
    case Ok(su) =>
      var fin := Run(su.env, su.init);
      var lin := fin.last.value;
      match TangentOf(lin, fin.Ds, tol.iota, su.env.alpha, fin.sigma, su.env.c.rhoDs0, su.env.Dalpha)
      case Err(f) => Err(f)
      case Ok(t) => Ok(Conclude(su, fin, t, ld.DTime))
  }

  /** The routine: `statev` and the seven work totals are updated in place, the rest
      is returned. The mechanical totals are reset on the first call before anything can
      fail, so a failed first call leaves them at zero; a failure leaves `statev` as it
      was. */
  method Increment(lib: Library, tol: Tolerances, props: seq<real>, ld: Loading, statev: array<real>,
                   sigma: Vec6, work: WorkTotals) returns (res: Result<Response>)
    requires |props| >= 31 && statev.Length >= Count
    requires tol.maxiter >= 1 && tol.precision < 1.0
    modifies statev, work
    ensures var o := IncrementOf(lib, tol, props, ld, old(statev[..]), sigma);
      && (o.Err? ==> res == Err(o.failure) && statev[..] == old(statev[..]))
      && (o.Ok? ==> res == Ok(o.value.response) && statev[..] == Packed(old(statev[..]), o.value.state, ld.start))
    ensures var o := IncrementOf(lib, tol, props, ld, old(statev[..]), sigma);
      o.Ok? ==>
      && work.wm == (if ld.start then 0.0 else old(work.wm)) + o.value.work.wm
      && work.wmR == (if ld.start then 0.0 else old(work.wmR)) + o.value.work.wmR
      && work.wmIr == (if ld.start then 0.0 else old(work.wmIr)) + o.value.work.wmIr
      && work.wmD == (if ld.start then 0.0 else old(work.wmD)) + o.value.work.wmD
      && work.wt == old(work.wt) + o.value.work.wt
      && work.wtR == old(work.wtR) + o.value.work.wtR
      && work.wtIr == old(work.wtIr) + o.value.work.wtIr
    ensures var o := IncrementOf(lib, tol, props, ld, old(statev[..]), sigma);
      o.Err? ==>
      && work.wm == (if ld.start then 0.0 else old(work.wm))
      && work.wmR == (if ld.start then 0.0 else old(work.wmR))
      && work.wmIr == (if ld.start then 0.0 else old(work.wmIr))
      && work.wmD == (if ld.start then 0.0 else old(work.wmD))
      && work.wt == old(work.wt) && work.wtR == old(work.wtR) && work.wtIr == old(work.wtIr)
    ensures (ld.start || old(work.MechanicalBalance())) ==> work.MechanicalBalance()
    ensures old(work.ThermalBalance()) ==> work.ThermalBalance()
  {
    ghost var before := statev[..];
    if ld.start {
      work.ResetMechanical();
    }
    var prepared := Prepare(lib, tol, props, ld, statev[..], sigma);
    if prepared.Err? {
      return Err(prepared.failure);
    }
    var su := prepared.value;
    var fin := LocalSolve(su.env, su.init);
    FirstIterationRuns(su.env, su.init);
    var lin := fin.last.value;
    var t := ComputeTangent(lin, fin.Ds, tol.iota, su.env.alpha, fin.sigma, su.env.c.rhoDs0, su.env.Dalpha);
    if t.Err? {
      return Err(t.failure);
    }
    var o := Conclude(su, fin, t.value, ld.DTime);
    ConcludedWorkPartitioned(su, fin, t.value, ld.DTime);
    work.Accumulate(o.work);
    WriteBack(statev, o.state, ld.start);
    res := Ok(o.response);
  }

  /** The work increments of every increment are partitioned, with no irreversible
      mechanical or thermal part. */
  lemma ConcludedWorkPartitioned(su: Setup, fin: Iterate, t: Moduli, DTime: real)
    requires fin.last.Some?
    ensures var d := Conclude(su, fin, t, DTime).work;
      Partitioned(d) && d.wmIr == 0.0 && d.wtIr == 0.0
  {
    var w := WorkOf(su, fin);
    WorkPartition(w);
    IrreversibleFree(w.T + 0.5 * w.DT, w.entropy.irreversible);
  }

  lemma IrreversibleFree(m: real, x: real)
    requires x == 0.0
    ensures m * x == 0.0
  {
  }

  /** The loop starts with residual 1, so with a tolerance below 1 and at least one
      iteration allowed it runs at least once and ends with a linearisation. */
  lemma FirstIterationRuns(env: Env, init: Iterate)
    requires env.tol.maxiter >= 1 && env.tol.precision < 1.0
    requires init.count == 0 && init.error == 1.0
    ensures Run(env, init).count >= 1 && Run(env, init).last.Some?
  {
    assert Continues(env, init);
  }

  /** The three stages of a successful increment: the set-up before the loop, the loop
      and the tangent. */
  lemma Stages(lib: Library, tol: Tolerances, props: seq<real>, ld: Loading, statev: seq<real>, sigma: Vec6)
    returns (su: Setup, fin: Iterate, t: Moduli)
    requires |props| >= 31 && |statev| >= Count
    requires tol.maxiter >= 1 && tol.precision < 1.0
    requires IncrementOf(lib, tol, props, ld, statev, sigma).Ok?
    ensures Prepare(lib, tol, props, ld, statev, sigma) == Ok(su)
    ensures fin == Run(su.env, su.init) && fin.last.Some?
    ensures IncrementOf(lib, tol, props, ld, statev, sigma) == Ok(Conclude(su, fin, t, ld.DTime))
  {
    su := Prepare(lib, tol, props, ld, statev, sigma).value;
    fin := Run(su.env, su.init);
    FirstIterationRuns(su.env, su.init);
    t := TangentOf(fin.last.value, fin.Ds, tol.iota, su.env.alpha, fin.sigma, su.env.c.rhoDs0, su.env.Dalpha).value;
  }

  /** The increment fails with `SaturationNotPositive` exactly when it is a first call
      whose calibration fails; any other failure is a singular projected Jacobian. */
  lemma IncrementFailures(lib: Library, tol: Tolerances, props: seq<real>, ld: Loading, statev: seq<real>, sigma: Vec6)
    requires |props| >= 31 && |statev| >= Count
    requires tol.maxiter >= 1 && tol.precision < 1.0
    ensures var o := IncrementOf(lib, tol, props, ld, statev, sigma);
      && (ld.start && Calibrate(lib, ReadProps(props)).Err? ==> o == Err(SaturationNotPositive))
      && (o.Err? && !(ld.start && Calibrate(lib, ReadProps(props)).Err?) ==> o.failure == SingularProjection)
  {
    var prepared := Prepare(lib, tol, props, ld, statev, sigma);
    if prepared.Ok? {
      var su := prepared.value;
      var fin := Run(su.env, su.init);
      FirstIterationRuns(su.env, su.init);
      var t := TangentOf(fin.last.value, fin.Ds, tol.iota, su.env.alpha, fin.sigma, su.env.c.rhoDs0, su.env.Dalpha);
      TangentFailure(fin.last.value, fin.Ds, tol.iota, su.env.alpha, fin.sigma, su.env.c.rhoDs0, su.env.Dalpha);
      assert IncrementOf(lib, tol, props, ld, statev, sigma).Err? <==> t.Err?;
    }
  }

  /** The tangent fails only on a singular projected Jacobian. */
  lemma TangentFailure(lin: Linearisation, Ds: Vec2, iota: real, alpha: Vec6, sigma: Vec6, rhoDs0: real, Dalpha: Vec6)
    ensures var t := TangentOf(lin, Ds, iota, alpha, sigma, rhoDs0, Dalpha);
      t.Err? ==> t.failure == SingularProjection
  {
  }

  /** The state stored by a successful increment: the reference temperature is the
      stored one, or the current temperature on the first call; the constants are the
      stored ones, or freshly calibrated on the first call; and the total volume
      fraction equals the forward minus the reverse fraction whenever it did in the
      stored state (always, after the first call). */
  lemma IncrementState(lib: Library, tol: Tolerances, props: seq<real>, ld: Loading, statev: seq<real>, sigma: Vec6)
    requires |props| >= 31 && |statev| >= Count
    requires tol.maxiter >= 1 && tol.precision < 1.0
    ensures var o := IncrementOf(lib, tol, props, ld, statev, sigma);
      var read, p := Unpack(statev), ReadProps(props);
      o.Ok? ==>
      && o.value.state.Tinit == (if ld.start then ld.T else read.Tinit)
      && o.value.state.c == (if ld.start then Calibrate(lib, p).value else read.c)
      && (ld.start ==> CalibratedAt(o.value.state.c, SmoothTemperatures(lib, p)))
      && (ld.start || read.xi == read.xiF - read.xiR ==> o.value.state.xi == o.value.state.xiF - o.value.state.xiR)
  {
    if IncrementOf(lib, tol, props, ld, statev, sigma).Ok? {
      var su, fin, t := Stages(lib, tol, props, ld, statev, sigma);
      assert XiDefect(fin) == XiDefect(su.init);
    }
  }

  /** The heat source of a successful increment is its own linearisation applied to
      the increment and vanishes, derivatives included, for a time increment below
      1e-12; the work increments are partitioned, with no irreversible mechanical or
      thermal part. */
  lemma IncrementEnergy(lib: Library, tol: Tolerances, props: seq<real>, ld: Loading, statev: seq<real>, sigma: Vec6)
    requires |props| >= 31 && |statev| >= Count
    requires tol.maxiter >= 1 && tol.precision < 1.0
    ensures var o := IncrementOf(lib, tol, props, ld, statev, sigma);
      o.Ok? ==>
      var q := o.value.response;
      && q.r == HeatSource(q.r, q.drdE, q.drdT).Applied(ld.DEtot, ld.DT)
      && (ld.DTime < 1.0e-12 ==> q.r == 0.0 && q.drdE == Zero6() && q.drdT == 0.0)
      && Partitioned(o.value.work) && o.value.work.wmIr == 0.0 && o.value.work.wtIr == 0.0
  {
    if IncrementOf(lib, tol, props, ld, statev, sigma).Ok? {
      var su, fin, t := Stages(lib, tol, props, ld, statev, sigma);
      var o := Conclude(su, fin, t, ld.DTime);
      ConcludedWorkPartitioned(su, fin, t, ld.DTime);
      ConcludedHeat(su, fin, t, ld.DTime);
      assert su.env.DEtot == ld.DEtot && su.env.DT == ld.DT;
    }
  }

  /** The heat source `Conclude` reports is the one of `HeatSourceOf`, hence linear. */
  lemma ConcludedHeat(su: Setup, fin: Iterate, t: Moduli, DTime: real)
    requires fin.last.Some?
    ensures var q := Conclude(su, fin, t, DTime).response;
      && q.r == HeatSource(q.r, q.drdE, q.drdT).Applied(su.env.DEtot, su.env.DT)
      && (DTime < 1.0e-12 ==> q.r == 0.0 && q.drdE == Zero6() && q.drdT == 0.0)
  {
    HeatSourceIsLinear(fin.last.value, t, HeatOf(su, fin, DTime));
  }
}
