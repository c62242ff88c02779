/** The energy bookkeeping at the end of the increment: the reversible entropy and its
    slopes, the heat source `r` with its derivatives `drdE` and `drdT`, and the seven
    work totals the caller keeps across increments. */
module Energy {
  import opened Algebra
  import opened Externals
  import opened Material
  import opened Newton
  import opened Tangent

  // ---------------------------------------------------------------------------
  // Entropy

  /** The volumetric heat capacities `c_0A = rho c_pA` and `c_0M = rho c_pM`. */
  datatype HeatCapacity = HeatCapacity(c0A: real, c0M: real)
  {
    /** `c_0 = c_0A (1 - xi) + c_0M xi`. */
    function Mixed(xi: real): real
    {
      c0A * (1.0 - xi) + c0M * xi
    }

    /** `Dc_0 = c_0M - c_0A`. */
    function Jump(): real
    {
      c0M - c0A
    }
  }

  function HeatCapacityOf(rho: real, cpA: real, cpM: real): HeatCapacity
  {
    HeatCapacity(rho * cpA, rho * cpM)
  }

  /** `log(theta / T_init)`. */
  function TemperatureLog(lib: Library, theta: real, Tinit: real): real
  {
    lib.log(lib.div(theta, Tinit))
  }

  /** `eta_r = (c_0A + Dc_0 xi) log(theta / T_init) + alpha : sigma + rhoDs0 xi`; the
      routine evaluates it at the end of the increment and, for `eta_r_start`, at the
      start (temperature `T`, fraction `xi_start`, stress `sigma_start`). */
  function ReversibleEntropy(lib: Library, h: HeatCapacity, xi: real, theta: real, Tinit: real,
                             alpha: Vec6, sigma: Vec6, rhoDs0: real): real
  {
    (h.c0A + h.Jump() * xi) * TemperatureLog(lib, theta, Tinit) + Dot(alpha, sigma) + rhoDs0 * xi
  }

  /** `dA_theta/dxiF = Dc_0 log((T + DT)/T_init) + Dalpha : sigma + rhoDs0`. */
  function EntropyForwardSlope(lib: Library, h: HeatCapacity, theta: real, Tinit: real,
                               Dalpha: Vec6, sigma: Vec6, rhoDs0: real): real
  {
    h.Jump() * TemperatureLog(lib, theta, Tinit) + Dot(Dalpha, sigma) + rhoDs0
  }

  /** `dA_theta/dxiR`, which the routine writes out with every sign flipped. */
  function EntropyReverseSlope(lib: Library, h: HeatCapacity, theta: real, Tinit: real,
                               Dalpha: Vec6, sigma: Vec6, rhoDs0: real): real
  {
    -1.0 * h.Jump() * TemperatureLog(lib, theta, Tinit) - Dot(Dalpha, sigma) - rhoDs0
  }

  /** The slopes are the exact rates of change of `eta_r` along the volume fraction when
      the CTE follows the mixing rule: moving `xi` by `d` at fixed stress and temperature
      changes `eta_r` by `d * dA_theta/dxiF`, and `dA_theta/dxiR` is its negation. */
  lemma EntropySlopes(lib: Library, h: HeatCapacity, alphaA: real, alphaM: real, xi: real, d: real,
                      theta: real, Tinit: real, sigma: Vec6, rhoDs0: real)
    ensures var Dalpha := CteJump(alphaA, alphaM);
      && ReversibleEntropy(lib, h, xi + d, theta, Tinit, CteMix(alphaA, alphaM, xi + d), sigma, rhoDs0)
         - ReversibleEntropy(lib, h, xi, theta, Tinit, CteMix(alphaA, alphaM, xi), sigma, rhoDs0)
         == d * EntropyForwardSlope(lib, h, theta, Tinit, Dalpha, sigma, rhoDs0)
      && EntropyReverseSlope(lib, h, theta, Tinit, Dalpha, sigma, rhoDs0)
         == -EntropyForwardSlope(lib, h, theta, Tinit, Dalpha, sigma, rhoDs0)
  {
    var alpha, Dalpha := CteMix(alphaA, alphaM, xi), CteJump(alphaA, alphaM);
    CteMixShift(alphaA, alphaM, xi, d);
    DotAddLeft(alpha, Scale(d, Dalpha), sigma);
    DotScaleLeft(d, Dalpha, sigma);
    var lg := TemperatureLog(lib, theta, Tinit);
    EntropyShift(h.c0A, h.Jump(), xi, d, lg, Dot(alpha, sigma), Dot(Dalpha, sigma), rhoDs0);
  }

  lemma EntropyShift(c: real, J: real, xi: real, d: real, lg: real, w: real, dw: real, rho: real)
    ensures ((c + J * (xi + d)) * lg + (w + d * dw) + rho * (xi + d)) - ((c + J * xi) * lg + w + rho * xi)
         == d * (J * lg + dw + rho)
  {
  }

  /** The total, reversible and irreversible entropy changes of the increment. */
  datatype EntropyChange = EntropyChange(total: real, reversible: real, irreversible: real)

  /** `eta = eta_r + eta_ir` at both ends, with the irreversible part `eta_ir` zero; the
      changes are the end value less the start value. */
  function EntropyChangeOf(etaR: real, etaRStart: real): (e: EntropyChange)
    ensures e.total == e.reversible + e.irreversible
    ensures e.irreversible == 0.0 && e.reversible == etaR - etaRStart
  {
    var etaIr, etaIrStart := 0.0, 0.0;
    var eta, etaStart := etaR + etaIr, etaRStart + etaIrStart;
    EntropyChange(eta - etaStart, etaR - etaRStart, etaIr - etaIrStart)
  }

  // ---------------------------------------------------------------------------
  // Heat source

  /** What the heat source reads besides the last linearisation and the tangent: the
      temperature and its increment, the time increment, the total and transformation
      strain increments, the multiplier increments, the final stress, the CTE, the
      temperature slopes of the two forces, the fraction slopes of the entropy, the
      entropy change and the heat-capacity factor `c_0 + Dc_0 xi`. */
  datatype HeatInputs = HeatInputs(
    T: real, DT: real, DTime: real, DEtot: Vec6, DET: Vec6, DxiF: real, DxiR: real,
    sigma: Vec6, alpha: Vec6, dAxiFdtheta: real, dAxiRdtheta: real,
    dAthetadxiF: real, dAthetadxiR: real, Deta: real, capacity: real)

  /** The heat source and its derivatives with respect to strain and temperature. */
  datatype HeatSource = HeatSource(r: real, drdE: Vec6, drdT: real)
  {
    /** The derivatives applied to a strain and temperature increment. */
    function Applied(dE: Vec6, dT: real): real
    {
      Dot(drdE, dE) + drdT * dT
    }
  }

  /** `dA/dsigma dSdE + dA/dxiF P_epsilon[0] + dA/dxiR P_epsilon[1]` for one force. */
  function ForceStrainRate(c: Criterion, t: Moduli): Vec6
  {
    Add(Add(MatVec(t.dSdE, c.dForceDsigma), Scale(c.dForceDxiF, t.sens.Pe0)), Scale(c.dForceDxiR, t.sens.Pe1))
  }

  /** `dA/dtheta + dA/dsigma : dSdT + dA/dxiF P_theta[0] + dA/dxiR P_theta[1]`. */
  function ForceThermalRate(c: Criterion, dAdtheta: real, t: Moduli): real
  {
    dAdtheta + Dot(c.dForceDsigma, t.dSdT) + c.dForceDxiF * t.sens.Pt0 + c.dForceDxiR * t.sens.Pt1
  }

  /** `Gamma_epsilon`. */
  function GammaEpsilon(lin: Linearisation, t: Moduli, h: HeatInputs): Vec6
    requires h.DTime != 0.0
  {
    var F, R := lin.forward, lin.reverse;
    Add(Add(Add(Add(Scale(1.0 / h.DTime, MatVec(t.dSdE, h.DET)),
                    Scale(h.DxiF / h.DTime, ForceStrainRate(F, t))),
                Scale(h.DxiR / h.DTime, ForceStrainRate(R, t))),
            Over(Scale(F.force + Dot(h.sigma, lin.lambdaTF), t.sens.Pe0), h.DTime)),
        Over(Scale(R.force + Dot(h.sigma, lin.lambdaTR), t.sens.Pe1), h.DTime))
  }

  /** `Gamma_theta`. */
  function GammaTheta(lin: Linearisation, t: Moduli, h: HeatInputs): real
    requires h.DTime != 0.0
  {
    var F, R := lin.forward, lin.reverse;
    Dot(t.dSdT, h.DET) * (1.0 / h.DTime)
    + ForceThermalRate(F, h.dAxiFdtheta, t) * (h.DxiF / h.DTime)
    + ForceThermalRate(R, h.dAxiRdtheta, t) * (h.DxiR / h.DTime)
    + (F.force + Dot(h.sigma, lin.lambdaTF)) * t.sens.Pt0 / h.DTime
    + (R.force + Dot(h.sigma, lin.lambdaTR)) * t.sens.Pt1 / h.DTime
  }

  /** `N_epsilon`. */
  function NEpsilon(t: Moduli, h: HeatInputs): Vec6
    requires h.DTime != 0.0
  {
    var rate := Add(Add(MatVec(t.dSdE, h.alpha), Scale(h.dAthetadxiF, t.sens.Pe0)), Scale(h.dAthetadxiR, t.sens.Pe1));
    Scale((h.T + h.DT) / h.DTime, Scale(-1.0, rate))
  }

  /** `N_theta`. */
  function NTheta(t: Moduli, h: HeatInputs): real
    requires h.DTime != 0.0
  {
    -1.0 * ((h.T + h.DT) * Dot(t.dSdT, h.alpha) + h.Deta + h.capacity
            + (h.T + h.DT) * (h.dAthetadxiF * t.sens.Pt0 + h.dAthetadxiR * t.sens.Pt1)) * (1.0 / h.DTime)
  }

  /** The heat source: zero with zero derivatives when the time increment is below
      1e-12, otherwise `r = N_epsilon : DEtot + N_theta DT + Gamma_epsilon : DEtot +
      Gamma_theta DT` with `drdE = N_epsilon + Gamma_epsilon` and `drdT = N_theta +
      Gamma_theta`. */
  function HeatSourceOf(lin: Linearisation, t: Moduli, h: HeatInputs): HeatSource
  {
    if h.DTime < 1.0e-12 then HeatSource(0.0, Zero6(), 0.0)
    else
      Assembled(NEpsilon(t, h), NTheta(t, h), GammaEpsilon(lin, t, h), GammaTheta(lin, t, h), h.DEtot, h.DT)
  }

  /** `r = N_epsilon : DEtot + N_theta DT + Gamma_epsilon : DEtot + Gamma_theta DT`,
      `drdE = N_epsilon + Gamma_epsilon`, `drdT = N_theta + Gamma_theta`. */
  function Assembled(Ne: Vec6, Nt: real, Ge: Vec6, Gt: real, dE: Vec6, dT: real): HeatSource
  {
    HeatSource(Dot(Ne, dE) + Nt * dT + Dot(Ge, dE) + Gt * dT, Add(Ne, Ge), Nt + Gt)
  }

  /** The heat source is its own linearisation applied to the increment, `r = drdE :
      DEtot + drdT DT`, and it vanishes, derivatives included, when the time increment
      is below 1e-12. */
  lemma HeatSourceIsLinear(lin: Linearisation, t: Moduli, h: HeatInputs)
    ensures var q := HeatSourceOf(lin, t, h);
      && q.r == q.Applied(h.DEtot, h.DT)
      && (h.DTime < 1.0e-12 ==> q == HeatSource(0.0, Zero6(), 0.0))
  {
    if h.DTime < 1.0e-12 {
      DotZeroLeft(h.DEtot);
    } else {
      var a := Assembled(NEpsilon(t, h), NTheta(t, h), GammaEpsilon(lin, t, h), GammaTheta(lin, t, h), h.DEtot, h.DT);
      assert HeatSourceOf(lin, t, h) == a;
      Split(NEpsilon(t, h), NTheta(t, h), GammaEpsilon(lin, t, h), GammaTheta(lin, t, h), h.DEtot, h.DT);
    }
  }

  /** No heat is produced when neither the strain nor the temperature changes. */
  lemma HeatSourceAtRest(lin: Linearisation, t: Moduli, h: HeatInputs)
    requires h.DEtot == Zero6() && h.DT == 0.0
    ensures HeatSourceOf(lin, t, h).r == 0.0
  {
    var q := HeatSourceOf(lin, t, h);
    HeatSourceIsLinear(lin, t, h);
    DotComm(q.drdE, h.DEtot);
    DotZeroLeft(q.drdE);
  }

  /** Two linear forms applied to the same increment add up to their sum applied to it. */
  lemma Split(Ne: Vec6, Nt: real, Ge: Vec6, Gt: real, dE: Vec6, dT: real)
    ensures var q := Assembled(Ne, Nt, Ge, Gt, dE, dT); q.r == q.Applied(dE, dT)
  {
    DotAddLeft(Ne, Ge, dE);
  }

  // ---------------------------------------------------------------------------
  // Work

  /** What one increment contributes to the work totals: the stress at the start and
      end, the total and transformation strain increments, the forces at the start and
      end, the multiplier increments, the temperature and its increment, and the
      entropy changes. */
  datatype WorkInputs = WorkInputs(
    sigma0: Vec6, sigma: Vec6, DEtot: Vec6, DET: Vec6,
    AF0: real, AF: real, AR0: real, AR: real, DxiF: real, DxiR: real,
    T: real, DT: real, entropy: EntropyChange)

  /** The increments of the seven work totals. */
  datatype WorkIncrements = WorkIncrements(wm: real, wmR: real, wmIr: real, wmD: real,
                                           wt: real, wtR: real, wtIr: real)

  /** The trapezoidal work `0.5 (sigma_start + sigma) : dE` of the stress on a strain
      increment. */
  function StressWork(sigma0: Vec6, sigma: Vec6, dE: Vec6): real
  {
    0.5 * Dot(Add(sigma0, sigma), dE)
  }

  /** The trapezoidal work `0.5 (A_start + A) dxi` of a force on a fraction increment. */
  function ForceWork(A0: real, A: real, dxi: real): real
  {
    0.5 * (A0 + A) * dxi
  }

  /** `Dgamma_loc`: the dissipated work of the increment. */
  function Dissipation(w: WorkInputs): real
  {
    StressWork(w.sigma0, w.sigma, w.DET) + ForceWork(w.AF0, w.AF, w.DxiF) + ForceWork(w.AR0, w.AR, w.DxiR)
  }

  /** The seven right-hand sides of the routine's `+=`. */
  function WorkIncrementsOf(w: WorkInputs): WorkIncrements
  {
    var mid := w.T + 0.5 * w.DT;
    WorkIncrements(StressWork(w.sigma0, w.sigma, w.DEtot),
                   StressWork(w.sigma0, w.sigma, Sub(w.DEtot, w.DET))
                   - ForceWork(w.AF0, w.AF, w.DxiF) - ForceWork(w.AR0, w.AR, w.DxiR),
                   0.0,
                   Dissipation(w),
                   mid * w.entropy.total, mid * w.entropy.reversible, mid * w.entropy.irreversible)
  }

  /** The mechanical increment splits into reversible, irreversible and dissipated
      parts, and the thermal increment into reversible and irreversible parts. */
  predicate Partitioned(d: WorkIncrements)
  {
    d.wm == d.wmR + d.wmIr + d.wmD && d.wt == d.wtR + d.wtIr
  }

  /** Every increment the routine adds is partitioned, whenever the entropy change is. */
  lemma WorkPartition(w: WorkInputs)
    requires w.entropy.total == w.entropy.reversible + w.entropy.irreversible
    ensures Partitioned(WorkIncrementsOf(w))
  {
    var S := Add(w.sigma0, w.sigma);
    DotSubRight(S, w.DEtot, w.DET);
    var mid := w.T + 0.5 * w.DT;
    SplitProduct(mid, w.entropy.total, w.entropy.reversible, w.entropy.irreversible);
  }

  lemma SplitProduct(m: real, t: real, r: real, i: real)
    requires t == r + i
    ensures m * t == m * r + m * i
  {
  }

  /** The work totals `Wm`, `Wm_r`, `Wm_ir`, `Wm_d`, `Wt`, `Wt_r`, `Wt_ir` that the
      caller passes by reference and the routine updates in place. */
  class WorkTotals {
    var wm: real
    var wmR: real
    var wmIr: real
    var wmD: real
    var wt: real
    var wtR: real
    var wtIr: real

    constructor (wm: real, wmR: real, wmIr: real, wmD: real, wt: real, wtR: real, wtIr: real)
      ensures this.wm == wm && this.wmR == wmR && this.wmIr == wmIr && this.wmD == wmD
      ensures this.wt == wt && this.wtR == wtR && this.wtIr == wtIr
    {
      this.wm, this.wmR, this.wmIr, this.wmD := wm, wmR, wmIr, wmD;
      this.wt, this.wtR, this.wtIr := wt, wtR, wtIr;
    }

    /** `Wm = Wm_r + Wm_ir + Wm_d`. */
    predicate MechanicalBalance()
      reads this
    {
      wm == wmR + wmIr + wmD
    }

    /** `Wt = Wt_r + Wt_ir`. */
    predicate ThermalBalance()
      reads this
    {
      wt == wtR + wtIr
    }

    /** The first call restarts the four mechanical totals from zero and keeps the
        thermal ones. */
    method ResetMechanical()
      modifies this
      ensures wm == 0.0 && wmR == 0.0 && wmIr == 0.0 && wmD == 0.0
      ensures wt == old(wt) && wtR == old(wtR) && wtIr == old(wtIr)
      ensures MechanicalBalance() && (old(ThermalBalance()) ==> ThermalBalance())
    {
      wm, wmR, wmIr, wmD := 0.0, 0.0, 0.0, 0.0;
    }

    /** The seven `+=` at the end of the increment; a partitioned increment keeps both
        balances. */
    method Accumulate(d: WorkIncrements)
      modifies this
      ensures wm == old(wm) + d.wm && wmR == old(wmR) + d.wmR && wmIr == old(wmIr) + d.wmIr
      ensures wmD == old(wmD) + d.wmD
      ensures wt == old(wt) + d.wt && wtR == old(wtR) + d.wtR && wtIr == old(wtIr) + d.wtIr
      ensures Partitioned(d) && old(MechanicalBalance()) ==> MechanicalBalance()
      ensures Partitioned(d) && old(ThermalBalance()) ==> ThermalBalance()
    {
      wm := wm + d.wm;
      wmR := wmR + d.wmR;
      wmIr := wmIr + d.wmIr;
      wmD := wmD + d.wmD;
      wt := wt + d.wt;
      wtR := wtR + d.wtR;
      wtIr := wtIr + d.wtIr;
    }
  }
}
