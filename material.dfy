/** The expression-only part of the shape-memory-alloy increment: the material
    parameters, the phase-mixing rules, the transformation-strain saturation law,
    the smooth hardening functions, the first-call calibration of the thermodynamic
    constants, the thermodynamic forces and the mean transformation direction. */
module Material {
  import opened Algebra
  import opened Externals
  import opened Outcomes

  /** The material parameters, in the order the routine reads them from `props`. */
  datatype Props = Props(
    rho: real, cpA: real, cpM: real, flagT: real,
    EA: real, EM: real, nuA: real, nuM: real,
    alphaA: real, alphaM: real,
    Hmin: real, Hmax: real, k1: real, sigmacrit: real,
    CA: real, CM: real, Ms0: real, Mf0: real, As0: real, Af0: real,
    n1: real, n2: real, n3: real, n4: real,
    sigmacaliber: real, pragerB: real, pragerN: real,
    cLambda: real, p0Lambda: real, nLambda: real, alphaLambda: real)

  /** Where each parameter sits in the `props` vector. */
  function PropsLayout(p: Props): seq<real>
  {
    [p.rho, p.cpA, p.cpM, p.flagT, p.EA, p.EM, p.nuA, p.nuM, p.alphaA, p.alphaM,
     p.Hmin, p.Hmax, p.k1, p.sigmacrit, p.CA, p.CM, p.Ms0, p.Mf0, p.As0, p.Af0,
     p.n1, p.n2, p.n3, p.n4, p.sigmacaliber, p.pragerB, p.pragerN,
     p.cLambda, p.p0Lambda, p.nLambda, p.alphaLambda]
  }

  /** Reads the 31 parameters `props(0)` to `props(30)`. */
  function ReadProps(props: seq<real>): (p: Props)
    requires |props| >= 31
    ensures PropsLayout(p) == props[..31]
  {
    Props(props[0], props[1], props[2], props[3], props[4], props[5], props[6], props[7],
          props[8], props[9], props[10], props[11], props[12], props[13], props[14],
          props[15], props[16], props[17], props[18], props[19], props[20], props[21],
          props[22], props[23], props[24], props[25], props[26], props[27], props[28],
          props[29], props[30])
  }

  /** The C++ conversion of a double to `int` (as in `int flagT = props(3)`), which
      truncates toward zero. */
  function TruncateToInt(x: real): (n: int)
    ensures 0.0 <= x ==> 0 <= n && n as real <= x < n as real + 1.0
    ensures x < 0.0 ==> n <= 0 && n as real - 1.0 < x <= n as real
    ensures n == 0 <==> -1.0 < x < 1.0
  {
    if x >= 0.0 then x.Floor else -((-x).Floor)
  }

  // ---------------------------------------------------------------------------
  // Phase mixing

  /** Bulk modulus of a phase from its Young's modulus and Poisson ratio. */
  function BulkModulus(lib: Library, E: real, nu: real): real
  {
    lib.div(E, 3.0 * (1.0 - 2.0 * nu))
  }

  /** Shear modulus of a phase from its Young's modulus and Poisson ratio. */
  function ShearModulus(lib: Library, E: real, nu: real): real
  {
    lib.div(E, 2.0 * (1.0 + nu))
  }

  /** The effective modulus of the austenite/martensite mixture at volume fraction
      `xi`: `(a*b)/(xi*a + (1-xi)*b)` with `a` the austenite and `b` the martensite
      modulus. */
  function HarmonicMix(lib: Library, a: real, b: real, xi: real): real
  {
    lib.div(a * b, xi * a + (1.0 - xi) * b)
  }

  /** The coefficient of thermal expansion of the mixture, an isotropic tensor. */
  function CteMix(alphaA: real, alphaM: real, xi: real): Vec6
  {
    Scale(alphaM * xi + alphaA * (1.0 - xi), Ith())
  }

  /** `Dalpha`: the jump of the coefficient of thermal expansion between the phases. */
  function CteJump(alphaA: real, alphaM: real): Vec6
  {
    Scale(alphaM - alphaA, Ith())
  }

  /** Moving the volume fraction by `d` moves the mixture CTE by `d Dalpha`. */
  lemma CteMixShift(alphaA: real, alphaM: real, xi: real, d: real)
    ensures CteMix(alphaA, alphaM, xi + d) == Add(CteMix(alphaA, alphaM, xi), Scale(d, CteJump(alphaA, alphaM)))
  {
    var s, s' := alphaM * xi + alphaA * (1.0 - xi), alphaM * (xi + d) + alphaA * (1.0 - (xi + d));
    ShiftedWeight(alphaA, alphaM, xi, d, s, s');
  }

  lemma ShiftedWeight(alphaA: real, alphaM: real, xi: real, d: real, s: real, s': real)
    requires s == alphaM * xi + alphaA * (1.0 - xi) && s' == alphaM * (xi + d) + alphaA * (1.0 - (xi + d))
    ensures s' == s + d * (alphaM - alphaA)
  {
  }

  lemma PhaseModuliPositive(lib: Library, E: real, nu: real)
    requires ExactQuotient(lib)
    requires E > 0.0 && -1.0 < nu < 0.5
    ensures BulkModulus(lib, E, nu) > 0.0 && ShearModulus(lib, E, nu) > 0.0
  {
  }

  /** A weighted average of two reals lies between them. */
  lemma ConvexCombination(xi: real, a: real, b: real, d: real)
    requires 0.0 <= xi <= 1.0 && d == xi * a + (1.0 - xi) * b
    ensures a <= b ==> a <= d <= b
    ensures b < a ==> b <= d <= a
  {
    var lo := if a <= b then a else b;
    var hi := if a <= b then b else a;
    MulNonNeg(xi, a - lo);
    MulNonNeg(1.0 - xi, b - lo);
    MulNonNeg(xi, hi - a);
    MulNonNeg(1.0 - xi, hi - b);
    assert xi * a + (1.0 - xi) * b - lo == xi * (a - lo) + (1.0 - xi) * (b - lo);
    assert hi - (xi * a + (1.0 - xi) * b) == xi * (hi - a) + (1.0 - xi) * (hi - b);
  }

  /** `lo*hi/d` lies in [lo, hi] when `d` does. */
  lemma QuotientOrdered(lo: real, hi: real, d: real)
    requires 0.0 < lo <= d <= hi
    ensures lo <= lo * hi / d <= hi
  {
    var q := lo * hi / d;
    DivTimes(lo * hi, d);
    MulNonNeg(lo, hi - d);
    MulNonNeg(hi, d - lo);
    assert lo * (hi - d) == lo * hi - lo * d;
    assert hi * (d - lo) == hi * d - lo * hi;
    CancelPositive(lo, q, d);
    CancelPositive(q, hi, d);
  }

  /** The reciprocal of `a*b/d`, with `d` the weighted average of `a` and `b`, is the
      weighted average of the reciprocals. */
  lemma ReciprocalOfHarmonic(a: real, b: real, xi: real, d: real)
    requires a > 0.0 && b > 0.0 && d == xi * a + (1.0 - xi) * b && d > 0.0
    ensures 1.0 / (a * b / d) == xi / b + (1.0 - xi) / a
  {
    var r := a * b / d;
    var s := xi / b + (1.0 - xi) / a;
    DivTimes(xi, b);
    DivTimes(1.0 - xi, a);
    assert s * (a * b) == (xi / b) * b * a + ((1.0 - xi) / a) * a * b;
    assert s * (a * b) == d;
    assert s * r == (s * (a * b)) / d;
    assert s * r == 1.0;
  }

  /** With exact division the mixture modulus is the real quotient. */
  lemma HarmonicMixExact(lib: Library, a: real, b: real, xi: real)
    requires ExactQuotient(lib)
    requires xi * a + (1.0 - xi) * b != 0.0
    ensures HarmonicMix(lib, a, b, xi) == a * b / (xi * a + (1.0 - xi) * b)
  {
  }

  /** The facts about the weighted harmonic mean `r` of two positive reals. */
  lemma HarmonicMean(a: real, b: real, xi: real, d: real, r: real)
    requires a > 0.0 && b > 0.0 && 0.0 <= xi <= 1.0
    requires d == xi * a + (1.0 - xi) * b && d > 0.0 && r == a * b / d
    ensures r > 0.0
    ensures 1.0 / r == xi / b + (1.0 - xi) / a
    ensures if a <= b then a <= r <= b else b <= r <= a
    ensures xi == 0.0 ==> r == a
    ensures xi == 1.0 ==> r == b
  {
    ConvexCombination(xi, a, b, d);
    ReciprocalOfHarmonic(a, b, xi, d);
    if a <= b {
      QuotientOrdered(a, b, d);
    } else {
      QuotientOrdered(b, a, d);
      assert b * a == a * b;
    }
    if xi == 0.0 {
      assert d == b;
    } else if xi == 1.0 {
      assert d == a;
    }
  }

  /** The mixture modulus is the harmonic mean of the two phase moduli weighted by the
      volume fraction: compliances mix linearly, the result is positive, lies between
      the two moduli and reduces to each phase's modulus at the pure phases. */
  lemma HarmonicMixBounds(lib: Library, a: real, b: real, xi: real)
    requires ExactQuotient(lib)
    requires a > 0.0 && b > 0.0 && 0.0 <= xi <= 1.0
    ensures var r := HarmonicMix(lib, a, b, xi);
      && r > 0.0
      && 1.0 / r == xi / b + (1.0 - xi) / a
      && (if a <= b then a <= r <= b else b <= r <= a)
      && (xi == 0.0 ==> r == a)
      && (xi == 1.0 ==> r == b)
  {
    var d := xi * a + (1.0 - xi) * b;
    ConvexCombination(xi, a, b, d);
    HarmonicMixExact(lib, a, b, xi);
    HarmonicMean(a, b, xi, d, HarmonicMix(lib, a, b, xi));
  }

  /** The mixture CTE is the linear interpolation between the two phases. */
  lemma CteMixBounds(alphaA: real, alphaM: real, xi: real)
    requires 0.0 <= xi <= 1.0
    ensures var m := CteMix(alphaA, alphaM, xi);
      && m.v0 == m.v1 == m.v2 && m.v3 == m.v4 == m.v5 == 0.0
      && (if alphaA <= alphaM then alphaA <= m.v0 <= alphaM else alphaM <= m.v0 <= alphaA)
      && (xi == 0.0 ==> m.v0 == alphaA)
      && (xi == 1.0 ==> m.v0 == alphaM)
  {
    var s := alphaM * xi + alphaA * (1.0 - xi);
    assert s - alphaA == xi * (alphaM - alphaA);
    assert alphaM - s == (1.0 - xi) * (alphaM - alphaA);
    if alphaA <= alphaM {
      MulNonNeg(xi, alphaM - alphaA);
      MulNonNeg(1.0 - xi, alphaM - alphaA);
    } else {
      MulNonNeg(xi, alphaA - alphaM);
      MulNonNeg(1.0 - xi, alphaA - alphaM);
    }
  }

  // ---------------------------------------------------------------------------
  // Transformation strain magnitude

  /** `sigmastar`: the part of an equivalent stress above the critical stress, never
      negative. */
  function ExcessStress(s: real, crit: real): (r: real)
    ensures r >= 0.0 && r >= s - crit
    ensures r == 0.0 || r == s - crit
  {
    if s > crit then s - crit else 0.0
  }

  /** `Hcur`: the current transformation strain magnitude, saturating exponentially
      from `Hmin` to `Hmax` with the excess stress. */
  function SaturationMagnitude(lib: Library, p: Props, sigmastar: real): real
  {
    Saturate(p.Hmin, p.Hmax, lib.exp(DecayExponent(p, sigmastar)))
  }

  /** `lo + (hi - lo) (1 - e)`: the magnitude for a value `e` of the exponential. */
  function Saturate(lo: real, hi: real, e: real): real
  {
    lo + (hi - lo) * (1.0 - e)
  }

  /** The argument of the exponential in the saturation law. */
  function DecayExponent(p: Props, sigmastar: real): real
  {
    -1.0 * p.k1 * sigmastar
  }

  /** Moving from `lo` towards `hi` by the fraction `1 - e`, with `e` in (0, 1], stays
      within [lo, hi]. */
  lemma SaturatingStep(lo: real, hi: real, e: real)
    requires lo <= hi && 0.0 < e <= 1.0
    ensures lo <= Saturate(lo, hi, e) <= hi
  {
    MulNonNeg(hi - lo, e);
    MulNonNeg(hi - lo, 1.0 - e);
    assert (hi - lo) * (1.0 - e) == (hi - lo) - (hi - lo) * e;
  }

  /** With a non-negative excess stress and a non-negative rate, the magnitude stays
      within [Hmin, Hmax]. */
  lemma SaturationBounds(lib: Library, p: Props, sigmastar: real)
    requires ExpOfNonPositive(lib)
    requires sigmastar >= 0.0 && p.k1 >= 0.0 && p.Hmin <= p.Hmax
    ensures p.Hmin <= SaturationMagnitude(lib, p, sigmastar) <= p.Hmax
  {
    var x := DecayExponent(p, sigmastar);
    MulNonNeg(p.k1, sigmastar);
    assert x <= 0.0;
    SaturatingStep(p.Hmin, p.Hmax, lib.exp(x));
  }

  // ---------------------------------------------------------------------------
  // Smooth hardening

  /** The four cases the hardening functions distinguish on the volume fraction. */
  datatype Regime = Interior | AtZero | AtOne | Degenerate

  /** The case split shared by `HfF`, `HfR`, `dHfF` and `dHfR`; its fourth case
      (`xi <= 0` and `1 - xi <= 0`) is empty. */
  function RegimeOf(xi: real): (g: Regime)
    ensures g != Degenerate
    ensures g == Interior <==> 0.0 < xi < 1.0
    ensures g == AtZero <==> xi <= 0.0
    ensures g == AtOne <==> xi >= 1.0
  {
    if xi > 0.0 && 1.0 - xi > 0.0 then Interior
    else if xi <= 0.0 && 1.0 - xi > 0.0 then AtZero
    else if xi > 0.0 && 1.0 - xi <= 0.0 then AtOne
    else Degenerate
  }

  /** `HfF` as computed before the loop. */
  function ForwardHardeningBeforeLoop(lib: Library, xi: real, a1: real, a3: real, n1: real, n2: real): real
  {
    match RegimeOf(xi)
    case Interior => 0.5 * a1 * (1.0 + lib.pow(xi, n1) - lib.pow(1.0 - xi, n2)) + a3
    case AtZero => 0.5 * a1 * (1.0 - lib.pow(1.0 - xi, n2)) + a3
    case AtOne => 0.5 * a1 * (1.0 + lib.pow(xi, n1)) + a3
    case Degenerate => a3
  }

  /** `HfR` as computed before the loop. */
  function ReverseHardeningBeforeLoop(lib: Library, xi: real, a2: real, a3: real, n3: real, n4: real): real
  {
    match RegimeOf(xi)
    case Interior => 0.5 * a2 * (1.0 + lib.pow(xi, n3) - lib.pow(1.0 - xi, n4)) - a3
    case AtZero => 0.5 * a2 * (1.0 - lib.pow(1.0 - xi, n4)) - a3
    case AtOne => 0.5 * a2 * (1.0 + lib.pow(xi, n3)) - a3
    case Degenerate => -a3
  }

  /** `HfF` as computed in each Newton iteration; only its last case differs. */
  function ForwardHardening(lib: Library, xi: real, a1: real, a3: real, n1: real, n2: real): real
  {
    match RegimeOf(xi)
    case Interior => 0.5 * a1 * (1.0 + lib.pow(xi, n1) - lib.pow(1.0 - xi, n2)) + a3
    case AtZero => 0.5 * a1 * (1.0 - lib.pow(1.0 - xi, n2)) + a3
    case AtOne => 0.5 * a1 * (1.0 + lib.pow(xi, n1)) + a3
    case Degenerate => 0.5 * a1 + a3
  }

  /** `HfR` as computed in each Newton iteration; its last case is `0.5*a2* -a3`. */
  function ReverseHardening(lib: Library, xi: real, a2: real, a3: real, n3: real, n4: real): real
  {
    match RegimeOf(xi)
    case Interior => 0.5 * a2 * (1.0 + lib.pow(xi, n3) - lib.pow(1.0 - xi, n4)) - a3
    case AtZero => 0.5 * a2 * (1.0 - lib.pow(1.0 - xi, n4)) - a3
    case AtOne => 0.5 * a2 * (1.0 + lib.pow(xi, n3)) - a3
    case Degenerate => 0.5 * a2 * -a3
  }

  /** `dHfF`, the derivative of the forward hardening function. */
  function ForwardHardeningSlope(lib: Library, xi: real, a1: real, n1: real, n2: real): real
  {
    match RegimeOf(xi)
    case Interior => 0.5 * a1 * (n1 * lib.pow(xi, n1 - 1.0) + n2 * lib.pow(1.0 - xi, n2 - 1.0))
    case AtZero => 0.5 * a1 * (n2 * lib.pow(1.0 - xi, n2 - 1.0))
    case AtOne => 0.5 * a1 * (n1 * lib.pow(xi, n1 - 1.0))
    case Degenerate => 0.0
  }

  /** `dHfR`, the derivative of the reverse hardening function. */
  function ReverseHardeningSlope(lib: Library, xi: real, a2: real, n3: real, n4: real): real
  {
    match RegimeOf(xi)
    case Interior => 0.5 * a2 * (n3 * lib.pow(xi, n3 - 1.0) + n4 * lib.pow(1.0 - xi, n4 - 1.0))
    case AtZero => 0.5 * a2 * (n4 * lib.pow(1.0 - xi, n4 - 1.0))
    case AtOne => 0.5 * a2 * (n3 * lib.pow(xi, n3 - 1.0))
    case Degenerate => 0.0
  }

  /** The differing last cases of the two copies of the hardening functions can never
      be selected, so both copies agree for every volume fraction. */
  lemma HardeningCopiesAgree(lib: Library, xi: real, a1: real, a2: real, a3: real,
                             n1: real, n2: real, n3: real, n4: real)
    ensures ForwardHardeningBeforeLoop(lib, xi, a1, a3, n1, n2) == ForwardHardening(lib, xi, a1, a3, n1, n2)
    ensures ReverseHardeningBeforeLoop(lib, xi, a2, a3, n3, n4) == ReverseHardening(lib, xi, a2, a3, n3, n4)
  {
  }

  /** At the pure phases the hardening functions take the values the calibration is
      built on: `HfF` runs from `a3` to `a1 + a3`, `HfR` from `-a3` to `a2 - a3`. */
  lemma HardeningAtPurePhases(lib: Library, a1: real, a2: real, a3: real,
                              n1: real, n2: real, n3: real, n4: real)
    requires PowOfOne(lib)
    ensures ForwardHardening(lib, 0.0, a1, a3, n1, n2) == a3
    ensures ForwardHardening(lib, 1.0, a1, a3, n1, n2) == a1 + a3
    ensures ReverseHardening(lib, 0.0, a2, a3, n3, n4) == -a3
    ensures ReverseHardening(lib, 1.0, a2, a3, n3, n4) == a2 - a3
  {
    assert lib.pow(1.0, n1) == 1.0 && lib.pow(1.0, n2) == 1.0;
    assert lib.pow(1.0, n3) == 1.0 && lib.pow(1.0, n4) == 1.0;
  }

  // ---------------------------------------------------------------------------
  // First-call calibration

  /** The thermodynamic constants kept in `statev(10)` to `statev(16)`. */
  datatype Constants = Constants(rhoDs0: real, rhoDE0: real, D: real,
                                 a1: real, a2: real, a3: real, Y0t: real)

  /** The transformation temperatures the calibration uses. */
  datatype Temperatures = Temperatures(Ms: real, Mf: real, As: real, Af: real)

  /** The weight `n_a*2^-n_a + n_b*2^-n_b` that normalises the smoothing. */
  function SmoothingWeight(lib: Library, na: real, nb: real): real
  {
    na * lib.pow(2.0, -na) + nb * lib.pow(2.0, -nb)
  }

  /** `(na+1) 2^-na + (nb-1) 2^-nb`, one of the two combinations of the powers of two in
      the corner formulas. */
  function RaisedWeight(lib: Library, na: real, nb: real): real
  {
    (na + 1.0) * lib.pow(2.0, -na) + (nb - 1.0) * lib.pow(2.0, -nb)
  }

  /** `(na-1) 2^-na + (nb+1) 2^-nb`, the other combination. */
  function LoweredWeight(lib: Library, na: real, nb: real): real
  {
    (na - 1.0) * lib.pow(2.0, -na) + (nb + 1.0) * lib.pow(2.0, -nb)
  }

  /** The two combinations average to the normalising weight. */
  lemma CombinationsAverage(lib: Library, na: real, nb: real)
    ensures RaisedWeight(lib, na, nb) + LoweredWeight(lib, na, nb) == 2.0 * SmoothingWeight(lib, na, nb)
  {
    var Pa, Pb := lib.pow(2.0, -na), lib.pow(2.0, -nb);
    assert (na + 1.0) * Pa + (na - 1.0) * Pa == 2.0 * (na * Pa);
    assert (nb - 1.0) * Pb + (nb + 1.0) * Pb == 2.0 * (nb * Pb);
  }

  /** The smoothed start temperature of one transformation, from the start and finish
      temperatures `s0`, `f0`, the start and finish combinations `u`, `v` of the powers
      of two, and the normalising weight `W`. */
  function SmoothStart(lib: Library, s0: real, f0: real, u: real, v: real, W: real): real
  {
    lib.div(0.5 * s0 * (1.0 + u), W) + lib.div(0.5 * f0 * (-1.0 + v), W)
  }

  /** The smoothed finish temperature of one transformation. */
  function SmoothFinish(lib: Library, s0: real, f0: real, u: real, v: real, W: real): real
  {
    lib.div(0.5 * s0 * (-1.0 + u), W) + lib.div(0.5 * f0 * (1.0 + v), W)
  }

  /** With `flagT == 0` the start and finish temperatures are moved to the corners of
      the smoothed transformation curves; otherwise they are used as given. */
  function SmoothTemperatures(lib: Library, p: Props): Temperatures
  {
    if TruncateToInt(p.flagT) == 0 then
      var W := SmoothingWeight(lib, p.n1, p.n2);
      var V := SmoothingWeight(lib, p.n3, p.n4);
      var uM, vM := RaisedWeight(lib, p.n1, p.n2), LoweredWeight(lib, p.n1, p.n2);
      var uA, vA := LoweredWeight(lib, p.n3, p.n4), RaisedWeight(lib, p.n3, p.n4);
      Temperatures(SmoothStart(lib, p.Ms0, p.Mf0, uM, vM, W), SmoothFinish(lib, p.Ms0, p.Mf0, uM, vM, W),
                   SmoothStart(lib, p.As0, p.Af0, uA, vA, V), SmoothFinish(lib, p.As0, p.Af0, uA, vA, V))
    else
      Temperatures(p.Ms0, p.Mf0, p.As0, p.Af0)
  }

  /** One smoothed start/finish pair keeps the width of its interval up to the weight,
      and a zero-width interval stays where it is. */
  lemma SmoothedPair(lib: Library, s0: real, f0: real, u: real, v: real, W: real)
    requires ExactQuotient(lib)
    requires W != 0.0 && u + v == 2.0 * W
    ensures var start := SmoothStart(lib, s0, f0, u, v, W);
      var finish := SmoothFinish(lib, s0, f0, u, v, W);
      && start - finish == (s0 - f0) / W
      && (s0 == f0 ==> start == s0 && finish == s0)
  {
    var x1, x2 := 0.5 * s0 * (1.0 + u), 0.5 * f0 * (-1.0 + v);
    var x3, x4 := 0.5 * s0 * (-1.0 + u), 0.5 * f0 * (1.0 + v);
    assert SmoothStart(lib, s0, f0, u, v, W) == x1 / W + x2 / W;
    assert SmoothFinish(lib, s0, f0, u, v, W) == x3 / W + x4 / W;
    HalfDifference(s0, u);
    HalfDifference(f0, v);
    QuotientGap(x1, x2, x3, x4, s0, f0, W);
    if s0 == f0 {
      HalfSum(s0, u, v, W);
      QuotientOfMultiple(x1, x2, s0, W);
      QuotientOfMultiple(x3, x4, s0, W);
    }
  }

  /** Two pairs of numerators over a common divisor, whose first members differ by
      `s` and whose second members differ by `-f`, differ by `(s - f)` over it. */
  lemma QuotientGap(x1: real, x2: real, x3: real, x4: real, s: real, f: real, W: real)
    requires W != 0.0 && x1 - x3 == s && x4 - x2 == f
    ensures (x1 / W + x2 / W) - (x3 / W + x4 / W) == (s - f) / W
  {
    CommonDivisor(x1, x2, W);
    CommonDivisor(x3, x4, W);
    CommonDivisor(x1 + x2, x3 + x4, W);
  }

  /** Numerators summing to `s W` give `s` over `W`. */
  lemma QuotientOfMultiple(x1: real, x2: real, s: real, W: real)
    requires W != 0.0 && x1 + x2 == s * W
    ensures x1 / W + x2 / W == s
  {
    CommonDivisor(x1, x2, W);
    MulDiv(s, W);
  }

  /** The start and finish numerators of one temperature differ by that temperature. */
  lemma HalfDifference(s: real, u: real)
    ensures 0.5 * s * (1.0 + u) - 0.5 * s * (-1.0 + u) == s
  {
  }

  /** With equal temperatures both numerators are the temperature times the weight. */
  lemma HalfSum(s: real, u: real, v: real, W: real)
    requires u + v == 2.0 * W
    ensures 0.5 * s * (1.0 + u) + 0.5 * s * (-1.0 + v) == s * W
    ensures 0.5 * s * (-1.0 + u) + 0.5 * s * (1.0 + v) == s * W
  {
  }

  /** Smoothing keeps the width of each transformation interval up to the normalising
      weight, and a zero-width interval stays where it is. */
  lemma SmoothingKeepsIntervals(lib: Library, p: Props)
    requires ExactQuotient(lib)
    requires TruncateToInt(p.flagT) == 0
    requires SmoothingWeight(lib, p.n1, p.n2) != 0.0 && SmoothingWeight(lib, p.n3, p.n4) != 0.0
    ensures var t := SmoothTemperatures(lib, p);
      && t.Ms - t.Mf == (p.Ms0 - p.Mf0) / SmoothingWeight(lib, p.n1, p.n2)
      && t.As - t.Af == (p.As0 - p.Af0) / SmoothingWeight(lib, p.n3, p.n4)
      && (p.Ms0 == p.Mf0 ==> t.Ms == t.Mf == p.Ms0)
      && (p.As0 == p.Af0 ==> t.As == t.Af == p.As0)
  {
    CombinationsAverage(lib, p.n1, p.n2);
    CombinationsAverage(lib, p.n3, p.n4);
    SmoothedPair(lib, p.Ms0, p.Mf0, RaisedWeight(lib, p.n1, p.n2), LoweredWeight(lib, p.n1, p.n2),
                 SmoothingWeight(lib, p.n1, p.n2));
    SmoothedPair(lib, p.As0, p.Af0, LoweredWeight(lib, p.n3, p.n4), RaisedWeight(lib, p.n3, p.n4),
                 SmoothingWeight(lib, p.n3, p.n4));
  }


  /** Constants calibrated at the temperatures `t` put the zero-stress transformation
      limits at those temperatures. With the hardening at the pure phases (`HfF = a3` and
      `a1 + a3`, `HfR = -a3` and `a2 - a3`), the forward limit `A_xiF = Y0t` is reached at
      `Ms` in austenite and at `Mf` in martensite, the reverse limit `A_xiR = Y0t` at `As`
      in martensite and at `Af` in austenite (ZeroStressLimits). */
  ghost predicate CalibratedAt(c: Constants, t: Temperatures)
  {
    && c.rhoDE0 + c.a3 + c.Y0t == c.rhoDs0 * t.Ms
    && c.rhoDE0 + c.a1 + c.a3 + c.Y0t == c.rhoDs0 * t.Mf
    && c.rhoDE0 + c.a2 - c.a3 - c.Y0t == c.rhoDs0 * t.As
    && c.rhoDE0 - c.a3 - c.Y0t == c.rhoDs0 * t.Af
  }

  /** The four transformation limits determine `rhoDE0`, `a1`, `a2` and `Y0t` from
      `rhoDs0` and `a3`: they hold exactly for the closed form of the first call. */
  lemma CalibrationClosedForm(c: Constants, t: Temperatures)
    ensures CalibratedAt(c, t) <==>
      && c.rhoDE0 == 0.5 * c.rhoDs0 * (t.Ms + t.Af)
      && c.a1 == c.rhoDs0 * (t.Mf - t.Ms)
      && c.a2 == c.rhoDs0 * (t.As - t.Af)
      && c.Y0t == 0.5 * c.rhoDs0 * (t.Ms - t.Af) - c.a3
  {
    var r := c.rhoDs0;
    assert 0.5 * r * (t.Ms + t.Af) == 0.5 * (r * t.Ms) + 0.5 * (r * t.Af);
    assert 0.5 * r * (t.Ms - t.Af) == 0.5 * (r * t.Ms) - 0.5 * (r * t.Af);
    assert r * (t.Mf - t.Ms) == r * t.Mf - r * t.Ms;
    assert r * (t.As - t.Af) == r * t.As - r * t.Af;
  }

  /** `1 + 1/(na + 1) - 1/(nb + 1)`, the mean over `[0, 1]` of the shape
      `1 + xi^na - (1 - xi)^nb` of the interior hardening branch. */
  function MeanShape(lib: Library, na: real, nb: real): real
  {
    1.0 + lib.div(1.0, na + 1.0) - lib.div(1.0, nb + 1.0)
  }

  /** `a3` balances the two hardening functions: the mean of the interior `HfF` over
      `[0, 1]` equals the mean of the interior `HfR`. */
  ghost predicate HardeningBalanced(lib: Library, p: Props, c: Constants)
  {
    0.5 * c.a1 * MeanShape(lib, p.n1, p.n2) + c.a3 == 0.5 * c.a2 * MeanShape(lib, p.n3, p.n4) - c.a3
  }

  /** The constants derived from the entropy difference `rhoDs0`, the stress
      sensitivity `D` and the transformation temperatures `t`. */
  function ConstantsAt(lib: Library, p: Props, rhoDs0: real, D: real, t: Temperatures): (c: Constants)
    ensures CalibratedAt(c, t) && HardeningBalanced(lib, p, c)
    ensures c.rhoDs0 == rhoDs0 && c.D == D
  {
    var a1 := rhoDs0 * (t.Mf - t.Ms);
    var a2 := rhoDs0 * (t.As - t.Af);
    var X, Y := MeanShape(lib, p.n1, p.n2), MeanShape(lib, p.n3, p.n4);
    var a3 := -0.25 * a1 * X + 0.25 * a2 * Y;
    var c := Constants(rhoDs0, 0.5 * rhoDs0 * (t.Ms + t.Af), D, a1, a2, a3, 0.5 * rhoDs0 * (t.Ms - t.Af) - a3);
    CalibrationClosedForm(c, t);
    Balance(a1, a2, X, Y, a3);
    c
  }

  /** The arithmetic of the `a3` balance. */
  lemma Balance(a1: real, a2: real, X: real, Y: real, a3: real)
    requires a3 == -0.25 * a1 * X + 0.25 * a2 * Y
    ensures 0.5 * a1 * X + a3 == 0.5 * a2 * Y - a3
  {
    assert -0.25 * a1 * X == -0.25 * (a1 * X) && 0.5 * a1 * X == 0.5 * (a1 * X);
    assert 0.25 * a2 * Y == 0.25 * (a2 * Y) && 0.5 * a2 * Y == 0.5 * (a2 * Y);
  }

  /** The closed-form calibration of the first call (`start`): fails when the
      transformation strain magnitude at the calibration stress is not above 1e-12. */
  function Calibrate(lib: Library, p: Props): (r: Result<Constants>)
    ensures r.Ok? ==> CalibratedAt(r.value, SmoothTemperatures(lib, p)) && HardeningBalanced(lib, p, r.value)
  {
    var sigmastar := ExcessStress(p.sigmacaliber, p.sigmacrit);
    var Hcurstar := SaturationMagnitude(lib, p, sigmastar);
    if !(Hcurstar > 1.0e-12) then Err(SaturationNotPositive)
    else
      var dHcurstar := (p.Hmax - p.Hmin) * p.k1 * lib.exp(-p.k1 * sigmastar);
      var compliance := lib.div(1.0, p.EM) - lib.div(1.0, p.EA);
      var rhoDs0 := lib.div(-2.0 * p.CM * p.CA * (Hcurstar + p.sigmacaliber * (dHcurstar + compliance)),
                            p.CM + p.CA);
      var D := lib.div((p.CM - p.CA) * (Hcurstar + p.sigmacaliber * (dHcurstar + compliance)),
                       (p.CA + p.CM) * (Hcurstar + p.sigmacaliber * dHcurstar));
      Ok(ConstantsAt(lib, p, rhoDs0, D, SmoothTemperatures(lib, p)))
  }

  /** The calibration fails exactly when the saturation check fails, and it cannot fail
      when `Hmin` is above the threshold and the saturation law is increasing. */
  lemma CalibrationOutcome(lib: Library, p: Props)
    requires ExpOfNonPositive(lib)
    requires p.k1 >= 0.0 && p.Hmin <= p.Hmax
    ensures Calibrate(lib, p).Err? <==>
            !(SaturationMagnitude(lib, p, ExcessStress(p.sigmacaliber, p.sigmacrit)) > 1.0e-12)
    ensures p.Hmin > 1.0e-12 ==> Calibrate(lib, p).Ok?
  {
    SaturationBounds(lib, p, ExcessStress(p.sigmacaliber, p.sigmacrit));
  }

  // ---------------------------------------------------------------------------
  // Thermodynamic forces

  /** `A_xiF`: the thermodynamic force of forward transformation at temperature
      `theta`, for the stress `sigma` and `DM_sig` (the compliance jump applied to a
      stress). */
  function ForwardForce(c: Constants, sigma: Vec6, DMsig: Vec6, Dalpha: Vec6,
                        theta: real, Tinit: real, HfF: real): real
  {
    c.rhoDs0 * theta - c.rhoDE0 + 0.5 * Dot(sigma, DMsig) + Dot(sigma, Dalpha) * (theta - Tinit) - HfF
  }

  /** `A_xiR`: the thermodynamic force of reverse transformation. */
  function ReverseForce(c: Constants, sigma: Vec6, DMsig: Vec6, Dalpha: Vec6,
                        theta: real, Tinit: real, HfR: real): real
  {
    -1.0 * c.rhoDs0 * theta + c.rhoDE0 - 0.5 * Dot(sigma, DMsig) - Dot(sigma, Dalpha) * (theta - Tinit) + HfR
  }

  /** Apart from the hardening terms the two forces are opposite: `A_xiF + A_xiR =
      HfR - HfF` at any stress and temperature. */
  lemma ForcesOpposite(c: Constants, sigma: Vec6, DMsig: Vec6, Dalpha: Vec6,
                       theta: real, Tinit: real, HfF: real, HfR: real)
    ensures ForwardForce(c, sigma, DMsig, Dalpha, theta, Tinit, HfF)
            + ReverseForce(c, sigma, DMsig, Dalpha, theta, Tinit, HfR) == HfR - HfF
  {
  }

  /** At zero stress, constants calibrated at temperatures `t` put the transformation
      limits exactly at those temperatures: the forward force equals the critical value
      `Y0t` at `Ms` for pure austenite and at `Mf` for pure martensite, the reverse force
      equals it at `As` for pure martensite and at `Af` for pure austenite, and in
      between each deviates linearly with slope `rhoDs0`. */
  lemma ZeroStressLimits(lib: Library, p: Props, c: Constants, t: Temperatures,
                         DMsig: Vec6, Dalpha: Vec6, theta: real, Tinit: real)
    requires PowOfOne(lib)
    requires CalibratedAt(c, t)
    ensures ForwardForce(c, Zero6(), DMsig, Dalpha, theta, Tinit,
                         ForwardHardening(lib, 0.0, c.a1, c.a3, p.n1, p.n2)) - c.Y0t == c.rhoDs0 * (theta - t.Ms)
    ensures ForwardForce(c, Zero6(), DMsig, Dalpha, theta, Tinit,
                         ForwardHardening(lib, 1.0, c.a1, c.a3, p.n1, p.n2)) - c.Y0t == c.rhoDs0 * (theta - t.Mf)
    ensures ReverseForce(c, Zero6(), DMsig, Dalpha, theta, Tinit,
                         ReverseHardening(lib, 1.0, c.a2, c.a3, p.n3, p.n4)) - c.Y0t == c.rhoDs0 * (t.As - theta)
    ensures ReverseForce(c, Zero6(), DMsig, Dalpha, theta, Tinit,
                         ReverseHardening(lib, 0.0, c.a2, c.a3, p.n3, p.n4)) - c.Y0t == c.rhoDs0 * (t.Af - theta)
  {
    HardeningAtPurePhases(lib, c.a1, c.a2, c.a3, p.n1, p.n2, p.n3, p.n4);
    DotZeroLeft(DMsig);
    DotZeroLeft(Dalpha);
    var r := c.rhoDs0;
    assert r * (theta - t.Ms) == r * theta - r * t.Ms && r * (theta - t.Mf) == r * theta - r * t.Mf;
    assert r * (t.As - theta) == r * t.As - r * theta && r * (t.Af - theta) == r * t.Af - r * theta;
  }

  // ---------------------------------------------------------------------------
  // Mean transformation direction

  /** `ETMean` before the loop: the transformation strain direction per unit volume
      fraction when the transformation strain is not negligible (dividing by `xi`
      without checking it), else the forward flow direction when the stress is
      negligible, else zero. */
  function MeanDirectionBeforeLoop(lib: Library, ET: Vec6, sigma: Vec6, xi: real, lambdaTF: Vec6): Vec6
  {
    if lib.misesStrain(ET) > 1.0e-6 then VecQuot(lib, lib.dev(ET), xi)
    else if lib.misesStress(sigma) < 1.0e-6 then lambdaTF
    else Scale(0.0, Ith())
  }

  /** `ETMean` inside the loop: the transformation strain direction when both the
      transformation strain and `xi` exceed the solver tolerance, else the forward flow
      direction. */
  function MeanDirection(lib: Library, ET: Vec6, xi: real, lambdaTF: Vec6, precision: real): Vec6
  {
    if lib.misesStrain(ET) > precision && xi > precision then VecQuot(lib, lib.dev(ET), xi)
    else lambdaTF
  }

  /** Inside the loop the mean direction times `xi` gives back the deviatoric
      transformation strain whenever the division is taken, and the division is
      taken only for a positive `xi`. */
  lemma MeanDirectionRecoversStrain(lib: Library, ET: Vec6, xi: real, lambdaTF: Vec6, precision: real)
    requires ExactQuotient(lib)
    requires precision >= 0.0
    ensures var m := MeanDirection(lib, ET, xi, lambdaTF, precision);
      if lib.misesStrain(ET) > precision && xi > precision
      then xi > 0.0 && Scale(xi, m) == lib.dev(ET)
      else m == lambdaTF
  {
    if lib.misesStrain(ET) > precision && xi > precision {
      var d := lib.dev(ET);
      var m := VecQuot(lib, d, xi);
      assert m == Over(d, xi);
      assert xi * (d.v0 / xi) == d.v0 && xi * (d.v1 / xi) == d.v1 && xi * (d.v2 / xi) == d.v2;
      assert xi * (d.v3 / xi) == d.v3 && xi * (d.v4 / xi) == d.v4 && xi * (d.v5 / xi) == d.v5;
    }
  }

  /** The two fallback orders differ: with a negligible transformation strain and a
      non-negligible stress the copy before the loop falls back to zero while the copy
      inside the loop falls back to the forward flow direction; with a negligible
      stress both fall back to the forward flow direction. */
  lemma MeanDirectionFallbacks(lib: Library, ET: Vec6, sigma: Vec6, xi: real, lambdaTF: Vec6, precision: real)
    requires lib.misesStrain(ET) <= 1.0e-6 && lib.misesStrain(ET) <= precision
    ensures MeanDirection(lib, ET, xi, lambdaTF, precision) == lambdaTF
    ensures lib.misesStress(sigma) < 1.0e-6 ==> MeanDirectionBeforeLoop(lib, ET, sigma, xi, lambdaTF) == lambdaTF
    ensures lib.misesStress(sigma) >= 1.0e-6 ==> MeanDirectionBeforeLoop(lib, ET, sigma, xi, lambdaTF) == Zero6()
  {
  }
}
