# Thermomechanical shape-memory-alloy increment, modelled in Dafny

This project models `umat_sma_unified_T_T` (software/umat_external_T.cpp). That routine is simcoon's
unified thermomechanical constitutive law for shape-memory alloys. For one material point and one
strain/temperature increment it does the following, in order:

- It reads 31 material properties from `props` and 17 internal state variables from `statev`.
- On the first increment (`start`) it resets the history. It then calibrates the transformation constants
  `rhoDs0`, `rhoDE0`, `D`, `a1`, `a2`, `a3` and `Y0t` in closed form, from the stress-free transformation
  temperatures, which may be smoothed.
- It mixes the austenite and martensite elastic moduli harmonically and their thermal expansion linearly.
- It runs a bounded local Newton loop over the forward and reverse martensite fractions. The loop
  updates the transformation strain, the fractions and the stress at each step.
- It builds a consistent tangent by projecting the 2×2 transformation Jacobian onto the active
  mechanisms.
- It computes the entropy, the heat source and its derivatives, and the mechanical and thermal work.
- It writes the evolving state (and, on the first call, the constants) back into `statev`.

Everything is over Dafny's `real`. Vectors are fixed-size records: six Voigt components (`Vec6`), a 6×6
matrix (`Mat6`), and 2-vectors and 2×2 matrices for the two transformation mechanisms.

Some collaborators have bodies that are not part of this model. These are passed in as a `Library` record
of functions:

- the transcendental functions `exp`, `pow` and `log`, and floating-point division;
- the tensor library: `Mises_stress`, `Mises_strain`, `Prager_stress`, `dPrager_stress`, `eta_stress`, `dev`,
  `L_iso`, `M_iso`, `el_pred`, `rotate_strain`;
- the Lagrange-multiplier functions `lagrange_pow_0/1` and their derivatives;
- the complementarity solver `Fischer_Burmeister_m`.

A few lemmas need simple facts about the externals, and they require them as predicates on the
`Library`:

- an exact quotient for a non-zero divisor (`ExactQuotient`);
- `exp` of a non-positive number lies in (0, 1] (`ExpOfNonPositive`);
- `pow(1, y) = 1` (`PowOfOne`).

The tuning constants `maxiter_umat`, `precision_umat`, `iota` and `limit` come from a parameter header
that is not part of this model. They are the `Tolerances` parameter.

Modules, following the routine's stages:

- `Algebra`: Voigt vectors and matrices, dot products, 2×2 inverse.
- `Outcomes`: `Result`/`Option` and the two failures of the routine. These are the calibration assertion
  `Hcurstar > 1e-12` (`SaturationNotPositive`) and the inversion of a singular projected Jacobian
  (`SingularProjection`).
- `Externals`: the `Library` of external functions and the tolerances.
- `Material`: the property layout, the phase moduli and their mixing, the saturating maximum
  transformation strain, the four-regime hardening functions, the smoothed temperatures and the
  first-call calibration, the thermodynamic forces, and the mean reverse-transformation direction.
- `Newton`: the criteria, their linearisation, one Newton step, and the bounded loop. The loop is a
  specification function `Run` and a `while` method `LocalSolve` proved equal to it.
- `Tangent`: the active set, the projection and the masked inverse (loops over arrays as methods, each
  proved against a specification function), and the consistent tangent.
- `Energy`: the entropy, the heat source and the work increments. The running work totals are a class
  whose methods update them in place.
- `StateLayout`: where each state variable sits in `statev`, the read, and the in-place write-back.
- `Umat`: the whole increment. `IncrementOf` is the specification function, and the `Increment` method
  updates `statev` (an array) and the work totals.

## Model

| member | source | states |
|---|---|---|
| Material.ReadProps | software/umat_external_T.cpp:200-236 | the 31 properties are read from the first 31 entries of `props`, each at its own index (the layout function returns exactly `props[..31]`) |
| Material.TruncateToInt | software/umat_external_T.cpp:203 | `int flagT = props(3)` truncates toward zero: the result lies within one of the real value on the side of zero, and is 0 exactly when the value lies strictly between -1 and 1 |
| Material.PhaseModuliPositive | software/umat_external_T.cpp:270-274 | with positive Young's modulus and Poisson's ratio in (-1, 0.5), the bulk and shear moduli of a phase are positive |
| Material.HarmonicMixBounds | software/umat_external_T.cpp:276-277 | for xi in [0,1] and positive phase moduli, `K_eff` (and likewise `mu_eff`) is positive, lies between the two phase values, equals the austenite value at xi = 0 and the martensite value at xi = 1, and its reciprocal is the linear mix of the reciprocals |
| Material.CteMixBounds | software/umat_external_T.cpp:287 | the mixed expansion tensor is isotropic (equal normal components, zero shear), lies between the phase values for xi in [0,1] and equals them at the pure phases |
| Material.CteMixShift | software/umat_external_T.cpp:287-288 | moving xi by d moves the mixed expansion tensor by exactly d times `Dalpha` |
| Material.ExcessStress | software/umat_external_T.cpp:307-310 | `sigmastar` is non-negative, at least `sigmacaliber - sigmacrit`, and equal to either 0 or that difference |
| Material.SaturationBounds | software/umat_external_T.cpp:312 | for non-negative `sigmastar` and `k1` and `Hmin <= Hmax`, `Hcurstar` lies in [`Hmin`, `Hmax`] |
| Material.CalibrationOutcome | software/umat_external_T.cpp:312-313 | calibration fails exactly when `Hcurstar` is not above 1e-12, and it never fails when `Hmin > 1e-12` |
| Material.RegimeOf | software/umat_external_T.cpp:382-397 | the hardening case split is exhaustive, and its fourth branch (xi <= 0 and 1 - xi <= 0) is unreachable: interior iff 0 < xi < 1, lower end iff xi <= 0, upper end iff xi >= 1 |
| Material.HardeningCopiesAgree | software/umat_external_T.cpp:512-535 | the in-loop `HfF`/`HfR` agree with the pre-loop copies (:382-397) for every xi, although their dead fourth branches differ |
| Material.HardeningAtPurePhases | software/umat_external_T.cpp:512-535 | `HfF` is `a3` at xi = 0 and `a1 + a3` at xi = 1, and `HfR` is `-a3` and `a2 - a3` |
| Material.CombinationsAverage | software/umat_external_T.cpp:325-328 | the two weight combinations used by the smoothing formulas average to the common denominator |
| Material.SmoothedPair | software/umat_external_T.cpp:325-328 | each smoothed start/finish pair keeps the raw interval divided by the smoothing weight, and a degenerate interval (equal start and finish) is left unchanged |
| Material.SmoothingKeepsIntervals | software/umat_external_T.cpp:324-335 | with `flagT == 0`, `Ms - Mf` and `As - Af` are the raw intervals divided by their weights, and equal raw temperatures stay put |
| Material.ConstantsAt | software/umat_external_T.cpp:337-342 | the constants place the zero-stress transformation limits at the given temperatures (`rhoDE0 + a3 + Y0t = rhoDs0 Ms`, `rhoDE0 + a1 + a3 + Y0t = rhoDs0 Mf`, `rhoDE0 + a2 - a3 - Y0t = rhoDs0 As`, `rhoDE0 - a3 - Y0t = rhoDs0 Af`), and `a3` makes the mean interior forward hardening over [0,1] equal to the mean interior reverse hardening (`0.5 a1 (1 + 1/(n1+1) - 1/(n2+1)) + a3 = 0.5 a2 (1 + 1/(n3+1) - 1/(n4+1)) - a3`) |
| Material.CalibrationClosedForm | software/umat_external_T.cpp:337-342 | the four transformation limits hold exactly when `rhoDE0`, `a1`, `a2` and `Y0t` are the closed form of :337-342 in terms of `rhoDs0`, `a3` and the temperatures |
| Material.SmoothTemperatures | software/umat_external_T.cpp:318-335 | computes the smoothed temperatures when `flagT` truncates to 0 and the raw ones otherwise; what smoothing preserves is stated by SmoothingKeepsIntervals |
| Material.SaturationMagnitude | software/umat_external_T.cpp:312 | computes `Hmin + (Hmax - Hmin)(1 - exp(-k1 sigmastar))` (also :360, :543); its bounds are stated by SaturationBounds and CalibrationOutcome |
| Material.ForwardForce | software/umat_external_T.cpp:547 | computes `A_xiF` (also :409-410); its zero-stress limits are stated by ZeroStressLimits and its relation to `A_xiR` by ForcesOpposite |
| Material.ReverseForce | software/umat_external_T.cpp:554 | computes `A_xiR` (also :411-412); see ZeroStressLimits and ForcesOpposite |
| Material.ForcesOpposite | software/umat_external_T.cpp:409-412 | apart from the hardening terms the two forces are opposite: `A_xiF + A_xiR = HfR - HfF` at every stress and temperature |
| Material.Calibrate | software/umat_external_T.cpp:306-342 | a successful calibration satisfies the calibration relations at the (possibly smoothed) temperatures |
| Material.ZeroStressLimits | software/umat_external_T.cpp:337-342 | at zero stress and calibrated constants, the forward force minus `Y0t` is `rhoDs0 (theta - Ms)` at xi = 0 and `rhoDs0 (theta - Mf)` at xi = 1, and the reverse one is `rhoDs0 (As - theta)` at xi = 1 and `rhoDs0 (Af - theta)` at xi = 0, so each criterion is met exactly at its transformation temperature |
| Material.MeanDirectionRecoversStrain | software/umat_external_T.cpp:664-670 | inside the loop, `ETMean` times xi is `dev(ET)` when both guards pass (so xi is positive), and otherwise `ETMean` is `lambdaTF` |
| Material.MeanDirectionFallbacks | software/umat_external_T.cpp:365-370 | with negligible transformation strain the pre-loop `ETMean` falls back to `lambdaTF` at low stress and to zero otherwise, while the in-loop one is `lambdaTF` |
| Newton.Step | software/umat_external_T.cpp:495-675 | each loop iteration advances the counter by one |
| Newton.AdvanceBookkeeping | software/umat_external_T.cpp:652-662 | a step adds `ds_j` to `xiF`/`xiR`, keeps `xi - xiF + xiR` and `ET - DETF + DETR` unchanged, records the step's `Ds_j` and error, and re-predicts the stress |
| Newton.StepBookkeeping | software/umat_external_T.cpp:652-674 | one full iteration keeps `xi - xiF + xiR` and `ET - DETF + DETR` invariant and leaves the stress equal to the elastic prediction |
| Newton.ForwardCriterion | software/umat_external_T.cpp:545-608 | computes `A_xiF`, `YtF`, `Phi(0)` and the forward criterion's derivatives; ForwardNetFraction (through CriteriaDependOnNetFraction) states that its `xiF` and `xiR` derivatives are opposite |
| Newton.ReverseCriterion | software/umat_external_T.cpp:552-635 | computes `A_xiR`, `YtR`, `Phi(1)` and the reverse criterion's derivatives; ReverseNetFraction (through CriteriaDependOnNetFraction) states that its `xiF` and `xiR` derivatives are opposite when xi is non-zero |
| Newton.Linearise | software/umat_external_T.cpp:497-648 | computes `L`, `kappa_j`, both criteria, `K` and `B` at an iterate; their properties are stated by FlowDirectionsSum, CriteriaDependOnNetFraction and ReducedJacobianOfIteration |
| Newton.Run | software/umat_external_T.cpp:495 | the loop runs at most `maxiter_umat` iterations and ends with either the iteration budget spent or `error <= precision_umat`; zero iterations leave the state as it was; the bookkeeping invariants hold at exit |
| Newton.LocalSolve | software/umat_external_T.cpp:491-675 | the `while` loop computes exactly `Run` and stops on the loop's exit condition |
| Newton.FlowDirectionsSum | software/umat_external_T.cpp:508-509 | `kappa_0 + kappa_1 = L (lambdaTF + lambdaTR)`: the thermal and `DM` parts cancel |
| Newton.CriteriaDependOnNetFraction | software/umat_external_T.cpp:594-640 | the forward criterion's derivatives with respect to `xiF` and `xiR` are opposite (so are the first-row entries of `K`), and so are the reverse ones when xi is non-zero |
| Tangent.ReducedJacobianOfIteration | software/umat_external_T.cpp:691-695 | `Bhat` is entrywise the negation of the last iteration's `B` (:642-645) |
| Tangent.ActiveSet | software/umat_external_T.cpp:697-703 | `op(i)` is 1 iff `Ds_j[i] > iota` and 0 otherwise |
| Tangent.Project | software/umat_external_T.cpp:705-710 | `Bbar` keeps `Bhat` on the active block and is the identity on inactive rows and columns |
| Tangent.ProjectionSingular | software/umat_external_T.cpp:705-714 | `det(Bbar)` is the determinant of the active block of `Bhat`; with no active mechanism `Bbar` is the identity, with both active it is `Bhat` |
| Tangent.Restrict | software/umat_external_T.cpp:715-719 | `invBhat` clears the rows and columns of inactive mechanisms |
| Tangent.InvertProjection | software/umat_external_T.cpp:712-719 | the nested loops compute the masked inverse (or fail when `Bbar` is singular) |
| Tangent.MaskedInverseByCase | software/umat_external_T.cpp:712-719 | the masked inverse is, per active set, the 2×2 inverse, `1/Bhat(0,0)` or `1/Bhat(1,1)` in its corner, or zero; it fails exactly when that active block is singular |
| Tangent.MaskedInverseIsBlockInverse | software/umat_external_T.cpp:712-719 | `invBhat` is a two-sided inverse of the restricted `Bhat` up to the active-set diagonal, and is zero outside the active block |
| Tangent.MaskAndInvert | software/umat_external_T.cpp:697-719 | the active set, projection and masked inversion together compute the masked inverse for `Ds_j` |
| Tangent.ComputeTangent | software/umat_external_T.cpp:691-730 | the tangent block computes the specified moduli |
| Tangent.AssembleModuli | software/umat_external_T.cpp:721-730 | computes `P_epsilon`, `P_theta`, `dSdE` and `dSdT` from a masked inverse; ModuliSolveActiveSystem and TangentResponse state what they satisfy |
| Tangent.TangentOf | software/umat_external_T.cpp:691-730 | the tangent block as a specification function; SensitivitiesSolveActiveSystem, ElasticWhenInactive and MaskedInverseIsBlockInverse state its properties |
| Tangent.ElasticWhenInactive | software/umat_external_T.cpp:721-729 | with neither mechanism active, `P_epsilon` and `P_theta` are zero and `dSdE = L` exactly |
| Tangent.ModuliSolveActiveSystem | software/umat_external_T.cpp:721-727 | for any left inverse of the restricted Jacobian, `P_epsilon` and `P_theta` solve the transposed linearised criteria on the active mechanisms and vanish on the others |
| Tangent.SensitivitiesSolveActiveSystem | software/umat_external_T.cpp:721-730 | the computed tangent's sensitivities solve the linearised active criteria, its mask is the active set, its inverse is a block inverse, and `dSdT = -L alpha` |
| Tangent.TangentResponse | software/umat_external_T.cpp:729 | `dSdE dE = L dE - (P_epsilon[0] : dE) kappa_0 - (P_epsilon[1] : dE) kappa_1` for every strain increment |
| Energy.EntropySlopes | software/umat_external_T.cpp:738-750 | moving xi by d changes the reversible entropy `eta_r` by d times `dA_theta/dxiF`, and `dA_theta/dxiR` is its negation |
| Energy.EntropyChangeOf | software/umat_external_T.cpp:741-755 | the entropy change is reversible plus irreversible, the irreversible part is zero, and the reversible part is `eta_r - eta_r_start` |
| Energy.HeatSourceIsLinear | software/umat_external_T.cpp:763-787 | `r = drdE : DEtot + drdT DT`; below `DTime = 1e-12`, `r`, `drdE` and `drdT` are all zero |
| Energy.HeatSourceOf | software/umat_external_T.cpp:757-788 | computes `Gamma_epsilon`, `Gamma_theta`, `N_epsilon`, `N_theta`, `r`, `drdE` and `drdT`, or zeros below `DTime = 1e-12`; HeatSourceIsLinear and HeatSourceAtRest state its properties |
| Energy.HeatSourceAtRest | software/umat_external_T.cpp:787 | with no strain and no temperature increment the heat source is zero |
| Energy.WorkPartition | software/umat_external_T.cpp:790-800 | the mechanical work increment is the sum of its reversible, irreversible and dissipated parts, and the thermal one is reversible plus irreversible, whenever the entropy change splits that way |
| Energy.WorkIncrementsOf | software/umat_external_T.cpp:790-800 | computes the seven work increments; WorkPartition states that they are partitioned |
| Energy.WorkTotals.constructor | software/umat_external_T.cpp:139 | the seven work totals hold the caller's values |
| Energy.WorkTotals.ResetMechanical | software/umat_external_T.cpp:301-304 | the four mechanical totals become zero, the thermal ones are kept, and the mechanical balance holds afterwards |
| Energy.WorkTotals.Accumulate | software/umat_external_T.cpp:793-800 | each total grows by its increment, and partitioned increments preserve the mechanical and thermal balances |
| StateLayout.Unpack | software/umat_external_T.cpp:239-265 | the state read from `statev` lays back out to exactly its first 17 entries |
| StateLayout.LayoutInjective | software/umat_external_T.cpp:803-825 | different state variables occupy different entries |
| StateLayout.UnpackPacked | software/umat_external_T.cpp:802-826 | reading back what was written gives the new state, with the stored constants kept when not `start`; entries past 16 are untouched |
| StateLayout.PackedUnpack | software/umat_external_T.cpp:802-826 | writing back the state that was read leaves `statev` unchanged |
| StateLayout.PackedAt | software/umat_external_T.cpp:802-826 | entries 0-9 take the new values, entries 10-16 take the constants only when `start`, and every other entry keeps its value |
| StateLayout.WriteBack | software/umat_external_T.cpp:802-826 | the in-place writes leave `statev` equal to the packed state |
| Umat.EnvOf | software/umat_external_T.cpp:267-288 | computes the phase moduli, `DM`, `alpha` and `Dalpha` at the xi read from `statev` (before the first-call reset); PhaseModuliPositive, HarmonicMixBounds, CteMixBounds and CteMixShift state their properties |
| Umat.Begin | software/umat_external_T.cpp:291-343 | when `start` is set: `T_init = T`, stress and `ET` are zero, `xi = xiF = limit`, `xiR = 0`, the constants are calibrated, and the routine fails iff calibration fails; without `start` nothing changes |
| Umat.InitialIterate | software/umat_external_T.cpp:419-492 | the loop starts at count 0, error 1, with `DETF = DETR = 0`, the start state's `ET` (already rotated by `rotate_strain` at :346) and `xi - xiF + xiR` as in the start state |
| Umat.Prepare | software/umat_external_T.cpp:239-427 | the setup fails only through the calibration assertion; the start state has the reset or stored `T_init`, constants and fractions, and the loop's first iterate is consistent with it |
| Umat.EntropyOf | software/umat_external_T.cpp:733-755 | the increment's entropy change splits into reversible and a zero irreversible part |
| Umat.WorkOf | software/umat_external_T.cpp:790-800 | the work is computed from an entropy change that splits into reversible plus zero irreversible |
| Umat.Conclude | software/umat_external_T.cpp:733-800 | computes the response, the new state and the work increments after the loop; ConcludedHeat and ConcludedWorkPartitioned state their properties |
| Umat.IncrementOf | software/umat_external_T.cpp:139-828 | the whole increment as a specification function; IncrementState, IncrementEnergy and IncrementFailures state its properties, and Increment is proved to compute it |
| Umat.FirstIterationRuns | software/umat_external_T.cpp:491-495 | with `maxiter_umat >= 1` and `precision_umat < 1` the loop body runs at least once, so the tangent's linearisation exists |
| Umat.ConcludedWorkPartitioned | software/umat_external_T.cpp:790-800 | the increment's work is partitioned, with zero irreversible mechanical and thermal parts |
| Umat.ConcludedHeat | software/umat_external_T.cpp:763-787 | the returned `r` is `drdE : DEtot + drdT DT`, and all three are zero below `DTime = 1e-12` |
| Umat.TangentFailure | software/umat_external_T.cpp:714 | the tangent can only fail by a singular `Bbar` |
| Umat.IncrementFailures | software/umat_external_T.cpp:313-714 | a `start` call whose calibration fails reports `SaturationNotPositive`; any other failure is a singular projection |
| Umat.IncrementState | software/umat_external_T.cpp:291-826 | the new state's `T_init` and constants are the reset/calibrated ones on `start` and the stored ones otherwise; calibrated constants satisfy the calibration relations; `xi = xiF - xiR` holds after the call when it held before or on `start` |
| Umat.IncrementEnergy | software/umat_external_T.cpp:733-800 | the returned heat source is linear in the increment and zero below `DTime = 1e-12`; the work increments are partitioned with zero irreversible parts |
| Umat.Increment | software/umat_external_T.cpp:139-828 | the routine returns the specified response; on failure `statev` is unchanged, otherwise it holds the packed new state; the work totals are the (reset, if `start`) old totals plus the increments, and on failure the mechanical totals are still reset on `start` while the thermal ones are unchanged; the mechanical and thermal balances are preserved |

## Left out

- The bodies of `exp`, `pow`, `log`, the tensor-library functions, `lagrange_pow_0/1` and
  `Fischer_Burmeister_m` are not part of this model. They are parameters, and only the three simple
  facts named above are assumed of them, by the lemmas that need them.
- Floating point is modelled as exact reals. Rounding, overflow, NaN and the IEEE result of a division by
  zero are not modelled. The unguarded `dev(ET)/xi` before the loop (:366) goes through the library's
  division, which is left unspecified at zero.
- `rotate_strain(ET, DR)` (:346) is modelled as `ET := rotateStrain(ET, DR)`. Its declaration is not part of
  this model, so whether it rotates in place is left to the library function (an identity function gives
  the "result discarded" reading).
- `assert(Hcurstar > 1e-12)` (:313) is modelled as an error outcome. A build with NDEBUG would instead go
  on with the bad value.
- `inv(Bbar)` (:714) is modelled by the explicit 2×2 inverse, and a singular `Bbar` as an error outcome.
  Armadillo's `inv` reports an error there. Near-singular matrices are not distinguished.
- Umat.Increment: the caller's `sigma` is a value in the model, returned in the response. The routine
  overwrites it by reference before it can fail (:295, :427, :674), so after a failed call the caller
  sees a changed stress. The model does not capture that.
- `maxiter_umat`, `precision_umat`, `iota` and `limit` come from a parameter header that is not part of
  this model. The increment requires `maxiter_umat >= 1` and `precision_umat < 1`, so that the loop body
  runs at least once. Otherwise `kappa_j` would be empty vectors at :692.
- The loop is not shown to converge. When `maxiter_umat` is exhausted the routine reports nothing
  (`tnew_dt` is never written), and so neither does the model.
- Keeping xi within [0, 1] depends on the Lagrange multipliers and the complementarity solver. Those are
  not part of this model.
- Newton.Run: states the exit condition at the end but not that no earlier iterate already met it. The
  first-exit property is true of the definition, but as a lemma it exceeded the solver budget.
- The unused parameters `Time`, `nprops`, `nstatev`, `nshr` and `tnew_dt` (:141-145) are left out. So are
  values that are computed but never read: `M` (:282, :500) and `vide` (:294). The pre-loop `lambdaTR`
  (:372), `YtF` and `YtR` (:375-376), `lambda0` and `lambda1` (:400-401), `Dalpha_T` (:406), `A_xiF` and
  `A_xiR` (:409, :411) and `PhihatF` and `PhihatR` (:415-416) are left out too. The loop, which runs
  at least once, overwrites each of them (:503-556) before anything reads it.
- The props comment (:149-179) numbers the properties differently from the reads at :200-236. The statev
  comment (:181-197) announces fewer entries than the 17 used. The model follows the code.
- The commented-out transformation correction of `dSdT` (:730) is not modelled, since the code does not
  apply it.
- `N_theta` (:782) adds `c_0 + Dc_0*xi`, even though `c_0` already mixes the phases at xi (:735). This
  is modelled as written, without a claim about the intended heat capacity.
- `dA_xiFdsigma` uses `T + DT` (:594) where `dA_xiRdsigma` uses `T + DT - T_init` (:617). This is
  modelled as written.
- The Abaqus entry point `umat_` and the Python bindings around the routine are not part of this model.
