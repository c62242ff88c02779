/** The collaborators the increment routine calls but whose bodies are not part of this
    model: the transcendental functions, IEEE division, the tensor library (equivalent
    stresses, deviator, isotropic operators, elastic prediction, rotation), the
    penalty functions of the Lagrange barrier and the Fischer-Burmeister solver.
    They are passed in as one record of functions; the few facts some lemmas need
    about them are stated as predicates on that record and required only there. */
module Externals {
  import opened Algebra

  /** The 3x3 rotation increment `DR`; the model never looks inside it. */
  type Rotation = seq<seq<real>>

  /** What `Fischer_Burmeister_m(Phi, Y_crit, B, Ds_j, ds_j, error)` leaves in its three
      by-reference arguments: the accumulated multipliers, the Newton step and the
      residual norm. */
  datatype FBStep = FBStep(Ds: Vec2, ds: Vec2, error: real)

  datatype Library = Library(
    exp: real -> real,
    pow: (real, real) -> real,
    log: real -> real,
    /** The floating-point quotient; for a zero divisor it is whatever IEEE gives. */
    div: (real, real) -> real,
    misesStress: Vec6 -> real,
    misesStrain: Vec6 -> real,
    pragerStress: (Vec6, real, real) -> real,
    dPragerStress: (Vec6, real, real) -> Vec6,
    etaStress: Vec6 -> Vec6,
    dev: Vec6 -> Vec6,
    lIso: (real, real) -> Mat6,
    mIso: (real, real) -> Mat6,
    elPred: (Mat6, Vec6, int) -> Vec6,
    rotateStrain: (Vec6, Rotation) -> Vec6,
    lagrangePow0: (real, real, real, real, real) -> real,
    lagrangePow1: (real, real, real, real, real) -> real,
    dLagrangePow0: (real, real, real, real, real) -> real,
    dLagrangePow1: (real, real, real, real, real) -> real,
    fischerBurmeister: (Vec2, Vec2, Mat2, Vec2) -> FBStep)

  /** The numerical constants of the library's parameter header: the iteration cap and
      tolerance of the local solver, the activity floor of the tangent, and the initial
      volume fraction set on the first call. */
  datatype Tolerances = Tolerances(maxiter: nat, precision: real, iota: real, limit: real)

  /** Division by a non-zero divisor is exact. */
  ghost predicate ExactQuotient(lib: Library)
  {
    forall a: real, b: real :: b != 0.0 ==> lib.div(a, b) == a / b
  }

  /** `exp` maps the non-positive reals into (0, 1]. */
  ghost predicate ExpOfNonPositive(lib: Library)
  {
    forall x: real :: x <= 0.0 ==> 0.0 < lib.exp(x) <= 1.0
  }

  /** `pow(1, y) == 1` for every exponent. */
  ghost predicate PowOfOne(lib: Library)
  {
    forall y: real :: lib.pow(1.0, y) == 1.0
  }

  /** A vector divided component by component by a scalar (`v / d` in armadillo). */
  function VecQuot(lib: Library, v: Vec6, d: real): Vec6
  {
    Vec6(lib.div(v.v0, d), lib.div(v.v1, d), lib.div(v.v2, d),
         lib.div(v.v3, d), lib.div(v.v4, d), lib.div(v.v5, d))
  }
}
