/** How an increment can end without producing a result. */
module Outcomes {

  datatype Failure =
    /** `assert(Hcurstar > 1E-12)` fails during the first-call calibration. */
    | SaturationNotPositive
    /** `inv(Bbar)` is given a singular matrix and throws. */
    | SingularProjection

  datatype Result<+T> = Ok(value: T) | Err(failure: Failure)

  datatype Option<+T> = None | Some(value: T)
}
