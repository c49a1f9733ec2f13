/** Outcomes of the evaluation steps: a value, or the exception Python would raise. */
module Outcome {
  /** The exceptions the evaluation code can raise. */
  datatype Error =
    | EmptyTrajectory   // IndexError: `xyz[0]` of an empty array
    | ShapeMismatch     // ValueError: numpy cannot broadcast arrays of different lengths
    | SingularMatrix    // LinAlgError: `np.linalg.inv` of a singular matrix
    | DivisionByZero    // ZeroDivisionError: the integer `RE = 0` divided by a length of 0

  datatype Result<+T> = Success(value: T) | Failure(error: Error)

  datatype Option<+T> = None | Some(value: T)
}
