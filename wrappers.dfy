/** Failure-compatible result types used for the source's exceptions and missing values. */
module Wrappers {

  datatype Option<+T> = None | Some(value: T)

  datatype Result<+R, +E> = Success(value: R) | Failure(error: E)

  /** An action that either completed or raised `error`; carries no value. */
  datatype Outcome<+E> = Pass | Fail(error: E)
}
