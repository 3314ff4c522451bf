/** Option and Result, the failure-carrying values used throughout the model. */
module Wrappers {

  datatype Option<+T> = None | Some(value: T)

  /** A computation that either produced a value or stopped at a failed run-time check. */
  datatype Result<+R> = Success(value: R) | Failure(error: string)
}
