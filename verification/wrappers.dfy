/** Failure-carrying values used by every operation of the model. */
module Wrappers {

  /** A value that may be absent: a missing row, a log file not yet created. */
  datatype Option<+T> = None | Some(value: T)

  /** The outcome of an operation that can fail with an error value. */
  datatype Result<+R, +E> = Success(value: R) | Failure(error: E)
}
