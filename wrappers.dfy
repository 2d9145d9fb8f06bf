/** Failure-carrying results, standing in for the exceptions the Ruby code raises. */
module Wrappers {

  datatype Option<+T> = None | Some(value: T)

  datatype Result<+T, +E> = Success(value: T) | Failure(error: E)

  /** The outcome of a call that returns nothing useful on success. */
  datatype Outcome<+E> = Pass | Fail(error: E)
}
