/** Failure-carrying values used in place of the exceptions the client raises. */
module Wrappers {

  datatype Option<+T> = None | Some(value: T)

  /** A computation that either yields a value or fails with an error. */
  datatype Result<+R, +E> = Success(value: R) | Failure(error: E)

  /** A computation that only succeeds or fails, for setters that return nothing useful. */
  datatype Outcome<+E> = Pass | Fail(error: E)
}
