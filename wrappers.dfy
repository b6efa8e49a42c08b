/** Failure-carrying wrappers shared by every module: Go's `(value, error)`
    pairs and its panics are modelled with these instead of preconditions. */
module Wrappers {

  /** A value that may be absent (a nil `error`, a missing map entry). */
  datatype Option<+T> = None | Some(value: T)

  /** Either a value or the error that replaced it. */
  datatype Result<+T, +E> = Success(value: T) | Failure(error: E)

  /** An operation that either completes or fails with an error and no value. */
  datatype Outcome<+E> = Pass | Fail(error: E)
}
