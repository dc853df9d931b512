/** Failure-carrying results shared by every module of the model. */
module Wrappers {

  datatype Option<+T> = None | Some(value: T)

  /** A value or the error that replaced it (Go's `(T, error)` pair). */
  datatype Result<+T, +E> = Ok(value: T) | Err(error: E)

  /** Go's bare `error` return: nil, or the first error met. */
  datatype Outcome<+E> = Pass | Fail(error: E)
}
