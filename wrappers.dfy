/** Failure-carrying values shared by the modules of the model. */
module Wrappers {

  /** A value that may be absent (`null`/`undefined` in the frontend). */
  datatype Option<+T> = None | Some(value: T)

  /** A value or the error that replaced it (Go's `(T, error)` pair). */
  datatype Result<+T, +E> = Success(value: T) | Failure(error: E)

  /** A check that passes or fails with an error (Go's bare `error`). */
  datatype Outcome<+E> = Pass | Fail(error: E)
}
