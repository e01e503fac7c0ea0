/** Failure-compatible wrappers used across the model. */
module Wrappers {

  /** A value that may be missing (Go's nil pointer or nil interface). */
  datatype Option<+T> = None | Some(value: T)

  /** A value or the error that prevented computing it (Go's `(T, error)` pair). */
  datatype Result<+T, +E> = Success(value: T) | Failure(error: E)
}
