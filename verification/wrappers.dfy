/** Failure-compatible wrappers used across the model. */
module Wrappers {

  /** An optional value: a Go pointer that may be nil, or a value that may be absent. */
  datatype Option<+T> = None | Some(value: T)

  /** A value or the error that stopped its computation (Go's `(T, error)` pair). */
  datatype Result<+R, +E> = Success(value: R) | Failure(error: E)
}
