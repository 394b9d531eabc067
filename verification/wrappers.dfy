/**
 The two shapes in which the Go code reports an outcome, shared by every
 module of the model.
 */
module Wrappers {

  /** A value that may be absent: a nil pointer, an unset session key, a parse that failed. */
  datatype Option<+T> = None | Some(value: T)

  /** A value, or the error the Go code returns in its place from a `(value, err)` pair. */
  datatype Result<+T, +E> = Success(value: T) | Failure(error: E)
}
