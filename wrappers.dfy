/** Wrappers for nullable values and Java exceptions. */
module Wrappers {

  /** A value that may be absent (a Java `null`). */
  datatype Option<+T> = None | Some(value: T)

  /** The outcome of an operation that may throw: a value, or the exception raised. */
  datatype Result<+R, +E> = Success(value: R) | Failure(error: E)
}
