/** Failure-compatible wrappers: an optional value, and a value or an error. */
module Wrappers {

  /** A value that may be absent (a context that no provider has supplied). */
  datatype Option<+T> = None | Some(value: T)

  /** The outcome of an operation that either yields a value or fails with an error. */
  datatype Result<+R, +E> = Success(value: R) | Failure(error: E)
}
