/** Failure-carrying values shared by the other modules. */
module Wrappers {

  /** A value that may be absent (Java's Optional, or a null reference). */
  datatype Option<+T> = None | Some(value: T)

  /** The outcome of an operation that may throw: its value, or the exception it raised. */
  datatype Result<+T, +E> = Ok(value: T) | Err(error: E)
}
