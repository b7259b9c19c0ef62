/** Failure-carrying values used for JavaScript's `undefined` results and thrown errors. */
module Wrappers {

  /** A value that may be missing (`undefined` / `null` in the source). */
  datatype Option<+T> = None | Some(value: T)

  /** The outcome of an operation that may throw. */
  datatype Result<+T, +E> = Ok(value: T) | Err(error: E)
}
