/** Stock failure-carrying datatypes used across the model. */
module Wrappers {

  /** A value that may be missing (PHP's `null`). */
  datatype Option<+T> = None | Some(value: T)

  /** The outcome of an operation that can fail with an error of type E. */
  datatype Result<+R, +E> = Ok(value: R) | Err(error: E)
}
