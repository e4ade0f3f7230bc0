/** Optional values and results of operations that can fail, used throughout the model. */
module Wrappers {

  /** A value that may be absent (a `null` in the source). */
  datatype Option<+T> = None | Some(value: T)

  /** The outcome of an operation that can fail with an error of type `E`. */
  datatype Result<+T, +E> = Ok(value: T) | Err(error: E)
}
