/** Option and Result, the two failure-carrying types the model uses. */
module Wrappers {

  /** A cell that may be undefined; None plays the part of a NaN. */
  datatype Option<+T> = None | Some(value: T)

  /** The outcome of an operation that can raise an error. */
  datatype Result<+T, +E> = Ok(value: T) | Err(error: E)
}
