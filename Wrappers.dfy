/** Failure-compatible wrappers shared by the binding model. */
module Wrappers {

  /** An optional value. */
  datatype Option<+T> = None | Some(value: T)

  /** Either a value or the error that stopped its computation. */
  datatype Result<+T, +E> = Ok(value: T) | Err(error: E)
}
