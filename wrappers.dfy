/** Option and Result, the two failure-carrying shapes the other modules share. */
module Wrappers {

  datatype Option<+T> = None | Some(value: T)

  /** A computation that either produced a value or raised the error `error`. */
  datatype Result<+R, +E> = Ok(value: R) | Err(error: E)
}
