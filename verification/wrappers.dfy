/** Option and Result types used across the model for the source's `None`
    returns and its caught exceptions. */
module Wrappers {

  /** Python's `None` versus a present value. */
  datatype Option<+T> = None | Some(value: T) {
    function GetOr(default: T): T {
      match this
      case Some(v) => v
      case None => default
    }
  }

  /** A value, or the error that the source reports (a caught exception, a
      refusal message). */
  datatype Result<+T, +E> = Ok(value: T) | Err(error: E)
}
