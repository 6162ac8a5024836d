/** Option and Result datatypes shared by the other modules. */
module Wrappers {

  /** Python's `None` or a present value. */
  datatype Option<+T> = None | Some(value: T) {
    function GetOr(default: T): T {
      match this
      case Some(v) => v
      case None => default
    }
  }

  /** The value of an operation that either succeeds or raises with a reason. */
  datatype Result<+R, +E> = Ok(value: R) | Err(error: E)
}
