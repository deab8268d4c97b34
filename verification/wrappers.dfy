/** Option and Result, the two failure-carrying wrappers used throughout. */
module Wrappers {

  datatype Option<+T> = None | Some(value: T) {
    function GetOr(default: T): T {
      match this
      case Some(v) => v
      case None => default
    }
  }

  /** A value, or the exception that the Ruby code would raise instead. */
  datatype Result<+T, +E> = Ok(value: T) | Err(error: E)
}
