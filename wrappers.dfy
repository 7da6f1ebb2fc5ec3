/** Option and Result values used by every module of the model. */
module Wrappers {

  /** A value that may be absent: Python's `None` or a dictionary `.get` miss. */
  datatype Option<+T> = None | Some(value: T) {
    function GetOr(default: T): T
    {
      match this
      case Some(v) => v
      case None => default
    }
  }

  /** The outcome of an action that a validation gate may block. */
  datatype Result<+T, +E> = Ok(value: T) | Err(error: E)
}
