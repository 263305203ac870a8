/** Option and Result, the two failure-carrying values the model uses. */
module Wrappers {

  /** A value that may be missing: Python's `None` or a returned object. */
  datatype Option<+T> = None | Some(value: T) {
    function GetOr(default: T): T {
      match this
      case Some(v) => v
      case None => default
    }
  }

  /** The outcome of a step that may raise: `Err` carries `str(e)` of the exception. */
  datatype Result<+T> = Ok(value: T) | Err(error: string)
}
