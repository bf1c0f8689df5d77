/** Option and Result: the model's stand-ins for Python's `None` and for a raised exception. */
module Wrappers {

  datatype Option<+T> = None | Some(value: T) {
    /** Python's `d.get(key, default)` once the lookup is done. */
    function GetOr(default: T): T {
      match this
      case Some(v) => v
      case None => default
    }
  }

  /** The outcome of a call that may raise: `Err` carries the exception message. */
  datatype Result<+R> = Ok(value: R) | Err(message: string)
}
