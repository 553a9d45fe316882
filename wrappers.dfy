/** Option and Result values standing in for Python's `None` and for calls that raise. */
module Wrappers {

  /** A value that may be absent: a missing dictionary key, a `None` return. */
  datatype Option<+T> = None | Some(value: T) {
    /** `d.get(key, default)` when the key may be missing. */
    function GetOr(default: T): T {
      match this
      case Some(v) => v
      case None => default
    }
  }

  /** The outcome of a call that may raise: `Err` carries `str(e)` of the exception. */
  datatype Result<+T> = Ok(value: T) | Err(message: string)
}
