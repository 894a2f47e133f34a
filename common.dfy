/** Failure-compatible wrappers shared by every module of the model. */
module Common {

  /** Python's `None` or a present value. */
  datatype Option<+T> = None | Some(value: T) {

    /** `x or default` for a value whose only falsy form is None. */
    function GetOr(default: T): T {
      match this
      case Some(v) => v
      case None => default
    }
  }

  /** A call that either returns a value or raises; `Raised` carries `str(e)`. */
  datatype Try<+T> = Ok(value: T) | Raised(message: string)
}
