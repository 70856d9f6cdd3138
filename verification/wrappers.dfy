/** Failure-carrying wrappers shared by every module of the model:
    `Option` stands for Python's `None` (and for pandas' NaN where a
    statistic is undefined), `Result` for a call that either returns a
    value or raises. */
module Wrappers {

  datatype Option<+T> = None | Some(value: T) {

    /** The wrapped value, or `default` when there is none. */
    function GetOr(default: T): T {
      match this
      case Some(v) => v
      case None => default
    }
  }

  /** `Ok(v)` is a normal return, `Err(e)` an exception carrying `e`. */
  datatype Result<+T, +E> = Ok(value: T) | Err(error: E)
}
