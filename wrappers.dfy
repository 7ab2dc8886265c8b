/** Option, Outcome and Result: the absent values, raised validation errors
    and error-or-value returns of the modelled code. */
module Wrappers {

  /** Python's `Optional[T]`: `None` or a value. */
  datatype Option<+T> = None | Some(value: T) {
    /** The value, or `default` when absent (Python's `x or default` on a truthy type). */
    function GetOr(default: T): T {
      match this
      case Some(v) => v
      case None => default
    }
  }

  /** The result of a check that either returns nothing or raises `error`. */
  datatype Outcome<+E> = Pass | Fail(error: E)

  /** A value, or the error that was raised instead of returning it. */
  datatype Result<+T, +E> = Ok(value: T) | Err(error: E)
}
