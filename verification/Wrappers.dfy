/** Wrappers used across the model: an optional value and a value-or-error
    result (the model's stand-in for PHP exceptions). */
module Wrappers {

  datatype Option<+T> = None | Some(value: T) {

    /** Returns the value held in Some, or `default` for None. */
    function GetOr(default: T): T {
      match this
      case Some(v) => v
      case None => default
    }
  }

  datatype Result<+R, +E> = Success(value: R) | Failure(error: E) {

    function Extract(): R
      requires Success?
    {
      value
    }
  }
}
