/** Option and Result values used for SQL NULLs, missing categories and raised errors. */
module Wrappers {

  datatype Option<+T> = None | Some(value: T) {
    /** The value, or `default` when there is none (Python's `x or default`, `dict.get(k, default)`). */
    function GetOr(default: T): T {
      match this
      case Some(v) => v
      case None => default
    }
  }

  /** Either a computed value or the error a Python call would have raised. */
  datatype Result<+T, +E> = Ok(value: T) | Err(error: E)
}
