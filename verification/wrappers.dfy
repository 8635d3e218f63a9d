/** Optional values and error-carrying results, standing in for Python's `None`
    returns and raised exceptions. */
module Wrappers {

  datatype Option<+T> = None | Some(value: T) {

    /** The wrapped value, or `default` when there is none. */
    function GetOr(default: T): T {
      match this
      case Some(v) => v
      case None => default
    }
  }

  /** Either a value or the error that the source would have raised. */
  datatype Result<+T, +E> = Ok(value: T) | Err(error: E)
}
