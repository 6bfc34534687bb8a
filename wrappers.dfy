/** Optional values; used for fields a request or a stored document may leave out. */
module Wrappers {

  datatype Option<+T> = None | Some(value: T) {

    /** The value, or `default` when absent (the JS `x ?? default` / schema default). */
    function GetOr(default: T): T {
      match this
      case Some(v) => v
      case None => default
    }
  }

  /** Either a value or a failure carrying an error of type E. */
  datatype Result<+T, +E> = Ok(value: T) | Err(error: E)
}
