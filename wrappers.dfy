/** Option and Result: the values the model uses in place of Go's nil and
    Python's None, and of errors and raised exceptions. */
module Wrappers {

  datatype Option<+T> = None | Some(value: T) {

    /** The value, or `default` when there is none. */
    function GetOr(default: T): T {
      match this
      case Some(v) => v
      case None => default
    }
  }

  datatype Result<+T, +E> = Ok(value: T) | Err(error: E)
}
