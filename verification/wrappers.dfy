/** Failure-compatible carriers used throughout the model: an optional value
    (Python's `None` or a value) and a result that is either a value or the
    error an exception would have carried. */
module Wrappers {

  datatype Option<+T> = None | Some(value: T) {

    /** The value, or `default` when there is none (Python's `x or default`
        when `x` is `None`). */
    function GetOr(default: T): T {
      match this
      case Some(v) => v
      case None => default
    }
  }

  datatype Result<+R, +E> = Success(value: R) | Failure(error: E)
}
