/** Optional values and results: Python's `None` for a missing dictionary key,
    and an exception that ends the rendering of an entry. */
module Wrappers {

  datatype Option<T> = None | Some(value: T) {

    /** The value, or `default` when absent (the second argument of `dict.get`). */
    function GetOr(default: T): T
    {
      match this
      case Some(v) => v
      case None => default
    }

    /** This option when present, otherwise `other`. */
    function OrElse(other: Option<T>): Option<T>
    {
      match this
      case Some(_) => this
      case None => other
    }
  }

  datatype Result<T, E> = Success(value: T) | Failure(error: E)
}
