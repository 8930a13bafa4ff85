/** Optional values and results with an error, as the reader's model uses them. */
module Wrappers {

  /** A value that may be absent: an unset configuration key, a null pointer. */
  datatype Option<+T> = None | Some(value: T) {
    /** The value, or the given default when it is absent. */
    function GetOr(default: T): (r: T)
      ensures this.Some? ==> r == value
      ensures this.None? ==> r == default
    {
      match this
      case Some(v) => v
      case None => default
    }
  }

  /** A value, or the error raised instead of it. */
  datatype Result<+R, +E> = Success(value: R) | Failure(error: E)
}
