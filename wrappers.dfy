/** Optional values (the source's `null` / `T?`) and results (its exceptions). */
module Wrappers {

  datatype Option<+T> = None | Some(value: T) {
    /** `this ?? default` */
    function GetOr(default: T): T {
      match this
      case Some(v) => v
      case None => default
    }
  }

  datatype Result<+T, +E> = Success(value: T) | Failure(error: E)
}
