/** Optional values (Kotlin's nullable `T?`) and results (a value or a thrown exception). */
module Wrappers {

  /** A Kotlin nullable value: `None` is `null`. */
  datatype Option<+T> = None | Some(value: T) {

    /** The elvis operator `x ?: default`. */
    function GetOr(default: T): T {
      match this
      case Some(v) => v
      case None => default
    }

    /** The safe call `x?.let { f(it) }`. */
    function Map<U>(f: T -> U): Option<U> {
      match this
      case Some(v) => Some(f(v))
      case None => None
    }
  }

  /** Either the value a call returns or the exception it throws. */
  datatype Result<+T, +E> = Ok(value: T) | Err(error: E)
}
