/** Optional values and results with an error, standing for Swift's `T?` and `throws`. */
module Wrappers {

  /** Swift's `Optional<T>`: `nil` is `None`. */
  datatype Option<+T> = None | Some(value: T) {

    /** `self ?? default` */
    function GetOr(default: T): T {
      match this
      case Some(v) => v
      case None => default
    }
  }

  /** The outcome of a call that may throw. */
  datatype Result<+T, +E> = Success(value: T) | Failure(error: E)
}
