/** Failure-compatible wrappers used across the document engine. */
module Wrappers {

  /** An optional value: JavaScript's `undefined` (or a value that is absent). */
  datatype Option<+T> = None | Some(value: T) {

    /** The wrapped value, or `default` when there is none (JavaScript's `x ?? default`). */
    function GetOr(default: T): T {
      match this
      case Some(v) => v
      case None => default
    }
  }

  /** Either a value or an error: a function that may throw returns one of these. */
  datatype Result<+R, +E> = Success(value: R) | Failure(error: E)
}
