/** Option and result types shared by the whole model. */
module Wrappers {

  /** A value that may be absent: JavaScript's `null` / `undefined` / a missing field. */
  datatype Option<+T> = None | Some(value: T) {
    /** The value, or `default` when absent (JavaScript's `x || default` on a present, truthy `x`). */
    function GetOr(default: T): T {
      match this
      case Some(v) => v
      case None => default
    }
  }

  /** A synchronous stand-in for a promise: it resolves with a value or it rejects. */
  datatype Fetch<+T> = Done(value: T) | Failed

  /** A value or a thrown error carrying a message. */
  datatype Result<+T, +E> = Success(value: T) | Failure(error: E)
}
