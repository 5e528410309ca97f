/** Optional values and results, as the rest of the model uses them. */
module Wrappers {

  /** A value that may be absent: JavaScript's `null`/`undefined` on one side, a value on the other. */
  datatype Option<+T> = None | Some(value: T) {
    /** `this ?? default` */
    function GetOr(default: T): T {
      match this
      case Some(v) => v
      case None => default
    }
  }

  /** The outcome of a local check: the value to send, or the message to show. */
  datatype Result<+R, +E> = Success(value: R) | Failure(error: E)
}
