/** Option and Result, used for JavaScript's `undefined`/`NaN` outcomes and for thrown errors. */
module Wrappers {

  datatype Option<+T> = None | Some(value: T) {
    /** The wrapped value, or `default` when there is none. */
    function GetOr(default: T): T {
      match this
      case Some(v) => v
      case None => default
    }
  }

  /** A computation that either returns a value or throws an `Error` carrying a message. */
  datatype Result<+R> = Success(value: R) | Failure(message: string)
}
