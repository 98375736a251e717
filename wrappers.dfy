/** Option and Result, for PHP's nullable values and for the exceptions the
    setters throw. */
module Wrappers {

  datatype Option<+T> = None | Some(value: T) {

    /** The value, or `default` when there is none (PHP's `??`). */
    function GetOr(default: T): T {
      match this
      case Some(v) => v
      case None => default
    }
  }

  /** The outcome of a call that may throw: the value, or the exception's
      message. */
  datatype Result<+T, +E> = Success(value: T) | Failure(error: E)
}
