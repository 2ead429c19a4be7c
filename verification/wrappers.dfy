/** Failure-compatible wrappers shared by every module of the model. */
module Wrappers {

  /** An optional value: JavaScript `undefined`/`null`, or a Python `None`. */
  datatype Option<+T> = None | Some(value: T) {

    /** The wrapped value, or `default` when there is none (JavaScript `??`). */
    function GetOr(default: T): T {
      match this
      case Some(v) => v
      case None => default
    }
  }

  /** The outcome of an operation that may throw: `Ok` with a value or `Err` with the message. */
  datatype Result<+R, +E> = Ok(value: R) | Err(error: E)
}
