/** Option and Result: the JavaScript `null`/`undefined` and thrown errors of the client. */
module Wrappers {

  datatype Option<+T> = None | Some(value: T) {
    function GetOr(default: T): T {
      match this
      case Some(v) => v
      case None => default
    }
  }

  /** The outcome of an operation that may throw; the error is the thrown `Error`'s message. */
  datatype Result<+T> = Ok(value: T) | Err(message: string)
}
