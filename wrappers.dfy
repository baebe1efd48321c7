/** Option and Result: the absent value and the raised error of the bot's Python code. */
module Wrappers {

  datatype Option<+T> = None | Some(value: T) {
    function GetOr(default: T): T {
      match this
      case Some(v) => v
      case None => default
    }
  }

  /** A command either returns a value or raises; E names the error the bot reports. */
  datatype Result<+T, +E> = Success(value: T) | Failure(error: E)
}
