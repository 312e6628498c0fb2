/** Option and Result values used for the source's `undefined`/`null` and thrown errors. */
module Wrappers {

  datatype Option<+T> = None | Some(value: T) {
    function GetOr(default: T): T {
      match this
      case Some(v) => v
      case None => default
    }
  }

  /** A computation that either produces a value or throws an error carrying a message. */
  datatype Result<+T> = Ok(value: T) | Err(message: string)
}
