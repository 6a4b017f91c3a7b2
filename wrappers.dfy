/** Option and Result: Java's nullable references and thrown exceptions. */
module Wrappers {

  /** A Java reference that may be null: `None` is null. */
  datatype Option<+T> = None | Some(value: T) {
    function GetOr(default: T): T {
      match this
      case Some(v) => v
      case None => default
    }
  }

  /** The outcome of a call that may throw: `Err` carries the exception's message. */
  datatype Result<+T, +E> = Ok(value: T) | Err(error: E)
}
