/** Failure-carrying values used where the source returns None or raises. */
module Wrappers {

  datatype Option<+T> = None | Some(value: T) {
    function GetOr(default: T): T {
      match this
      case Some(v) => v
      case None => default
    }
  }

  /** `Failure` stands for an exception the source raises (the message is kept). */
  datatype Result<+R> = Success(value: R) | Failure(error: string)
}
