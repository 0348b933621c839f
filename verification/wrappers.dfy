/**
 * Option and Result, the two wrappers the model uses for Kotlin's
 * nullable values and for operations that either succeed or report an
 * error message.
 */
module Wrappers {

  datatype Option<+T> = None | Some(value: T)
  {
    function GetOr(default: T): T
    {
      match this
      case None => default
      case Some(v) => v
    }
  }

  /** A successful value, or a failure carrying the message the client shows. */
  datatype Result<+T> = Success(value: T) | Failure(error: string)
}
