/** Optional values and handler replies shared by every module of the model. */
module Wrappers {

  /** A value that may be absent: a nil pointer, a missing map entry, a failed lookup. */
  datatype Option<+T> = None | Some(value: T) {
    function GetOr(default: T): T {
      match this
      case Some(v) => v
      case None => default
    }
  }

  /**
   * What an HTTP handler answers: a success status with its body, or an error
   * status with the message the handler passes to http.Error.
   */
  datatype Reply<+T> = Ok(code: int, value: T) | Err(code: int, message: string)
}
