/** Optional values and success/failure results shared by every module of the model. */
module Wrappers {

  /** A value that may be absent (the source's `null`, `None` or `undefined`). */
  datatype Option<+T> = None | Some(value: T) {
    function GetOr(default: T): T {
      match this
      case Some(v) => v
      case None => default
    }
  }

  /** The outcome of an operation that the source either completes or rejects with an error. */
  datatype Result<+T, +E> = Ok(value: T) | Err(error: E)

  /** A field of a JSON request body: left out, given as `null`, or given with a value. */
  datatype JsonField<T> = Absent | Null | Given(value: T)

  /** An error response of a back-end route: the HTTP status code and the message. */
  datatype ApiError = ApiError(code: int, message: string)
}
