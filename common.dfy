/** Option, error and result values shared by every service module. */
module Common {

  /** A value that may be missing: JavaScript's `null`/`undefined`. */
  datatype Option<T> = None | Some(value: T)

  /** What a service throws: an `ApiError` with an HTTP status code and a
      message, or a `TypeError` raised by the runtime when the code reads a
      property of `undefined`. */
  datatype Error = ApiError(status: nat, message: string) | TypeError

  /** The outcome of a service call: a value, or the error it throws. */
  datatype Result<T> = Ok(value: T) | Err(error: Error)
}
