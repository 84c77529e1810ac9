/** Small shared vocabulary: optional values, service errors and results. */
module Wrappers {

  datatype Option<T> = None | Some(value: T) {
    /** The value, or `default` when there is none. */
    function GetOr(default: T): T {
      if Some? then value else default
    }
  }

  /** An error raised by a service: the HTTP status the route returns and its message. */
  datatype Error = Error(status: int, message: string)

  /** The outcome of a service call that may raise a `ServiceError`. */
  datatype Result<T> = Success(value: T) | Failure(error: Error)

  const NOT_FOUND: int := 404
  const BAD_REQUEST: int := 400
}
