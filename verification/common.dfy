/** Shared vocabulary of the route handlers: optional values, HTTP replies and
    the status codes the handlers use. */
module Common {

  /** A value that may be missing: JavaScript's `null`/`undefined`. */
  datatype Option<+T> = None | Some(value: T) {
    function GetOr(default: T): T {
      match this
      case Some(v) => v
      case None => default
    }
  }

  /** A query string parameter is applied only when present and non-empty
      (`if (param)` on a string). */
  predicate Given(v: Option<string>) {
    v.Some? && v.value != ""
  }

  /** The outcome of a step that can fail with an error of type `E`. */
  datatype Result<+T, +E> = Success(value: T) | Failure(error: E)

  const OK: int := 200
  const CREATED: int := 201
  const BAD_REQUEST: int := 400
  const UNAUTHORIZED: int := 401
  const FORBIDDEN: int := 403
  const NOT_FOUND: int := 404
  const CONFLICT: int := 409
  const INTERNAL_ERROR: int := 500

  /** What a route handler sends back: a success body with its status, or an
      error message with its status. */
  datatype Reply<+T> = Ok(status: int, value: T) | Error(status: int, message: string)

  /** A handler's reply together with the store it leaves behind. */
  datatype Outcome<+T, +S> = Outcome(reply: Reply<T>, store: S)

  /** The catch-all of every handler's `catch` block. */
  function InternalError<T>(): Reply<T> {
    Error(INTERNAL_ERROR, "Internal server error")
  }
}
