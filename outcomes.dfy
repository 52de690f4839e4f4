/** Values shared by the server and the client models: optional values (JavaScript's
    `null`/`undefined` against a present value), caught exceptions, and the outcome of a
    server operation that reports failure by throwing `new Error(message)`. */
module Outcomes {

  /** A value that may be `null` or `undefined`. */
  datatype Option<T> = None | Some(value: T) {

    /** JavaScript's nullish coalescing `x ?? default`. */
    function GetOr(default: T): T {
      match this
      case Some(v) => v
      case None => default
    }
  }

  /** A value caught by `catch`: an `Error` instance with its message, or any other
      thrown value, kept as the text it renders to. */
  datatype Thrown = ErrorObject(message: string) | NonError(shown: string)

  /** `err instanceof Error ? err.message : default`. */
  function MessageOr(t: Thrown, default: string): string {
    match t
    case ErrorObject(m) => m
    case NonError(_) => default
  }

  /** `err instanceof Error ? err.message : err`, the `details` of the server's error records. */
  function Details(t: Thrown): string {
    match t
    case ErrorObject(m) => m
    case NonError(v) => v
  }

  /** An operation that either completes or throws `new Error(message)`. */
  datatype Outcome = Done | Failed(message: string)

  /** How a client request ended: `fetch` or reading the body threw, or the server
      answered (`ok` is `res.ok`) with a body. */
  datatype Fetched<D> = Threw(err: Thrown) | Responded(ok: bool, data: D)
}
