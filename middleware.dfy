/** The outcome of a gin middleware: the request goes on to the next handler, or is answered and aborted. */
module Middleware {

  datatype Verdict = Next | Abort(status: int)

  /** net/http's StatusUnauthorized and StatusTooManyRequests. */
  const StatusUnauthorized: int := 401
  const StatusTooManyRequests: int := 429
}
