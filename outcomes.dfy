/** Values shared by the cookie reader and the session store: an optional value
    (JavaScript's `null`/`undefined` against a present value) and the outcome of a
    step that either returns a value or throws. */
module Outcomes {

  datatype Option<+T> = None | Some(value: T)

  /** The exceptions the core can raise or pass on. */
  datatype Exception =
    | MissingCsrfCookie        // `new Error('Missing CSRF cookie.')` of the cookie reader
    | UriError                 // `decodeURIComponent` rejecting a malformed escape
    | TypeError                // reading a property of `null`
    | Rejected(reason: string) // a failure of `fetch`, `response.json()` or the token request

  /** What a step does: it returns a value or it throws. */
  datatype Outcome<+T> = Done(value: T) | Threw(error: Exception)
}
