/**
 * The messages between the extension's background worker and its content scripts:
 * what the background sends (`DO_REPORT`, and `PING` for the Instagram script) and the
 * reply objects the content scripts answer with.
 */
module Protocol {

  datatype Request =
    | Ping                      // { type: 'PING' }
    | DoReport(username: string)  // { type: 'DO_REPORT', username }
    | Unknown                   // any other message type

  /** The reply objects `doReport` and the message listeners produce. */
  datatype Reply =
    | Succeeded                         // { success: true }
    | ProfileNotFound                   // { success: false, notFound: true }
    | RateLimitedFor(retryAfterMs: nat) // { success: false, rateLimited: true, retryAfterMs }
    | Error(message: string)            // { success: false, error: message }
    | Pong                              // { pong: true }
  {
    /** The reply's `success` field is true. */
    predicate IsSuccess() {
      Succeeded?
    }

    /** The reply's `notFound` field is true. */
    predicate IsNotFound() {
      ProfileNotFound?
    }
  }
}
