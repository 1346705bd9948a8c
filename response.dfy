/**
 * The values `Client::send` produces and inspects: the retry hint, the
 * application-level error reason, the success response and the error taxonomy.
 */
module Response {
  import opened Wrappers

  /** A retry hint: a relative delay in seconds, or an absolute instant (seconds since the epoch). */
  datatype RetryAfter = Delay(seconds: nat) | DateTime(instant: int)

  /**
   * The `error` field of a 200 response. Only the two transient reasons matter
   * to the client; every other reason is carried by name.
   */
  datatype ErrorReason = Unavailable | InternalServerError | OtherReason(name: string)

  /**
   * The parsed body of a 200 response: the optional error reason and the
   * remaining fields (message id, per-recipient results, ...) passed through as
   * name/value pairs.
   */
  datatype FcmResponse = FcmResponse(error: Option<ErrorReason>, fields: seq<(string, string)>)

  datatype FcmError = Unauthorized | InvalidMessage(detail: string) | ServerError(retryAfter: Option<RetryAfter>)

  /** The two reasons that make a 200 response a transient server failure. */
  predicate IsTransient(error: Option<ErrorReason>) {
    error == Some(Unavailable) || error == Some(InternalServerError)
  }
}
