# fcm-rust `Client::send`, modelled in Dafny

This project models the protocol logic of the Firebase Cloud Messaging (FCM) client `Client::send` in
`src/client/mod.rs`. It covers two parts:

- **Building the request.** The model turns an API key and an already serialized payload into a POST to
  `https://fcm.googleapis.com/fcm/send`. That request has the headers `content-type: application/json`,
  `content-length: <decimal byte count>` and `authorization: key=<api key>`, and the payload as its body.
  The `http` builder is modelled as a class whose methods update its fields one call at a time, in the
  same order as the source.
- **Classifying what comes back.** A total function (`Client.Classify`) turns the outcome into a response
  or one of three errors: `InvalidMessage(detail)`, `Unauthorized` or `ServerError(retry hint)`. The
  outcome is a transport failure, or a status, headers and a body stream that either failed or gave
  bytes. The precedence is the source's:
  1. transport failure or body-read failure;
  2. UTF-8 decoding;
  3. the status: 200, 401, 400, 5xx, anything else;
  4. for 200 only, the embedded `error` field.

  The retry hint is taken from the first `retry-after` header. The `HeaderValue::to_str` check is
  modelled concretely: the value must be visible ASCII or tab. The hint is attached only to
  `ServerError` outcomes.

Modules:
- `Wrappers` holds `Option` and `Result`.
- `Bytes` holds bytes, ASCII, and the decimal rendering and reading of lengths.
- `Http` holds header lists, header lookup, `to_str`, `is_server_error` and the request builder.
- `Response` holds the value types of `client/response.rs`.
- `Client` holds request construction, classification and the whole `Send`.

Collaborators whose code is not part of this model are parameters:
- `String::from_utf8`, `serde_json::from_str::<FcmResponse>` and `RetryAfter::from_str` are the three
  function fields of `Client.Codecs`.
- The HTTP transport is the `transport: Request -> Exchange` parameter of `Client.Send`.

Two behaviours of the code are worth stating:
- The content type is exactly `application/json`. The code sends no `; encoding=utf-8` suffix.
- A body that is not UTF-8 gives `InvalidMessage("Unknown Error")` even for status 401 or 400. The code
  decodes the body before it looks at the status.

Deliberate deviation: a 200 body that does not parse as `FcmResponse` aborts the source (`unwrap()` at
line 76). The model keeps that behaviour in `Client.ClassifyAsWritten`. `Client.Classify` and
`Client.Send` use the corrected behaviour instead, which returns `InvalidMessage("Unknown Error")` (see
Findings).

## Model

| member | source | states |
|---|---|---|
| `Bytes.Decimal` | src/client/mod.rs:48 | `format!("{}", len)` gives a non-empty run of ASCII digits with no leading zero unless it is "0" |
| `Bytes.DecimalRoundTrip` | src/client/mod.rs:48 | reading back the decimal rendering of any length gives that length |
| `Bytes.DecimalOfDigits` | src/client/mod.rs:48 | every canonical decimal string is the rendering of the number it denotes, so the rendering is unique |
| `Bytes.DecimalInjective` | src/client/mod.rs:48 | two lengths have the same rendering exactly when they are equal |
| `Http.HeaderGet` | src/client/mod.rs:62-63 | the lookup is absent exactly when no header has the name; otherwise it is the value of the first header with that name |
| `Http.HeaderToStr` | src/client/mod.rs:64 | a header value is text exactly when every byte is visible ASCII or tab; the text then has one character per byte, with the same code |
| `Http.IsServerError` | src/client/mod.rs:91 | a status is a server error exactly when its hundreds digit is 5 |
| `Http.RequestBuilder.constructor` | src/client/mod.rs:44 | a new builder is a GET of "/" with no headers |
| `Http.RequestBuilder.Method` | src/client/mod.rs:46 | sets the method and leaves the URI and headers unchanged |
| `Http.RequestBuilder.AppendHeader` | src/client/mod.rs:47-49 | appends exactly one header after the existing ones and leaves method and URI unchanged |
| `Http.RequestBuilder.Uri` | src/client/mod.rs:50 | sets the URI and leaves the method and headers unchanged |
| `Http.RequestBuilder.Body` | src/client/mod.rs:52 | the finished request carries the builder's method, URI and headers, and the payload as body |
| `Client.FcmRequest` | src/client/mod.rs:44-52 | the request's content-length reads back as the body's exact length, and its `key=` authorization reads back as the API key |
| `Client.BuildRequest` | src/client/mod.rs:42-52 | the builder calls, made in the source's order, produce exactly the FCM request for the key and payload |
| `Client.FcmRequestIsWellFormed` | src/client/mod.rs:44-52 | the request is a POST to the fixed endpoint with the payload as body; content-type is application/json; content-length reads back as the body's exact length; authorization is "key=" followed by the key, and reading it back gives the key |
| `Client.FcmRequestInjective` | src/client/mod.rs:42-52 | two requests are equal exactly when their API keys and payloads are equal |
| `Client.RetryHint` | src/client/mod.rs:62-65 | a retry hint exists only if some retry-after header has a value whose bytes are all visible ASCII |
| `Client.RetryHintAbsent` | src/client/mod.rs:62-65 | with no retry-after header there is no retry hint |
| `Client.RetryHintFromFirstHeader` | src/client/mod.rs:62-65 | only the first retry-after header counts: it gives no hint if a byte is not visible ASCII, otherwise the hint is what `RetryAfter::from_str` makes of its text |
| `Client.Classify` | src/client/mod.rs:60-99 | a response is returned only when the status is 200 and the embedded error is neither Unavailable nor InternalServerError |
| `Client.TransportFailureIsServerError` | src/client/mod.rs:54-58 | a transport failure is `ServerError(None)` |
| `Client.ReadFailureIsServerError` | src/client/mod.rs:67-71 | a failed body read is `ServerError(None)`, whatever the status and the retry-after header |
| `Client.InvalidUtf8IsUnknownError` | src/client/mod.rs:73-98 | a body that is not UTF-8 gives `InvalidMessage("Unknown Error")` whatever the status |
| `Client.TransientOkIsServerError` | src/client/mod.rs:75-82 | status 200 with an embedded Unavailable or InternalServerError gives `ServerError` carrying exactly the header's retry hint |
| `Client.OkIffSuccessfulDelivery` | src/client/mod.rs:75-85 | `Ok(r)` exactly when the status is 200, the body decodes and parses to `r`, and `r`'s error is neither transient reason |
| `Client.ClientStatusErrors` | src/client/mod.rs:87-90 | 401 gives `Unauthorized` and 400 gives `InvalidMessage("Bad Request")`, with the retry hint dropped |
| `Client.ServerStatusIsServerError` | src/client/mod.rs:91-92 | any 5xx status gives `ServerError` carrying the header's retry hint |
| `Client.OtherStatusIsUnknownError` | src/client/mod.rs:93-94 | every status other than 200, 400, 401 and 5xx gives `InvalidMessage("Unknown Error")` |
| `Client.MalformedOkBodyIsUnknownError` | src/client/mod.rs:76 | corrected: a 200 body that does not parse gives `InvalidMessage("Unknown Error")` |
| `Client.HintOnlyReachesServerErrors` | src/client/mod.rs:62-94 | two responses that differ only in their headers classify the same, unless both are server errors |
| `Client.HintComesFromHeaders` | src/client/mod.rs:62-92 | any retry hint in a result is the one extracted from that response's headers |
| `Client.ClassifyAsWritten` | src/client/mod.rs:60-99 | as written; a response is returned only for status 200 without a transient embedded error |
| `Client.AsWrittenDiffersOnlyOnMalformedOkBody` | src/client/mod.rs:73-98 | the source aborts exactly on a 200 body that decodes but does not parse; on every other input it agrees with `Classify` |
| `Client.AsWrittenPanicsOnNonJsonBody` | src/client/mod.rs:76 | with a parser that accepts the body "{}", that body is delivered as written, while body "not json" aborts as written and gives `InvalidMessage("Unknown Error")` when corrected |
| `Client.Send` | src/client/mod.rs:41-103 | the result of sending is the classification of what the transport returns for the built request; a response is returned only for a 200 exchange |

## Left out

- `Client::new`, the connector, keep-alive, and the futures 0.1/0.3 compatibility chaining and `.boxed()`
  (src/client/mod.rs:31-39, 54-58, 102) are left out. They are asynchronous I/O plumbing. The transport is
  a function parameter, so the model has no concurrency, cancellation or suspension.
- JSON serialization of the message body (`serde_json::to_vec(...).unwrap()`, line 42) is left out.
  `Client.Send` takes the serialized payload bytes, so the panic on a serialization failure is not
  modelled.
- `String::from_utf8`, `serde_json::from_str` and `RetryAfter::from_str` are not defined here. They are
  the `Client.Codecs` parameters, so statements about them hold for any decoder. Integer and HTTP-date
  parsing of retry-after headers is not modelled.
- `client/response.rs` is not part of this model. `RetryAfter`, `ErrorReason`, `FcmResponse` and
  `FcmError` are modelled from how `send` uses them. Error reasons other than Unavailable and
  InternalServerError are carried by name. The other response fields are opaque name/value pairs.
- The `http` builder's header-value legality checks are left out. An API key holding a byte not allowed
  in a header value makes `builder.body(...).unwrap()` (line 52) panic in the source. The model builds
  the request for every key.
- Header names are lower-case strings compared exactly. This matches the `http` constants. The crate's
  case-insensitive name handling is not modelled.
- The API key is modelled as its UTF-8 bytes, which is what `as_bytes` gives. Text is not encoded.
- `payload.len() as u64` (line 48) is modelled as the unbounded length. The cast is lossless because a
  `Vec` length never exceeds `isize::MAX`.
- The status code is an unbounded integer. `StatusCode`'s 100-999 range is not enforced, and the
  classification is total on all integers.
- src/lib.rs holds only module declarations and re-exports.

## Findings

| source | as written | input that shows it | evidently intended | confidence | as-written member | corrected member |
|---|---|---|---|---|---|---|
| src/client/mod.rs:76 | `serde_json::from_str(&body).unwrap()` aborts the task when a 200 body is not a valid `FcmResponse` | status 200, body `not json` | the error is returned as `InvalidMessage("Unknown Error")` and the send does not abort | medium, not executed | `Client.AsWrittenPanicsOnNonJsonBody` | `Client.MalformedOkBodyIsUnknownError` |
