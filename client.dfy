/**
 * `Client::send`: build the POST request for a message, hand it to the
 * transport, and classify what comes back into a response or a typed error.
 */
module Client {
  import opened Wrappers
  import opened Bytes
  import opened Http
  import opened Response

  const Endpoint: string := "https://fcm.googleapis.com/fcm/send"
  const ContentType: string := "content-type"
  const ContentLength: string := "content-length"
  const Authorization: string := "authorization"
  const RetryAfterName: string := "retry-after"

  const Json: seq<byte> := Ascii("application/json")
  const KeyPrefix: seq<byte> := Ascii("key=")

  const BadRequest: string := "Bad Request"
  const UnknownError: string := "Unknown Error"

  // ---------------------------------------------------------------------------
  // Request construction

  /**
   * The request `send` builds for an API key and serialized payload: a receiver
   * reads back the body's exact length and the API key from its headers.
   */
  function FcmRequest(apiKey: seq<byte>, payload: seq<byte>): (r: Request)
    ensures ContentLengthOf(r) == Some(|r.body|)
    ensures ApiKeyOf(r) == Some(apiKey)
  {
    var r := Request("POST", Endpoint,
                     [Header(ContentType, Json),
                      Header(ContentLength, Decimal(|payload|)),
                      Header(Authorization, KeyPrefix + apiKey)],
                     payload);
    assert HeaderGet(r.headers, ContentLength) == Some(Decimal(|payload|));
    assert HeaderGet(r.headers[2..], Authorization) == Some(KeyPrefix + apiKey);
    assert HeaderGet(r.headers[1..], Authorization) == Some(KeyPrefix + apiKey) by {
      assert r.headers[1..][1..] == r.headers[2..];
    }
    DecimalRoundTrip(|payload|);
    r
  }

  /** Builds the request step by step, in the order `send` calls the builder. */
  method BuildRequest(apiKey: seq<byte>, payload: seq<byte>) returns (r: Request)
    ensures r == FcmRequest(apiKey, payload)
  {
    var builder := new RequestBuilder();
    builder.Method("POST");
    builder.AppendHeader(ContentType, Json);
    builder.AppendHeader(ContentLength, Decimal(|payload|));
    builder.AppendHeader(Authorization, KeyPrefix + apiKey);
    builder.Uri(Endpoint);
    r := builder.Body(payload);
  }

  /** The body length a receiver reads from a request's content-length header. */
  function ContentLengthOf(r: Request): Option<nat> {
    match HeaderGet(r.headers, ContentLength)
    case None => None
    case Some(v) => ParseDecimal(v)
  }

  /** The API key a receiver reads from a request's `key=` authorization header. */
  function ApiKeyOf(r: Request): Option<seq<byte>> {
    match HeaderGet(r.headers, Authorization)
    case None => None
    case Some(v) => if |v| >= |KeyPrefix| && v[..|KeyPrefix|] == KeyPrefix then Some(v[|KeyPrefix|..]) else None
  }

  /**
   * The built request is a POST to the fixed endpoint carrying the payload; a
   * receiver reads back the payload's exact length and the API key, and the
   * content type is JSON.
   */
  lemma FcmRequestIsWellFormed(apiKey: seq<byte>, payload: seq<byte>)
    ensures var r := FcmRequest(apiKey, payload);
      && r.verb == "POST"
      && r.uri == Endpoint
      && r.body == payload
      && HeaderGet(r.headers, ContentType) == Some(Json)
      && HeaderGet(r.headers, ContentLength) == Some(Decimal(|payload|))
      && HeaderGet(r.headers, Authorization) == Some(KeyPrefix + apiKey)
      && ContentLengthOf(r) == Some(|r.body|)
      && ApiKeyOf(r) == Some(apiKey)
  {
    var r := FcmRequest(apiKey, payload);
    assert HeaderGet(r.headers[1..], Authorization) == Some(KeyPrefix + apiKey) by {
      assert r.headers[1..][1..] == r.headers[2..];
    }
  }

  /** Different API keys or different payloads give different requests. */
  lemma FcmRequestInjective(k1: seq<byte>, p1: seq<byte>, k2: seq<byte>, p2: seq<byte>)
    ensures FcmRequest(k1, p1) == FcmRequest(k2, p2) <==> k1 == k2 && p1 == p2
  {
    if FcmRequest(k1, p1) == FcmRequest(k2, p2) {
      FcmRequestIsWellFormed(k1, p1);
      FcmRequestIsWellFormed(k2, p2);
    }
  }

  // ---------------------------------------------------------------------------
  // Response classification

  /** What reading the body stream gave: a failure, or all its bytes. */
  datatype BodyRead = ReadFailed | Read(bytes: seq<byte>)

  /** What the transport gave: a failure before any response, or a status, headers and body. */
  datatype Exchange = TransportFailed | Responded(status: int, headers: seq<Header>, body: BodyRead)

  /**
   * The decoders `send` calls and that this model does not define:
   * `String::from_utf8`, `serde_json::from_str::<FcmResponse>` and
   * `RetryAfter::from_str`.
   */
  datatype Codecs = Codecs(
    fromUtf8: seq<byte> -> Option<string>,
    parseResponse: string -> Option<FcmResponse>,
    parseRetryAfter: string -> Option<RetryAfter>)

  /**
   * The retry hint: the first retry-after header, if it is visible ASCII text,
   * parsed. A hint only ever comes from a retry-after header whose bytes are
   * all visible ASCII.
   */
  function RetryHint(headers: seq<Header>, parseRetryAfter: string -> Option<RetryAfter>): (r: Option<RetryAfter>)
    ensures r.Some? ==> exists i :: 0 <= i < |headers| && headers[i].name == RetryAfterName
                                    && forall k :: 0 <= k < |headers[i].value| ==> IsVisibleAscii(headers[i].value[k])
  {
    match HeaderGet(headers, RetryAfterName)
    case None => None
    case Some(v) =>
      match HeaderToStr(v)
      case None => None
      case Some(text) => parseRetryAfter(text)
  }

  /** The text of a visible-ASCII header value, one character per byte. */
  function Chars(v: seq<byte>): (s: string)
    ensures |s| == |v|
  {
    seq(|v|, i requires 0 <= i < |v| => v[i] as char)
  }

  /** The hint is absent when no header is called retry-after. */
  lemma RetryHintAbsent(headers: seq<Header>, parseRetryAfter: string -> Option<RetryAfter>)
    requires forall i :: 0 <= i < |headers| ==> headers[i].name != RetryAfterName
    ensures RetryHint(headers, parseRetryAfter) == None
  {
  }

  /**
   * Only the first retry-after header counts: the hint is absent when its value
   * has a byte outside visible ASCII, and otherwise is what the parser makes of
   * its text.
   */
  lemma RetryHintFromFirstHeader(headers: seq<Header>, parseRetryAfter: string -> Option<RetryAfter>, i: nat)
    requires i < |headers| && headers[i].name == RetryAfterName
    requires forall j :: 0 <= j < i ==> headers[j].name != RetryAfterName
    ensures var v := headers[i].value;
      && ((exists k :: 0 <= k < |v| && !IsVisibleAscii(v[k])) ==> RetryHint(headers, parseRetryAfter) == None)
      && ((forall k :: 0 <= k < |v| ==> IsVisibleAscii(v[k])) ==> RetryHint(headers, parseRetryAfter) == parseRetryAfter(Chars(v)))
  {
    var v := headers[i].value;
    var got := HeaderGet(headers, RetryAfterName);
    var m :| 0 <= m < |headers| && headers[m] == Header(RetryAfterName, got.value)
             && forall j :: 0 <= j < m ==> headers[j].name != RetryAfterName;
    assert m == i;
    match HeaderToStr(v)
    case None =>
    case Some(text) =>
      assert text == Chars(v);
  }

  /**
   * The classification `send` performs, with one deliberate change: a 200 body
   * that does not parse is `InvalidMessage("Unknown Error")` (the source
   * unwraps the parse; see ClassifyAsWritten). A response is returned only for
   * status 200 without a transient embedded error.
   */
  function Classify(x: Exchange, codecs: Codecs): (r: Result<FcmResponse, FcmError>)
    ensures r.Ok? ==> x.Responded? && x.status == 200 && !IsTransient(r.value.error)
  {
    match x
    case TransportFailed => Err(ServerError(None))
    case Responded(status, headers, body) =>
      var retryAfter := RetryHint(headers, codecs.parseRetryAfter);
      match body
      case ReadFailed => Err(ServerError(None))
      case Read(bytes) =>
        match codecs.fromUtf8(bytes)
        case None => Err(InvalidMessage(UnknownError))
        case Some(text) =>
          if status == 200 then
            match codecs.parseResponse(text)
            case None => Err(InvalidMessage(UnknownError))
            case Some(response) =>
              if IsTransient(response.error) then Err(ServerError(retryAfter)) else Ok(response)
          else if status == 401 then Err(Unauthorized)
          else if status == 400 then Err(InvalidMessage(BadRequest))
          else if IsServerError(status) then Err(ServerError(retryAfter))
          else Err(InvalidMessage(UnknownError))
  }

  /** A transport failure carries no retry hint. */
  lemma TransportFailureIsServerError(codecs: Codecs)
    ensures Classify(TransportFailed, codecs) == Err(ServerError(None))
  {
  }

  /** A failed body read carries no retry hint, whatever the status and headers. */
  lemma ReadFailureIsServerError(status: int, headers: seq<Header>, codecs: Codecs)
    ensures Classify(Responded(status, headers, ReadFailed), codecs) == Err(ServerError(None))
  {
  }

  /** A body that is not UTF-8 is an unknown error, whatever the status: decoding precedes status inspection. */
  lemma InvalidUtf8IsUnknownError(status: int, headers: seq<Header>, bytes: seq<byte>, codecs: Codecs)
    requires codecs.fromUtf8(bytes).None?
    ensures Classify(Responded(status, headers, Read(bytes)), codecs) == Err(InvalidMessage(UnknownError))
  {
  }

  /** A 200 body embedding Unavailable or InternalServerError is a server error carrying exactly the header's hint. */
  lemma TransientOkIsServerError(headers: seq<Header>, bytes: seq<byte>, codecs: Codecs, text: string)
    requires codecs.fromUtf8(bytes) == Some(text)
    requires codecs.parseResponse(text).Some? && IsTransient(codecs.parseResponse(text).value.error)
    ensures Classify(Responded(200, headers, Read(bytes)), codecs) == Err(ServerError(RetryHint(headers, codecs.parseRetryAfter)))
  {
  }

  /**
   * The response is returned exactly when the status is 200, the body decodes
   * and parses, and the embedded error is neither transient reason; it is then
   * the parsed response unchanged.
   */
  lemma OkIffSuccessfulDelivery(x: Exchange, codecs: Codecs, response: FcmResponse)
    ensures Classify(x, codecs) == Ok(response) <==>
      && x.Responded? && x.status == 200 && x.body.Read?
      && codecs.fromUtf8(x.body.bytes).Some?
      && codecs.parseResponse(codecs.fromUtf8(x.body.bytes).value) == Some(response)
      && !IsTransient(response.error)
  {
  }

  /** 401 is Unauthorized and 400 is "Bad Request"; the hint is dropped in both. */
  lemma ClientStatusErrors(headers: seq<Header>, bytes: seq<byte>, codecs: Codecs)
    requires codecs.fromUtf8(bytes).Some?
    ensures Classify(Responded(401, headers, Read(bytes)), codecs) == Err(Unauthorized)
    ensures Classify(Responded(400, headers, Read(bytes)), codecs) == Err(InvalidMessage(BadRequest))
  {
  }

  /** Every 5xx status with a UTF-8 body is a server error carrying the header's hint. */
  lemma ServerStatusIsServerError(status: int, headers: seq<Header>, bytes: seq<byte>, codecs: Codecs)
    requires IsServerError(status) && codecs.fromUtf8(bytes).Some?
    ensures Classify(Responded(status, headers, Read(bytes)), codecs) == Err(ServerError(RetryHint(headers, codecs.parseRetryAfter)))
  {
  }

  /** Every status outside 200, 400, 401 and 5xx (1xx, 3xx, 418, ...) is an unknown error. */
  lemma OtherStatusIsUnknownError(status: int, headers: seq<Header>, bytes: seq<byte>, codecs: Codecs)
    requires status != 200 && status != 400 && status != 401 && !IsServerError(status)
    requires codecs.fromUtf8(bytes).Some?
    ensures Classify(Responded(status, headers, Read(bytes)), codecs) == Err(InvalidMessage(UnknownError))
  {
  }

  /** The corrected 200 path: a body that does not parse is an unknown error. */
  lemma MalformedOkBodyIsUnknownError(headers: seq<Header>, bytes: seq<byte>, codecs: Codecs)
    requires codecs.fromUtf8(bytes).Some? && codecs.parseResponse(codecs.fromUtf8(bytes).value).None?
    ensures Classify(Responded(200, headers, Read(bytes)), codecs) == Err(InvalidMessage(UnknownError))
  {
  }

  /**
   * The headers matter only through the retry hint, and the hint only to server
   * errors: two responses that differ only in their headers classify alike
   * unless both are server errors.
   */
  lemma HintOnlyReachesServerErrors(status: int, h1: seq<Header>, h2: seq<Header>, body: BodyRead, codecs: Codecs)
    ensures var r1 := Classify(Responded(status, h1, body), codecs);
            var r2 := Classify(Responded(status, h2, body), codecs);
            r1 == r2 || (r1.Err? && r1.error.ServerError? && r2.Err? && r2.error.ServerError?)
  {
  }

  /** Every retry hint that reaches the caller is the one the headers carried. */
  lemma HintComesFromHeaders(x: Exchange, codecs: Codecs, hint: RetryAfter)
    requires Classify(x, codecs) == Err(ServerError(Some(hint)))
    ensures x.Responded? && RetryHint(x.headers, codecs.parseRetryAfter) == Some(hint)
  {
  }

  // ---------------------------------------------------------------------------
  // The source as written

  /** What the closure in `send` does: return a result, or abort on `unwrap()`. */
  datatype Outcome = Returned(result: Result<FcmResponse, FcmError>) | Panicked

  /** The classification exactly as the source writes it, including the `unwrap()` of the 200 body parse. */
  function ClassifyAsWritten(x: Exchange, codecs: Codecs): (o: Outcome)
    ensures o.Returned? && o.result.Ok? ==> x.Responded? && x.status == 200 && !IsTransient(o.result.value.error)
  {
    match x
    case TransportFailed => Returned(Err(ServerError(None)))
    case Responded(status, headers, body) =>
      var retryAfter := RetryHint(headers, codecs.parseRetryAfter);
      match body
      case ReadFailed => Returned(Err(ServerError(None)))
      case Read(bytes) =>
        match codecs.fromUtf8(bytes)
        case None => Returned(Err(InvalidMessage(UnknownError)))
        case Some(text) =>
          if status == 200 then
            match codecs.parseResponse(text)
            case None => Panicked
            case Some(response) =>
              match response.error
              case Some(Unavailable) => Returned(Err(ServerError(retryAfter)))
              case Some(InternalServerError) => Returned(Err(ServerError(retryAfter)))
              case _ => Returned(Ok(response))
          else if status == 401 then Returned(Err(Unauthorized))
          else if status == 400 then Returned(Err(InvalidMessage(BadRequest)))
          else if IsServerError(status) then Returned(Err(ServerError(retryAfter)))
          else Returned(Err(InvalidMessage(UnknownError)))
  }

  /** A 200 response whose body decodes as text but does not parse as a response. */
  predicate MalformedOkBody(x: Exchange, codecs: Codecs) {
    && x.Responded? && x.status == 200 && x.body.Read?
    && codecs.fromUtf8(x.body.bytes).Some?
    && codecs.parseResponse(codecs.fromUtf8(x.body.bytes).value).None?
  }

  /**
   * The source aborts exactly on a malformed 200 body, and everywhere else
   * agrees with the corrected classification.
   */
  lemma AsWrittenDiffersOnlyOnMalformedOkBody(x: Exchange, codecs: Codecs)
    ensures ClassifyAsWritten(x, codecs) == Panicked <==> MalformedOkBody(x, codecs)
    ensures !MalformedOkBody(x, codecs) ==> ClassifyAsWritten(x, codecs) == Returned(Classify(x, codecs))
  {
  }

  /**
   * With a parser that accepts the body "{}", that body is delivered, while a
   * 200 response with the body "not json" aborts `send` as written.
   */
  lemma AsWrittenPanicsOnNonJsonBody()
    ensures var good := Ascii("{}");
            var bad := Ascii("not json");
            var delivered := FcmResponse(None, []);
            var codecs := Codecs(b => Some(Chars(b)),
                                 s => if s == Chars(good) then Some(delivered) else None,
                                 s => None);
            && ClassifyAsWritten(Responded(200, [], Read(good)), codecs) == Returned(Ok(delivered))
            && ClassifyAsWritten(Responded(200, [], Read(bad)), codecs) == Panicked
            && Classify(Responded(200, [], Read(bad)), codecs) == Err(InvalidMessage(UnknownError))
  {
    assert Chars(Ascii("not json")) != Chars(Ascii("{}"));
  }

  // ---------------------------------------------------------------------------
  // The whole send

  /**
   * `Client::send` on an already serialized payload: build the request, let the
   * transport exchange it, classify the exchange.
   */
  method Send(apiKey: seq<byte>, payload: seq<byte>, transport: Request -> Exchange, codecs: Codecs)
    returns (r: Result<FcmResponse, FcmError>)
    ensures r == Classify(transport(FcmRequest(apiKey, payload)), codecs)
    ensures r.Ok? ==> transport(FcmRequest(apiKey, payload)).Responded?
                      && transport(FcmRequest(apiKey, payload)).status == 200
  {
    var request := BuildRequest(apiKey, payload);
    var exchange := transport(request);
    r := Classify(exchange, codecs);
  }
}
