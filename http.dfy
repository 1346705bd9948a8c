/**
 * The parts of the `http` crate that `Client::send` relies on: header lists,
 * the request record, the step-by-step request builder, header lookup,
 * `HeaderValue::to_str` and `StatusCode::is_server_error`.
 */
module Http {
  import opened Wrappers
  import opened Bytes

  /** One header line: a lower-case name (as the `http` constants are) and raw value bytes. */
  datatype Header = Header(name: string, value: seq<byte>)

  datatype Request = Request(verb: string, uri: string, headers: seq<Header>, body: seq<byte>)

  /**
   * The value of the first header called `name`, as `HeaderMap::get` returns it,
   * or None when no header has that name.
   */
  function HeaderGet(headers: seq<Header>, name: string): (r: Option<seq<byte>>)
    ensures r.None? <==> forall i :: 0 <= i < |headers| ==> headers[i].name != name
    ensures r.Some? ==> exists i :: 0 <= i < |headers| && headers[i] == Header(name, r.value)
                                    && forall j :: 0 <= j < i ==> headers[j].name != name
  {
    if |headers| == 0 then None
    else if headers[0].name == name then
      assert headers[0] == Header(name, headers[0].value);
      Some(headers[0].value)
    else
      var r := HeaderGet(headers[1..], name);
      if r.Some? then
        var k :| 0 <= k < |headers[1..]| && headers[1..][k] == Header(name, r.value)
                 && forall j :: 0 <= j < k ==> headers[1..][j].name != name;
        assert headers[k + 1] == Header(name, r.value);
        assert forall j :: 0 <= j < k + 1 ==> headers[j].name != name by {
          forall j | 0 <= j < k + 1 ensures headers[j].name != name {
            if j > 0 { assert headers[j] == headers[1..][j - 1]; }
          }
        }
        r
      else
        r
  }

  /** The bytes `HeaderValue::to_str` accepts: printable ASCII and horizontal tab. */
  predicate IsVisibleAscii(b: byte) {
    32 <= b < 127 || b == 9
  }

  /**
   * `HeaderValue::to_str`: the value as text when every byte is visible ASCII,
   * otherwise no text at all.
   */
  function HeaderToStr(v: seq<byte>): (r: Option<string>)
    ensures r.Some? <==> forall i :: 0 <= i < |v| ==> IsVisibleAscii(v[i])
    ensures r.Some? ==> |r.value| == |v| && forall i :: 0 <= i < |v| ==> r.value[i] as int == v[i]
  {
    if |v| == 0 then Some([])
    else if !IsVisibleAscii(v[0]) then None
    else match HeaderToStr(v[1..])
      case None => None
      case Some(rest) => Some([v[0] as char] + rest)
  }

  /** `StatusCode::is_server_error`: the 5xx range, the statuses whose hundreds digit is 5. */
  predicate IsServerError(status: int)
    ensures IsServerError(status) <==> status / 100 == 5
  {
    500 <= status < 600
  }

  /**
   * `http::request::Builder`: starts as a GET of "/" with no headers; each call
   * sets the method or the URI, or appends one header (`HeaderMap::append`);
   * `Body` finishes the request.
   */
  class RequestBuilder {
    var verb: string
    var uri: string
    var headers: seq<Header>

    constructor ()
      ensures verb == "GET" && uri == "/" && headers == []
    {
      verb := "GET";
      uri := "/";
      headers := [];
    }

    method Method(m: string)
      modifies this
      ensures verb == m && uri == old(uri) && headers == old(headers)
    {
      verb := m;
    }

    method Uri(u: string)
      modifies this
      ensures uri == u && verb == old(verb) && headers == old(headers)
    {
      uri := u;
    }

    method AppendHeader(name: string, value: seq<byte>)
      modifies this
      ensures headers == old(headers) + [Header(name, value)]
      ensures verb == old(verb) && uri == old(uri)
    {
      headers := headers + [Header(name, value)];
    }

    method Body(payload: seq<byte>) returns (r: Request)
      ensures r.verb == verb && r.uri == uri && r.headers == headers && r.body == payload
    {
      r := Request(verb, uri, headers, payload);
    }
  }
}
