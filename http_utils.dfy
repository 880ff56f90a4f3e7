/**
 * Request assembly in `HTTPUtils` (lib/utils/http_utils.rb):
 * `make_proper_request` reads the headers and the body from the client and
 * cuts the request line into method, URL and protocol; `make_request_object`
 * defaults a missing body to `'{}'` for the JSON parser.
 */
module HTTPUtils {
  import opened RubyStrings
  import opened RubyValues
  import opened HeaderUtils

  /** The hash built by `make_proper_request`; a missing word of the request line is nil. */
  datatype RawRequest = RawRequest(
    headers: map<string, string>,
    data: Option<string>,
    verb: Option<string>,
    url: Option<string>,
    protocol: Option<string>)

  /**
   * `make_proper_request(client, request)` on client input `s`: the header
   * block, then the body, then the first three words of the request line.
   */
  function ProperRequest(s: string, request: string): (r: Outcome<RawRequest>)
    ensures r.Returned? && "Content-Length" !in r.value.headers ==> r.value.data.None?
    ensures r.Returned? && r.value.data.Some? ==> 0 < |r.value.data.value| <= ContentLength(r.value.headers)
  {
    match ReadHeaders(s, map[])
    case Raised(e) => Raised(e)
    case Returned(read) =>
      match ReqData(read.rest, read.headers)
      case Raised(e) => Raised(e)
      case Returned(data) =>
        var words := Words(request);
        Returned(RawRequest(read.headers, data, At(words, 0), At(words, 1), At(words, 2)))
  }

  /**
   * `make_proper_request(client, request)`: on success the client is left
   * just after the body, which is the announced length after the blank line.
   */
  method MakeProperRequest(client: Client, request: string) returns (r: Outcome<RawRequest>)
    modifies client
    ensures r == ProperRequest(old(client.pending), request)
    ensures r.Returned? ==>
              var read := ReadHeaders(old(client.pending), map[]).value;
              client.pending == read.rest[Consumed(read.rest, ContentLength(read.headers))..]
  {
    var headers := GetHeaders(client);
    if headers.Raised? {
      return Raised(headers.error);
    }
    var data := GetReqData(client, headers.value);
    if data.Raised? {
      return Raised(data.error);
    }
    var words := Words(request);
    return Returned(RawRequest(headers.value, data.value, At(words, 0), At(words, 1), At(words, 2)));
  }

  /** A header-free request line of three words, as HTTP/1.1 clients send it. */
  predicate RequestLineWords(a: string, b: string, c: string) {
    a != [] && b != [] && c != [] &&
    (forall i :: 0 <= i < |a| ==> !IsSpace(a[i])) &&
    (forall i :: 0 <= i < |b| ==> !IsSpace(b[i])) &&
    (forall i :: 0 <= i < |c| ==> !IsSpace(c[i]))
  }

  /**
   * A well-formed request without `Content-Length`: the headers are read
   * with the last value of a name winning, the body is left unread and the
   * data is nil, and the request line gives method, URL and protocol.
   */
  lemma RequestWithoutBody(a: string, b: string, c: string, hs: seq<Header>, body: string)
    requires RequestLineWords(a, b, c)
    requires forall i :: 0 <= i < |hs| ==> WellFormed(hs[i]) && hs[i].name != "Content-Length"
    ensures ProperRequest(HeaderBlock(hs) + "\r\n" + body, a + " " + b + " " + c + "\r\n") ==
            Returned(RawRequest(Store(map[], hs), None, Some(a), Some(b), Some(c)))
  {
    ReadHeaderBlock(hs, body, map[]);
    StoreAbsent(map[], hs, "Content-Length");
    WordsOfRequestLine(a, b, c);
  }

  /** `Integer#to_s` of a natural number is a well-formed header value. */
  lemma ContentLengthWellFormed(n: nat)
    ensures WellFormed(Header("Content-Length", DecimalString(n)))
  {
    var d := DecimalString(n);
    assert d == Digits(n);
    assert forall i :: 0 <= i < |d| ==> IsDigit(d[i]);
    assert forall i :: 0 <= i < |"Content-Length"| ==> !IsSpace("Content-Length"[i]);
  }

  /**
   * A well-formed request whose last header is `Content-Length: n`: exactly
   * the first `n` characters after the blank line are its data.
   */
  lemma RequestWithBody(a: string, b: string, c: string, hs: seq<Header>, n: nat, body: string)
    requires RequestLineWords(a, b, c)
    requires forall i :: 0 <= i < |hs| ==> WellFormed(hs[i])
    requires 0 < n <= |body|
    ensures var all := hs + [Header("Content-Length", DecimalString(n))];
            ProperRequest(HeaderBlock(all) + "\r\n" + body, a + " " + b + " " + c + "\r\n") ==
            Returned(RawRequest(Store(map[], all), Some(body[..n]), Some(a), Some(b), Some(c)))
  {
    ReadHeadersWithLength(hs, n, body);
    DataOfLength(hs, n, body);
    WordsOfRequestLine(a, b, c);
  }

  /** The header block ending in `Content-Length: n` is read whole, and the body is what follows the blank line. */
  lemma ReadHeadersWithLength(hs: seq<Header>, n: nat, body: string)
    requires forall i :: 0 <= i < |hs| ==> WellFormed(hs[i])
    ensures var all := hs + [Header("Content-Length", DecimalString(n))];
            ReadHeaders(HeaderBlock(all) + "\r\n" + body, map[]) == Returned(HeadersRead(Store(map[], all), body))
  {
    var all := hs + [Header("Content-Length", DecimalString(n))];
    ContentLengthWellFormed(n);
    assert forall i :: 0 <= i < |all| ==> WellFormed(all[i]);
    ReadHeaderBlock(all, body, map[]);
  }

  /** With `Content-Length: n` last, the data is the first `n` characters of the body. */
  lemma DataOfLength(hs: seq<Header>, n: nat, body: string)
    requires 0 < n <= |body|
    ensures ReqData(body, Store(map[], hs + [Header("Content-Length", DecimalString(n))])) == Returned(Some(body[..n]))
  {
    var all := hs + [Header("Content-Length", DecimalString(n))];
    StoreLastWins(map[], all, |hs|);
    ReqDataReadsContentLength(Store(map[], all), body, n);
  }

  /** The hash built by `make_request_object`; `data` is the text handed to `JSON.parse`. */
  datatype RequestObject = RequestObject(
    headers: map<string, string>,
    data: string,
    verb: Option<string>,
    url: Option<string>,
    protocol: Option<string>)

  /** `make_request_object(req)`: a nil body becomes `'{}'`; the other fields are copied. */
  function MakeRequestObject(req: RawRequest): (r: RequestObject)
    ensures req.data.Some? ==> r.data == req.data.value
    ensures req.data.None? ==> r.data == "{}"
    ensures r.headers == req.headers && r.verb == req.verb && r.url == req.url && r.protocol == req.protocol
  {
    var data := if req.data.None? then "{}" else req.data.value;
    RequestObject(req.headers, data, req.verb, req.url, req.protocol)
  }
}
