/**
 * lib/tsurezure.rb: `RequestHandler#handle_request` turns the request object
 * into the record the router works on (URL path without the query, query
 * parameters), and `HTTPServer#initialize` guards the port.
 */
module Tsurezure {
  import opened RubyStrings
  import opened RubyValues
  import opened ErrorCodes
  import opened URLUtils
  import opened HTTPUtils

  /** The hash `handle_request` builds. */
  datatype HandledRequest = HandledRequest(
    verb: Option<string>,
    url: Option<string>,
    params: Option<seq<Param>>,
    protocol: Option<string>,
    headers: map<string, string>,
    data: string)

  /**
   * `handle_request(request)`: the routed URL is `url.split('?')[0]`, the
   * parameters come from the whole URL, the other fields are copied; a nil
   * URL raises on `nil.split`.
   */
  function HandleRequest(request: RequestObject): (r: Outcome<HandledRequest>)
    ensures request.url.None? <==> r.Raised?
    ensures r.Raised? ==> r.error == NoMethodError("split")
    ensures r.Returned? ==>
              r.value.params == ExtractUrlParams(request.url.value) &&
              r.value.verb == request.verb && r.value.protocol == request.protocol &&
              r.value.headers == request.headers && r.value.data == request.data
  {
    match request.url
    case None => Raised(NoMethodError("split"))
    case Some(url) =>
      Returned(HandledRequest(request.verb, At(Split(url, '?'), 0), ExtractUrlParams(url),
                              request.protocol, request.headers, request.data))
  }

  /**
   * The routed URL is the text before the first `?` (all of it without one);
   * it is nil exactly when the URL is made of `?` only, the empty URL included.
   */
  lemma RoutedUrl(request: RequestObject)
    requires request.url.Some?
    ensures var u := request.url.value;
            var routed := HandleRequest(request).value.url;
            (routed.None? <==> forall i :: 0 <= i < |u| ==> u[i] == '?') &&
            (routed.Some? ==> routed.value == if '?' in u then u[..IndexOf(u, '?')] else u)
  {
    SplitEmptyIff(request.url.value, '?');
  }

  /** The empty URL routes to nil and carries no parameters. */
  lemma EmptyUrlRoutesNil(request: RequestObject)
    requires request.url == Some("")
    ensures HandleRequest(request).value.url == None
    ensures HandleRequest(request).value.params == Some([])
  {
    RoutedUrl(request);
    ExtractUrlParamsQuery("");
  }

  /**
   * `path + "?" + rest` with a `?`-free path routes to that path when `rest`
   * does not start with `?`; an empty path gives `""`, not nil.
   */
  lemma RoutedUrlBeforeQuery(request: RequestObject, path: string, rest: string)
    requires '?' !in path && rest != [] && rest[0] != '?'
    requires request.url == Some(path + "?" + rest)
    ensures HandleRequest(request).value.url == Some(path)
  {
    var u := request.url.value;
    IndexOfJoin(path, '?', rest);
    assert u == path + ['?'] + rest;
    assert u[..|path|] == path;
    assert u[|path| + 1] == rest[0];
    RoutedUrl(request);
  }

  const MIN_PORT := 0
  const MAX_PORT := 65535

  /**
   * The guards of `HTTPServer#initialize`: a non-number raises
   * `nan_error('port')` before the range is looked at, a number outside
   * `0..65535` raises `range_error(0, 65535)`, and any other port is kept.
   */
  function PortCheck(port: Value): (r: Outcome<int>)
    ensures r.Returned? <==> port.Int? && MIN_PORT <= port.i <= MAX_PORT
    ensures r.Returned? ==> r.value == port.i
    ensures !port.Int? ==> r == Raised(RuntimeError(NanMessage("port")))
    ensures port.Int? && !(MIN_PORT <= port.i <= MAX_PORT) ==> r == Raised(RuntimeError(RangeMessage(MIN_PORT, MAX_PORT)))
  {
    if !port.Int? then Raised(RuntimeError(NanMessage("port")))
    else if !(MIN_PORT <= port.i <= MAX_PORT) then Raised(RuntimeError(RangeMessage(MIN_PORT, MAX_PORT)))
    else Returned(port.i)
  }

  /** A rejected port's message says why: it names the parameter, or it states the bounds. */
  lemma PortErrorExplains(port: Value)
    requires PortCheck(port).Raised?
    ensures PortCheck(port).error.RuntimeError?
    ensures var msg := PortCheck(port).error.message;
            !port.Int? ==> Unframe(msg, NAN_PREFIX, NAN_SUFFIX) == Some("port")
    ensures var msg := PortCheck(port).error.message;
            port.Int? ==> RangeBounds(msg) == Some((MIN_PORT, MAX_PORT)) && (port.i < MIN_PORT || port.i > MAX_PORT)
  {
    NanMessageNamesItem("port");
    RangeMessageNamesBounds(MIN_PORT, MAX_PORT);
  }

  /** `Tsurezure::HTTPServer`: the port it listens on. */
  class HTTPServer {
    var port: int

    constructor (port: int)
      requires MIN_PORT <= port <= MAX_PORT
      ensures this.port == port
    {
      this.port := port;
    }

    /** `HTTPServer.new(port)`: the guards, then `@port` is set. */
    static method New(port: Value) returns (r: Outcome<HTTPServer>)
      ensures PortCheck(port).Raised? ==> r == Raised(PortCheck(port).error)
      ensures PortCheck(port).Returned? ==>
                r.Returned? && fresh(r.value) && r.value.port == PortCheck(port).value
    {
      if !port.Int? {
        return Raised(RuntimeError(NanMessage("port")));
      }
      if !(MIN_PORT <= port.i <= MAX_PORT) {
        return Raised(RuntimeError(RangeMessage(MIN_PORT, MAX_PORT)));
      }
      var server := new HTTPServer(port.i);
      return Returned(server);
    }
  }
}
