/**
 * `TResponse` (lib/utils/response.rb): routes a request object to its
 * endpoint by an exact lookup on `(method, url)` and turns the handler's
 * result into a response hash. A missing route answers a 404 envelope.
 */
module TResponse {
  import opened RubyValues

  /** The method names `validate_request` accepts, in its order; OPTIONS is listed twice. */
  const VALID_METHODS: seq<string> := [
    "CONNECT", "COPY", "DELETE", "GET", "HEAD",
    "LINK", "LOCK", "MKCOL", "MOVE", "OPTIONS",
    "OPTIONS", "PATCH", "POST", "PROPFIND",
    "PROPPATCH", "PURGE", "PUT", "TRACE",
    "UNLINK", "UNLOCK", "VIEW"]

  /** `valid_methods.include?(v)`: only a String equal to a listed name (a Symbol is not). */
  predicate Listed(v: Value) {
    v.Str? && v.s in VALID_METHODS
  }

  /**
   * `Utils.validate_request(request)`: `false` for an unlisted method and
   * `nil` otherwise; a nil request raises on `nil[:method]`.
   */
  function ValidateRequest(request: Option<map<Value, Value>>): (r: Outcome<Value>)
    ensures request.None? <==> r.Raised?
    ensures r.Raised? ==> r.error == NoMethodError("[]")
    ensures request.Some? ==> (r == Returned(Bool(false)) <==> !Listed(Get(request.value, Sym("method"))))
    ensures request.Some? ==> (r == Returned(Nil) <==> Listed(Get(request.value, Sym("method"))))
  {
    match request
    case None => Raised(NoMethodError("[]"))
    case Some(req) => if Listed(Get(req, Sym("method"))) then Returned(Nil) else Returned(Bool(false))
  }

  /** What an endpoint's `:responder` proc returns: a Hash or any other value. */
  datatype HandlerResult = Raw(v: NonHash) | Hash(m: map<Value, Value>)

  /** An endpoint entry: its hash without `:responder`, and the `:responder` proc itself. */
  datatype Endpoint = Endpoint(fields: map<Value, Value>, responder: map<Value, Value> -> HandlerResult)

  /** The endpoint table: method, then URL, then endpoint. */
  type Endpoints = map<Value, map<Value, Endpoint>>

  /** The request names a method bucket of the table and a URL inside it. */
  predicate Routed(request: map<Value, Value>, endpoints: Endpoints) {
    Get(request, Sym("method")) in endpoints &&
    Get(request, Sym("url")) in endpoints[Get(request, Sym("method"))]
  }

  /**
   * `Utils.ensure_response(request, endpoints)`: false for a nil or empty
   * request or table, then `endpoints[method][url]` is looked up, which
   * raises when the table has no bucket for the method.
   */
  function EnsureResponse(request: Option<map<Value, Value>>, endpoints: Option<Endpoints>): (r: Outcome<bool>)
    ensures r == Returned(true) <==>
              request.Some? && request.value != map[] && endpoints.Some? && endpoints.value != map[] &&
              Routed(request.value, endpoints.value)
    ensures r.Raised? <==>
              request.Some? && request.value != map[] && endpoints.Some? && endpoints.value != map[] &&
              Get(request.value, Sym("method")) !in endpoints.value
    ensures r.Raised? ==> r.error == NoMethodError("[]")
  {
    if request.None? || request.value == map[] then Returned(false)
    else if endpoints.None? || endpoints.value == map[] then Returned(false)
    else
      var verb := Get(request.value, Sym("method"));
      if verb !in endpoints.value then Raised(NoMethodError("[]"))
      else Returned(Get(request.value, Sym("url")) in endpoints.value[verb])
  }

  /** `endpoint.merge(request)` without `:responder`: the hash the handler receives. */
  function Merged(endpoint: Endpoint, request: map<Value, Value>): (final: map<Value, Value>)
    ensures Sym("responder") !in final
    ensures forall k :: k in request && k != Sym("responder") ==> k in final && final[k] == request[k]
    ensures forall k :: k in endpoint.fields && k !in request && k != Sym("responder") ==>
              k in final && final[k] == endpoint.fields[k]
    ensures forall k :: k in final ==> k in endpoint.fields || k in request
  {
    (endpoint.fields + request) - {Sym("responder")}
  }

  /** The 404 envelope. */
  const NOT_FOUND: map<Value, Value> := map[Sym("status") := Int(404), Sym("message") := Str("undefined endpoint")]

  /**
   * `activate_endpoint(endpoint, request)`: the handler is called on the
   * merged hash; a non-Hash result is wrapped as a 200 response, and a Hash
   * result gets its `:options` replaced by the merged hash's `:options`
   * (nil when neither side has one).
   */
  function Activated(endpoint: Endpoint, request: map<Value, Value>): (r: map<Value, Value>)
    ensures endpoint.responder(Merged(endpoint, request)).Raw? ==>
              r == map[Sym("status") := Int(200), Sym("message") := endpoint.responder(Merged(endpoint, request)).v]
    ensures endpoint.responder(Merged(endpoint, request)).Hash? ==>
              Sym("options") in r && r[Sym("options")] == Get(Merged(endpoint, request), Sym("options")) &&
              forall k :: k in r && k != Sym("options") ==>
                k in endpoint.responder(Merged(endpoint, request)).m &&
                r[k] == endpoint.responder(Merged(endpoint, request)).m[k]
    ensures endpoint.responder(Merged(endpoint, request)).Hash? ==>
              forall k :: k in endpoint.responder(Merged(endpoint, request)).m ==> k in r
  {
    var final := Merged(endpoint, request);
    match endpoint.responder(final)
    case Raw(v) => map[Sym("status") := Int(200), Sym("message") := v]
    case Hash(m) => m[Sym("options") := Get(final, Sym("options"))]
  }

  /** `activate_endpoint`, step by step: merge, delete `:responder`, call, amend. */
  method ActivateEndpoint(endpoint: Endpoint, request: map<Value, Value>) returns (r: map<Value, Value>)
    ensures r == Activated(endpoint, request)
  {
    var final := endpoint.fields + request;
    final := final - {Sym("responder")};
    var response := endpoint.responder(final);
    if response.Raw? {
      return map[Sym("status") := Int(200), Sym("message") := response.v];
    }
    r := response.m;
    r := r[Sym("options") := Get(final, Sym("options"))];
  }

  /**
   * `get_response(request, endpoints)`: `validate_request`'s answer is
   * discarded; a request `ensure_response` does not accept answers the 404
   * envelope, and a routed one activates its endpoint.
   */
  function GetResponse(request: Option<map<Value, Value>>, endpoints: Option<Endpoints>): (r: Outcome<map<Value, Value>>)
    ensures r.Raised? ==> r.error == NoMethodError("[]")
    ensures r.Raised? <==>
              request.None? ||
              (request.value != map[] && endpoints.Some? && endpoints.value != map[] &&
               Get(request.value, Sym("method")) !in endpoints.value)
    ensures request.Some? && request.value != map[] && endpoints.Some? && Routed(request.value, endpoints.value) ==>
              r == Returned(Activated(endpoints.value[Get(request.value, Sym("method"))][Get(request.value, Sym("url"))], request.value))
    ensures r.Returned? && r.value != NOT_FOUND ==>
              request.Some? && endpoints.Some? && Routed(request.value, endpoints.value) &&
              r.value == Activated(endpoints.value[Get(request.value, Sym("method"))][Get(request.value, Sym("url"))], request.value)
  {
    match ValidateRequest(request)
    case Raised(e) => Raised(e)
    case Returned(_) =>
      match EnsureResponse(request, endpoints)
      case Raised(e) => Raised(e)
      case Returned(found) =>
        if !found then Returned(NOT_FOUND)
        else
          var req := request.value;
          Returned(Activated(endpoints.value[Get(req, Sym("method"))][Get(req, Sym("url"))], req))
  }

  /** No activated endpoint answers the 404 envelope: it has status 200 or an `:options` key. */
  lemma ActivatedIsNotNotFound(endpoint: Endpoint, request: map<Value, Value>)
    ensures Activated(endpoint, request) != NOT_FOUND
  {
    var r := Activated(endpoint, request);
    if endpoint.responder(Merged(endpoint, request)).Raw? {
      assert r[Sym("status")] == Int(200);
    } else {
      assert Sym("options") in r;
      assert Sym("options") !in NOT_FOUND;
    }
  }

  /**
   * For a request that is not nil, the answer is the 404 envelope exactly
   * when the request or the table is empty (or the table nil), or the
   * method's bucket has no entry for the URL: an exact lookup, no patterns.
   */
  lemma NotFoundIff(request: map<Value, Value>, endpoints: Option<Endpoints>)
    ensures GetResponse(Some(request), endpoints) == Returned(NOT_FOUND) <==>
              request == map[] || endpoints.None? || endpoints.value == map[] ||
              (Get(request, Sym("method")) in endpoints.value && !Routed(request, endpoints.value))
  {
    if EnsureResponse(Some(request), endpoints) == Returned(true) {
      var eps := endpoints.value;
      ActivatedIsNotNotFound(eps[Get(request, Sym("method"))][Get(request, Sym("url"))], request);
    }
  }

  /** A non-empty table without a bucket for the request's method raises instead of answering 404. */
  lemma MissingBucketRaises(request: map<Value, Value>, endpoints: Endpoints)
    requires request != map[] && endpoints != map[]
    requires Get(request, Sym("method")) !in endpoints
    ensures GetResponse(Some(request), Some(endpoints)) == Raised(NoMethodError("[]"))
  {
  }

  /** A nil request raises in `validate_request`, before `ensure_response` could answer 404. */
  lemma NilRequestRaises(endpoints: Option<Endpoints>)
    ensures GetResponse(None, endpoints) == Raised(NoMethodError("[]"))
  {
  }

  /** An unlisted method is reported by `validate_request` and still routed and activated. */
  lemma UnlistedMethodStillActivates(request: map<Value, Value>, endpoints: Endpoints)
    requires !Listed(Get(request, Sym("method")))
    requires request != map[] && Routed(request, endpoints)
    ensures ValidateRequest(Some(request)) == Returned(Bool(false))
    ensures GetResponse(Some(request), Some(endpoints)) ==
            Returned(Activated(endpoints[Get(request, Sym("method"))][Get(request, Sym("url"))], request))
  {
  }

  /** `{method: 'FOO', url: '/x'}` routed to an endpoint passes validation with `false` and is answered by its handler. */
  lemma FooMethodIsServed(endpoint: Endpoint)
    ensures var request := map[Sym("method") := Str("FOO"), Sym("url") := Str("/x")];
            var endpoints := map[Str("FOO") := map[Str("/x") := endpoint]];
            ValidateRequest(Some(request)) == Returned(Bool(false)) &&
            GetResponse(Some(request), Some(endpoints)) == Returned(Activated(endpoint, request))
  {
    var request := map[Sym("method") := Str("FOO"), Sym("url") := Str("/x")];
    var endpoints := map[Str("FOO") := map[Str("/x") := endpoint]];
    assert Get(request, Sym("method")) == Str("FOO");
    assert Get(request, Sym("url")) == Str("/x");
    assert "FOO" !in VALID_METHODS;
    UnlistedMethodStillActivates(request, endpoints);
  }

  /**
   * The `:options` a Hash result carries are the request's when the request
   * has them, and the endpoint's otherwise.
   */
  lemma OptionsFromRequestElseEndpoint(endpoint: Endpoint, request: map<Value, Value>)
    requires endpoint.responder(Merged(endpoint, request)).Hash?
    ensures Activated(endpoint, request)[Sym("options")] ==
            if Sym("options") in request then request[Sym("options")] else Get(endpoint.fields, Sym("options"))
  {
  }

  /** The handler never sees a `:responder` key, whichever side carried one, and sees every request key. */
  lemma HandlerSeesRequest(endpoint: Endpoint, request: map<Value, Value>)
    ensures Sym("responder") !in Merged(endpoint, request)
    ensures request.Keys - {Sym("responder")} <= Merged(endpoint, request).Keys
  {
  }
}
