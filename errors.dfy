/**
 * Error payloads (lib/utils/errors.rb). The `*_error` builders in Ruby raise
 * `ArgumentError` with a JSON text; here each returns the exception it
 * raises, carrying the payload hash before serialisation, and the callers in
 * `OUtil` turn it into `Raised(...)`. `make_http_error` returns its payload.
 */
module ErrorMessage {
  import opened RubyStrings
  import opened RubyValues

  /** The value under `key` in an ordered payload. */
  function Lookup(fields: seq<Field>, key: string): (r: Option<Value>)
    ensures r.None? <==> key !in Keys(fields)
  {
    if fields == [] then None
    else if fields[0].key == key then Some(fields[0].value)
    else Lookup(fields[1..], key)
  }

  /** `invalid_key_error(method, key)`: a payload with a message only, no status. */
  function InvalidKeyError(methodName: string, key: Value): (e: RubyError)
    ensures e.ArgumentError? && Keys(e.payload) == ["message"]
  {
    ArgumentError([Field("message", Str("invalid key '" + ToS(key) + "' used as parameter to " + methodName + "."))])
  }

  /** `invalid_http_method_error(key, val, method)`: status 405, and the allowed method under `options`. */
  function InvalidHttpMethodError(key: Value, val: Value, methodName: string): (e: RubyError)
    ensures e.ArgumentError? && Keys(e.payload) == ["message", "status", "options"]
    ensures Lookup(e.payload, "status") == Some(Int(405))
    ensures Lookup(e.payload, "options") == Some(Dict(map[Sym("allowed") := val]))
  {
    var fields := [
      Field("message", Str(ToS(key) + " used to access " + methodName + ". use " + ToS(val) + ".")),
      Field("status", Int(405)),
      Field("options", Dict(map[Sym("allowed") := val]))
    ];
    assert fields[1..][1..] == [fields[2]];
    assert Lookup(fields[1..], "options") == Lookup([fields[2]], "options") == Some(fields[2].value);
    ArgumentError(fields)
  }

  /** `missing_arguments_error(method)`: status 500. */
  function MissingArgumentsError(methodName: string): (e: RubyError)
    ensures e.ArgumentError? && Keys(e.payload) == ["status", "message"]
    ensures Lookup(e.payload, "status") == Some(Int(500))
  {
    ArgumentError([
      Field("status", Int(500)),
      Field("message", Str("missing arguments to " + methodName))
    ])
  }

  /** `missing_parameter_error(method)`: status 400. */
  function MissingParameterError(methodName: string): (e: RubyError)
    ensures e.ArgumentError? && Keys(e.payload) == ["status", "message"]
    ensures Lookup(e.payload, "status") == Some(Int(400))
  {
    ArgumentError([
      Field("status", Int(400)),
      Field("message", Str("missing url parameter id to " + methodName + "."))
    ])
  }

  /** `invalid_structure_error(method, keys)`: status 400. */
  function InvalidStructureError(methodName: string, keys: string): (e: RubyError)
    ensures e.ArgumentError? && Keys(e.payload) == ["status", "message"]
    ensures Lookup(e.payload, "status") == Some(Int(400))
  {
    ArgumentError([
      Field("status", Int(400)),
      Field("message", Str("invalid object with keys " + keys + " passed to " + methodName + "."))
    ])
  }

  /** `status.to_s.chr.to_i`: the leading decimal digit of a positive status, and 0 for zero or for the `-` of a negative one. */
  function FirstDigit(status: int): (d: int)
    ensures d == if status > 0 then LeadingDigit(status) else 0
  {
    var text := DecimalString(status);
    if status >= 0 then
      FirstDigitChar(status);
      ToIOneDigit(LeadingDigit(status));
      ToI([text[0]])
    else
      assert text[0] == '-';
      TrimLeftNoSpace(['-']);
      assert ['-'][1..] == [];
      ToI([text[0]])
  }

  /**
   * `make_http_error(status, message, options)`: `status` first, `options`
   * unless it is nil, then a message chosen by the first decimal digit.
   */
  function MakeHttpError(status: int, message: string, options: Value): (r: seq<Field>)
    ensures |r| >= 1 && r[0] == Field("status", Int(status))
    ensures "options" in Keys(r) <==> options != Nil
    ensures options != Nil ==> Lookup(r, "options") == Some(options)
  {
    var error := [Field("status", Int(status))] + (if options == Nil then [] else [Field("options", options)]);
    var d := FirstDigit(status);
    if d == 4 then error + [Field("message", Str("bad request: " + message))]
    else if d == 5 then error + [Field("message", Str("server error: " + message))]
    else error
  }

  lemma ToIOneDigit(d: nat)
    requires d < 10
    ensures ToI([DigitChar(d)]) == d
  {
    var s := [DigitChar(d)];
    TrimLeftNoSpace(s);
    assert DigitRunLen(s[1..]) == 0;
    assert DigitRunLen(s) == 1;
    assert s[..1] == s && s[..0] == [];
    assert DigitsValue(s) == d;
  }

  lemma {:induction false} LookupAppended(fields: seq<Field>, key: string, v: Value)
    requires key !in Keys(fields)
    ensures Lookup(fields + [Field(key, v)], key) == Some(v)
  {
    if fields != [] {
      assert (fields + [Field(key, v)])[1..] == fields[1..] + [Field(key, v)];
      LookupAppended(fields[1..], key, v);
    }
  }

  /**
   * The message of `make_http_error` is decided by the leading decimal digit
   * alone: 4 gives "bad request: ", 5 gives "server error: ", anything else
   * (zero and negative statuses included) gives no message.
   */
  lemma HttpErrorMessageByLeadingDigit(status: int, message: string, options: Value)
    ensures status > 0 && LeadingDigit(status) == 4 ==>
              Lookup(MakeHttpError(status, message, options), "message") == Some(Str("bad request: " + message))
    ensures status > 0 && LeadingDigit(status) == 5 ==>
              Lookup(MakeHttpError(status, message, options), "message") == Some(Str("server error: " + message))
    ensures status <= 0 || LeadingDigit(status) !in {4, 5} ==>
              "message" !in Keys(MakeHttpError(status, message, options))
  {
    var r := MakeHttpError(status, message, options);
    var base := [Field("status", Int(status))] + (if options == Nil then [] else [Field("options", options)]);
    assert "message" !in Keys(base);
    LookupAppended(base, "message", Str("bad request: " + message));
    LookupAppended(base, "message", Str("server error: " + message));
  }

  lemma LeadingDigitOfThreeDigits(n: nat)
    requires 100 <= n < 1000
    ensures LeadingDigit(n) == n / 100
  {
    assert LeadingDigit(n) == LeadingDigit(n / 10);
  }

  /** For three-digit statuses: the 4xx range is a bad request, the 5xx range a server error, others carry no message. */
  lemma HttpErrorMessageByClass(status: int, message: string, options: Value)
    requires 100 <= status < 1000
    ensures 400 <= status < 500 ==>
              Lookup(MakeHttpError(status, message, options), "message") == Some(Str("bad request: " + message))
    ensures 500 <= status < 600 ==>
              Lookup(MakeHttpError(status, message, options), "message") == Some(Str("server error: " + message))
    ensures status < 400 || status >= 600 ==>
              "message" !in Keys(MakeHttpError(status, message, options))
  {
    LeadingDigitOfThreeDigits(status);
    HttpErrorMessageByLeadingDigit(status, message, options);
  }
}

/** Custom exception classes (lib/utils/errors.rb). */
module CustomError {
  const DEFAULT_SERVER_ERROR_MESSAGE := "an internal server error occurred."

  /** `ServerError`: a StandardError whose message defaults to a fixed text. */
  class ServerError {
    const message: string

    constructor (message: string := DEFAULT_SERVER_ERROR_MESSAGE)
      ensures this.message == message
    {
      this.message := message;
    }
  }

  /** `ServerError.new` without an argument carries the default message. */
  method NewDefaultServerError() returns (e: ServerError)
    ensures e.message == "an internal server error occurred."
  {
    e := new ServerError();
  }
}
