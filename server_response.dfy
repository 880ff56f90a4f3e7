/**
 * `HTTPUtils::ServerResponse` (lib/utils/http_utils.rb): writes a status
 * line, the headers, a blank line and the body to the client session, then
 * closes it. The renderer `r_<status>` is looked up by name and called with
 * or without `options` depending on `options[:method]`.
 */
module ServerResponses {
  import opened RubyStrings
  import opened RubyValues

  /** The client session: the lines `puts` has written, and whether it is closed. */
  class Session {
    var lines: seq<string>
    var closed: bool

    constructor ()
      ensures lines == [] && !closed
    {
      lines := [];
      closed := false;
    }

    /** `puts(line)`: one more line, or `IOError` once the session is closed. */
    method Puts(line: string) returns (r: Outcome<()>)
      modifies this
      ensures old(closed) ==> r == Raised(IOError) && lines == old(lines) && closed
      ensures !old(closed) ==> r == Returned(()) && lines == old(lines) + [line] && !closed
    {
      if closed {
        return Raised(IOError);
      }
      lines := lines + [line];
      return Returned(());
    }

    /** `close`. */
    method Close()
      modifies this
      ensures closed && lines == old(lines)
    {
      closed := true;
    }
  }

  /** The status codes that have a renderer `r_<code>`. */
  const RENDERERS: set<string> := {"200", "400", "404", "405", "500"}

  /** The status line each renderer writes first. */
  function StatusLine(code: string): (line: string)
    requires code in RENDERERS
    ensures |line| > 12 && line[..9] == "HTTP/1.1 " && line[9..12] == code
  {
    var reason :=
      if code == "200" then "OK"
      else if code == "400" then "Bad Request"
      else if code == "404" then "Not Found"
      else if code == "405" then "Method Not Allowed"
      else "Internal Server Error";
    "HTTP/1.1 " + code + " " + reason
  }

  /**
   * The renderer `respond` runs: `r_#{status}` when it exists, called with
   * `options` iff `options[:method]` is non-nil, so `r_405` needs
   * `options[:method]` and every other renderer refuses it with an arity
   * error; a status without a renderer falls back to `r_400`.
   */
  function Dispatch(status: Value, options: map<Value, Value>): (r: Outcome<string>)
    ensures r.Returned? ==> r.value in RENDERERS
    ensures ToS(status) !in RENDERERS ==> r == Returned("400")
    ensures ToS(status) in RENDERERS ==>
              (r.Returned? <==> ((ToS(status) == "405") == (Get(options, Sym("method")) != Nil)))
    ensures r.Returned? && ToS(status) in RENDERERS ==> r.value == ToS(status)
    ensures r.Raised? ==> r.error.WrongArity?
  {
    var name := ToS(status);
    var withOptions := Get(options, Sym("method")) != Nil;
    if name !in RENDERERS then Returned("400")
    else if name == "405" then
      if withOptions then Returned(name) else Raised(WrongArity(0, 1))
    else
      if withOptions then Raised(WrongArity(1, 0)) else Returned(name)
  }

  /** `options[:content_type] || content_type`. */
  function ContentTypeOf(options: map<Value, Value>, contentType: Value): (r: Value)
    ensures Truthy(Get(options, Sym("content_type"))) ==> r == options[Sym("content_type")]
    ensures !Truthy(Get(options, Sym("content_type"))) ==> r == contentType
  {
    var given := Get(options, Sym("content_type"));
    if Truthy(given) then given else contentType
  }

  /** The lines renderer `code` writes. */
  function HeadLines(code: string, contentType: Value, length: Value, options: map<Value, Value>): seq<string>
    requires code in RENDERERS
  {
    [StatusLine(code), "Content-Type: " + ToS(contentType), "Content-Length: " + ToS(length)] +
    (if code == "405" then ["Allow: " + ToS(Get(options, Str("allowed")))] else [])
  }

  /**
   * Everything `respond` writes after renderer `code`: the status line,
   * `Content-Type`, `Content-Length` with the length given to the
   * constructor (whatever the body is), `Allow` for 405 only, a blank line,
   * and the body last.
   */
  function ResponseLines(code: string, contentType: Value, length: Value, options: map<Value, Value>, response: string): (lines: seq<string>)
    requires code in RENDERERS
    ensures |lines| == if code == "405" then 6 else 5
    ensures lines[0] == StatusLine(code)
    ensures lines[1] == "Content-Type: " + ToS(contentType)
    ensures lines[2] == "Content-Length: " + ToS(length)
    ensures code == "405" ==> lines[3] == "Allow: " + ToS(Get(options, Str("allowed")))
    ensures lines[|lines| - 2] == "" && lines[|lines| - 1] == response
  {
    HeadLines(code, contentType, length, options) + ["", response]
  }

  /** `ServerResponse`: a session, the length to announce, and the content type of the current response. */
  class ServerResponse {
    const session: Session
    const length: Value
    var contentType: Value

    /** `ServerResponse.new(session, length)`. */
    constructor (session: Session, length: Value)
      ensures this.session == session && this.length == length && this.contentType == Nil
    {
      this.session := session;
      this.length := length;
      this.contentType := Nil;
    }

    /** The three lines every renderer starts with. */
    method Head(statusLine: string) returns (r: Outcome<()>)
      modifies session
      ensures old(session.closed) ==> r == Raised(IOError) && session.lines == old(session.lines) && session.closed
      ensures !old(session.closed) ==>
                r == Returned(()) && !session.closed &&
                session.lines == old(session.lines) + [statusLine, "Content-Type: " + ToS(contentType), "Content-Length: " + ToS(length)]
    {
      r := session.Puts(statusLine);
      if r.Raised? {
        return;
      }
      r := session.Puts("Content-Type: " + ToS(contentType));
      r := session.Puts("Content-Length: " + ToS(length));
    }

    /** `r_200`, `r_400`, `r_404`, `r_500`: the renderers without arguments. */
    method Render(code: string) returns (r: Outcome<()>)
      requires code in RENDERERS && code != "405"
      modifies session
      ensures old(session.closed) ==> r == Raised(IOError) && session.lines == old(session.lines) && session.closed
      ensures !old(session.closed) ==>
                r == Returned(()) && !session.closed &&
                session.lines == old(session.lines) + HeadLines(code, contentType, length, map[])
    {
      r := Head(StatusLine(code));
    }

    /** `r_405(options)`: the three lines and `Allow` with `options['allowed']`. */
    method Render405(options: map<Value, Value>) returns (r: Outcome<()>)
      modifies session
      ensures old(session.closed) ==> r == Raised(IOError) && session.lines == old(session.lines) && session.closed
      ensures !old(session.closed) ==>
                r == Returned(()) && !session.closed &&
                session.lines == old(session.lines) + HeadLines("405", contentType, length, options)
    {
      r := Head(StatusLine("405"));
      if r.Raised? {
        return;
      }
      r := session.Puts("Allow: " + ToS(Get(options, Str("allowed"))));
    }

    /** `method("r_#{code}").call(*args)`: Ruby checks the number of arguments before running the body. */
    method Call(code: string, args: Option<map<Value, Value>>) returns (r: Outcome<()>)
      requires code in RENDERERS
      modifies session
      ensures (code == "405") != args.Some? ==>
                r == Raised(WrongArity(if args.Some? then 1 else 0, if code == "405" then 1 else 0)) &&
                session.lines == old(session.lines) && session.closed == old(session.closed)
      ensures (code == "405") == args.Some? && old(session.closed) ==>
                r == Raised(IOError) && session.lines == old(session.lines) && session.closed
      ensures (code == "405") == args.Some? && !old(session.closed) ==>
                r == Returned(()) && !session.closed &&
                session.lines == old(session.lines) + HeadLines(code, contentType, length, if args.Some? then args.value else map[])
    {
      if code == "405" {
        if args.None? {
          return Raised(WrongArity(0, 1));
        }
        r := Render405(args.value);
      } else {
        if args.Some? {
          return Raised(WrongArity(1, 0));
        }
        r := Render(code);
      }
    }

    /** The renderer step of `respond`: `r_#{status}` when it exists, else `r_400`. */
    method RunRenderer(options: map<Value, Value>, status: Value) returns (r: Outcome<()>)
      modifies session
      ensures Dispatch(status, options).Raised? ==>
                r == Raised(Dispatch(status, options).error) &&
                session.lines == old(session.lines) && session.closed == old(session.closed)
      ensures Dispatch(status, options).Returned? && old(session.closed) ==>
                r == Raised(IOError) && session.lines == old(session.lines) && session.closed
      ensures Dispatch(status, options).Returned? && !old(session.closed) ==>
                r == Returned(()) && !session.closed &&
                session.lines == old(session.lines) + HeadLines(Dispatch(status, options).value, contentType, length, options)
    {
      var name := ToS(status);
      if name in RENDERERS {
        if Get(options, Sym("method")) == Nil {
          r := Call(name, None);
        } else {
          r := Call(name, Some(options));
        }
      } else {
        r := Render("400");
      }
    }

    /**
     * `respond(response, options = {}, status = 200, content_type =
     * 'application/json')`: sets the content type, runs the renderer, then
     * writes a blank line and the body and closes the session. A renderer
     * refused for its arity, or a closed session, raises before anything is
     * written.
     */
    method Respond(response: string, options: map<Value, Value> := map[], status: Value := Int(200),
                   contentType: Value := Str("application/json")) returns (r: Outcome<()>)
      modifies this, session
      ensures this.contentType == ContentTypeOf(options, contentType)
      ensures Dispatch(status, options).Raised? ==>
                r == Raised(Dispatch(status, options).error) &&
                session.lines == old(session.lines) && session.closed == old(session.closed)
      ensures Dispatch(status, options).Returned? && old(session.closed) ==>
                r == Raised(IOError) && session.lines == old(session.lines) && session.closed
      ensures Dispatch(status, options).Returned? && !old(session.closed) ==>
                r == Returned(()) && session.closed &&
                session.lines == old(session.lines) +
                  ResponseLines(Dispatch(status, options).value, this.contentType, length, options, response)
    {
      this.contentType := ContentTypeOf(options, contentType);
      r := RunRenderer(options, status);
      if r.Raised? {
        return;
      }
      ghost var head := session.lines;
      r := session.Puts("");
      r := session.Puts(response);
      session.Close();
      assert session.lines == head + ["", response];
    }
  }

  /** A string or symbol status picks the same renderer as the integer. */
  lemma StatusTextPicksSameRenderer(code: nat, options: map<Value, Value>)
    ensures Dispatch(Str(DecimalString(code)), options) == Dispatch(Int(code), options)
    ensures Dispatch(Sym(DecimalString(code)), options) == Dispatch(Int(code), options)
  {
  }

  /** 201 has no renderer: the response goes out as 400 Bad Request. */
  lemma Status201Answers400(options: map<Value, Value>)
    ensures Dispatch(Int(201), options) == Returned("400")
    ensures StatusLine(Dispatch(Int(201), options).value) == "HTTP/1.1 400 Bad Request"
  {
    LastDigitNotRendered(201);
    UnrenderedAnswers400(Int(201), options);
  }

  /** 301 has no renderer: the response goes out as 400 Bad Request. */
  lemma Status301Answers400(options: map<Value, Value>)
    ensures Dispatch(Int(301), options) == Returned("400")
    ensures StatusLine(Dispatch(Int(301), options).value) == "HTTP/1.1 400 Bad Request"
  {
    LastDigitNotRendered(301);
    UnrenderedAnswers400(Int(301), options);
  }

  /** A status without a renderer is answered by `r_400`. */
  lemma UnrenderedAnswers400(status: Value, options: map<Value, Value>)
    requires ToS(status) !in RENDERERS
    ensures Dispatch(status, options) == Returned("400")
    ensures StatusLine(Dispatch(status, options).value) == "HTTP/1.1 400 Bad Request"
  {
  }

  /** Every renderer's code ends in 0, 4 or 5, so a three-digit status ending otherwise has none. */
  lemma LastDigitNotRendered(n: nat)
    requires 100 <= n < 1000 && n % 10 !in {0, 4, 5}
    ensures DecimalString(n) !in RENDERERS
  {
    ThreeDigitText(n);
    assert DecimalString(n)[2] == DigitChar(n % 10);
  }

  /** The text of a three-digit status is its three digits. */
  lemma ThreeDigitText(n: nat)
    requires 100 <= n < 1000
    ensures DecimalString(n) == [DigitChar(n / 100), DigitChar(n / 10 % 10), DigitChar(n % 10)]
  {
    assert Digits(n) == Digits(n / 10) + [DigitChar(n % 10)];
    assert Digits(n / 10) == Digits(n / 100) + [DigitChar(n / 10 % 10)];
  }

  /** The status line names the status code it was chosen for. */
  lemma StatusLineNamesCode(code: string, contentType: Value, length: Value, options: map<Value, Value>, response: string)
    requires code in RENDERERS
    ensures ResponseLines(code, contentType, length, options, response)[0][9..12] == code
  {
  }
}
