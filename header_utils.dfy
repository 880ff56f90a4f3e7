/**
 * `HTTPUtils::HeaderUtils` (lib/utils/http_utils.rb): reading the header
 * block and the body of a request from the client connection. The
 * connection is a `Client` whose unread input is a string; `gets` and
 * `read` consume it from the front.
 */
module HeaderUtils {
  import opened RubyStrings
  import opened RubyValues

  /* ---------------- the client connection ---------------- */

  /** Length of the next line of `s`: up to and including the first "\n", or all of `s`. */
  function LineLen(s: string): (n: nat)
    ensures n <= |s|
    ensures s != [] ==> n > 0
  {
    if '\n' in s then IndexOf(s, '\n') + 1 else |s|
  }

  /** What `gets` returns: the next line, or nil at the end of the input. */
  function NextLine(s: string): (r: Option<string>)
    ensures r.None? <==> s == []
    ensures r.Some? ==> r.value == s[..LineLen(s)] && r.value != []
  {
    if s == [] then None else Some(s[..LineLen(s)])
  }

  /**
   * What `read(length)` returns: an error for a negative length, `""` for
   * zero, nil at the end of the input, and otherwise up to `length`
   * characters (fewer when the input ends first); one character stands for
   * one byte of the socket.
   */
  function ReadResult(s: string, length: int): (r: Outcome<Option<string>>)
    ensures length < 0 <==> r.Raised?
    ensures length == 0 ==> r == Returned(Some(""))
    ensures length > 0 ==> (r.value.None? <==> s == [])
    ensures length > 0 && r.value.Some? ==> r.value.value == s[..Consumed(s, length)] && r.value.value != []
  {
    if length < 0 then Raised(InvalidArgument("negative length " + DecimalString(length) + " given"))
    else if length == 0 then Returned(Some(""))
    else if s == [] then Returned(None)
    else Returned(Some(s[..Consumed(s, length)]))
  }

  /** How much of `s` a `read(length)` consumes. */
  function Consumed(s: string, length: int): (n: nat)
    ensures n <= |s|
    ensures length > 0 && s != [] ==> n > 0
  {
    if length <= 0 then 0 else if length < |s| then length else |s|
  }

  /** A client connection, as far as the request reader uses it. */
  class Client {
    /** The input not read yet. */
    var pending: string

    constructor (input: string)
      ensures pending == input
    {
      pending := input;
    }

    /** `client.gets`. */
    method Gets() returns (line: Option<string>)
      modifies this
      ensures line == NextLine(old(pending))
      ensures pending == old(pending)[LineLen(old(pending))..]
    {
      line := NextLine(pending);
      pending := pending[LineLen(pending)..];
    }

    /** `client.read(length)`. */
    method Read(length: int) returns (r: Outcome<Option<string>>)
      modifies this
      ensures r == ReadResult(old(pending), length)
      ensures pending == old(pending)[Consumed(old(pending), length)..]
    {
      r := ReadResult(pending, length);
      pending := pending[Consumed(pending, length)..];
    }
  }

  /* ---------------- get_headers ---------------- */

  /** The headers read so far and the input left after the blank line. */
  datatype HeadersRead = HeadersRead(headers: map<string, string>, rest: string)

  /**
   * The loop of `get_headers` from input `s` with the headers `acc` read so
   * far. Each line is cut with `split(' ', 2)`; a line whose first field is
   * empty (a blank line) ends the block; otherwise the first field minus its
   * last character (`chop`) names the header and the stripped second field is
   * its value. The end of the input (`nil.split`) and a line with one field
   * only (`nil.strip`) raise.
   */
  function ReadHeaders(s: string, acc: map<string, string>): (r: Outcome<HeadersRead>)
    ensures r.Returned? ==> acc.Keys <= r.value.headers.Keys
    ensures r.Returned? ==> |r.value.rest| < |s|
    decreases |s|
  {
    match NextLine(s)
    case None => Raised(NoMethodError("split"))
    case Some(line) =>
      var fields := SplitFirstWord(line);
      var rest := s[|line|..];
      if fields[0] == "" then Returned(HeadersRead(acc, rest))
      else if |fields| < 2 then Raised(NoMethodError("strip"))
      else ReadHeaders(rest, acc[Chop(fields[0]) := Strip(fields[1])])
  }

  /** `get_headers(client)`: the `while` loop filling the headers hash. */
  method GetHeaders(client: Client) returns (r: Outcome<map<string, string>>)
    modifies client
    ensures var spec := ReadHeaders(old(client.pending), map[]);
            (spec.Raised? ==> r == Raised(spec.error)) &&
            (spec.Returned? ==> r == Returned(spec.value.headers) && client.pending == spec.value.rest)
  {
    var headers: map<string, string> := map[];
    while true
      invariant ReadHeaders(old(client.pending), map[]) == ReadHeaders(client.pending, headers)
      decreases |client.pending|
    {
      var got := client.Gets();
      if got.None? {
        return Raised(NoMethodError("split"));
      }
      var line := SplitFirstWord(got.value);
      if line[0] == "" {
        return Returned(headers);
      }
      if |line| < 2 {
        return Raised(NoMethodError("strip"));
      }
      headers := headers[Chop(line[0]) := Strip(line[1])];
    }
  }

  /** One header of a request: `"#{name}: #{value}\r\n"` on the wire. */
  datatype Header = Header(name: string, value: string)

  function HeaderLine(h: Header): string {
    h.name + ": " + h.value + "\r\n"
  }

  function HeaderBlock(hs: seq<Header>): string {
    if hs == [] then "" else HeaderLine(hs[0]) + HeaderBlock(hs[1..])
  }

  /** The headers hash after storing `hs` in order into `acc`. */
  function Store(acc: map<string, string>, hs: seq<Header>): map<string, string>
    decreases |hs|
  {
    if hs == [] then acc else Store(acc[hs[0].name := hs[0].value], hs[1..])
  }

  /**
   * A header as a client writes it: a name without whitespace, and a
   * non-empty value with no whitespace at its ends and no line break.
   */
  predicate WellFormed(h: Header) {
    h.name != [] && (forall i :: 0 <= i < |h.name| ==> !IsSpace(h.name[i])) &&
    h.value != [] && '\n' !in h.value &&
    !IsStripSpace(h.value[0]) && !IsStripSpace(h.value[|h.value| - 1])
  }

  lemma TrimLeftStep(c: char, s: string)
    requires IsSpace(c)
    ensures TrimLeft([c] + s) == TrimLeft(s)
  {
    assert ([c] + s)[1..] == s;
  }

  lemma StripLeftNoSpace(s: string)
    requires s != [] && !IsStripSpace(s[0])
    ensures StripLeft(s) == s
  {
  }

  /** `"#{value}\r\n".strip` is the value. */
  lemma StripLineEnd(v: string)
    requires v != [] && !IsStripSpace(v[0]) && !IsStripSpace(v[|v| - 1])
    ensures Strip(v + "\r\n") == v
  {
    var t := v + "\r\n";
    StripLeftNoSpace(t);
    assert t[..|t| - 1] == v + "\r";
    assert (v + "\r")[..|v|] == v;
    assert StripRight(t) == StripRight(v + "\r") == StripRight(v) == v;
  }

  /** `"#{name}:".chop` is the name. */
  lemma ChopColon(k: string)
    ensures Chop(k + ":") == k
  {
    var t := k + ":";
    assert t[|t| - 1] == ':';
    assert t[..|t| - 1] == k;
  }

  /** `split(' ', 2)` of a header line gives the name with its colon, and the value with the line end. */
  lemma SplitHeaderLine(h: Header)
    requires WellFormed(h)
    ensures SplitFirstWord(HeaderLine(h)) == [h.name + ":", h.value + "\r\n"]
  {
    var line := HeaderLine(h);
    HeaderNameWord(h);
    TrimLeftNoSpace(line);
    assert line[..|h.name| + 1] == h.name + ":";
    assert line[|h.name| + 1..] == [' '] + (h.value + "\r\n");
    TrimLeftStep(' ', h.value + "\r\n");
    TrimLeftNoSpace(h.value + "\r\n");
  }

  /** The first word of a header line is the name and its colon. */
  lemma HeaderNameWord(h: Header)
    requires WellFormed(h)
    ensures WordLen(HeaderLine(h)) == |h.name| + 1 < |HeaderLine(h)|
    ensures !IsSpace(HeaderLine(h)[0])
  {
    var w := h.name + ":";
    var tail := " " + h.value + "\r\n";
    assert HeaderLine(h) == w + tail;
    assert forall i :: 0 <= i < |w| ==> !IsSpace(w[i]) by {
      assert forall i :: 0 <= i < |h.name| ==> w[i] == h.name[i];
    }
    WordLenOf(w, tail);
  }

  /** `gets` returns exactly one line ending in "\n" when the line has no other "\n". */
  lemma NextLineOf(line: string, more: string)
    requires |line| >= 1 && line[|line| - 1] == '\n' && '\n' !in line[..|line| - 1]
    ensures NextLine(line + more) == Some(line)
    ensures (line + more)[|line|..] == more
  {
    var a := line[..|line| - 1];
    assert line == a + ['\n'];
    assert line + more == a + ['\n'] + more;
    IndexOfJoin(a, '\n', more);
    assert (line + more)[..|line|] == line;
  }

  lemma HeaderLineShape(h: Header)
    requires WellFormed(h)
    ensures var line := HeaderLine(h); |line| >= 1 && line[|line| - 1] == '\n' && '\n' !in line[..|line| - 1]
  {
    var line := HeaderLine(h);
    var a := h.name + ": " + h.value + "\r";
    assert line == a + "\n";
    assert line[..|line| - 1] == a;
    assert forall i :: 0 <= i < |a| ==> a[i] != '\n' by {
      forall i | 0 <= i < |a|
        ensures a[i] != '\n'
      {
        if i < |h.name| {
          assert a[i] == h.name[i];
        } else if |h.name| + 2 <= i < |h.name| + 2 + |h.value| {
          assert a[i] == h.value[i - |h.name| - 2];
        }
      }
    }
  }

  /** One well-formed header line is stored and reading goes on after it. */
  lemma ReadHeaderLine(h: Header, more: string, acc: map<string, string>)
    requires WellFormed(h)
    ensures ReadHeaders(HeaderLine(h) + more, acc) == ReadHeaders(more, acc[h.name := h.value])
  {
    HeaderLineShape(h);
    NextLineOf(HeaderLine(h), more);
    SplitHeaderLine(h);
    ChopColon(h.name);
    StripLineEnd(h.value);
  }

  /**
   * A block of well-formed header lines ended by a blank line is read in
   * full: each header is stored under its name (a later one of the same name
   * overwriting an earlier one), and the input after the blank line is left
   * for the body.
   */
  lemma {:induction false} ReadHeaderBlock(hs: seq<Header>, body: string, acc: map<string, string>)
    requires forall i :: 0 <= i < |hs| ==> WellFormed(hs[i])
    ensures ReadHeaders(HeaderBlock(hs) + "\r\n" + body, acc) == Returned(HeadersRead(Store(acc, hs), body))
  {
    if hs == [] {
      assert HeaderBlock(hs) + "\r\n" + body == "\r\n" + body;
      BlankLineEnds(body, acc);
    } else {
      var h := hs[0];
      var more := HeaderBlock(hs[1..]) + "\r\n" + body;
      assert HeaderBlock(hs) + "\r\n" + body == HeaderLine(h) + more;
      ReadHeaderLine(h, more, acc);
      ReadHeaderBlock(hs[1..], body, acc[h.name := h.value]);
    }
  }

  /** The blank line ends the block: the headers read so far, and the rest of the input untouched. */
  lemma BlankLineEnds(body: string, acc: map<string, string>)
    ensures ReadHeaders("\r\n" + body, acc) == Returned(HeadersRead(acc, body))
  {
    NextLineOf("\r\n", body);
    assert TrimLeft("\n") == "" && TrimLeft("\r\n") == "";
    assert SplitFirstWord("\r\n") == [""];
  }

  /** A blank line first: no headers, and the rest of the input is untouched. */
  lemma BlankLineFirst(body: string)
    ensures ReadHeaders("\r\n" + body, map[]) == Returned(HeadersRead(map[], body))
  {
    BlankLineEnds(body, map[]);
  }

  /** The input ending before a blank line raises instead of returning the headers read. */
  lemma {:induction false} UnterminatedBlockRaises(hs: seq<Header>, acc: map<string, string>)
    requires forall i :: 0 <= i < |hs| ==> WellFormed(hs[i])
    ensures ReadHeaders(HeaderBlock(hs), acc) == Raised(NoMethodError("split"))
  {
    if hs != [] {
      var h := hs[0];
      var more := HeaderBlock(hs[1..]);
      ReadHeaderLine(h, more, acc);
      UnterminatedBlockRaises(hs[1..], acc[h.name := h.value]);
    }
  }

  /** Storing headers keeps earlier entries for names that do not come again, and the last value of a name wins. */
  lemma {:induction false} StoreLastWins(acc: map<string, string>, hs: seq<Header>, i: nat)
    requires i < |hs| && forall j :: i < j < |hs| ==> hs[j].name != hs[i].name
    ensures hs[i].name in Store(acc, hs) && Store(acc, hs)[hs[i].name] == hs[i].value
    decreases |hs|
  {
    if i == 0 {
      StoreKeeps(acc[hs[0].name := hs[0].value], hs[1..], hs[0].name);
    } else {
      StoreLastWins(acc[hs[0].name := hs[0].value], hs[1..], i - 1);
    }
  }

  lemma {:induction false} StoreKeeps(acc: map<string, string>, hs: seq<Header>, name: string)
    requires name in acc && forall j :: 0 <= j < |hs| ==> hs[j].name != name
    ensures name in Store(acc, hs) && Store(acc, hs)[name] == acc[name]
    decreases |hs|
  {
    if hs != [] {
      StoreKeeps(acc[hs[0].name := hs[0].value], hs[1..], name);
    }
  }

  /** A name that no header carries keeps its earlier value, or stays absent. */
  lemma {:induction false} StoreAbsent(acc: map<string, string>, hs: seq<Header>, name: string)
    requires forall j :: 0 <= j < |hs| ==> hs[j].name != name
    ensures (name in Store(acc, hs)) == (name in acc)
    decreases |hs|
  {
    if hs != [] {
      StoreAbsent(acc[hs[0].name := hs[0].value], hs[1..], name);
    }
  }

  /* ---------------- get_req_data ---------------- */

  /** `headers['Content-Length'].to_i`: zero when the header is absent (`nil.to_i`). */
  function ContentLength(headers: map<string, string>): (n: int)
    ensures "Content-Length" !in headers ==> n == 0
    ensures forall k: nat {:trigger DecimalString(k)} ::
              "Content-Length" in headers && headers["Content-Length"] == DecimalString(k) ==> n == k
  {
    if "Content-Length" in headers then
      assert forall k: nat {:trigger DecimalString(k)} :: ToI(DecimalString(k)) == k by {
        forall k: nat ensures ToI(DecimalString(k)) == k {
          DecimalRoundTrip(k);
        }
      }
      ToI(headers["Content-Length"])
    else 0
  }

  /**
   * `get_req_data(client, headers)` on input `s`: `read` the announced
   * length; nil when that read is empty; the read text otherwise. A read at
   * the end of the input returns nil, and `nil.empty?` raises.
   */
  function ReqData(s: string, headers: map<string, string>): (r: Outcome<Option<string>>)
    ensures ContentLength(headers) < 0 ==> r.Raised?
    ensures ContentLength(headers) == 0 ==> r == Returned(None)
    ensures ContentLength(headers) > 0 && s == [] ==> r == Raised(NoMethodError("empty?"))
    ensures ContentLength(headers) > 0 && s != [] ==>
              r == Returned(Some(s[..Consumed(s, ContentLength(headers))]))
  {
    match ReadResult(s, ContentLength(headers))
    case Raised(e) => Raised(e)
    case Returned(data) =>
      if data.None? then Raised(NoMethodError("empty?"))
      else if data.value == "" then Returned(None)
      else Returned(data)
  }

  /** `get_req_data(client, headers)`. */
  method GetReqData(client: Client, headers: map<string, string>) returns (r: Outcome<Option<string>>)
    modifies client
    ensures r == ReqData(old(client.pending), headers)
    ensures client.pending == old(client.pending)[Consumed(old(client.pending), ContentLength(headers))..]
  {
    var data := client.Read(ContentLength(headers));
    if data.Raised? {
      return Raised(data.error);
    }
    if data.value.None? {
      return Raised(NoMethodError("empty?"));
    }
    if data.value.value == "" {
      return Returned(None);
    }
    return Returned(data.value);
  }

  /** A `Content-Length` of `n` reads the first `n` characters of the body. */
  lemma ReqDataReadsContentLength(headers: map<string, string>, body: string, n: nat)
    requires "Content-Length" in headers && headers["Content-Length"] == DecimalString(n)
    requires 0 < n <= |body|
    ensures ReqData(body, headers) == Returned(Some(body[..n]))
    ensures Consumed(body, ContentLength(headers)) == n
  {
    DecimalRoundTrip(n);
  }
}
