/**
 * `HTTPUtils::URLUtils` (lib/utils/http_utils.rb): the query string of a
 * request URL, and the two helpers over route patterns with `/:name`
 * variables. A route variable is a match of `((?<=\/):[^\/]+)`: a `:` right
 * after a `/`, followed by one or more characters other than `/`; the scan
 * is written out here as `TokensFrom`.
 */
module URLUtils {
  import opened RubyStrings
  import opened RubyValues

  /* ---------------- extract_url_params ---------------- */

  /** One `{ key:, value: }` hash of the query string. */
  datatype Param = Param(key: string, value: string)

  /** `key, value = e.split('=')`; `None` when `value` is nil, which is when the loop breaks. */
  function ParamOf(e: string): (r: Option<Param>)
    ensures r.None? <==> |Split(e, '=')| < 2
  {
    var kv := Split(e, '=');
    if |kv| < 2 then None else Some(Param(kv[0], kv[1]))
  }

  /**
   * What `e.split('=')` leaves in `key` and `value`, read off the characters
   * of `e`: the loop breaks exactly when there is no `=` or only `=`s follow
   * the first one; otherwise the key is the text before the first `=` and
   * the value the text after it up to the next `=`.
   */
  lemma ParamOfText(e: string)
    ensures ParamOf(e).None? <==> '=' !in e || AllSep(e[IndexOf(e, '=') + 1..], '=')
    ensures ParamOf(e).Some? ==> '=' in e && ParamOf(e).value.key == e[..IndexOf(e, '=')]
    ensures ParamOf(e).Some? ==>
              var rest := e[IndexOf(e, '=') + 1..];
              ParamOf(e).value.value == if '=' in rest then rest[..IndexOf(rest, '=')] else rest
  {
    SplitAtFirst(e, '=');
  }

  /**
   * The `map` over the `&`-separated pairs: `break` inside the block makes
   * the whole `map` evaluate to nil, so one pair without a value loses them all.
   */
  function ParamsOf(pairs: seq<string>): (r: Option<seq<Param>>)
    ensures r.None? <==> exists i :: 0 <= i < |pairs| && ParamOf(pairs[i]).None?
    ensures r.Some? ==> |r.value| == |pairs| && forall i :: 0 <= i < |pairs| ==> ParamOf(pairs[i]) == Some(r.value[i])
  {
    if pairs == [] then Some([])
    else
      var head, tail := ParamOf(pairs[0]), ParamsOf(pairs[1..]);
      if head.None? then None
      else if tail.None? then
        ValuelessInTail(pairs);
        None
      else
        ParamsCons(pairs, head.value, tail.value);
        Some([head.value] + tail.value)
  }

  lemma ValuelessInTail(pairs: seq<string>)
    requires pairs != [] && exists i :: 0 <= i < |pairs[1..]| && ParamOf(pairs[1..][i]).None?
    ensures exists i :: 0 <= i < |pairs| && ParamOf(pairs[i]).None?
  {
    var i :| 0 <= i < |pairs[1..]| && ParamOf(pairs[1..][i]).None?;
    assert pairs[1..][i] == pairs[i + 1];
  }

  lemma ParamsCons(pairs: seq<string>, p: Param, ps: seq<Param>)
    requires pairs != [] && ParamOf(pairs[0]) == Some(p) && |ps| == |pairs| - 1
    requires forall i :: 0 <= i < |pairs[1..]| ==> ParamOf(pairs[1..][i]) == Some(ps[i])
    ensures forall i :: 0 <= i < |pairs| ==> ParamOf(pairs[i]) == Some(([p] + ps)[i])
  {
    forall i | 0 <= i < |pairs|
      ensures ParamOf(pairs[i]) == Some(([p] + ps)[i])
    {
      if i > 0 {
        assert pairs[i] == pairs[1..][i - 1];
      }
    }
  }

  /** The text between the first `?` of `url` and the next `?` or the end. */
  function QueryText(url: string): string
    requires '?' in url
  {
    var rest := url[IndexOf(url, '?') + 1..];
    if '?' in rest then rest[..IndexOf(rest, '?')] else rest
  }

  /**
   * `extract_url_params(url)`: `[]` without a query, otherwise one param per
   * `&`-separated pair of the text between the first and the second `?`, or
   * nil (`None`) when some pair has no value.
   */
  function ExtractUrlParams(url: string): (r: Option<seq<Param>>)
    ensures '?' !in url ==> r == Some([])
  {
    SecondField(url, '?');
    var parts := Split(url, '?');
    if |parts| > 1 then ParamsOf(Split(parts[1], '&')) else Some([])
  }

  /**
   * `extract_url_params` gives `[]` without a query, and otherwise reads the
   * pairs of the text between the first and the second `?` only.
   */
  lemma ExtractUrlParamsQuery(url: string)
    ensures '?' !in url ==> ExtractUrlParams(url) == Some([])
    ensures '?' in url ==> ExtractUrlParams(url) == ParamsOf(Split(QueryText(url), '&'))
    ensures '?' in url && QueryText(url) == "" ==> ExtractUrlParams(url) == Some([])
  {
    if '?' in url {
      SecondField(url, '?');
      var parts := Split(url, '?');
      if |parts| > 1 {
        assert parts[1] == QueryText(url);
      } else {
        assert QueryText(url) == "" && Split("", '&') == [];
      }
    }
  }

  /**
   * The second field of `s.split(sep)` is the text after the first `sep`
   * up to the next one; when `split` drops it, that text is empty.
   */
  lemma SecondField(s: string, sep: char)
    ensures sep !in s ==> |Split(s, sep)| <= 1
    ensures sep in s ==>
      var rest := s[IndexOf(s, sep) + 1..];
      var second := if sep in rest then rest[..IndexOf(rest, sep)] else rest;
      (|Split(s, sep)| > 1 ==> Split(s, sep)[1] == second) &&
      (|Split(s, sep)| <= 1 ==> second == "")
  {
    if sep in s {
      var i := IndexOf(s, sep);
      var rest := s[i + 1..];
      var fs := Fields(s, sep);
      assert fs == [s[..i]] + Fields(rest, sep);
      assert fs[1] == Fields(rest, sep)[0];
    }
  }

  /** `"#{key}=#{value}"`. */
  function PairText(p: Param): string {
    p.key + "=" + p.value
  }

  function PairTexts(ps: seq<Param>): (r: seq<string>)
    ensures |r| == |ps| && forall i :: 0 <= i < |ps| ==> r[i] == PairText(ps[i])
  {
    if ps == [] then [] else [PairText(ps[0])] + PairTexts(ps[1..])
  }

  /** A param that survives the trip through a query string: a value, and no `?`, `&` or `=` inside. */
  predicate CleanParam(p: Param) {
    p.value != "" &&
    '?' !in p.key && '&' !in p.key && '=' !in p.key &&
    '?' !in p.value && '&' !in p.value && '=' !in p.value
  }

  lemma PairTextSplits(p: Param)
    requires CleanParam(p)
    ensures Split(PairText(p), '=') == [p.key, p.value]
    ensures '?' !in PairText(p) && '&' !in PairText(p) && PairText(p) != ""
  {
    assert Join([p.key, p.value], "=") == PairText(p);
    SplitJoin([p.key, p.value], '=');
    var t := PairText(p);
    assert forall k :: 0 <= k < |t| ==> t[k] == (if k < |p.key| then p.key[k] else if k == |p.key| then '=' else p.value[k - |p.key| - 1]);
  }

  lemma NoCharInJoin(fs: seq<string>, sep: string, c: char)
    requires c !in sep && forall i :: 0 <= i < |fs| ==> c !in fs[i]
    ensures c !in Join(fs, sep)
  {
    if |fs| > 1 {
      NoCharInJoin(fs[1..], sep, c);
      var t := Join(fs[1..], sep);
      assert Join(fs, sep) == fs[0] + sep + t;
      assert forall k :: 0 <= k < |fs[0] + sep + t| ==> (fs[0] + sep + t)[k] in fs[0] || (fs[0] + sep + t)[k] in sep || (fs[0] + sep + t)[k] in t;
    }
  }

  /** The query text of `path?q` is `q` when neither holds a `?`. */
  lemma QueryTextOf(path: string, q: string)
    requires '?' !in path && '?' !in q
    ensures '?' in path + "?" + q && QueryText(path + "?" + q) == q
  {
    IndexOfJoin(path, '?', q);
    var url := path + "?" + q;
    assert url[|path| + 1..] == q;
  }

  /** Building a query from clean params and extracting it gives the params back, in order. */
  lemma ExtractUrlParamsRoundTrip(path: string, ps: seq<Param>)
    requires '?' !in path
    requires forall i :: 0 <= i < |ps| ==> CleanParam(ps[i])
    ensures ExtractUrlParams(path + "?" + Join(PairTexts(ps), "&")) == Some(ps)
  {
    var q := Join(PairTexts(ps), "&");
    QuerySplits(ps);
    QueryTextOf(path, q);
    ExtractUrlParamsQuery(path + "?" + q);
    ParamsOfPairTexts(ps);
  }

  lemma QuerySplits(ps: seq<Param>)
    requires forall i :: 0 <= i < |ps| ==> CleanParam(ps[i])
    ensures '?' !in Join(PairTexts(ps), "&")
    ensures Split(Join(PairTexts(ps), "&"), '&') == PairTexts(ps)
  {
    var texts := PairTexts(ps);
    forall i | 0 <= i < |ps|
      ensures '?' !in texts[i] && '&' !in texts[i] && texts[i] != ""
    {
      PairTextSplits(ps[i]);
    }
    NoCharInJoin(texts, "&", '?');
    if ps != [] {
      SplitJoin(texts, '&');
    }
  }

  lemma ParamsOfPairTexts(ps: seq<Param>)
    requires forall i :: 0 <= i < |ps| ==> CleanParam(ps[i])
    ensures ParamsOf(PairTexts(ps)) == Some(ps)
  {
    var texts := PairTexts(ps);
    forall i | 0 <= i < |ps|
      ensures ParamOf(texts[i]) == Some(ps[i])
    {
      PairTextSplits(ps[i]);
    }
    var r := ParamsOf(texts);
    assert r.Some?;
    assert r.value == ps;
  }

  /** A pair without `=` turns the whole result into nil, even after good pairs. */
  lemma MissingValueLosesAll()
    ensures ExtractUrlParams("/p?a=1&b") == None
  {
    MissingValueIn("/p", "a=1&b");
    assert "/p" + "?" + "a=1&b" == "/p?a=1&b";
  }

  lemma MissingValueIn(path: string, q: string)
    requires path == "/p" && q == "a=1&b"
    ensures ExtractUrlParams(path + "?" + q) == None
  {
    UrlParamsOfQuery(path, q);
    QueryAB(q);
    var pairs := Split(q, '&');
    NoValue(pairs[1]);
  }

  /** A `?`-free path and query: the params are read from the `&`-separated pairs of the query. */
  lemma UrlParamsOfQuery(path: string, q: string)
    requires '?' !in path && '?' !in q
    ensures ExtractUrlParams(path + "?" + q) == ParamsOf(Split(q, '&'))
  {
    QueryTextOf(path, q);
    ExtractUrlParamsQuery(path + "?" + q);
  }

  lemma QueryAB(q: string)
    requires q == "a=1&b"
    ensures Split(q, '&') == ["a=1", "b"]
  {
    assert Join(["a=1", "b"], "&") == q;
    SplitJoin(["a=1", "b"], '&');
  }

  /** A pair without `=` has no value. */
  lemma NoValue(e: string)
    requires e != "" && '=' !in e
    ensures ParamOf(e) == None
  {
    assert Join([e], "=") == e;
    SplitJoin([e], '=');
  }

  /* ---------------- route variables ---------------- */

  /** A piece of a route pattern: a plain character, or the text of one variable match. */
  datatype Token = Ch(c: char) | Var(text: string)

  /** Length of the run of characters other than `/` in `p` from `j`: the `[^\/]+` part. */
  function SegLen(p: string, j: nat): (n: nat)
    requires j <= |p|
    ensures j + n <= |p|
    ensures j + n < |p| ==> p[j + n] == '/'
    decreases |p| - j
  {
    if j == |p| || p[j] == '/' then 0 else 1 + SegLen(p, j + 1)
  }

  /** The run holds no `/`. */
  lemma {:induction false} SegLenNoSlash(p: string, j: nat)
    requires j <= |p|
    ensures '/' !in p[j..j + SegLen(p, j)]
    decreases |p| - j
  {
    if j < |p| && p[j] != '/' {
      SegLenNoSlash(p, j + 1);
      assert p[j..j + SegLen(p, j)] == [p[j]] + p[j + 1..j + 1 + SegLen(p, j + 1)];
    }
  }

  /** The variable regex matches at `i`: a `:` after a `/`, then at least one character other than `/`. */
  predicate VarAt(p: string, i: nat) {
    0 < i && i + 1 < |p| && p[i] == ':' && p[i - 1] == '/' && p[i + 1] != '/'
  }

  predicate WellFormedVar(t: Token) {
    t.Var? ==> |t.text| >= 2 && t.text[0] == ':' && '/' !in t.text
  }

  /** Every variable token of `ts` is well formed. */
  predicate WellFormedTokens(ts: seq<Token>) {
    ts == [] || (WellFormedVar(ts[0]) && WellFormedTokens(ts[1..]))
  }

  /**
   * `scan` of the variable regex over `p` from `i`: matches are leftmost and
   * do not overlap, each one running to the next `/` or the end.
   */
  function TokensFrom(p: string, i: nat): (r: seq<Token>)
    requires i <= |p|
    ensures WellFormedTokens(r)
    decreases |p| - i
  {
    if i == |p| then []
    else if VarAt(p, i) then
      var e := i + 1 + SegLen(p, i + 1);
      SegLenNoSlash(p, i + 1);
      [Var(p[i..e])] + TokensFrom(p, e)
    else [Ch(p[i])] + TokensFrom(p, i + 1)
  }

  function TokenText(t: Token): string {
    match t
    case Ch(c) => [c]
    case Var(text) => text
  }

  /** The text a token sequence was read from. */
  function Flatten(ts: seq<Token>): string {
    if ts == [] then "" else TokenText(ts[0]) + Flatten(ts[1..])
  }

  /** The scan loses nothing: putting the tokens back together gives the pattern. */
  lemma {:induction false} FlattenTokens(p: string, i: nat)
    requires i <= |p|
    ensures Flatten(TokensFrom(p, i)) == p[i..]
    decreases |p| - i
  {
    if i < |p| {
      if VarAt(p, i) {
        var e := i + 1 + SegLen(p, i + 1);
        FlattenTokens(p, e);
        FlattenVar(p, i);
      } else {
        FlattenTokens(p, i + 1);
        FlattenCh(p, i);
      }
    }
  }

  lemma FlattenVar(p: string, i: nat)
    requires VarAt(p, i)
    requires Flatten(TokensFrom(p, i + 1 + SegLen(p, i + 1))) == p[i + 1 + SegLen(p, i + 1)..]
    ensures Flatten(TokensFrom(p, i)) == p[i..]
  {
    var e := i + 1 + SegLen(p, i + 1);
    VarStep(p, i);
    FlattenCons(TokensFrom(p, i), p[i..e], p[e..]);
    SliceSplit(p, i, e);
  }

  lemma FlattenCh(p: string, i: nat)
    requires i < |p| && !VarAt(p, i)
    requires Flatten(TokensFrom(p, i + 1)) == p[i + 1..]
    ensures Flatten(TokensFrom(p, i)) == p[i..]
  {
    ChStep(p, i);
    FlattenCons(TokensFrom(p, i), [p[i]], p[i + 1..]);
    SliceSplit(p, i, i + 1);
  }

  lemma FlattenCons(ts: seq<Token>, x: string, y: string)
    requires ts != [] && TokenText(ts[0]) == x && Flatten(ts[1..]) == y
    ensures Flatten(ts) == x + y
  {
  }

  lemma SliceCons(p: string, i: nat, j: nat)
    requires i < j <= |p|
    ensures p[i..j] == [p[i]] + p[i + 1..j]
  {
  }

  lemma SliceSplit(p: string, i: nat, e: nat)
    requires i <= e <= |p|
    ensures p[i..] == p[i..e] + p[e..]
  {
  }

  /** The scan past a plain character. */
  lemma ChStep(p: string, i: nat)
    requires i < |p| && !VarAt(p, i)
    ensures TokensFrom(p, i)[0] == Ch(p[i]) && TokensFrom(p, i)[1..] == TokensFrom(p, i + 1)
  {
  }

  /** The scan past a variable. */
  lemma VarStep(p: string, i: nat)
    requires VarAt(p, i)
    ensures var e := i + 1 + SegLen(p, i + 1);
            TokensFrom(p, i)[0] == Var(p[i..e]) && TokensFrom(p, i)[1..] == TokensFrom(p, e)
  {
  }

  /** `matches`: the text of every variable, in order. */
  function Vars(ts: seq<Token>): (r: seq<string>)
    requires WellFormedTokens(ts)
    ensures forall k :: 0 <= k < |r| ==> |r[k]| >= 2 && r[k][0] == ':'
  {
    if ts == [] then []
    else
      (if ts[0].Var? then [ts[0].text] else []) + Vars(ts[1..])
  }

  /** `gsub` of the variable regex by `':'`: every variable collapses to one colon. */
  function Collapse(ts: seq<Token>): string {
    if ts == [] then ""
    else (if ts[0].Var? then ":" else [ts[0].c]) + Collapse(ts[1..])
  }

  /** The number of `c` in `s`. */
  function Count(s: string, c: char): nat {
    if s == [] then 0 else (if s[0] == c then 1 else 0) + Count(s[1..], c)
  }

  lemma {:induction false} CountAppend(a: string, b: string, c: char)
    ensures Count(a + b, c) == Count(a, c) + Count(b, c)
  {
    if a == [] {
      assert a + b == b;
    } else {
      assert (a + b)[0] == a[0];
      assert (a + b)[1..] == a[1..] + b;
      CountAppend(a[1..], b, c);
    }
  }

  /** Each variable leaves a colon behind, so there are at least as many colons as variables. */
  lemma {:induction false} CollapseKeepsColons(ts: seq<Token>)
    requires WellFormedTokens(ts)
    ensures Count(Collapse(ts), ':') >= |Vars(ts)|
  {
    if ts != [] {
      CollapseKeepsColons(ts[1..]);
      CountAppend(if ts[0].Var? then ":" else [ts[0].c], Collapse(ts[1..]), ':');
    }
  }

  /**
   * The offsets of `c` in `s[..i]`, in increasing order: what
   * `s.scan(c) { $LAST_MATCH_INFO.offset(0)[0] }` collects.
   */
  function Offsets(s: string, c: char, i: nat): (r: seq<nat>)
    requires i <= |s|
    ensures forall k :: 0 <= k < |r| ==> r[k] < i && s[r[k]] == c
    ensures forall k, l :: 0 <= k < l < |r| ==> r[k] < r[l]
    ensures forall j :: 0 <= j < i && s[j] == c ==> j in r
  {
    if i == 0 then [] else Offsets(s, c, i - 1) + (if s[i - 1] == c then [i - 1] else [])
  }

  lemma {:induction false} OffsetsCount(s: string, c: char, i: nat)
    requires i <= |s|
    ensures |Offsets(s, c, i)| == Count(s[..i], c)
  {
    if i > 0 {
      OffsetsCount(s, c, i - 1);
      assert s[..i] == s[..i - 1] + [s[i - 1]];
      CountAppend(s[..i - 1], [s[i - 1]], c);
    }
  }

  /** `itm[0].gsub(':', '')`: the variable's name. */
  function RemoveColons(s: string): (r: string)
    ensures ':' !in r
  {
    if s == [] then "" else (if s[0] == ':' then "" else [s[0]]) + RemoveColons(s[1..])
  }

  /** The names of the variables, colons removed. */
  function Names(vars: seq<string>): (r: seq<string>)
    ensures |r| == |vars| && forall i :: 0 <= i < |vars| ==> r[i] == RemoveColons(vars[i])
  {
    if vars == [] then [] else [RemoveColons(vars[0])] + Names(vars[1..])
  }

  /**
   * The `each_with_index` loop: name `idx` is bound to the one character of
   * the path at `offs[idx]` (nil past the end), later names overwriting earlier ones.
   */
  function Bind(names: seq<string>, offs: seq<nat>, path: string): map<string, Option<char>>
    requires |offs| >= |names|
  {
    if names == [] then map[]
    else
      var last := |names| - 1;
      Bind(names[..last], offs, path)[names[last] := At(path, offs[last])]
  }

  /** One more name binds one more key, over the earlier bindings. */
  lemma BindSnoc(names: seq<string>, offs: seq<nat>, path: string, idx: nat)
    requires idx < |names| <= |offs|
    ensures Bind(names[..idx + 1], offs, path) == Bind(names[..idx], offs, path)[names[idx] := At(path, offs[idx])]
  {
    assert names[..idx + 1][..idx] == names[..idx];
  }

  /** The hash has exactly the variables' names as keys. */
  lemma {:induction false} BindDomain(names: seq<string>, offs: seq<nat>, path: string)
    requires |offs| >= |names|
    ensures forall n :: n in Bind(names, offs, path) <==> n in names
  {
    if names != [] {
      var last := |names| - 1;
      BindDomain(names[..last], offs, path);
      assert names == names[..last] + [names[last]];
    }
  }

  /** The last variable of a name decides its binding. */
  lemma {:induction false} BindLast(names: seq<string>, offs: seq<nat>, path: string, idx: nat)
    requires |offs| >= |names| && idx < |names|
    requires forall j :: idx < j < |names| ==> names[j] != names[idx]
    ensures names[idx] in Bind(names, offs, path)
    ensures Bind(names, offs, path)[names[idx]] == At(path, offs[idx])
  {
    var last := |names| - 1;
    if idx < last {
      BindLast(names[..last], offs, path, idx);
    }
  }

  lemma BindLastWins(names: seq<string>, offs: seq<nat>, path: string)
    requires |offs| >= |names|
    ensures forall idx :: 0 <= idx < |names| && (forall j :: idx < j < |names| ==> names[j] != names[idx]) ==>
              names[idx] in Bind(names, offs, path) && Bind(names, offs, path)[names[idx]] == At(path, offs[idx])
  {
    forall idx | 0 <= idx < |names| && (forall j :: idx < j < |names| ==> names[j] != names[idx])
      ensures names[idx] in Bind(names, offs, path) && Bind(names, offs, path)[names[idx]] == At(path, offs[idx])
    {
      BindLast(names, offs, path, idx);
    }
  }

  /** The colon offsets that `get_match_indices` reads the path at. */
  function ColonOffsets(pattern: string): (r: seq<nat>)
    ensures |r| >= |Vars(TokensFrom(pattern, 0))|
  {
    var ts := TokensFrom(pattern, 0);
    var collapsed := Collapse(ts);
    CollapseKeepsColons(ts);
    OffsetsCount(collapsed, ':', |collapsed|);
    assert collapsed[..|collapsed|] == collapsed;
    Offsets(collapsed, ':', |collapsed|)
  }

  /**
   * What `get_match_indices(url, regex)` returns for the route pattern `url`
   * and the request path `regex`: nil without variables (`*` has none),
   * otherwise a hash from every variable name to one character of the path:
   * the one at the offset of the matching colon of the collapsed pattern.
   */
  function MatchIndices(pattern: string, path: string): (r: Option<map<string, Option<char>>>)
    ensures r.None? <==> Vars(TokensFrom(pattern, 0)) == []
    ensures r.Some? ==>
      var names := Names(Vars(TokensFrom(pattern, 0)));
      (forall n :: n in r.value <==> n in names) &&
      forall idx :: 0 <= idx < |names| && (forall j :: idx < j < |names| ==> names[j] != names[idx]) ==>
        names[idx] in r.value && r.value[names[idx]] == At(path, ColonOffsets(pattern)[idx])
  {
    var vars := Vars(TokensFrom(pattern, 0));
    if vars == [] || pattern == "*" then None
    else
      var names := Names(vars);
      BindDomain(names, ColonOffsets(pattern), path);
      BindLastWins(names, ColonOffsets(pattern), path);
      Some(Bind(names, ColonOffsets(pattern), path))
  }

  /** `get_match_indices(url, regex)`. */
  method GetMatchIndices(pattern: string, path: string) returns (r: Option<map<string, Option<char>>>)
    ensures r == MatchIndices(pattern, path)
  {
    var ts := TokensFrom(pattern, 0);
    var matches := Vars(ts);
    var newstring := Collapse(ts);
    if matches == [] || pattern == "*" {
      return None;
    }
    var res := ScanOffsets(newstring, matches[0][0]);
    assert res == ColonOffsets(pattern);
    var hashWithVariables := BindEach(matches, res, path);
    return Some(hashWithVariables);
  }

  /** `newstring.scan(c) { res << $LAST_MATCH_INFO.offset(0)[0] }`. */
  method ScanOffsets(s: string, c: char) returns (res: seq<nat>)
    ensures res == Offsets(s, c, |s|)
  {
    res := [];
    var i := 0;
    while i < |s|
      invariant 0 <= i <= |s|
      invariant res == Offsets(s, c, i)
    {
      if s[i] == c {
        res := res + [i];
      }
      i := i + 1;
    }
  }

  /** `matches.each_with_index { |itm, idx| hash_with_variables[itm[0].gsub(':', '')] = regex[res[idx]] }`. */
  method BindEach(matches: seq<string>, res: seq<nat>, path: string) returns (h: map<string, Option<char>>)
    requires |res| >= |matches|
    ensures h == Bind(Names(matches), res, path)
  {
    ghost var names := Names(matches);
    h := map[];
    var idx := 0;
    while idx < |matches|
      invariant 0 <= idx <= |matches|
      invariant h == Bind(names[..idx], res, path)
    {
      BindSnoc(names, res, path, idx);
      h := h[RemoveColons(matches[idx]) := At(path, res[idx])];
      idx := idx + 1;
    }
    assert names[..|matches|] == names;
  }

  /** Plain characters before `j` become themselves in the collapsed text and add no variable. */
  lemma {:induction false} PlainRun(p: string, i: nat, j: nat)
    requires i <= j <= |p|
    requires forall k :: i <= k < j ==> !VarAt(p, k)
    ensures Vars(TokensFrom(p, i)) == Vars(TokensFrom(p, j))
    ensures Collapse(TokensFrom(p, i)) == p[i..j] + Collapse(TokensFrom(p, j))
    decreases j - i
  {
    if i < j {
      PlainRun(p, i + 1, j);
      ChStep(p, i);
      ChHead(TokensFrom(p, i));
      SliceCons(p, i, j);
    }
  }

  /** A leading plain character adds no variable and stays in the collapsed text. */
  lemma ChHead(ts: seq<Token>)
    requires WellFormedTokens(ts) && ts != [] && ts[0].Ch?
    ensures Vars(ts) == Vars(ts[1..])
    ensures Collapse(ts) == [ts[0].c] + Collapse(ts[1..])
  {
  }

  lemma OneVar(ts: seq<Token>, x: string)
    requires |ts| == 1 && ts[0] == Var(x) && WellFormedVar(ts[0])
    ensures Vars(ts) == [x] && Collapse(ts) == ":"
  {
    assert ts[1..] == [];
  }

  /** `/user/:id` holds one variable, `:id`, and collapses to `/user/:`. */
  lemma CollapseUserId(p: string)
    requires p == "/user/:id"
    ensures Vars(TokensFrom(p, 0)) == [":id"]
    ensures Collapse(TokensFrom(p, 0)) == "/user/:"
  {
    assert |p| == 9;
    assert SegLen(p, 9) == 0 && SegLen(p, 8) == 1 && SegLen(p, 7) == 2;
    assert TokensFrom(p, 9) == [];
    assert VarAt(p, 6) && p[6..9] == ":id";
    var last := TokensFrom(p, 6);
    assert |last| == 1 && last[0] == Var(":id");
    OneVar(last, ":id");
    assert forall k :: 0 <= k < 6 ==> p[k] != ':';
    PlainRun(p, 0, 6);
    assert p[6..] == ":id";
    assert p[0..6] + ":" == "/user/:";
  }

  lemma ColonOffsetsUserId(p: string)
    requires p == "/user/:id"
    ensures ColonOffsets(p) == [6]
  {
    CollapseUserId(p);
    ColonOffsetsOfCollapsed(Collapse(TokensFrom(p, 0)));
  }

  lemma ColonOffsetsOfCollapsed(s: string)
    requires s == "/user/:"
    ensures Offsets(s, ':', |s|) == [6]
  {
    assert |s| == 7 && s[6] == ':';
    assert forall j :: 0 <= j < 6 ==> s[j] != ':';
    NoOffsets(s, ':', 6);
  }

  /** No `c` before `i`: no offsets. */
  lemma {:induction false} NoOffsets(s: string, c: char, i: nat)
    requires i <= |s| && forall j :: 0 <= j < i ==> s[j] != c
    ensures Offsets(s, c, i) == []
  {
    if i > 0 {
      NoOffsets(s, c, i - 1);
    }
  }

  /** `get_match_indices('/user/:id', '/user/42')` binds `id` to the single character `'4'`. */
  lemma UserIdBindsOneCharacter()
    ensures MatchIndices("/user/:id", "/user/42") == Some(map["id" := Some('4')])
  {
    UserIdBindsOneCharacterOf("/user/:id", "/user/42");
  }

  lemma UserIdBindsOneCharacterOf(p: string, u: string)
    requires p == "/user/:id" && u == "/user/42"
    ensures MatchIndices(p, u) == Some(map["id" := Some('4')])
  {
    var ts := TokensFrom(p, 0);
    assert Vars(ts) == [":id"] && ColonOffsets(p) == [6] by {
      CollapseUserId(p);
      ColonOffsetsUserId(p);
    }
    assert Names([":id"]) == ["id"] by {
      assert RemoveColons(":id") == "id";
    }
    assert Bind(["id"], [6], u) == map["id" := Some('4')] by {
      assert Bind([], [6], u) == map[];
      assert u[6] == '4';
    }
  }

  /**
   * A field of a `/`-separated route that declares a variable: after the
   * first `/`, starting with `:` and at least two characters long.
   */
  predicate VarSegment(segs: seq<string>, k: nat) {
    0 < k < |segs| && |segs[k]| >= 2 && segs[k][0] == ':'
  }

  /**
   * Variable binding by whole path segments: the variable in segment `k` of
   * the route binds the name to segment `k` of the path, nil when the path
   * has fewer segments.
   */
  function BindSegments(psegs: seq<string>, usegs: seq<string>, k: nat): (h: map<string, Option<string>>)
    requires k <= |psegs|
  {
    if k == 0 then map[]
    else
      var h := BindSegments(psegs, usegs, k - 1);
      if VarSegment(psegs, k - 1) then h[RemoveColons(psegs[k - 1]) := At(usegs, k - 1)] else h
  }

  /**
   * `get_match_indices` as evidently intended: nil without variables,
   * otherwise every variable's name bound to the whole path segment at the
   * variable's position.
   */
  function SegmentMatchIndices(pattern: string, path: string): Option<map<string, Option<string>>> {
    var psegs := Fields(pattern, '/');
    if !HasVarSegment(psegs, 0) then None
    else Some(BindSegments(psegs, Fields(path, '/'), |psegs|))
  }

  /** Some segment from `k` on declares a variable. */
  function HasVarSegment(segs: seq<string>, k: nat): (b: bool)
    ensures b <==> exists v :: k <= v < |segs| && VarSegment(segs, v)
    decreases |segs| - k
  {
    k < |segs| && (VarSegment(segs, k) || HasVarSegment(segs, k + 1))
  }

  /** The binding of a name comes from its last variable segment. */
  lemma {:induction false} BindSegmentsLast(psegs: seq<string>, usegs: seq<string>, k: nat, v: nat)
    requires v < k <= |psegs| && VarSegment(psegs, v)
    requires forall j :: v < j < k && VarSegment(psegs, j) ==> RemoveColons(psegs[j]) != RemoveColons(psegs[v])
    ensures RemoveColons(psegs[v]) in BindSegments(psegs, usegs, k)
    ensures BindSegments(psegs, usegs, k)[RemoveColons(psegs[v])] == At(usegs, v)
  {
    if v < k - 1 {
      BindSegmentsLast(psegs, usegs, k - 1, v);
    }
  }

  /**
   * With the corrected binding, a route of segments `psegs` and a path of
   * as many segments `usegs` bind every variable name to the path segment
   * in its place (the last one, for a repeated name).
   */
  lemma SegmentMatchIndicesBindsSegments(psegs: seq<string>, usegs: seq<string>, v: nat)
    requires |psegs| == |usegs| >= 1
    requires forall i :: 0 <= i < |psegs| ==> '/' !in psegs[i]
    requires forall i :: 0 <= i < |usegs| ==> '/' !in usegs[i]
    requires VarSegment(psegs, v)
    requires forall j :: v < j < |psegs| && VarSegment(psegs, j) ==> RemoveColons(psegs[j]) != RemoveColons(psegs[v])
    ensures SegmentMatchIndices(Join(psegs, "/"), Join(usegs, "/")).Some?
    ensures RemoveColons(psegs[v]) in SegmentMatchIndices(Join(psegs, "/"), Join(usegs, "/")).value
    ensures SegmentMatchIndices(Join(psegs, "/"), Join(usegs, "/")).value[RemoveColons(psegs[v])] == Some(usegs[v])
  {
    var pattern, path := Join(psegs, "/"), Join(usegs, "/");
    FieldsOfJoin(psegs, '/');
    FieldsOfJoin(usegs, '/');
    assert Fields(pattern, '/') == psegs && Fields(path, '/') == usegs;
    assert HasVarSegment(psegs, 0);
    assert SegmentMatchIndices(pattern, path) == Some(BindSegments(psegs, usegs, |psegs|));
    BindSegmentsLast(psegs, usegs, |psegs|, v);
    assert At(usegs, v) == Some(usegs[v]);
  }

  /** The corrected binding of `/user/:id` against `/user/42` is the whole segment `"42"`. */
  lemma UserIdBindsSegment()
    ensures SegmentMatchIndices("/user/:id", "/user/42") == Some(map["id" := Some("42")])
  {
    UserIdPatternSegments("/user/:id");
    UserIdPathSegments("/user/42");
    BindUserIdSegments();
    SegmentMatchIndicesOf("/user/:id", "/user/42", 2);
  }

  lemma BindUserIdSegments()
    ensures VarSegment(["", "user", ":id"], 2)
    ensures BindSegments(["", "user", ":id"], ["", "user", "42"], 3) == map["id" := Some("42")]
  {
    var psegs := ["", "user", ":id"];
    var usegs := ["", "user", "42"];
    assert !VarSegment(psegs, 0) && !VarSegment(psegs, 1);
    assert BindSegments(psegs, usegs, 2) == map[];
    assert RemoveColons(":id") == "id";
  }

  lemma SegmentMatchIndicesOf(pattern: string, path: string, v: nat)
    requires VarSegment(Fields(pattern, '/'), v)
    ensures SegmentMatchIndices(pattern, path) ==
            Some(BindSegments(Fields(pattern, '/'), Fields(path, '/'), |Fields(pattern, '/')|))
  {
  }

  lemma UserIdPatternSegments(p: string)
    requires p == "/user/:id"
    ensures Fields(p, '/') == ["", "user", ":id"]
  {
    SlashFields(p, "user", ":id");
  }

  lemma UserIdPathSegments(u: string)
    requires u == "/user/42"
    ensures Fields(u, '/') == ["", "user", "42"]
  {
    SlashFields(u, "user", "42");
  }

  /** `/w/x` with `/`-free `w` and `x` splits into `""`, `w` and `x`. */
  lemma SlashFields(s: string, w: string, x: string)
    requires s == "/" + w + "/" + x && '/' !in w && '/' !in x
    ensures Fields(s, '/') == ["", w, x]
  {
    var fs := ["", w, x];
    assert fs[1..] == [w, x] && fs[1..][1..] == [x];
    assert Join([w, x], "/") == w + "/" + x;
    assert s == "" + "/" + (w + "/" + x);
    FieldsOfJoin(fs, '/');
  }

  /* ---------------- matches_url_regex ---------------- */

  /** A character `Regexp.new` gives a meaning of its own (a newline matters to `.`, `^` and `$`). */
  predicate Meta(c: char) {
    c in ".*+?()[]{}|^$\\\n"
  }

  /** Text that a regular expression built from it matches literally. */
  predicate Plain(s: string) {
    forall k :: 0 <= k < |s| ==> !Meta(s[k])
  }

  /**
   * The regular expression under construction: a literal character, or a
   * `.+` that replaced the variable text `covered`.
   */
  datatype Atom = Lit(c: char) | AnyPlus(covered: string)

  /** The source text of the regular expression. */
  function Render(atoms: seq<Atom>): string {
    if atoms == [] then ""
    else (if atoms[0].Lit? then [atoms[0].c] else ".+") + Render(atoms[1..])
  }

  /** The text the atoms stand for: literals as themselves, `.+` as what it replaced. */
  function Covered(atoms: seq<Atom>): string {
    if atoms == [] then ""
    else (if atoms[0].Lit? then [atoms[0].c] else atoms[0].covered) + Covered(atoms[1..])
  }

  predicate CoversNonEmpty(atoms: seq<Atom>) {
    forall k :: 0 <= k < |atoms| && atoms[k].AnyPlus? ==> atoms[k].covered != ""
  }

  /** `url.dup` read as a regular expression: one literal per character. */
  function LitAtoms(s: string): (r: seq<Atom>)
    ensures Covered(r) == s && CoversNonEmpty(r)
    ensures Render(r) == s
  {
    if s == [] then [] else [Lit(s[0])] + LitAtoms(s[1..])
  }

  /** `atoms` starts with the literal characters of `text`. */
  predicate StartsWithText(atoms: seq<Atom>, text: string) {
    |text| <= |atoms| && forall k :: 0 <= k < |text| ==> atoms[k] == Lit(text[k])
  }

  lemma {:induction false} CoveredSplit(atoms: seq<Atom>, n: nat)
    requires n <= |atoms|
    ensures Covered(atoms) == Covered(atoms[..n]) + Covered(atoms[n..])
  {
    if n > 0 {
      CoveredSplit(atoms[1..], n - 1);
      assert atoms[1..][..n - 1] == atoms[..n][1..];
      assert atoms[1..][n - 1..] == atoms[n..];
    }
  }

  lemma {:induction false} CoveredText(atoms: seq<Atom>, text: string)
    requires StartsWithText(atoms, text)
    ensures Covered(atoms[..|text|]) == text
  {
    if text != [] {
      CoveredText(atoms[1..], text[1..]);
      assert atoms[1..][..|text| - 1] == atoms[..|text|][1..];
    }
  }

  /**
   * `gsub!(Regexp.new(text), '.+')` for a plain `text`: every leftmost,
   * non-overlapping run of literals spelling `text` becomes one `.+`.
   */
  function ReplaceAll(atoms: seq<Atom>, text: string): (r: seq<Atom>)
    requires text != []
    ensures Covered(r) == Covered(atoms)
    ensures CoversNonEmpty(atoms) ==> CoversNonEmpty(r)
    decreases |atoms|
  {
    if atoms == [] then []
    else if StartsWithText(atoms, text) then
      CoveredSplit(atoms, |text|);
      CoveredText(atoms, text);
      [AnyPlus(text)] + ReplaceAll(atoms[|text|..], text)
    else
      [atoms[0]] + ReplaceAll(atoms[1..], text)
  }

  /**
   * The atoms match a prefix of `s`, or all of `s` when `toEnd` holds (`.`
   * does not match a newline).
   */
  function PrefixMatch(atoms: seq<Atom>, s: string, toEnd: bool): bool
    decreases |atoms|, 1, 0
  {
    if atoms == [] then !toEnd || s == []
    else match atoms[0]
      case Lit(c) => s != [] && s[0] == c && PrefixMatch(atoms[1..], s[1..], toEnd)
      case AnyPlus(_) => PlusThen(atoms[1..], s, 1, toEnd)
  }

  /** `.+` takes `s[..k]` or more, and `rest` matches what is left (a prefix of it, unless `toEnd`). */
  function PlusThen(rest: seq<Atom>, s: string, k: nat, toEnd: bool): bool
    decreases |rest| + 1, 0, |s| + 1 - k
  {
    if k == 0 || k > |s| then false
    else s[k - 1] != '\n' && (PrefixMatch(rest, s[k..], toEnd) || PlusThen(rest, s, k + 1, toEnd))
  }

  /** `s.match?(regexp)` for an unanchored regular expression. */
  function Search(atoms: seq<Atom>, s: string): bool {
    PrefixMatch(atoms, s, false) || (s != [] && Search(atoms, s[1..]))
  }

  /**
   * `s.match?(/^#{regexp}$/)` for a subject without newlines: `^` and `$`
   * can then only hold at the two ends of `s`, so the atoms must match all of it.
   */
  function AnchoredMatch(atoms: seq<Atom>, s: string): bool
    requires '\n' !in s
  {
    PrefixMatch(atoms, s, true)
  }

  /** A regular expression of literal characters matches, anchored, exactly the text it spells. */
  lemma {:induction false} LiteralsMatchThemselves(p: string, s: string)
    ensures PrefixMatch(LitAtoms(p), s, true) <==> s == p
  {
    if p != [] {
      var atoms := LitAtoms(p);
      assert atoms[0] == Lit(p[0]) && atoms[1..] == LitAtoms(p[1..]);
      if s != [] {
        LiteralsMatchThemselves(p[1..], s[1..]);
        assert s == [s[0]] + s[1..] && p == [p[0]] + p[1..];
      }
    }
  }

  lemma {:induction false} PlusThenFrom(rest: seq<Atom>, s: string, k: nat, m: nat)
    requires 1 <= k <= m <= |s|
    requires forall j :: 0 <= j < m ==> s[j] != '\n'
    requires PrefixMatch(rest, s[m..], false)
    ensures PlusThen(rest, s, k, false)
    decreases m - k
  {
    if k < m {
      PlusThenFrom(rest, s, k + 1, m);
    }
  }

  /** Atoms whose `.+` each stand for non-empty text without newlines match that text. */
  lemma {:induction false} CoveredMatches(atoms: seq<Atom>, rest: string)
    requires CoversNonEmpty(atoms)
    requires '\n' !in Covered(atoms)
    ensures PrefixMatch(atoms, Covered(atoms) + rest, false)
  {
    if atoms != [] {
      var head := if atoms[0].Lit? then [atoms[0].c] else atoms[0].covered;
      var tail := Covered(atoms[1..]);
      var s := Covered(atoms) + rest;
      assert Covered(atoms) == head + tail;
      assert s == head + (tail + rest);
      assert forall j :: 0 <= j < |tail| ==> tail[j] == Covered(atoms)[|head| + j];
      assert CoversNonEmpty(atoms[1..]) by {
        forall k | 0 <= k < |atoms[1..]| && atoms[1..][k].AnyPlus?
          ensures atoms[1..][k].covered != ""
        {
          assert atoms[1..][k] == atoms[k + 1];
        }
      }
      CoveredMatches(atoms[1..], rest);
      assert s[|head|..] == tail + rest;
      if atoms[0].AnyPlus? {
        assert forall j :: 0 <= j < |head| ==> s[j] == Covered(atoms)[j];
        PlusThenFrom(atoms[1..], s, 1, |head|);
      } else {
        assert s[1..] == tail + rest;
      }
    }
  }

  /**
   * `matches_url_regex(url, regex)` for the route pattern `url` and the
   * request path `regex`. Without variables the pattern is matched against
   * `/^#{regex}$/`; with variables each variable's text is replaced by `.+`
   * in a copy of the pattern and the pattern is matched against that, so the
   * path is never read. The Regexp engine is modelled only on plain text;
   * `None` stands for a result that depends on it beyond that.
   */
  method MatchesUrlRegex(pattern: string, path: string) returns (r: Option<bool>)
    ensures Vars(TokensFrom(pattern, 0)) == [] ==>
              r == (if Plain(path) && '\n' !in pattern then Some(pattern == path) else None)
    ensures Vars(TokensFrom(pattern, 0)) != [] ==>
              r == (if Plain(pattern) then Some(true) else None)
  {
    var matches := Vars(TokensFrom(pattern, 0));
    if matches == [] {
      if Plain(path) && '\n' !in pattern {
        var matched := AnchoredMatch(LitAtoms(path), pattern);
        LiteralsMatchThemselves(path, pattern);
        return Some(matched);
      }
      return None;
    }
    if !Plain(pattern) {
      return None;
    }
    var newregexp := LitAtoms(pattern);
    for k := 0 to |matches|
      invariant Covered(newregexp) == pattern && CoversNonEmpty(newregexp)
    {
      newregexp := ReplaceAll(newregexp, matches[k]);
    }
    assert '\n' !in pattern by {
      assert forall k :: 0 <= k < |pattern| ==> pattern[k] != '\n';
    }
    CoveredMatches(newregexp, "");
    assert Covered(newregexp) + "" == pattern;
    var matched := Search(newregexp, pattern);
    return Some(matched);
  }
}
