/**
 * The Ruby String methods the server's helpers are built from, written out
 * over `seq<char>`: `split` on one character (which drops trailing empty
 * fields), the awk-style `split(' ')` and `split(' ', 2)`, `strip`, `chop`,
 * `to_i`, and the decimal rendering of `Integer#to_s`.
 */
module RubyStrings {

  /** The ASCII whitespace of awk-style `split(' ')` and of `to_i`. */
  predicate IsSpace(c: char) {
    c == ' ' || c == '\t' || c == '\n' || c == '\U{B}' || c == '\U{C}' || c == '\r'
  }

  /** `strip` removes NUL characters as well as whitespace. */
  predicate IsStripSpace(c: char) {
    IsSpace(c) || c == '\0'
  }

  predicate IsDigit(c: char) {
    '0' <= c <= '9'
  }

  /* ---------------- split on one character ---------------- */

  /** Position of the first `c` in `s`. */
  function IndexOf(s: string, c: char): (i: nat)
    requires c in s
    ensures i < |s| && s[i] == c && c !in s[..i]
  {
    if s[0] == c then 0
    else
      var j := IndexOf(s[1..], c);
      assert s[..j + 1] == [s[0]] + s[1..][..j];
      j + 1
  }

  /** Every field of `s` between occurrences of `sep`, empty fields included. */
  function Fields(s: string, sep: char): (r: seq<string>)
    ensures |r| >= 1
    ensures forall i :: 0 <= i < |r| ==> sep !in r[i]
    decreases |s|
  {
    if sep !in s then [s]
    else
      var i := IndexOf(s, sep);
      [s[..i]] + Fields(s[i + 1..], sep)
  }

  /** `fields.join(sep)`. */
  function Join(fields: seq<string>, sep: string): string {
    if fields == [] then ""
    else if |fields| == 1 then fields[0]
    else fields[0] + sep + Join(fields[1..], sep)
  }

  /** Removes the empty fields at the end of a field list, as `split` does. */
  function DropTrailingEmpty(fs: seq<string>): (r: seq<string>)
    ensures |r| <= |fs| && r == fs[..|r|]
    ensures r == [] || r[|r| - 1] != ""
    ensures forall i :: |r| <= i < |fs| ==> fs[i] == ""
  {
    if fs == [] then []
    else if fs[|fs| - 1] == "" then DropTrailingEmpty(fs[..|fs| - 1])
    else fs
  }

  /** `s.split(sep)` for a one-character separator other than a space. */
  function Split(s: string, sep: char): seq<string> {
    DropTrailingEmpty(Fields(s, sep))
  }

  lemma IndexOfJoin(a: string, sep: char, b: string)
    requires sep !in a
    ensures sep in a + [sep] + b && IndexOf(a + [sep] + b, sep) == |a|
  {
    var s := a + [sep] + b;
    assert s[|a|] == sep;
    var i := IndexOf(s, sep);
  }

  /** Splitting the joined fields gives every field back. */
  lemma {:induction false} FieldsOfJoin(fs: seq<string>, sep: char)
    requires |fs| >= 1
    requires forall i :: 0 <= i < |fs| ==> sep !in fs[i]
    ensures Fields(Join(fs, [sep]), sep) == fs
  {
    if |fs| > 1 {
      var rest := Join(fs[1..], [sep]);
      IndexOfJoin(fs[0], sep, rest);
      var s := fs[0] + [sep] + rest;
      assert Join(fs, [sep]) == s;
      assert s[..|fs[0]|] == fs[0];
      assert s[|fs[0]| + 1..] == rest;
      assert Fields(s, sep) == [fs[0]] + Fields(rest, sep);
      FieldsOfJoin(fs[1..], sep);
      assert fs == [fs[0]] + fs[1..];
    }
  }

  /**
   * `split` inverts `join` for fields free of the separator when the last
   * field is not empty (otherwise `split` drops it).
   */
  lemma SplitJoin(fs: seq<string>, sep: char)
    requires |fs| >= 1 && fs[|fs| - 1] != ""
    requires forall i :: 0 <= i < |fs| ==> sep !in fs[i]
    ensures Split(Join(fs, [sep]), sep) == fs
  {
    FieldsOfJoin(fs, sep);
  }

  /** The first field of `s`: the text before the first `sep`. */
  lemma FirstField(s: string, sep: char)
    ensures Fields(s, sep)[0] == if sep in s then s[..IndexOf(s, sep)] else s
  {
  }

  /**
   * `split` gives at least two fields exactly when a separator is followed
   * by something other than separators; the first two fields are then the
   * text before the first separator and the text after it up to the next.
   */
  lemma SplitAtFirst(s: string, sep: char)
    ensures |Split(s, sep)| >= 2 <==> sep in s && !AllSep(s[IndexOf(s, sep) + 1..], sep)
    ensures |Split(s, sep)| >= 2 ==>
              var rest := s[IndexOf(s, sep) + 1..];
              Split(s, sep)[0] == s[..IndexOf(s, sep)] &&
              Split(s, sep)[1] == if sep in rest then rest[..IndexOf(rest, sep)] else rest
  {
    if sep in s {
      var i := IndexOf(s, sep);
      var rest := s[i + 1..];
      var fs := Fields(rest, sep);
      assert Fields(s, sep) == [s[..i]] + fs;
      FieldsAllEmpty(rest, sep);
      if AllSep(rest, sep) {
        DropEmptyTail(s[..i], fs);
      } else {
        DropKeepsHead(s[..i], fs);
        var kept := DropTrailingEmpty(fs);
        assert kept != [] && kept[0] == fs[0];
        FirstField(rest, sep);
        assert Split(s, sep) == [s[..i]] + kept;
      }
    }
  }

  /** A field list whose tail is all empty fields keeps at most its head. */
  lemma {:induction false} DropEmptyTail(a: string, fs: seq<string>)
    requires AllEmpty(fs)
    ensures |DropTrailingEmpty([a] + fs)| <= 1
    decreases |fs|
  {
    if fs != [] {
      assert ([a] + fs)[..|fs|] == [a] + fs[..|fs| - 1];
      DropEmptyTail(a, fs[..|fs| - 1]);
    }
  }

  /** Dropping trailing empty fields stops before the head when the tail has a non-empty field. */
  lemma {:induction false} DropKeepsHead(a: string, fs: seq<string>)
    requires !AllEmpty(fs)
    ensures DropTrailingEmpty([a] + fs) == [a] + DropTrailingEmpty(fs)
    decreases |fs|
  {
    if fs[|fs| - 1] == "" {
      var init := fs[..|fs| - 1];
      assert ([a] + fs)[..|fs|] == [a] + init;
      assert !AllEmpty(init) by {
        var k :| 0 <= k < |fs| && fs[k] != "";
        assert k < |fs| - 1 && init[k] == fs[k];
      }
      DropKeepsHead(a, init);
    }
  }

  predicate AllEmpty(fs: seq<string>) {
    forall k :: 0 <= k < |fs| ==> fs[k] == ""
  }

  predicate AllSep(s: string, sep: char) {
    forall k :: 0 <= k < |s| ==> s[k] == sep
  }

  /** Every field is empty iff `s` is made of separators only. */
  lemma FieldsAllEmpty(s: string, sep: char)
    ensures AllEmpty(Fields(s, sep)) <==> AllSep(s, sep)
  {
    if AllEmpty(Fields(s, sep)) {
      EmptyFieldsAllSep(s, sep);
    }
    if AllSep(s, sep) {
      AllSepEmptyFields(s, sep);
    }
  }

  lemma {:induction false} EmptyFieldsAllSep(s: string, sep: char)
    requires AllEmpty(Fields(s, sep))
    ensures AllSep(s, sep)
    decreases |s|
  {
    var fs := Fields(s, sep);
    if sep !in s {
      assert fs == [s] && fs[0] == "";
    } else {
      var i := IndexOf(s, sep);
      var rest := s[i + 1..];
      var rfs := Fields(rest, sep);
      assert fs == [s[..i]] + rfs;
      assert s[..i] == fs[0] == "";
      assert forall m :: 0 <= m < |rfs| ==> rfs[m] == fs[m + 1];
      EmptyFieldsAllSep(rest, sep);
      forall k | 0 <= k < |s|
        ensures s[k] == sep
      {
        if k > 0 {
          assert s[k] == rest[k - 1];
        }
      }
    }
  }

  lemma {:induction false} AllSepEmptyFields(s: string, sep: char)
    requires AllSep(s, sep)
    ensures AllEmpty(Fields(s, sep))
    decreases |s|
  {
    var fs := Fields(s, sep);
    if s == [] {
      assert fs == [s];
    } else {
      assert s[0] == sep;
      var i := IndexOf(s, sep);
      assert i == 0;
      var rest := s[1..];
      var rfs := Fields(rest, sep);
      assert fs == [s[..0]] + rfs;
      assert forall k :: 0 <= k < |rest| ==> rest[k] == s[k + 1];
      AllSepEmptyFields(rest, sep);
      forall k | 0 <= k < |fs|
        ensures fs[k] == ""
      {
        if k > 0 {
          assert fs[k] == rfs[k - 1];
        }
      }
    }
  }

  /** `split` gives no field at all iff `s` is made of separators only. */
  lemma SplitEmptyIff(s: string, sep: char)
    ensures Split(s, sep) == [] <==> AllSep(s, sep)
    ensures Split(s, sep) != [] ==> Split(s, sep)[0] == if sep in s then s[..IndexOf(s, sep)] else s
  {
    FieldsAllEmpty(s, sep);
    FirstField(s, sep);
  }

  /* ---------------- whitespace ---------------- */

  /** `lstrip` for the whitespace of awk-style `split`. */
  function TrimLeft(s: string): (r: string)
    ensures |r| <= |s| && r == s[|s| - |r|..]
    ensures r == [] || !IsSpace(r[0])
    ensures forall i :: 0 <= i < |s| - |r| ==> IsSpace(s[i])
  {
    if s != [] && IsSpace(s[0]) then TrimLeft(s[1..]) else s
  }

  function StripLeft(s: string): (r: string)
    ensures |r| <= |s| && r == s[|s| - |r|..]
    ensures r == [] || !IsStripSpace(r[0])
    ensures forall i :: 0 <= i < |s| - |r| ==> IsStripSpace(s[i])
  {
    if s != [] && IsStripSpace(s[0]) then StripLeft(s[1..]) else s
  }

  function StripRight(s: string): (r: string)
    ensures |r| <= |s| && r == s[..|r|]
    ensures r == [] || !IsStripSpace(r[|r| - 1])
    ensures forall i :: |r| <= i < |s| ==> IsStripSpace(s[i])
  {
    if s != [] && IsStripSpace(s[|s| - 1]) then StripRight(s[..|s| - 1]) else s
  }

  /** `strip`: no whitespace or NUL at either end. */
  function Strip(s: string): (r: string)
    ensures r == [] || (!IsStripSpace(r[0]) && !IsStripSpace(r[|r| - 1]))
  {
    StripRight(StripLeft(s))
  }

  /** Length of the leading run of non-whitespace characters. */
  function WordLen(s: string): (n: nat)
    ensures n <= |s|
    ensures forall i :: 0 <= i < n ==> !IsSpace(s[i])
    ensures n < |s| ==> IsSpace(s[n])
    ensures s != [] && !IsSpace(s[0]) ==> n >= 1
  {
    if s == [] || IsSpace(s[0]) then 0 else 1 + WordLen(s[1..])
  }

  /** awk-style `s.split(' ')`: the maximal runs of non-whitespace characters. */
  function Words(s: string): (r: seq<string>)
    ensures "" !in r
    decreases |s|
  {
    var t := TrimLeft(s);
    if t == [] then []
    else
      var n := WordLen(t);
      [t[..n]] + Words(t[n..])
  }

  /**
   * awk-style `s.split(' ', 2)`: leading whitespace is skipped, the first
   * field runs to the first whitespace, and the second field is everything
   * after that whitespace run, trailing whitespace included. A non-empty
   * all-whitespace string gives one empty field; the empty string gives none.
   */
  function SplitFirstWord(s: string): (r: seq<string>)
    ensures |r| <= 2
    ensures s == [] <==> r == []
    ensures |r| >= 1 ==> forall i :: 0 <= i < |r[0]| ==> !IsSpace(r[0][i])
  {
    if s == [] then []
    else
      var t := TrimLeft(s);
      if t == [] then [""]
      else
        var n := WordLen(t);
        if n == |t| then [t] else [t[..n], TrimLeft(t[n..])]
  }

  /** `chop`: drops the last character, or a final "\r\n" pair. */
  function Chop(s: string): (r: string)
    ensures s == [] ==> r == []
    ensures s != [] ==> |r| < |s| && r == s[..|r|]
  {
    if |s| >= 2 && s[|s| - 2..] == "\r\n" then s[..|s| - 2]
    else if s == [] then s
    else s[..|s| - 1]
  }

  /* ---------------- integers ---------------- */

  function DigitChar(d: nat): (c: char)
    requires d < 10
    ensures IsDigit(c)
  {
    ('0' as int + d) as char
  }

  /** The decimal digits of a natural number, most significant first. */
  function Digits(n: nat): (r: string)
    ensures |r| >= 1
    ensures forall i :: 0 <= i < |r| ==> IsDigit(r[i])
  {
    if n < 10 then [DigitChar(n)] else Digits(n / 10) + [DigitChar(n % 10)]
  }

  /** `n.to_s`. */
  function DecimalString(n: int): string {
    if n < 0 then "-" + Digits(-n) else Digits(n)
  }

  /** Length of the leading run of decimal digits. */
  function DigitRunLen(s: string): (n: nat)
    ensures n <= |s|
    ensures forall i :: 0 <= i < n ==> IsDigit(s[i])
    ensures n < |s| ==> !IsDigit(s[n])
  {
    if s == [] || !IsDigit(s[0]) then 0 else 1 + DigitRunLen(s[1..])
  }

  /** The value of a string of decimal digits. */
  function DigitsValue(d: string): nat
    requires forall i :: 0 <= i < |d| ==> IsDigit(d[i])
  {
    if d == [] then 0
    else
      assert IsDigit(d[|d| - 1]);
      DigitsValue(d[..|d| - 1]) * 10 + (d[|d| - 1] as int - '0' as int)
  }

  /** The value of the leading digits of `s` (0 when there are none). */
  function LeadingDigitsValue(s: string): nat {
    DigitsValue(s[..DigitRunLen(s)])
  }

  /**
   * `s.to_i`: leading whitespace, an optional sign, then as many decimal
   * digits as follow; anything else ends the number, and no digits give 0.
   */
  function ToI(s: string): int {
    var t := TrimLeft(s);
    if t != [] && t[0] == '-' then -(LeadingDigitsValue(t[1..]) as int)
    else if t != [] && t[0] == '+' then LeadingDigitsValue(t[1..])
    else LeadingDigitsValue(t)
  }

  /** The most significant decimal digit of a natural number. */
  function LeadingDigit(n: nat): (d: nat)
    ensures d < 10
    ensures n > 0 ==> d > 0
  {
    if n < 10 then n else LeadingDigit(n / 10)
  }

  lemma {:induction false} DigitsValueOfDigits(n: nat)
    ensures DigitRunLen(Digits(n)) == |Digits(n)|
    ensures DigitsValue(Digits(n)) == n
  {
    var d := Digits(n);
    if n >= 10 {
      DigitsValueOfDigits(n / 10);
      assert d[..|d| - 1] == Digits(n / 10);
    }
  }

  /** Skipping leading whitespace changes nothing when there is none. */
  lemma TrimLeftNoSpace(s: string)
    requires s != [] && !IsSpace(s[0])
    ensures TrimLeft(s) == s
  {
  }

  lemma LeadingDigitsValueOfDigits(n: nat)
    ensures LeadingDigitsValue(Digits(n)) == n
  {
    var d := Digits(n);
    DigitsValueOfDigits(n);
    assert d[..DigitRunLen(d)] == d;
  }

  /** `to_i` reads back what `to_s` writes. */
  lemma DecimalRoundTrip(n: int)
    ensures ToI(DecimalString(n)) == n
  {
    var s := DecimalString(n);
    if n < 0 {
      var d := Digits(-n);
      LeadingDigitsValueOfDigits(-n);
      assert s == ['-'] + d;
      TrimLeftNoSpace(s);
      assert s[1..] == d;
    } else {
      LeadingDigitsValueOfDigits(n);
      assert IsDigit(s[0]);
      TrimLeftNoSpace(s);
    }
  }

  /** The first character of `n.to_s` is the leading digit of a positive `n`. */
  lemma {:induction false} FirstDigitChar(n: nat)
    ensures Digits(n)[0] == DigitChar(LeadingDigit(n))
  {
    if n >= 10 {
      FirstDigitChar(n / 10);
    }
  }

  /** A request-line shape: three whitespace-free tokens separated by spaces, then a line ending. */
  lemma WordsOfRequestLine(a: string, b: string, c: string)
    requires a != [] && b != [] && c != []
    requires forall i :: 0 <= i < |a| ==> !IsSpace(a[i])
    requires forall i :: 0 <= i < |b| ==> !IsSpace(b[i])
    requires forall i :: 0 <= i < |c| ==> !IsSpace(c[i])
    ensures Words(a + " " + b + " " + c + "\r\n") == [a, b, c]
  {
    var y := c + "\r\n";
    var x := b + " " + y;
    LastWord(c);
    WordThenSpace(b, y);
    WordThenSpace(a, x);
    RequestLineShape(a, b, c);
    var line := a + " " + b + " " + c + "\r\n";
    assert Words(line) == Words(a + " " + x);
    Triple(a, b, c);
  }

  lemma Triple<T>(a: T, b: T, c: T)
    ensures [a] + ([b] + [c]) == [a, b, c]
  {
  }

  lemma RequestLineShape(a: string, b: string, c: string)
    ensures a + " " + b + " " + c + "\r\n" == a + " " + (b + " " + (c + "\r\n"))
  {
  }

  lemma WordThenSpace(w: string, rest: string)
    requires w != [] && forall i :: 0 <= i < |w| ==> !IsSpace(w[i])
    ensures Words(w + " " + rest) == [w] + Words(rest)
  {
    assert w + " " + rest == w + ([' '] + rest);
    WordOf(w, [' '] + rest);
    WordsAfterSpace(rest);
  }

  lemma LastWord(w: string)
    requires w != [] && forall i :: 0 <= i < |w| ==> !IsSpace(w[i])
    ensures Words(w + "\r\n") == [w]
  {
    WordOf(w, "\r\n");
    WordsOfLineEnd();
  }

  lemma WordsOfLineEnd()
    ensures Words("\r\n") == []
  {
    assert "\r\n"[1..] == "\n";
    assert "\n"[1..] == "";
    assert TrimLeft("\n") == [];
  }

  lemma WordsAfterSpace(x: string)
    ensures Words([' '] + x) == Words(x)
  {
    assert ([' '] + x)[1..] == x;
  }

  /** A whitespace-free word followed by whitespace is the first word. */
  lemma WordOf(w: string, rest: string)
    requires w != [] && forall i :: 0 <= i < |w| ==> !IsSpace(w[i])
    requires rest != [] && IsSpace(rest[0])
    ensures Words(w + rest) == [w] + Words(rest)
  {
    var s := w + rest;
    TrimLeftNoSpace(s);
    WordLenOf(w, rest);
    assert s[..|w|] == w && s[|w|..] == rest;
  }

  lemma {:induction false} WordLenOf(w: string, rest: string)
    requires forall i :: 0 <= i < |w| ==> !IsSpace(w[i])
    requires rest != [] && IsSpace(rest[0])
    ensures WordLen(w + rest) == |w|
  {
    if w != [] {
      assert (w + rest)[1..] == w[1..] + rest;
      WordLenOf(w[1..], rest);
    }
  }
}
