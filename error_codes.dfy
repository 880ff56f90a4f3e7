/**
 * Reusable error texts (lib/utils/error_codes.rb). Each builder frames its
 * argument between a fixed prefix and suffix; `Unframe` reads the argument
 * back, which is what makes two messages of one kind tell their items apart.
 */
module ErrorCodes {
  import opened RubyStrings
  import opened RubyValues

  const NAN_PREFIX := "invalid parameter: "
  const NAN_SUFFIX := " must be a number."
  const NO_METHOD_PREFIX := "invalid http method: "
  const NO_METHOD_SUFFIX := " is not a valid http method."
  const INVALID_TYPE_PREFIX := "invalid type: "
  const INVALID_TYPE_SUFFIX := " is not a valid type."
  const RANGE_PREFIX := "invalid port number: port must be in range ["
  const RANGE_SUFFIX := "]"
  const STRUCTURE_PREFIX := "invalid object with keys "
  const STRUCTURE_INFIX := " supplied to "

  /** `"#{prefix}#{item}#{suffix}"`. */
  function Frame(prefix: string, item: string, suffix: string): string {
    prefix + item + suffix
  }

  /** The item between `prefix` and `suffix`, when `msg` has that frame. */
  function Unframe(msg: string, prefix: string, suffix: string): (r: Option<string>)
    ensures r.Some? ==> msg == Frame(prefix, r.value, suffix)
  {
    if |msg| >= |prefix| + |suffix| && msg[..|prefix|] == prefix && msg[|msg| - |suffix|..] == suffix
    then
      var item := msg[|prefix|..|msg| - |suffix|];
      assert msg == msg[..|prefix|] + item + msg[|msg| - |suffix|..];
      Some(item)
    else None
  }

  lemma UnframeFrame(prefix: string, item: string, suffix: string)
    ensures Unframe(Frame(prefix, item, suffix), prefix, suffix) == Some(item)
  {
    var msg := Frame(prefix, item, suffix);
    assert msg[..|prefix|] == prefix;
    assert msg[|msg| - |suffix|..] == suffix;
    assert msg[|prefix|..|msg| - |suffix|] == item;
  }

  /** `nan_error(item)`. */
  function NanMessage(item: string): (r: string)
    ensures |r| == |NAN_PREFIX| + |item| + |NAN_SUFFIX|
    ensures r[..|NAN_PREFIX|] == NAN_PREFIX && r[|r| - |NAN_SUFFIX|..] == NAN_SUFFIX
  {
    Frame(NAN_PREFIX, item, NAN_SUFFIX)
  }

  /** `no_method_error(item)`. */
  function NoMethodMessage(item: string): (r: string)
    ensures |r| == |NO_METHOD_PREFIX| + |item| + |NO_METHOD_SUFFIX|
    ensures r[..|NO_METHOD_PREFIX|] == NO_METHOD_PREFIX && r[|r| - |NO_METHOD_SUFFIX|..] == NO_METHOD_SUFFIX
  {
    Frame(NO_METHOD_PREFIX, item, NO_METHOD_SUFFIX)
  }

  /** `invalid_type_error(item)`. */
  function InvalidTypeMessage(item: string): (r: string)
    ensures |r| == |INVALID_TYPE_PREFIX| + |item| + |INVALID_TYPE_SUFFIX|
    ensures r[..|INVALID_TYPE_PREFIX|] == INVALID_TYPE_PREFIX && r[|r| - |INVALID_TYPE_SUFFIX|..] == INVALID_TYPE_SUFFIX
  {
    Frame(INVALID_TYPE_PREFIX, item, INVALID_TYPE_SUFFIX)
  }

  /** `range_error(min, max)`: both bounds are rendered by `Integer#to_s`. */
  function RangeMessage(min: int, max: int): (r: string)
    ensures |r| == |RANGE_PREFIX| + |DecimalString(min)| + 2 + |DecimalString(max)| + 1
    ensures r[..|RANGE_PREFIX|] == RANGE_PREFIX && r[|r| - 1] == ']'
    ensures ", " <= r[|RANGE_PREFIX| + |DecimalString(min)|..]
  {
    Frame(RANGE_PREFIX, DecimalString(min) + ", " + DecimalString(max), RANGE_SUFFIX)
  }

  /** `invalid_structure_error(keys, method)`: two items around a fixed infix, no suffix. */
  function InvalidStructureMessage(keys: string, methodName: string): (r: string)
    ensures |r| == |STRUCTURE_PREFIX| + |keys| + |STRUCTURE_INFIX| + |methodName|
    ensures r[..|STRUCTURE_PREFIX|] == STRUCTURE_PREFIX
    ensures r[|r| - |methodName|..] == methodName
    ensures STRUCTURE_INFIX <= r[|STRUCTURE_PREFIX| + |keys|..]
  {
    STRUCTURE_PREFIX + keys + STRUCTURE_INFIX + methodName
  }

  /** The message of `nan_error` names its item: the item is read back from the text. */
  lemma NanMessageNamesItem(item: string)
    ensures Unframe(NanMessage(item), NAN_PREFIX, NAN_SUFFIX) == Some(item)
    ensures NanMessage(item)[..|NAN_PREFIX|] == NAN_PREFIX
  {
    UnframeFrame(NAN_PREFIX, item, NAN_SUFFIX);
  }

  lemma NoMethodMessageNamesItem(item: string)
    ensures Unframe(NoMethodMessage(item), NO_METHOD_PREFIX, NO_METHOD_SUFFIX) == Some(item)
  {
    UnframeFrame(NO_METHOD_PREFIX, item, NO_METHOD_SUFFIX);
  }

  lemma InvalidTypeMessageNamesItem(item: string)
    ensures Unframe(InvalidTypeMessage(item), INVALID_TYPE_PREFIX, INVALID_TYPE_SUFFIX) == Some(item)
  {
    UnframeFrame(INVALID_TYPE_PREFIX, item, INVALID_TYPE_SUFFIX);
  }

  /** The message of `invalid_structure_error` names both items: each is read back given the other. */
  lemma InvalidStructureMessageNamesItems(keys: string, methodName: string)
    ensures Unframe(InvalidStructureMessage(keys, methodName), STRUCTURE_PREFIX, STRUCTURE_INFIX + methodName) == Some(keys)
    ensures Unframe(InvalidStructureMessage(keys, methodName), STRUCTURE_PREFIX + keys + STRUCTURE_INFIX, "") == Some(methodName)
  {
    var msg := InvalidStructureMessage(keys, methodName);
    assert msg == Frame(STRUCTURE_PREFIX, keys, STRUCTURE_INFIX + methodName);
    assert msg == Frame(STRUCTURE_PREFIX + keys + STRUCTURE_INFIX, methodName, "");
    UnframeFrame(STRUCTURE_PREFIX, keys, STRUCTURE_INFIX + methodName);
    UnframeFrame(STRUCTURE_PREFIX + keys + STRUCTURE_INFIX, methodName, "");
  }

  /** The two bounds named by a `range_error` message, read back with `to_i`. */
  function RangeBounds(msg: string): Option<(int, int)> {
    match Unframe(msg, RANGE_PREFIX, RANGE_SUFFIX)
    case None => None
    case Some(inner) =>
      var parts := Fields(inner, ',');
      if |parts| == 2 then Some((ToI(parts[0]), ToI(parts[1]))) else None
  }

  lemma NoCommaInDecimal(n: int)
    ensures ',' !in DecimalString(n)
  {
    var d := Digits(if n < 0 then -n else n);
    assert forall i :: 0 <= i < |d| ==> d[i] != ',';
    if n < 0 {
      assert DecimalString(n) == ['-'] + d;
    }
  }

  /** A `range_error` message states its bounds: both are read back from the text. */
  lemma RangeMessageNamesBounds(min: int, max: int)
    ensures RangeBounds(RangeMessage(min, max)) == Some((min, max))
  {
    var lo, hi := DecimalString(min), DecimalString(max);
    UnframeFrame(RANGE_PREFIX, lo + ", " + hi, RANGE_SUFFIX);
    BoundsFields(min, max);
    DecimalRoundTrip(min);
    SpacedDecimalRoundTrip(max);
  }

  lemma BoundsFields(min: int, max: int)
    ensures Fields(DecimalString(min) + ", " + DecimalString(max), ',') ==
            [DecimalString(min), " " + DecimalString(max)]
  {
    var lo, hi := DecimalString(min), DecimalString(max);
    NoCommaInDecimal(min);
    NoCommaInDecimal(max);
    assert ',' !in " " + hi by {
      assert forall i :: 1 <= i < |" " + hi| ==> (" " + hi)[i] == hi[i - 1];
    }
    assert lo + ", " + hi == Join([lo, " " + hi], ",");
    FieldsOfJoin([lo, " " + hi], ',');
  }

  lemma SpacedDecimalRoundTrip(n: int)
    ensures ToI(" " + DecimalString(n)) == n
  {
    var d := DecimalString(n);
    assert (" " + d)[1..] == d;
    assert TrimLeft(" " + d) == TrimLeft(d);
    DecimalRoundTrip(n);
  }
}
