/**
 * Structure validators (lib/utils/object_utils.rb). Each check returns
 * `Returned(())` when it passes and otherwise raises the exception built by
 * `ErrorMessage`.
 */
module OUtil {
  import opened RubyStrings
  import opened RubyValues
  import opened ErrorMessage

  /** `check_params(params, method)`: nil or empty parameters raise a status-400 payload. */
  function CheckParams(params: Value, methodName: string): (r: Outcome<()>)
    ensures r == Raised(MissingParameterError(methodName)) <==> params == Nil || IsEmpty(params) == Some(true)
    ensures r == Returned(()) <==> params != Nil && IsEmpty(params) == Some(false)
  {
    if params == Nil then Raised(MissingParameterError(methodName))
    else match IsEmpty(params)
      case None => Raised(NoMethodError("empty?"))
      case Some(empty) => if empty then Raised(MissingParameterError(methodName)) else Returned(())
  }

  /** `check_key(key, value, method)`: passes iff the two are equal, else an invalid-key error naming `key`. */
  function CheckKey(key: Value, value: Value, methodName: string): (r: Outcome<()>)
    ensures r.Returned? <==> key == value
    ensures r.Raised? ==> r.error == InvalidKeyError(methodName, key)
  {
    if key == value then Returned(()) else Raised(InvalidKeyError(methodName, key))
  }

  /** `check_http_method(key, value, method)`: passes iff equal, else status 405 allowing `value`. */
  function CheckHttpMethod(key: Value, value: Value, methodName: string): (r: Outcome<()>)
    ensures r.Returned? <==> key == value
    ensures r.Raised? ==> r.error.ArgumentError? &&
                          Lookup(r.error.payload, "status") == Some(Int(405)) &&
                          Lookup(r.error.payload, "options") == Some(Dict(map[Sym("allowed") := value]))
  {
    if key == value then Returned(()) else Raised(InvalidHttpMethodError(key, value, methodName))
  }

  /** `check_key_type(object, key, type, method)`: passes iff `object[key]` is a `type`; a missing key reads as nil. */
  function CheckKeyType(obj: map<Value, Value>, key: Value, expected: RubyClass, methodName: string): (r: Outcome<()>)
    ensures r.Returned? <==> IsA(Get(obj, key), expected)
    ensures key !in obj ==> (r.Returned? <==> IsA(Nil, expected))
    ensures r.Raised? ==> r.error == InvalidKeyError(methodName, key)
  {
    if IsA(Get(obj, key), expected) then Returned(()) else Raised(InvalidKeyError(methodName, key))
  }

  /**
   * One step of `check_object_keys`: `Some(true)` when the loop keeps `key`,
   * `Some(false)` when it breaks, `None` when `key.to_sym` raises. The type
   * test is made on the key itself, not on any value.
   */
  function Accepts(key: Value, validKeys: map<string, RubyClass>): (r: Option<bool>)
    ensures r.None? <==> ToSym(key).None?
  {
    match ToSym(key)
    case None => None
    case Some(name) => Some(name in validKeys && IsA(key, validKeys[name]))
  }

  predicate Accepted(key: Value, validKeys: map<string, RubyClass>) {
    Accepts(key, validKeys) == Some(true)
  }

  /** How many keys the loop of `check_object_keys` pushes into its bank before it breaks or ends. */
  function AcceptedPrefix(keys: seq<Value>, validKeys: map<string, RubyClass>): (r: Outcome<nat>)
    ensures r.Returned? ==> r.value <= |keys|
    ensures r.Returned? ==> forall j :: 0 <= j < r.value ==> Accepted(keys[j], validKeys)
    ensures r.Returned? && r.value < |keys| ==> Accepts(keys[r.value], validKeys) == Some(false)
    ensures r.Raised? ==> r.error == NoMethodError("to_sym")
  {
    if keys == [] then Returned(0)
    else match Accepts(keys[0], validKeys)
      case None => Raised(NoMethodError("to_sym"))
      case Some(ok) =>
        if !ok then Returned(0)
        else match AcceptedPrefix(keys[1..], validKeys)
          case Raised(e) => Raised(e)
          case Returned(n) => Returned(n + 1)
  }

  /** `"(#{keys.join(', ')})"`. */
  function KeysText(keys: seq<Value>): string {
    "(" + Join(ToSAll(keys), ", ") + ")"
  }

  function ToSAll(keys: seq<Value>): (r: seq<string>)
    ensures |r| == |keys|
  {
    if keys == [] then [] else [ToS(keys[0])] + ToSAll(keys[1..])
  }

  /**
   * What `check_object_keys` does: it passes iff the loop accepted exactly as
   * many keys as `valid_keys` has entries, and otherwise raises a status-400
   * structure error listing every key given.
   */
  function CheckObjectKeysOutcome(keys: seq<Value>, validKeys: map<string, RubyClass>, methodName: string): (r: Outcome<()>)
    ensures r.Returned? ==> |validKeys| <= |keys| && forall j :: 0 <= j < |validKeys| ==> Accepted(keys[j], validKeys)
    ensures r.Raised? ==> r.error == NoMethodError("to_sym") || r.error == InvalidStructureError(methodName, KeysText(keys))
  {
    match AcceptedPrefix(keys, validKeys)
    case Raised(e) => Raised(e)
    case Returned(n) =>
      if n == |validKeys| then Returned(())
      else Raised(InvalidStructureError(methodName, KeysText(keys)))
  }

  /** `check_object_keys(keys, valid_keys, method)`: the loop with `break`, over the key bank. */
  method CheckObjectKeys(keys: seq<Value>, validKeys: map<string, RubyClass>, methodName: string)
    returns (r: Outcome<()>)
    ensures r == CheckObjectKeysOutcome(keys, validKeys, methodName)
  {
    var keyBank: seq<Value> := [];
    var i := 0;
    while i < |keys|
      invariant 0 <= i <= |keys|
      invariant keyBank == keys[..i]
      invariant forall j :: 0 <= j < i ==> Accepted(keys[j], validKeys)
    {
      var key := keys[i];
      var sym := ToSym(key);
      if sym.None? {
        PrefixThenVerdict(keys, validKeys, i);
        return Raised(NoMethodError("to_sym"));
      }
      if sym.value !in validKeys {
        PrefixThenVerdict(keys, validKeys, i);
        break;
      }
      if !IsA(key, validKeys[sym.value]) {
        PrefixThenVerdict(keys, validKeys, i);
        break;
      }
      keyBank := keyBank + [key];
      i := i + 1;
    }
    if i == |keys| {
      AllAcceptedPrefix(keys, validKeys);
    }
    if |keyBank| == |validKeys| {
      return Returned(());
    }
    return Raised(InvalidStructureError(methodName, KeysText(keys)));
  }

  /** After accepted keys, the verdict on `keys[i]` decides: a raise, or a prefix of `i` keys. */
  lemma {:induction false} PrefixThenVerdict(keys: seq<Value>, validKeys: map<string, RubyClass>, i: nat)
    requires i < |keys|
    requires forall j :: 0 <= j < i ==> Accepted(keys[j], validKeys)
    ensures Accepts(keys[i], validKeys).None? ==> AcceptedPrefix(keys, validKeys) == Raised(NoMethodError("to_sym"))
    ensures Accepts(keys[i], validKeys) == Some(false) ==> AcceptedPrefix(keys, validKeys) == Returned(i)
  {
    if i > 0 {
      assert Accepted(keys[0], validKeys);
      assert forall j :: 0 <= j < i - 1 ==> keys[1..][j] == keys[j + 1];
      PrefixThenVerdict(keys[1..], validKeys, i - 1);
      assert keys[1..][i - 1] == keys[i];
    }
  }

  /** Every key accepted: the loop runs to the end and the bank holds all of them. */
  lemma {:induction false} AllAcceptedPrefix(keys: seq<Value>, validKeys: map<string, RubyClass>)
    requires forall j :: 0 <= j < |keys| ==> Accepted(keys[j], validKeys)
    ensures AcceptedPrefix(keys, validKeys) == Returned(|keys|)
  {
    if keys != [] {
      AllAcceptedPrefix(keys[1..], validKeys);
    }
  }

  /**
   * Keys after a complete accepted prefix are never looked at: a prefix of
   * `|valid_keys|` accepted keys followed by a rejected key passes whatever follows.
   */
  lemma TrailingKeysIgnored(good: seq<Value>, bad: Value, rest: seq<Value>, validKeys: map<string, RubyClass>, methodName: string)
    requires |good| == |validKeys|
    requires forall j :: 0 <= j < |good| ==> Accepted(good[j], validKeys)
    requires Accepts(bad, validKeys) == Some(false)
    ensures CheckObjectKeysOutcome(good + [bad] + rest, validKeys, methodName) == Returned(())
  {
    PrefixThenRejected(good, bad, rest, validKeys);
  }

  lemma {:induction false} PrefixThenRejected(good: seq<Value>, bad: Value, rest: seq<Value>, validKeys: map<string, RubyClass>)
    requires forall j :: 0 <= j < |good| ==> Accepted(good[j], validKeys)
    requires Accepts(bad, validKeys) == Some(false)
    ensures AcceptedPrefix(good + [bad] + rest, validKeys) == Returned(|good|)
  {
    var keys := good + [bad] + rest;
    if good == [] {
      assert keys[0] == bad;
    } else {
      assert keys[0] == good[0];
      assert keys[1..] == good[1..] + [bad] + rest;
      PrefixThenRejected(good[1..], bad, rest, validKeys);
    }
  }

  /**
   * Among accepted keys only the count matters: when every key is accepted
   * the check passes iff there are exactly `|valid_keys|` of them, so a
   * repeated valid key can stand in for a missing one and an extra valid key fails.
   */
  lemma AllAcceptedPassesIffCount(keys: seq<Value>, validKeys: map<string, RubyClass>, methodName: string)
    requires forall j :: 0 <= j < |keys| ==> Accepted(keys[j], validKeys)
    ensures CheckObjectKeysOutcome(keys, validKeys, methodName).Returned? <==> |keys| == |validKeys|
  {
    AllAcceptedPrefix(keys, validKeys);
  }

  /** The verdict on accepted keys does not depend on their order. */
  lemma PermutedKeysSameVerdict(keys: seq<Value>, keys': seq<Value>, validKeys: map<string, RubyClass>, methodName: string)
    requires multiset(keys) == multiset(keys')
    requires forall j :: 0 <= j < |keys| ==> Accepted(keys[j], validKeys)
    ensures CheckObjectKeysOutcome(keys, validKeys, methodName).Returned? <==>
            CheckObjectKeysOutcome(keys', validKeys, methodName).Returned?
  {
    assert |keys| == |multiset(keys)| == |multiset(keys')| == |keys'|;
    forall j | 0 <= j < |keys'|
      ensures Accepted(keys'[j], validKeys)
    {
      assert keys'[j] in multiset(keys');
      var k :| 0 <= k < |keys| && keys[k] == keys'[j];
    }
    AllAcceptedPassesIffCount(keys, validKeys, methodName);
    AllAcceptedPassesIffCount(keys', validKeys, methodName);
  }

  /** `check_object_keys(['a', 'a'], {a: String, b: String}, m)` passes although `b` is missing. */
  lemma RepeatedKeyStandsIn(methodName: string)
    ensures CheckObjectKeysOutcome([Str("a"), Str("a")], map["a" := StringClass, "b" := StringClass], methodName) == Returned(())
  {
    var vk := map["a" := StringClass, "b" := StringClass];
    assert |vk| == 2 by { assert vk.Keys == {"a", "b"}; }
    AllAcceptedPassesIffCount([Str("a"), Str("a")], vk, methodName);
  }

  /** `check_object_keys(['port'], {port: Integer}, m)` fails: the key is a String, whatever its value would be. */
  lemma KeyTypeNotValueType(methodName: string)
    ensures CheckObjectKeysOutcome([Str("port")], map["port" := IntegerClass], methodName).Raised?
  {
  }
}
