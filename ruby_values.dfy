/**
 * The slice of Ruby's object model that the server's helpers rely on:
 * dynamically typed values, hashes keyed by arbitrary values, `is_a?`,
 * truthiness, string interpolation, and the exceptions the helpers raise.
 */
module RubyValues {
  import opened RubyStrings

  datatype Option<+T> = None | Some(value: T)

  /** A Ruby value as the helpers see it. Hash keys are values themselves. */
  datatype Value =
    | Nil
    | Bool(b: bool)
    | Int(i: int)
    | Str(s: string)
    | Sym(name: string)
    | List(items: seq<Value>)
    | Dict(entries: map<Value, Value>)

  /** A value that is not a Hash (what `is_a? Hash` answers false for). */
  type NonHash = v: Value | !v.Dict? witness Nil

  /** The classes that `is_a?` is asked about, with Ruby's subclassing. */
  datatype RubyClass =
    | ObjectClass | NumericClass | IntegerClass | StringClass | SymbolClass
    | ArrayClass | HashClass | NilClass | TrueClass | FalseClass

  /** `v.is_a?(c)`: Integer is a Numeric, everything is an Object. */
  predicate IsA(v: Value, c: RubyClass) {
    match c
    case ObjectClass => true
    case NumericClass => v.Int?
    case IntegerClass => v.Int?
    case StringClass => v.Str?
    case SymbolClass => v.Sym?
    case ArrayClass => v.List?
    case HashClass => v.Dict?
    case NilClass => v.Nil?
    case TrueClass => v == Bool(true)
    case FalseClass => v == Bool(false)
  }

  /** Only `nil` and `false` are falsy in Ruby. */
  predicate Truthy(v: Value) {
    v != Nil && v != Bool(false)
  }

  /** `h[k]` on a Hash: the stored value, or `nil` when the key is absent. */
  function Get(h: map<Value, Value>, k: Value): (r: Value)
    ensures k !in h ==> r == Nil
    ensures k in h ==> r == h[k]
  {
    if k in h then h[k] else Nil
  }

  /** `"#{v}"`: how a value is rendered by string interpolation. */
  function ToS(v: Value): string {
    match v
    case Nil => ""
    case Bool(b) => if b then "true" else "false"
    case Int(i) => DecimalString(i)
    case Str(s) => s
    case Sym(name) => name
    // Array#inspect and Hash#inspect are not modelled
    case List(_) => ""
    case Dict(_) => ""
  }

  /** `v.to_sym`: defined on strings and symbols only. */
  function ToSym(v: Value): (r: Option<string>)
    ensures r.Some? <==> (v.Str? || v.Sym?)
  {
    match v
    case Str(s) => Some(s)
    case Sym(name) => Some(name)
    case _ => None
  }

  /** `v.empty?`: defined on strings, symbols, arrays and hashes only. */
  function IsEmpty(v: Value): Option<bool> {
    match v
    case Str(s) => Some(s == "")
    case Sym(name) => Some(name == "")
    case List(items) => Some(items == [])
    case Dict(entries) => Some(entries == map[])
    case _ => None
  }

  /** `xs[k]` on an Array: the element, or `nil` (here `None`) past the end. */
  function At<T>(xs: seq<T>, k: nat): (r: Option<T>)
    ensures r.Some? <==> k < |xs|
    ensures k < |xs| ==> r.value == xs[k]
  {
    if k < |xs| then Some(xs[k]) else None
  }

  /** One entry of a hash literal whose insertion order matters (it is the order `to_json` writes). */
  datatype Field = Field(key: string, value: Value)

  /** The key names of an ordered hash, in insertion order. */
  function Keys(fields: seq<Field>): (r: seq<string>)
    ensures |r| == |fields|
    ensures forall i :: 0 <= i < |fields| ==> r[i] == fields[i].key
  {
    if fields == [] then [] else [fields[0].key] + Keys(fields[1..])
  }

  /** The exceptions raised along the request/response path. */
  datatype RubyError =
      /** a method called on `nil`, or on a value that lacks it */
    | NoMethodError(name: string)
      /** `raise ArgumentError, payload.to_json`, with the payload before serialisation */
    | ArgumentError(payload: seq<Field>)
      /** the ArgumentError Ruby raises for a call with the wrong number of arguments */
    | WrongArity(given: nat, expected: nat)
      /** an ArgumentError Ruby raises itself, such as `read` with a negative length */
    | InvalidArgument(message: string)
      /** `raise "text"` */
    | RuntimeError(message: string)
      /** a write to a closed stream */
    | IOError

  /** The result of Ruby code that may raise instead of returning. */
  datatype Outcome<+T> = Returned(value: T) | Raised(error: RubyError)
}
