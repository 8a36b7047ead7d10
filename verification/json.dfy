/** The values `JSON.parse` produces and the few Ruby operations the server
    applies to them: `[]` with a String key, truthiness, `||` and `to_s`. */
module JsonValue {
  import opened Wrappers
  import Decimal

  /** A parsed JSON value. Objects are Ruby Hashes keyed by String; numbers
      are integers (see README for fractions). */
  datatype Json =
    | JNull
    | JBool(b: bool)
    | JInt(n: int)
    | JString(s: string)
    | JArray(items: seq<Json>)
    | JObject(fields: map<string, Json>)

  /** The empty Hash `{}`. */
  const EmptyObject: Json := JObject(map[])

  /** Ruby truthiness: only `nil` and `false` are falsy. */
  predicate Truthy(v: Json) {
    !(v.JNull? || v == JBool(false))
  }

  /** Ruby `v || fallback`. */
  function OrElse(v: Json, fallback: Json): Json {
    if Truthy(v) then v else fallback
  }

  /** The value a Hash holds under `key`, or `nil` when the key is absent. */
  function Get(fields: map<string, Json>, key: string): Json {
    if key in fields then fields[key] else JNull
  }

  /** True when `a` occurs as a contiguous piece of `s`. */
  predicate IsInfix(a: string, s: string)
    decreases |s|
  {
    a <= s || (|s| > 0 && IsInfix(a, s[1..]))
  }

  /** Receivers on which `recv[key]` with a String key returns instead of raising. */
  predicate Indexable(v: Json) {
    v.JObject? || v.JString?
  }

  const NoImplicitConversion := "no implicit conversion of String into Integer"

  /** Ruby's `recv[key]` for a String `key`: a Hash looks the key up, a String
      returns `key` when it occurs in it (`String#[]` with a String argument),
      an Array or Integer raises TypeError, and nil, true and false raise
      NoMethodError. */
  function Index(recv: Json, key: string): (r: Eval<Json>)
    ensures r.Value? <==> Indexable(recv)
    ensures recv.JObject? ==> r == Value(Get(recv.fields, key))
    ensures recv.JString? ==> r.value == JNull || r.value == JString(key)
    ensures recv.JString? ==> (r.value == JString(key) <==> IsInfix(key, recv.s))
  {
    match recv
    case JObject(m) => Value(Get(m, key))
    case JString(s) => Value(if IsInfix(key, s) then JString(key) else JNull)
    case JArray(_) => Raise(NoImplicitConversion)
    case JInt(_) => Raise(NoImplicitConversion)
    case JNull => Raise("undefined method `[]' for nil")
    case JBool(b) => Raise("undefined method `[]' for " + (if b then "true" else "false"))
  }

  /** Ruby's `to_s`, which string interpolation also calls: nil is empty, a
      String is itself, an Integer is its decimal text, true and false are
      their names. Arrays and Hashes print through `inspect`, which is given
      as `show`. */
  function ToS(v: Json, show: Json -> string): (r: string)
    ensures v.JNull? ==> r == ""
    ensures v.JString? ==> r == v.s
    ensures v.JInt? ==> Decimal.ParseInt(r) == Some(v.n)
  {
    match v
    case JNull => ""
    case JBool(b) => if b then "true" else "false"
    case JInt(n) =>
      Decimal.IntToStringRoundTrip(n);
      Decimal.IntToString(n)
    case JString(s) => s
    case JArray(_) => show(v)
    case JObject(_) => show(v)
  }
}
