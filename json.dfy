/**
 * The part of `serde_json::Value` that the core reads: the value shapes, object
 * lookup, the `value["key"]` indexing operator and the `as_*` accessors.
 */
module Json {
  import opened Wrappers
  import opened Numeric

  /**
   * A JSON number is either an integer (serde_json's `PosInt`/`NegInt`) or a
   * floating-point number, whose value the core never inspects.
   */
  datatype Number = Int(i: int) | Float

  /** Object members keyed by name (serde_json's default `Map` is a sorted map). */
  datatype Value =
    | Null
    | Bool(b: bool)
    | Num(n: Number)
    | Str(s: string)
    | Array(elems: seq<Value>)
    | Object(members: map<string, Value>)

  /** `Value::get(key)`: the member of an object, `None` for a missing key or a non-object. */
  function Get(v: Value, key: string): (r: Option<Value>)
    ensures r.Some? <==> v.Object? && key in v.members
    ensures r.Some? ==> r.value == v.members[key]
  {
    if v.Object? && key in v.members then Some(v.members[key]) else None
  }

  /** `value[key]` (the `Index` impl): like `Get`, but `Null` where `Get` has nothing. */
  function Index(v: Value, key: string): (r: Value)
    ensures Get(v, key).Some? ==> r == Get(v, key).value
    ensures Get(v, key).None? ==> r == Null
  {
    match Get(v, key)
    case Some(m) => m
    case None => Null
  }

  /** `as_object()`: the members of an object. */
  function AsObject(v: Value): (r: Option<map<string, Value>>)
    ensures r.Some? <==> v.Object?
    ensures r.Some? ==> r.value == v.members
  {
    if v.Object? then Some(v.members) else None
  }

  /** `as_array()`: the elements of an array. */
  function AsArray(v: Value): (r: Option<seq<Value>>)
    ensures r.Some? <==> v.Array?
    ensures r.Some? ==> r.value == v.elems
  {
    if v.Array? then Some(v.elems) else None
  }

  /** `as_str()`: the text of a string. */
  function AsStr(v: Value): (r: Option<string>)
    ensures r.Some? <==> v.Str?
    ensures r.Some? ==> r.value == v.s
  {
    if v.Str? then Some(v.s) else None
  }

  /**
   * `as_u64()`: an integer that fits in 64 unsigned bits; `None` for negative
   * integers, floats and every non-number.
   */
  function AsU64(v: Value): (r: Option<U64>)
    ensures r.Some? <==> v.Num? && v.n.Int? && 0 <= v.n.i < U64_MODULUS
    ensures r.Some? ==> r.value == v.n.i
  {
    if v.Num? && v.n.Int? && 0 <= v.n.i < U64_MODULUS then Some(v.n.i) else None
  }
}
