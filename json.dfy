/** The part of a decoded JSON document (serde_json's `Value`) that the client inspects. */
module Json {
  import opened Wrappers

  /** An unsigned 64-bit integer. */
  newtype u64 = x: int | 0 <= x < 0x1_0000_0000_0000_0000

  /** A negative signed 64-bit integer. */
  type NegI64 = i: int | -0x8000_0000_0000_0000 <= i < 0 witness -1

  /** serde_json holds an integer literal from 0 to 2^64-1 as `PosInt` and a negative one that
      fits in 64 bits as `NegInt`. Every other number (a larger integer, or one written with a
      fraction or an exponent such as `3600.0` or `1e3`) is a 64-bit float, held here by its raw
      bits. */
  datatype Number = PosInt(n: u64) | NegInt(i: NegI64) | Float(bits: u64)

  datatype JsonValue =
    | Null
    | Bool(b: bool)
    | Num(number: Number)
    | Str(s: string)
    | Array(items: seq<JsonValue>)
    | Object(fields: map<string, JsonValue>)

  /** `Value::get(key)`: the field of an object; any other kind of value has no fields. */
  function Get(v: JsonValue, key: string): (r: Option<JsonValue>)
    ensures r.Some? <==> v.Object? && key in v.fields
    ensures r.Some? ==> r.value == v.fields[key]
  {
    match v
    case Object(fields) => if key in fields then Some(fields[key]) else None
    case _ => None
  }

  /** `Value::as_u64`: the value as an unsigned integer, if it is one. */
  function AsU64(v: JsonValue): (r: Option<u64>)
    ensures r.Some? <==> v.Num? && v.number.PosInt?
    ensures r.Some? ==> v == Num(PosInt(r.value))
  {
    match v
    case Num(PosInt(n)) => Some(n)
    case _ => None
  }
}
