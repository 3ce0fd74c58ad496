/** The structured values that travel over the remote protocol (serde_json's `Value`). */
module Json {
  import opened Wrappers

  const U64_LIMIT: int := 0x1_0000_0000_0000_0000

  newtype u64 = x: int | 0 <= x < 0x1_0000_0000_0000_0000
  newtype i64 = x: int | -0x8000_0000_0000_0000 <= x < 0x8000_0000_0000_0000
  /** The negative part of the i64 range: serde_json keeps a non-negative integer as
      a `PosInt` always. */
  newtype neg64 = x: int | -0x8000_0000_0000_0000 <= x < 0 witness -1

  /** A JSON number as serde_json stores it: non-negative integers, negative integers,
      and floating-point numbers, of which only the bit pattern is kept. */
  datatype Number = PosInt(u: u64) | NegInt(i: neg64) | Float(bits: u64)

  datatype Value =
    | Null
    | Bool(b: bool)
    | Num(n: Number)
    | Str(s: string)
    | Array(items: seq<Value>)
    | Object(fields: map<string, Value>)

  /** `Value::as_u64`: only a non-negative integer is a u64. */
  function AsU64(v: Value): (r: Option<u64>)
    ensures r.Some? <==> v.Num? && v.n.PosInt?
    ensures r.Some? ==> v == Num(PosInt(r.value))
  {
    match v
    case Num(PosInt(u)) => Some(u)
    case _ => None
  }

  /** The empty object, the only value that serde_json pretty-prints as `{}`. */
  predicate IsEmptyObject(v: Value) {
    v == Object(map[])
  }
}
