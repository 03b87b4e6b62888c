/**
  The JSON value tree produced by serde_json, with the accessors the query
  decoder uses. Numbers keep serde_json's distinction between an unsigned
  integer and every other number (negative integers and floats).
*/
module Json {
  import opened Wrappers

  /** 2^64: serde_json stores unsigned integers in a `u64`. */
  const U64_LIMIT: int := 0x1_0000_0000_0000_0000

  datatype JValue =
    | JNull
    | JBool(b: bool)
    | JUInt(n: nat)
    | JNum(x: real)
    | JStr(s: string)
    | JArr(items: seq<JValue>)
    | JObj(fields: map<string, JValue>)

  /** `Value::as_u64`: only non-negative integers that fit a `u64`. */
  function AsU64(v: JValue): (r: Option<nat>)
    ensures r.Some? <==> v.JUInt? && v.n < U64_LIMIT
    ensures r.Some? ==> r.value == v.n && r.value < U64_LIMIT
  {
    match v
    case JUInt(n) => if n < U64_LIMIT then Some(n) else None
    case _ => None
  }

  /** `Value::as_f64`: every number converts, nothing else does. */
  function AsF64(v: JValue): (r: Option<real>)
    ensures r.Some? <==> (v.JUInt? || v.JNum?)
    ensures v.JUInt? ==> r == Some(v.n as real)
    ensures v.JNum? ==> r == Some(v.x)
  {
    match v
    case JUInt(n) => Some(n as real)
    case JNum(x) => Some(x)
    case _ => None
  }

  /** `Value::as_object`. */
  function AsObject(v: JValue): (r: Option<map<string, JValue>>)
    ensures r.Some? <==> v.JObj?
    ensures r.Some? ==> r.value == v.fields
  {
    match v
    case JObj(m) => Some(m)
    case _ => None
  }

  /** `Value::get(key)`: a key lookup that yields nothing on a non-object. */
  function Get(v: JValue, key: string): (r: Option<JValue>)
    ensures r.Some? <==> v.JObj? && key in v.fields
    ensures r.Some? ==> r.value == v.fields[key]
  {
    match v
    case JObj(m) => if key in m then Some(m[key]) else None
    case _ => None
  }

  /** A lookup in an already extracted object map. */
  function Lookup(m: map<string, JValue>, key: string): (r: Option<JValue>)
    ensures r.Some? <==> key in m
    ensures r.Some? ==> r.value == m[key]
  {
    if key in m then Some(m[key]) else None
  }

  /**
    The value serde_json reads back for a number a Go `float64` was written
    as: Go writes an integral value without a fraction or exponent below
    1e21, and serde_json reads such a literal as an unsigned integer when it
    is non-negative and fits a `u64`.
  */
  function FloatNumber(x: real): (r: JValue)
    ensures AsF64(r) == Some(x)
  {
    if 0.0 <= x && x.Floor as real == x && x.Floor < U64_LIMIT then JUInt(x.Floor) else JNum(x)
  }

  /** The value serde_json reads back for a number a Go `int` was written as. */
  function IntNumber(i: int): (r: JValue)
    ensures AsU64(r).Some? <==> 0 <= i < U64_LIMIT
    ensures AsU64(r).Some? ==> AsU64(r).value == i
    ensures AsF64(r) == Some(i as real)
  {
    if 0 <= i < U64_LIMIT then JUInt(i) else JNum(i as real)
  }
}
