/** The part of `serde_json::Value` the listener reads from an event payload. */
module Json {
  import opened Wrappers
  import opened Numbers

  /** A JSON value. Integers keep their exact value; a floating-point number
      carries no payload because nothing in the core reads one. */
  datatype Value =
    | Null
    | Bool(b: bool)
    | Int(i: int)
    | Float
    | Str(s: string)
    | Array(items: seq<Value>)
    | Object(fields: map<string, Value>)

  /** `Value::get(key)`: a field of an object; every other value has no fields. */
  function Get(v: Value, key: string): Option<Value> {
    if v.Object? && key in v.fields then Some(v.fields[key]) else None
  }

  /** `Value::as_u64`: an integer in the range of u64; never a float. */
  function AsU64(v: Value): Option<U64> {
    if v.Int? && 0 <= v.i < U64_LIMIT then Some(v.i) else None
  }

  /** `Value::as_str`. */
  function AsStr(v: Value): Option<string> {
    if v.Str? then Some(v.s) else None
  }

  /** `v.get(key).and_then(|x| x.as_u64())`. */
  function U64Field(v: Value, key: string): Option<U64> {
    match Get(v, key)
    case None => None
    case Some(x) => AsU64(x)
  }

  /** `v.get(key).and_then(|x| x.as_str())`. */
  function StrField(v: Value, key: string): Option<string> {
    match Get(v, key)
    case None => None
    case Some(x) => AsStr(x)
  }
}
