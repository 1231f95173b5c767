/** JSON values as `JSON.parse` produces them, and JavaScript truthiness on them. */
module Json {
  import opened Wrappers

  datatype Value =
    | Null
    | Bool(b: bool)
    | Number(n: real)
    | Str(s: string)
    | Array(elems: seq<Value>)
    | Object(fields: map<string, Value>)

  /** `JSON.parse`: the value, or the message of the `SyntaxError` it throws. */
  type JsonParse = string -> Result<Value, string>

  /** `!!v`: false for null, false, 0 and the empty string. */
  predicate Truthy(v: Value) {
    match v
    case Null => false
    case Bool(b) => b
    case Number(n) => n != 0.0
    case Str(s) => s != ""
    case Array(_) => true
    case Object(_) => true
  }

  /** A property read `v[key]` on a non-null value; `None` stands for `undefined`.
      Only objects have the named properties the scripts read. */
  function Property(v: Value, key: string): (r: Option<Value>)
    requires !v.Null?
    ensures r.Some? <==> v.Object? && key in v.fields
    ensures r.Some? ==> r.value == v.fields[key]
  {
    if v.Object? && key in v.fields then Some(v.fields[key]) else None
  }
}
