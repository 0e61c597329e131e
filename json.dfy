/**
 * The decoded JSON document a gq node wraps: the closed set of shapes Go's
 * encoding/json produces when it decodes into an `interface{}` target
 * (nil, bool, float64, string, []interface{}, map[string]interface{}).
 */
module Json {

  /** A decoded JSON value. Numbers are kept as one numeric kind, as the
      decoder always yields float64; `real` stands in for float64. */
  datatype Value =
    | Null
    | Bool(b: bool)
    | Num(x: real)
    | Str(s: string)
    | Arr(items: seq<Value>)
    | Obj(fields: map<string, Value>)
}
