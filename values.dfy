/** Decoded JSON values, as Python's json module hands them to the feed handlers. */
module Values {

  datatype Option<+T> = None | Some(value: T)

  /** One decoded JSON value. A JSON number with a fraction or exponent is kept
      as its literal text: nothing in the pipeline computes with it. */
  datatype Value =
    | Null
    | Bool(b: bool)
    | Int(i: int)
    | Float(literal: string)
    | Str(s: string)
    | Arr(elems: seq<Value>)
    | Obj(fields: map<string, Value>)

  /** Python's `d.get(key, default)` on a decoded object. */
  function Get(fields: map<string, Value>, key: string, default: Value): Value
  {
    if key in fields then fields[key] else default
  }
}
