/** JSON payloads and the failure type shared by every component. */
module Json {

  /** The outcome of an operation that may fail; error texts are not modelled. */
  datatype Option<+T> = None | Some(value: T)

  /** A JSON value. A number is kept as the numeral that denotes it. */
  datatype Value =
    | Null
    | Bool(b: bool)
    | Num(numeral: string)
    | Str(text: string)
    | Arr(items: seq<Value>)
    | Obj(fields: map<string, Value>)

  /** Everything but `false` and `null` counts as true. */
  predicate Truthy(v: Value) {
    v != Bool(false) && v != Null
  }
}
