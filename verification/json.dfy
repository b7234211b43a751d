/** The JSON values a catalogue entry is made of, with Python's truthiness. Floats
    are not modelled.
 */
module Json {

  datatype Value =
    | Str(s: string)
    | Null
    | Bool(b: bool)
    | Int(i: int)
    | Arr(items: seq<Value>)
    | Obj(fields: map<string, Value>)

  /** A parsed JSON object, which the scrapers handle as a Python `dict`. */
  type Dict = map<string, Value>

  /** Python's `bool(v)`: empty strings, `None`, `False`, zero and empty containers
      are false. */
  predicate Truthy(v: Value) {
    match v
    case Str(s) => s != ""
    case Null => false
    case Bool(b) => b
    case Int(i) => i != 0
    case Arr(items) => items != []
    case Obj(fields) => fields != map[]
  }
}
