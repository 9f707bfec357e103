/** JSON-like values as Python's `json` module hands them to the runtime:
    objects become dicts keyed by strings, arrays become lists. Numbers are
    carried as opaque payload; nothing in the modelled code inspects them. */
module Json {

  datatype Json =
    | JNull
    | JBool(b: bool)
    | JNum(n: real)
    | JStr(s: string)
    | JArr(items: seq<Json>)
    | JObj(fields: map<string, Json>)

  /** The Python type name of the value that `json.load` produces, as it
      appears in the interpreter's error messages. */
  function PyTypeName(v: Json): string {
    match v
    case JNull => "NoneType"
    case JBool(_) => "bool"
    case JNum(_) => "float"
    case JStr(_) => "str"
    case JArr(_) => "list"
    case JObj(_) => "dict"
  }

  /** Python's `dict.get(key, default)` on a JSON object. */
  function Get(m: map<string, Json>, key: string, default: Json): (v: Json)
    ensures key in m ==> v == m[key]
    ensures key !in m ==> v == default
  {
    if key in m then m[key] else default
  }
}
