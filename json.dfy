/** JSON values as the Python prediction scripts see them after `json.loads`, with the
    Python conversions the scripts apply to them (`bool(...)`, `float(...)`), and the
    observable outcome of running a script once. */
module Json {
  import opened Wrappers

  datatype Json =
    | JNull
    | JBool(b: bool)
    | JInt(i: int)
    | JFloat(x: real)
    | JStr(s: string)
    | JArr(items: seq<Json>)
    | JObj(fields: map<string, Json>)

  /** Python truthiness of a decoded JSON value. */
  predicate Truthy(v: Json) {
    match v
    case JNull => false
    case JBool(b) => b
    case JInt(i) => i != 0
    case JFloat(x) => x != 0.0
    case JStr(s) => s != ""
    case JArr(items) => items != []
    case JObj(fields) => fields != map[]
  }

  /** Python's `dict.get(key, default)`. */
  function Get(fields: map<string, Json>, key: string, default: Json): (v: Json)
    ensures key in fields ==> v == fields[key]
    ensures key !in fields ==> v == default
  {
    if key in fields then fields[key] else default
  }

  /** Python's `float(v)`: numbers and booleans convert, strings go through the numeral
      parser `parseNumeral` (None when Python would raise ValueError), and null, lists and
      objects raise TypeError (None). */
  function ToFloat(v: Json, parseNumeral: string -> Option<real>): (r: Option<real>)
    ensures v.JInt? ==> r == Some(v.i as real)
    ensures v.JFloat? ==> r == Some(v.x)
    ensures v.JBool? ==> r == Some(if v.b then 1.0 else 0.0)
    ensures (v.JNull? || v.JArr? || v.JObj?) ==> r == None
  {
    match v
    case JInt(i) => Some(i as real)
    case JFloat(x) => Some(x)
    case JBool(b) => Some(if b then 1.0 else 0.0)
    case JStr(s) => parseNumeral(s)
    case _ => None
  }

  /** What one run of a script leaves behind: the JSON document written to stdout (if any),
      the text written to stderr and the exit status; or an uncaught exception, which ends
      the process with a traceback and no JSON on stdout. */
  datatype Outcome =
    | Exit(stdout: Option<Json>, stderr: string, status: int)
    | Crashed

  /** A JSON object with exactly the given keys. */
  function Obj1(k: string, v: Json): Json {
    JObj(map[k := v])
  }

  function Obj2(k1: string, v1: Json, k2: string, v2: Json): Json {
    JObj(map[k1 := v1, k2 := v2])
  }
}
