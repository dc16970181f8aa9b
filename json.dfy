/**
 * A decoded JSON value as Python's `json` module hands it over (objects are
 * dicts, so a key occurs at most once), with Python's truthiness and `dict.get`.
 */
module Json {
  import opened Wrappers

  datatype Json =
    | JNull
    | JBool(b: bool)
    | JInt(i: int)
    | JReal(r: real)
    | JStr(s: string)
    | JArr(items: seq<Json>)
    | JObj(fields: map<string, Json>)

  /** Python's `bool(v)`: None, False, zero and empty containers are false. */
  predicate Truthy(v: Json) {
    match v
    case JNull => false
    case JBool(b) => b
    case JInt(i) => i != 0
    case JReal(r) => r != 0.0
    case JStr(s) => s != ""
    case JArr(xs) => xs != []
    case JObj(m) => m != map[]
  }

  /** `d.get(k, default)` on a dict. */
  function Get(m: map<string, Json>, k: string, default: Json): (v: Json)
    ensures k in m ==> v == m[k]
    ensures k !in m ==> v == default
  {
    if k in m then m[k] else default
  }

  /** `d.get(k, default)` on a value that must be a dict; None when it is not (AttributeError). */
  function GetOf(v: Json, k: string, default: Json): (r: Option<Json>)
    ensures r.Some? <==> v.JObj?
    ensures v.JObj? ==> r.value == Get(v.fields, k, default)
  {
    if v.JObj? then Some(Get(v.fields, k, default)) else None
  }
}
