/**
 * Decoded JSON values as the API scripts see them after `response.json()`,
 * with the few Python behaviours the scripts rely on: truthiness, `dict.get`,
 * the `or` operator, and which built-in exception a wrong type raises.
 */
module PyJson {
  import opened Common

  /** A decoded JSON value. Object keys are always strings after decoding. */
  datatype Json =
    | JNull
    | JBool(b: bool)
    | JInt(i: int)
    | JFloat(x: real)
    | JStr(s: string)
    | JArr(items: seq<Json>)
    | JObj(fields: map<string, Json>)

  /** The Python exceptions the modelled code can raise on unexpected data. */
  datatype PyError = TypeError | ValueError | AttributeError | KeyError

  /** Python's `bool(v)`: `None`, `False`, zero, and empty containers are false. */
  predicate Truthy(v: Json)
  {
    match v
    case JNull => false
    case JBool(b) => b
    case JInt(i) => i != 0
    case JFloat(x) => x != 0.0
    case JStr(s) => s != ""
    case JArr(items) => items != []
    case JObj(fields) => fields != map[]
  }

  /** `d.get(key, default)`. */
  function GetOr(d: map<string, Json>, key: string, default: Json): (r: Json)
    ensures key in d ==> r == d[key]
    ensures key !in d ==> r == default
  {
    if key in d then d[key] else default
  }

  /** `d.get(key)`: `None` for a missing key. */
  function GetNone(d: map<string, Json>, key: string): (r: Json)
    ensures key !in d ==> r == JNull
  {
    GetOr(d, key, JNull)
  }

  /** Python's `a or b`: `a` when it is truthy, otherwise `b`. */
  function Or(a: Json, b: Json): (r: Json)
    ensures Truthy(r) <==> Truthy(a) || Truthy(b)
    ensures r == a || r == b
    ensures !Truthy(a) ==> r == b
  {
    if Truthy(a) then a else b
  }

  /** `v.get(key, default)` on a value that is not known to be a dict:
      anything else has no `get` and raises `AttributeError`. */
  function Field(v: Json, key: string, default: Json): (r: Result<Json, PyError>)
    ensures r.Ok? <==> v.JObj?
    ensures r.Ok? ==> r.value == GetOr(v.fields, key, default)
  {
    if v.JObj? then Ok(GetOr(v.fields, key, default)) else Err(AttributeError)
  }

  /** `for x in v: x.get(...)` — the elements a loop visits when each one is
      then asked for a field. A list yields its items; a string or a dict
      yields strings or keys, so a non-empty one fails on its first element;
      a scalar is not iterable. */
  function Elements(v: Json): (r: Result<seq<Json>, PyError>)
    ensures v.JArr? ==> r == Ok(v.items)
    ensures r.Ok? && !v.JArr? ==> r.value == [] && !Truthy(v)
    ensures r.Err? && (v.JStr? || v.JObj?) ==> r.error == AttributeError
  {
    match v
    case JArr(items) => Ok(items)
    case JStr(s) => if s == "" then Ok([]) else Err(AttributeError)
    case JObj(f) => if f == map[] then Ok([]) else Err(AttributeError)
    case _ => Err(TypeError)
  }
}
