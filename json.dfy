/**
 * JSON values as the Python side sees them after `json.loads`: the model never
 * parses JSON text, it only stores, copies and tests these values.  Numbers are
 * `real`, standing for Python's int and float alike.
 */
module Json {

  datatype Json =
    | JNull
    | JBool(b: bool)
    | JNumber(x: real)
    | JString(s: string)
    | JArray(items: seq<Json>)
    | JObject(fields: map<string, Json>)

  /** The payloads the Flask handlers receive: a JSON object. */
  type Object = map<string, Json>

  /** Python's truth value of a decoded JSON value (`if value:`). */
  predicate Truthy(v: Json)
  {
    match v
    case JNull => false
    case JBool(b) => b
    case JNumber(x) => x != 0.0
    case JString(s) => s != ""
    case JArray(items) => items != []
    case JObject(fields) => fields != map[]
  }

  /** `d.get(key, default)`. */
  function Get(d: Object, key: string, default: Json): Json
  {
    if key in d then d[key] else default
  }
}
