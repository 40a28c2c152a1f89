/** JSON values as Python's `json` module hands them to the pipeline, with
    Python's truthiness and `dict.get`. */
module Json {

  /** A decoded JSON value. Objects are Python dicts keyed by strings. */
  datatype Json =
    | JNull
    | JBool(b: bool)
    | JNumber(n: real)
    | JString(s: string)
    | JArray(items: seq<Json>)
    | JObject(fields: map<string, Json>)

  /** Python's `bool(v)` on a decoded JSON value. */
  predicate Truthy(v: Json) {
    match v
    case JNull => false
    case JBool(b) => b
    case JNumber(n) => n != 0.0
    case JString(s) => s != []
    case JArray(items) => items != []
    case JObject(fields) => fields != map[]
  }

  /** Outcome of `json.loads`: the value, or the message of the decode error. */
  datatype ParseOutcome = Parsed(value: Json) | ParseError(message: string)

  /** `d.get(key, default)` on a dict. */
  function Get(d: map<string, Json>, key: string, default: Json): Json {
    if key in d then d[key] else default
  }
}
