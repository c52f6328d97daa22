/** The Python values that flow through the pipeline: parsed JSON and the exceptions it can raise. */
module Json {
  import opened Wrappers

  /** A value `json.loads` can produce. Objects are maps: key order is not modelled. */
  datatype Json =
    | JNull
    | JBool(b: bool)
    | JInt(i: int)
    | JFloat(f: real)
    | JString(s: string)
    | JArray(items: seq<Json>)
    | JObject(fields: map<string, Json>)

  /** The Python exceptions the modelled code can raise. */
  datatype PyError =
    | ValueError     // int() of a string with no digits or more than 4300 of them
    | TypeError      // indexing or slicing a value of the wrong type
    | AttributeError // `.get` on a value that is not a dict
    | KeyError       // `x["id"]` or `x[:60]` on a dict without that key
    | ApiError       // a call into the store that raised

  /** Python's truth value (`bool(v)`). */
  predicate Truthy(v: Json) {
    match v
    case JNull => false
    case JBool(b) => b
    case JInt(i) => i != 0
    case JFloat(f) => f != 0.0
    case JString(s) => s != []
    case JArray(items) => items != []
    case JObject(fields) => fields != map[]
  }

  /** `d.get(k, default)` on a dict. */
  function Get(d: map<string, Json>, k: string, default: Json): (r: Json)
    ensures k in d ==> r == d[k]
    ensures k !in d ==> r == default
  {
    if k in d then d[k] else default
  }
}
