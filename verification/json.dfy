/**
 * Parsed JSON values, as `json.loads` hands them to the service. The text syntax
 * itself (parsing and `json.dumps`) is not modelled: it enters the model as
 * function-typed parameters.
 */
module Json {
  import opened Base

  datatype Json =
    | JNull
    | JBool(b: bool)
    /** A number, carried as the text Python's `str()` prints for the parsed int or float. */
    | JNumber(repr: string)
    | JString(s: string)
    | JArray(items: seq<Json>)
    | JObject(fields: map<string, Json>)

  /**
   * Why `json.loads` raised: a `json.JSONDecodeError` for text that is not JSON, or any other
   * exception (a `RecursionError` on very deep nesting, a `ValueError` on an over-long integer
   * literal). Only the loader tells the two apart.
   */
  datatype ParseFailure = Malformed(msg: string) | Raised(msg: string)

  /**
   * `json.loads`: the parsed value, or the exception it raised. The loader and the workflow's
   * format nodes each take it as a parameter of their own, because they run in different
   * requests and nothing links what the two calls see.
   */
  type JsonLoads = string -> Result<Json, ParseFailure>

  /** `d.get(key)`: the member's value, or nothing when the key is missing. */
  function Get(fields: map<string, Json>, key: string): Option<Json> {
    if key in fields then Some(fields[key]) else None
  }

  /** `d.get(key, default)`. */
  function GetOr(fields: map<string, Json>, key: string, default: Json): Json {
    Get(fields, key).GetOr(default)
  }

  /** Neither a list nor a dict once parsed. */
  predicate IsScalar(v: Json) {
    !v.JArray? && !v.JObject?
  }

  /** `str(v)` for a parsed scalar: `None`, `True`/`False`, the number, or the string itself. */
  function ScalarText(v: Json): string
    requires IsScalar(v)
  {
    match v
    case JNull => "None"
    case JBool(b) => if b then "True" else "False"
    case JNumber(r) => r
    case JString(s) => s
  }
}
