/**
  Values shared by the server and the browser extension: the usual Option and
  Result wrappers, the JSON values that request and response bodies carry, and
  the two notions of "truthy" that the Python server and the JavaScript client
  apply to them.
*/
module Json {

  datatype Option<+T> = None | Some(value: T)

  datatype Result<+T, +E> = Ok(value: T) | Err(error: E)

  /** A parsed JSON value. Numbers are kept exact (no floating-point rounding). */
  datatype JsonValue =
    | JNull
    | JBool(b: bool)
    | JNum(n: real)
    | JStr(s: string)
    | JArray(items: seq<JsonValue>)
    | JObject(fields: map<string, JsonValue>)

  /** Python's truth test (`if x`, `not x`) on the value `json` decodes to. */
  predicate PyTruthy(v: JsonValue): (r: bool)
    // Python's falsy values: None, False, zero, and the empty string, list and dict
    ensures !r <==> v in {JNull, JBool(false), JNum(0.0), JStr(""), JArray([]), JObject(map[])}
  {
    match v
    case JNull => false
    case JBool(b) => b
    case JNum(n) => n != 0.0
    case JStr(s) => s != []
    case JArray(items) => items != []
    case JObject(fields) => fields != map[]
  }

  /** JavaScript's truth test on the value `response.json()` decodes to:
      unlike Python, an empty array or object is truthy. */
  predicate JsTruthy(v: JsonValue): (r: bool)
    // JavaScript's falsy values among those JSON can produce: null, false, 0 and ""
    ensures !r <==> v in {JNull, JBool(false), JNum(0.0), JStr("")}
  {
    match v
    case JNull => false
    case JBool(b) => b
    case JNum(n) => n != 0.0
    case JStr(s) => s != []
    case JArray(_) => true
    case JObject(_) => true
  }

  /** Python's `dict.get(key, default)`. */
  function Get(fields: map<string, JsonValue>, key: string, default: JsonValue): JsonValue
  {
    if key in fields then fields[key] else default
  }

  /** Whatever Python treats as true, JavaScript does too (the converse fails on `[]` and `{}`). */
  lemma PyTruthyIsJsTruthy(v: JsonValue)
    ensures PyTruthy(v) ==> JsTruthy(v)
    ensures JsTruthy(JArray([])) && !PyTruthy(JArray([]))
  {
  }
}
