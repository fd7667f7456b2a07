/** The Python values the serializer handles: the parsed JSON of the provider's
    response, and Python's notion of truthiness used by `not`, `any` and `all`. */
module PyValues {
  import opened Wrappers

  /** A value as `response.json()` returns it. */
  datatype Json =
    | JNull
    | JBool(b: bool)
    | JNum(n: real)
    | JStr(s: string)
    | JList(items: seq<Json>)
    | JObject(entries: map<string, Json>)

  /** Python truthiness: None, False, zero and the empty str, list and dict are falsy. */
  predicate Truthy(v: Json) {
    match v
    case JNull => false
    case JBool(b) => b
    case JNum(n) => n != 0.0
    case JStr(s) => s != ""
    case JList(items) => items != []
    case JObject(entries) => entries != map[]
  }

  /** Truthiness of an optional text field as `validated_data.get(...)` yields it:
      None (absent or null) and the empty string are falsy. */
  predicate TruthyText(v: Option<string>) {
    v.Some? && v.value != ""
  }

  /** The JSON form of an optional text field: a string, or null. */
  function TextToJson(v: Option<string>): Json {
    if v.Some? then JStr(v.value) else JNull
  }
}
