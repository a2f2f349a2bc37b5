/** The loosely typed value that Go's encoding/json stores into an `interface{}`. */
module Json {

  /**
   * One case per dynamic type a decoded `interface{}` can hold: nil, bool,
   * float64 (kept as the literal text of the JSON number), string,
   * []interface{} and map[string]interface{}.
   */
  datatype JsonValue =
    | JNull
    | JBool(b: bool)
    | JNumber(literal: string)
    | JString(s: string)
    | JArray(items: seq<JsonValue>)
    | JObject(members: map<string, JsonValue>)
}
