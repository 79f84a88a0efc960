/**
 * A JSON log line as `encoding/json` decodes it into `map[string]interface{}`: the
 * formatter only asks whether a value is a string, an object, or something else.
 */
module Json {
  import opened Wrappers

  datatype Json =
    | JString(s: string)
    | JObject(members: map<string, Json>)
      /** A number, boolean, null or array, known to the model only by its source text. */
    | JOther(literal: string)

  /**
   * The two `encoding/json` calls main.go makes, taken as given functions:
   * `decode` is `json.Unmarshal` of a whole line into an object (None when it fails),
   * `marshal` is `json.Marshal` of one decoded value (None when it fails).
   */
  datatype Codec = Codec(decode: string -> Option<map<string, Json>>, marshal: Json -> Option<string>)

  /** Go's `raw[key].(string)` with its zero value: the string, or "" when absent or not a string. */
  function StringMember(obj: map<string, Json>, key: string): string {
    if key in obj && obj[key].JString? then obj[key].s else ""
  }
}
