/** JSON values as `json.load` produces them. */
module JsonValues {
  /** Numbers are kept as integers only; objects map each key to the value
      Python keeps for it (the last one, when a key repeats). */
  datatype Json =
    | JNull
    | JBool(b: bool)
    | JNumber(n: int)
    | JString(s: string)
    | JArray(items: seq<Json>)
    | JObject(fields: map<string, Json>)
}
