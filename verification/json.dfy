/** The JSON values that travel through the websocket consumer.  Numbers are
    integers only; parsing and printing of the text form are not modelled. */
module Json {

  datatype Json =
    | JNull
    | JBool(b: bool)
    | JNumber(n: int)
    | JString(s: string)
    | JArray(items: seq<Json>)
    | JObject(fields: map<string, Json>)

  /** `obj[key]` in Python: defined only for an object that has the key. */
  predicate HasKey(j: Json, key: string)
  {
    j.JObject? && key in j.fields
  }
}
