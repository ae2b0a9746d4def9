/** JSON values as the Python back end sees them after `request.get_json()`. */
module JsonValues {
  /**
   * A decoded JSON value.  Integers and floats stay distinct, as Python's
   * `int` and `float` do; non-finite floats are not represented.
   */
  datatype Json =
    | JNull
    | JBool(b: bool)
    | JInt(i: int)
    | JFloat(f: real)
    | JString(s: string)
    | JArray(items: seq<Json>)
    | JObject(fields: map<string, Json>)

  /** A JSON object with the single field `error`. */
  function ErrorBody(message: string): Json {
    JObject(map["error" := JString(message)])
  }
}
