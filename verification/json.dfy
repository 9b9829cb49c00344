/** A decoded JSON value, as Go's `interface{}` holds it after `encoding/json` decoding.
    Only its identity matters to the model: values are stored and passed on unchanged. */
module Json {

  datatype Json =
    | JNull
    | JBool(b: bool)
    | JNumber(n: int)
    | JString(s: string)
    | JArray(items: seq<Json>)
    | JObject(fields: map<string, Json>)
}
