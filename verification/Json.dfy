/** Parsed JSON as the dashboard reads it: every access tolerates any shape of value. */
module Json {
  import opened Common

  datatype Json =
    | JNull
    | JBool(flag: bool)
    | JNumber(number: real)
    | JString(text: string)
    | JArray(items: seq<Json>)
    | JObject(fields: map<string, Json>)

  /** A property of a value that may not be an object at all. */
  function Field(value: Json, key: string): Option<Json> {
    if value.JObject? && key in value.fields then Some(value.fields[key]) else None
  }

  function StringField(value: Json, key: string): Option<string> {
    match Field(value, key)
    case Some(JString(s)) => Some(s)
    case _ => None
  }

  function ObjectField(value: Json, key: string): Option<Json> {
    match Field(value, key)
    case Some(JObject(fields)) => Some(JObject(fields))
    case _ => None
  }

  function ArrayField(value: Json, key: string): Option<seq<Json>> {
    match Field(value, key)
    case Some(JArray(items)) => Some(items)
    case _ => None
  }
}
