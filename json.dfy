/** JSON values as the HTTP responses deliver them (serde_json's `Value`). */
module JsonValues {
  import opened Common

  /** Numbers are kept as integers: no rule of the model looks at their value. */
  datatype Json =
    | JNull
    | JBool(b: bool)
    | JNumber(n: int)
    | JString(s: string)
    | JArray(elements: seq<Json>)
    | JObject(fields: map<string, Json>)

  /** `obj.get(key).and_then(|v| v.as_str())`: the string stored under `key`, if there is one. */
  function StringField(fields: map<string, Json>, key: string): (r: Option<string>)
    ensures r.Some? <==> key in fields && fields[key].JString?
    ensures r.Some? ==> fields[key] == JString(r.value)
  {
    if key in fields && fields[key].JString? then Some(fields[key].s) else None
  }
}
