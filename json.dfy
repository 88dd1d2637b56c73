/** Decoded JSON values, as Python's `json` module produces them. */
module Json {
  import opened Outcomes

  /** A JSON document. Numbers are exact reals (an int and a float of equal value are one value,
      as Python's `==` treats them); objects are maps, so key order does not affect equality. */
  datatype Json =
    | JNull
    | JBool(b: bool)
    | JNumber(n: real)
    | JString(s: string)
    | JArray(items: seq<Json>)
    | JObject(fields: map<string, Json>)

  /** Python truthiness of the decoded value, as used by `x or {}`. */
  predicate Truthy(j: Json)
    ensures Truthy(j) ==> !j.JNull?
    ensures j.JObject? ==> (Truthy(j) <==> j.fields != map[])
    ensures j.JString? ==> (Truthy(j) <==> j.s != "")
  {
    match j
    case JNull => false
    case JBool(b) => b
    case JNumber(n) => n != 0.0
    case JString(s) => s != ""
    case JArray(items) => items != []
    case JObject(fields) => fields != map[]
  }

  /** `dict.get(key)`: the value under `key`, or None when the key is absent. */
  function Lookup(fields: map<string, Json>, key: string): (r: Option<Json>)
    ensures r.Some? <==> key in fields
    ensures r.Some? ==> r.value == fields[key]
  {
    if key in fields then Some(fields[key]) else None
  }
}
