/** JSON values as the handlers see them after `JSON.parse`, with JavaScript's
    truthiness and property access. */
module Json {
  import opened Common

  /** A parsed JSON value. Numbers are integers here; an object maps each key to
      the value `JSON.parse` keeps for it. */
  datatype Json =
    | JNull
    | JBool(b: bool)
    | JNumber(n: int)
    | JString(s: string)
    | JArray(items: seq<Json>)
    | JObject(fields: map<string, Json>)

  /** JavaScript truthiness: `null`, `false`, `0` and `""` are falsy. */
  predicate Truthy(v: Json)
  {
    match v
    case JNull => false
    case JBool(b) => b
    case JNumber(n) => n != 0
    case JString(s) => s != ""
    case JArray(_) => true
    case JObject(_) => true
  }

  /** `v[key]` on a parsed value: only an object has own properties; `None` is `undefined`. */
  function Field(v: Json, key: string): Option<Json>
  {
    if v.JObject? && key in v.fields then Some(v.fields[key]) else None
  }

  /** `field || current`: the field wins only when it is truthy. */
  function Override(field: Option<Json>, current: Json): (r: Json)
    ensures field.Some? && Truthy(field.value) ==> r == field.value
    ensures (field.None? || !Truthy(field.value)) ==> r == current
    ensures Truthy(r) <==> Truthy(current) || (field.Some? && Truthy(field.value))
  {
    if field.Some? && Truthy(field.value) then field.value else current
  }
}
