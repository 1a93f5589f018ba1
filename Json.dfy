/** The values `JSON.parse` produces (RFC 8259, ECMA-262 section 25.5.1), and
    the JavaScript property access the client applies to them. */
module Json {
  import opened Outcomes

  /** A parsed JSON value. Numbers keep their exact decimal value; an object is
      its member map, in which a repeated name keeps its last value, as
      `JSON.parse` does. */
  datatype Json =
    | JNull
    | JBool(b: bool)
    | JNumber(n: real)
    | JString(s: string)
    | JArray(items: seq<Json>)
    | JObject(members: map<string, Json>)

  /** The value of property `key` of a parsed value: `None` is `undefined`.
      Only objects have any of the properties the client reads; strings,
      numbers, booleans and arrays answer `undefined`. Reading a property of
      `null` throws, which the caller handles before calling this. */
  function Get(v: Json, key: string): (r: Option<Json>)
    requires v != JNull
    ensures r.Some? <==> v.JObject? && key in v.members
    ensures r.Some? ==> r.value == v.members[key]
  {
    match v
    case JObject(m) => if key in m then Some(m[key]) else None
    case _ => None
  }
}
