/** Parsed JSON values (RFC 8259) as JavaScript sees them after `JSON.parse`, with the
    operations the scraper applies to them: truthiness, property access and `||`. */
module JsonValue {
  import opened Wrappers

  /** An object maps each key to its value; `JSON.parse` keeps the last of duplicate keys,
      so a map is what the program sees. Numbers are kept exactly as written. */
  datatype Json =
    | JNull
    | JBool(b: bool)
    | JNum(n: real)
    | JStr(s: string)
    | JArr(items: seq<Json>)
    | JObj(fields: map<string, Json>)

  /** JavaScript truthiness: `null`, `false`, `0` and `""` are falsy; every array and object,
      even an empty one, is truthy. */
  predicate Truthy(j: Json) {
    match j
    case JNull => false
    case JBool(b) => b
    case JNum(n) => n != 0.0
    case JStr(s) => s != ""
    case JArr(_) => true
    case JObj(_) => true
  }

  /** Property access `j[key]` on a parsed value. Only objects have own properties; a missing
      property reads as `undefined`, which behaves as `null` everywhere the scraper looks. */
  function Get(j: Json, key: string): (r: Json)
    ensures j.JObj? && key in j.fields ==> r == j.fields[key]
    ensures r != JNull ==> j.JObj? && key in j.fields && r < j
  {
    if j.JObj? && key in j.fields then j.fields[key] else JNull
  }

  /** `a || b`: the first operand when it is truthy, the second otherwise. */
  function Or(a: Json, b: Json): (r: Json)
    ensures Truthy(r) <==> Truthy(a) || Truthy(b)
    ensures Truthy(a) ==> r == a
    ensures !Truthy(a) ==> r == b
  {
    if Truthy(a) then a else b
  }

  /** A DOM attribute value: the string when the attribute is there, `undefined` when not. */
  function Attr(value: Option<string>): (r: Json)
    ensures value.Some? ==> r == JStr(value.value)
    ensures value.None? ==> r == JNull
    ensures Truthy(r) <==> value.Some? && value.value != ""
  {
    if value.Some? then JStr(value.value) else JNull
  }
}
