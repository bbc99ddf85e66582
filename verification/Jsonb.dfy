/** The part of PostgreSQL's jsonb that the seeder's statements use. */
module Jsonb {

  datatype Json =
    | Null
    | Bool(value: bool)
    | Number(number: int)
    | Text(text: string)
    | Array(items: seq<Json>)
    | Object(fields: map<string, Json>)

  function AsArray(j: Json): seq<Json> {
    if j.Array? then j.items else [j]
  }

  // The operator ||.
  function Concat(a: Json, b: Json): Json {
    if a.Object? && b.Object? then Object(a.fields + b.fields) else Array(AsArray(a) + AsArray(b))
  }

  // The operator ?.
  predicate HasKey(j: Json, key: string) {
    match j
    case Text(s) => s == key
    case Array(items) => Text(key) in items
    case Object(fields) => key in fields
    case _ => false
  }

  ghost predicate KeysKept(before: Json, after: Json) {
    forall key :: HasKey(before, key) ==> HasKey(after, key)
  }
}
