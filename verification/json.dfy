/** The values `JSON.parse(..., symbolize_names: true)` produces, and the two
    Ruby operations the scraper applies to them without checking their type. */
module JsonValues {

  /** A parsed JSON value. Numbers are integers: the upstream ids are. */
  datatype Json =
    | Null
    | Bool(b: bool)
    | Num(n: int)
    | Str(s: string)
    | Arr(items: seq<Json>)
    | Obj(fields: map<string, Json>)

  /** `hash[:key]`: a key the object does not have reads as nil. */
  function Get(fields: map<string, Json>, key: string): Json
  {
    if key in fields then fields[key] else Null
  }

  /** Ruby truthiness: every value except nil and false. */
  predicate Truthy(v: Json)
  {
    v != Null && v != Bool(false)
  }
}
