/** JSON-like values: what YAML parsing, the serializer and the orchestrator exchange. */
module JsonValues {

  /** Numbers are integers only; floating point is not modelled. */
  datatype Json =
    | Null
    | Bool(b: bool)
    | Num(n: int)
    | Str(s: string)
    | Arr(items: seq<Json>)
    | Obj(fields: map<string, Json>)

  /** A Ruby hash with string keys. */
  type Hash = map<string, Json>

  /** Ruby's `hash[key]`: the stored value, or nil when the key is absent. */
  function Get(h: Hash, key: string): Json
  {
    if key in h then h[key] else Null
  }
}
