/**
 * The JSON-like values (`dict[str, Any]` payloads) that parameters, context,
 * results, bodies and metadata carry. Floats are not modelled; numbers are integers.
 */
module Json {
  datatype Value =
    | Null
    | Bool(b: bool)
    | Int(i: int)
    | Str(s: string)
    | List(items: seq<Value>)
    | Dict(fields: map<string, Value>)

  /** A `dict[str, Any]`. */
  type Object = map<string, Value>

  /** `{**base, **override}`: every key of both, values from `override` winning. */
  function Merge(base: Object, override: Object): (r: Object)
    ensures r.Keys == base.Keys + override.Keys
    ensures forall k :: k in override ==> r[k] == override[k]
    ensures forall k :: k in base && k !in override ==> r[k] == base[k]
  {
    base + override
  }
}
