/** Parsed JSON values, as far as the relay and the dashboard inspect them.
    Texts are never parsed here: a parse is an input to the operations
    that perform one, `None` standing for a text that `JSON.parse` rejects. */
module Json {

  import opened Wrappers

  /** A field value. Arrays and nested objects are passed through without
      being looked into, so they are kept as opaque tokens. */
  datatype Value =
    | Null
    | Bool(b: bool)
    | Num(n: real)
    | Str(s: string)
    | Compound(token: nat)

  /** A JSON object: field name to value. */
  type Object = map<string, Value>

  /** The object spread `{ ...first, ...second }`: every field of either,
      and where both have a field the second one's value wins. */
  function Spread(first: Object, second: Object): (r: Object)
    ensures r.Keys == first.Keys + second.Keys
    ensures forall k :: k in second ==> r[k] == second[k]
    ensures forall k :: k in first && k !in second ==> r[k] == first[k]
  {
    first + second
  }

  /** The field `obj.key` as the nullish operator `??` sees it: `None`
      when the field is absent or `null`, so that `obj.key ?? d` is
      `Defined(obj, key).GetOr(d)`. */
  function Defined(obj: Object, key: string): (v: Option<Value>)
    ensures v.Some? <==> key in obj && obj[key] != Null
    ensures v.Some? ==> v.value == obj[key]
  {
    if key in obj && obj[key] != Null then Some(obj[key]) else None
  }
}
