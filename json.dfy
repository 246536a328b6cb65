/** A JSON value as `serde_json::Value` holds it, with the accessors the core
    uses (`get`, `as_str`, `as_array`, `is_null`, and `value[key] = ...`).
    Numbers are integers here: no floating point. */
module Json {
  import opened Wrappers

  datatype Json =
    | Null
    | Bool(b: bool)
    | Number(n: int)
    | Str(s: string)
    | Arr(items: seq<Json>)
    | Obj(members: seq<(string, Json)>)

  /** The first pair of an association list under `key`: an object's members
      here, and also a request's headers. */
  function Lookup<V>(members: seq<(string, V)>, key: string): (r: Option<V>)
    ensures r.Some? ==> (key, r.value) in members
    ensures r.None? ==> forall i :: 0 <= i < |members| ==> members[i].0 != key
  {
    if members == [] then None
    else if members[0].0 == key then Some(members[0].1)
    else Lookup(members[1..], key)
  }

  /** `value.get(key)`: a member of an object; nothing on any other kind of value. */
  function Get(v: Json, key: string): Option<Json> {
    if v.Obj? then Lookup(v.members, key) else None
  }

  /** `value.as_str()` */
  function AsStr(v: Json): Option<string> {
    if v.Str? then Some(v.s) else None
  }

  /** `value.as_array()` */
  function AsArray(v: Json): Option<seq<Json>> {
    if v.Arr? then Some(v.items) else None
  }

  /** The members with the member under `key` replaced by `(key, x)`, or `(key, x)`
      appended when there is none. */
  function Upsert(members: seq<(string, Json)>, key: string, x: Json): (r: seq<(string, Json)>)
    ensures Lookup(r, key) == Some(x)
    ensures forall k :: k != key ==> Lookup(r, k) == Lookup(members, k)
  {
    if members == [] then [(key, x)]
    else if members[0].0 == key then [(key, x)] + members[1..]
    else [members[0]] + Upsert(members[1..], key, x)
  }

  /** `value[key] = x` on an object (serde_json panics on other kinds of value). */
  function Set(v: Json, key: string, x: Json): (r: Json)
    requires v.Obj?
    ensures r.Obj?
    ensures Get(r, key) == Some(x)
    ensures forall k :: k != key ==> Get(r, k) == Get(v, k)
  {
    Obj(Upsert(v.members, key, x))
  }
}
