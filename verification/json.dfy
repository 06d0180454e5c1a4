/**
 * A minimal JSON value, enough for the manifest, metacache and option
 * documents the launcher reads. Objects keep their entries in iteration
 * order; lookups return the first entry with the key.
 */
module Json {
  import opened Wrappers

  datatype Value =
    | Null
    | Bool(b: bool)
    | Num(n: int)
    | Str(s: string)
    | Arr(items: seq<Value>)
    | Obj(fields: seq<(string, Value)>)

  /** The first entry of `fields` whose key is `key`. */
  function Lookup(fields: seq<(string, Value)>, key: string): (r: Option<Value>)
    ensures r.None? <==> forall i :: 0 <= i < |fields| ==> fields[i].0 != key
    ensures r.Some? ==> exists i :: 0 <= i < |fields| && fields[i] == (key, r.value)
  {
    if |fields| == 0 then None
    else if fields[0].0 == key then Some(fields[0].1)
    else Lookup(fields[1..], key)
  }

  /** `value.get(key)`: only objects have keys. */
  function Get(v: Value, key: string): Option<Value> {
    if v.Obj? then Lookup(v.fields, key) else None
  }

  /** `value[key]`: like `Get`, but a missing key or a non-object reads as `Null`. */
  function At(v: Value, key: string): Value {
    Get(v, key).GetOr(Null)
  }

  function AsStr(v: Value): Option<string> {
    if v.Str? then Some(v.s) else None
  }

  function AsArray(v: Value): Option<seq<Value>> {
    if v.Arr? then Some(v.items) else None
  }

  function AsObject(v: Value): Option<seq<(string, Value)>> {
    if v.Obj? then Some(v.fields) else None
  }

  /** `value[key].as_str()` */
  function StrAt(v: Value, key: string): Option<string> {
    AsStr(At(v, key))
  }

  /** `value.get(key).and_then(|v| v.as_str())`, which reads the same as `StrAt`. */
  function StrGet(v: Value, key: string): Option<string> {
    match Get(v, key)
    case Some(x) => AsStr(x)
    case None => None
  }

  /** The keys of an object's entries, in order. */
  function Keys(fields: seq<(string, Value)>): (ks: seq<string>)
    ensures |ks| == |fields|
    ensures forall i :: 0 <= i < |fields| ==> ks[i] == fields[i].0
  {
    seq(|fields|, i requires 0 <= i < |fields| => fields[i].0)
  }

  /** `Map::insert`: the first entry with `key` gets the new value, or a new entry is added at the end. */
  function PutField(fields: seq<(string, Value)>, key: string, x: Value): (r: seq<(string, Value)>)
    ensures Lookup(r, key) == Some(x)
    ensures forall k :: k != key ==> Lookup(r, k) == Lookup(fields, k)
    decreases |fields|
  {
    if |fields| == 0 then [(key, x)]
    else if fields[0].0 == key then [(key, x)] + fields[1..]
    else [fields[0]] + PutField(fields[1..], key, x)
  }
}
