/** A Python dict with str keys: its entries plus the order in which the keys
    were first inserted, which is the order `for key in d.keys()` visits them. */
module Dicts {
  import opened Errors

  datatype Dict<V> = Dict(keys: seq<string>, vals: map<string, V>)

  predicate Distinct<T(==)>(s: seq<T>)
  {
    forall i, j :: 0 <= i < j < |s| ==> s[i] != s[j]
  }

  /** The key list holds each key of the entries exactly once. */
  predicate Valid<V>(d: Dict<V>)
  {
    && Distinct(d.keys)
    && (forall k :: k in d.keys ==> k in d.vals)
    && (forall k :: k in d.vals ==> k in d.keys)
  }

  /** {} */
  function Empty<V>(): (d: Dict<V>)
    ensures Valid(d) && d.keys == [] && d.vals == map[]
  {
    Dict([], map[])
  }

  /** len(d) */
  function Len<V>(d: Dict<V>): nat
  {
    |d.keys|
  }

  /** d[k] = v: an existing key keeps its place, a new key goes last. */
  function Put<V>(d: Dict<V>, k: string, v: V): (r: Dict<V>)
    requires Valid(d)
    ensures Valid(r)
    ensures r.vals == d.vals[k := v]
    ensures r.keys == if k in d.vals then d.keys else d.keys + [k]
  {
    if k in d.vals then Dict(d.keys, d.vals[k := v]) else Dict(d.keys + [k], d.vals[k := v])
  }

  /** d[k], a KeyError when k is missing. */
  function Get<V>(d: Dict<V>, k: string): (r: Result<V>)
    ensures r.Ok? <==> k in d.vals
    ensures r.Ok? ==> r.value == d.vals[k]
    ensures r.Err? ==> r.error == KeyError(k)
  {
    if k in d.vals then Ok(d.vals[k]) else Err(KeyError(k))
  }
}
