/** Dictionaries that are iterated in insertion order, as Python's are. */
module Dicts {
  import opened Wrappers

  datatype Dict<K(==,!new), V> = Dict(keys: seq<K>, entries: map<K, V>)
  {
    ghost predicate Valid() {
      && (forall i, j :: 0 <= i < j < |keys| ==> keys[i] != keys[j])
      && (forall k :: k in keys <==> k in entries)
    }

    function Get(k: K): Option<V> {
      if k in entries then Some(entries[k]) else None
    }
  }

  function Empty<K(==,!new), V>(): Dict<K, V> {
    Dict([], map[])
  }

  /** Assignment to a key: a new key goes last, a known one keeps its place. */
  function Put<K(==,!new), V(==)>(d: Dict<K, V>, k: K, v: V): (r: Dict<K, V>)
    requires d.Valid()
    ensures r.Valid()
    ensures forall x :: r.Get(x) == if x == k then Some(v) else d.Get(x)
  {
    Dict(if k in d.entries then d.keys else d.keys + [k], d.entries[k := v])
  }
}
