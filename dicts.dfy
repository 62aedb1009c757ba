/**
 * An insertion-ordered dictionary with string keys, the behaviour of a
 * Python `dict`: iteration follows first insertion, and assigning to a key
 * that is already present replaces its value without moving it.
 */
module Dicts {
  import opened Common

  datatype Dict<V> = Dict(keys: seq<string>, entries: map<string, V>)
  {
    /** Keys are listed once each, and exactly the keys of `entries` are listed. */
    ghost predicate Valid()
    {
      && (forall i, j :: 0 <= i < j < |keys| ==> keys[i] != keys[j])
      && (forall k :: k in entries <==> k in keys)
    }

    /** `d[k] = v` */
    function Put(k: string, v: V): (d: Dict<V>)
      ensures d.entries == entries[k := v]
      ensures k in entries ==> d.keys == keys
      ensures k !in entries ==> d.keys == keys + [k]
    {
      if k in entries then Dict(keys, entries[k := v]) else Dict(keys + [k], entries[k := v])
    }

    /** `d.get(k)` */
    function Get(k: string): Option<V>
    {
      if k in entries then Some(entries[k]) else None
    }
  }

  /** Assigning keeps every key listed once. */
  lemma PutValid<V>(d: Dict<V>, k: string, v: V)
    requires d.Valid()
    ensures d.Put(k, v).Valid()
  {
  }

  function Empty<V>(): (d: Dict<V>)
    ensures d.Valid() && d.keys == []
  {
    Dict([], map[])
  }
}
