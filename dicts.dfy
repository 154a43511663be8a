/**
 * Python `dict`: a map together with the order in which its keys were first
 * inserted. Assigning to an existing key keeps its position, as in Python.
 */
module Dicts {
  import opened Wrappers

  predicate NoDup<T(==)>(s: seq<T>) {
    forall i, j :: 0 <= i < j < |s| ==> s[i] != s[j]
  }

  lemma NoDupPrefix<T>(s: seq<T>, n: nat)
    requires NoDup(s) && n <= |s|
    ensures NoDup(s[..n])
  {
    forall i, j | 0 <= i < j < n ensures s[..n][i] != s[..n][j] {
      assert s[..n][i] == s[i] && s[..n][j] == s[j];
    }
  }

  datatype Dict<K(==), V> = Dict(keys: seq<K>, vals: map<K, V>) {

    /** Keys are distinct and are exactly the map's domain. */
    ghost predicate Valid() {
      NoDup(keys) && vals.Keys == set k | k in keys
    }

    /** `len(d)`. */
    function Size(): nat {
      |keys|
    }

    /** `d.get(k)`. */
    function Get(k: K): Option<V> {
      if k in vals then Some(vals[k]) else None
    }

    /** `d[k] = v`. */
    function Put(k: K, v: V): (d: Dict<K, V>)
      ensures Valid() ==> d.Valid()
      ensures d.vals == vals[k := v]
      ensures k in keys ==> d.keys == keys
      ensures k !in keys ==> d.keys == keys + [k]
    {
      if k in keys then Dict(keys, vals[k := v]) else Dict(keys + [k], vals[k := v])
    }

    /** A second assignment to the same key overrides the first. */
    lemma PutTwice(k: K, v: V, w: V)
      ensures Put(k, v).Put(k, w) == Put(k, w)
    {
      assert vals[k := v][k := w] == vals[k := w];
    }

    /** `list(d.values())`, in key order. */
    function Values(): (vs: seq<V>)
      requires Valid()
      ensures |vs| == |keys|
    {
      seq(|keys|, i requires 0 <= i < |keys| => vals[keys[i]])
    }
  }

  function Empty<K(==), V>(): (d: Dict<K, V>)
    ensures d.Valid() && d.keys == []
  {
    Dict([], map[])
  }
}
