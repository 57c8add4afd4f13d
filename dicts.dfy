/**
 * A Python `dict` keyed by strings: a lookup table plus the order in which
 * its keys were first inserted. Assigning to a present key replaces the value
 * and keeps the key where it was; a new key goes last.
 */
module Dicts {

  /** True when no string occurs twice in `s`. */
  ghost predicate Distinct(s: seq<string>) {
    forall i, j :: 0 <= i < j < |s| ==> s[i] != s[j]
  }

  datatype Dict<V> = Dict(keys: seq<string>, entries: map<string, V>) {

    /** The keys in order are exactly the keys of the table, each once. */
    ghost predicate Valid() {
      && Distinct(keys)
      && (forall k :: k in entries <==> k in keys)
    }

    /** `d[k] = v`: last write wins, nothing else changes, and only a new key grows the dict. */
    function Put(k: string, v: V): (r: Dict<V>)
      requires Valid()
      ensures r.Valid()
      ensures k in r.entries && r.entries[k] == v
      ensures forall k' :: k' != k ==> (k' in r.entries <==> k' in entries)
      ensures forall k' :: k' != k && k' in entries ==> r.entries[k'] == entries[k']
      ensures k in entries ==> r.keys == keys
      ensures k !in entries ==> r.keys == keys + [k]
      ensures r.Len() == if k in entries then Len() else Len() + 1
    {
      if k in entries then Dict(keys, entries[k := v]) else Dict(keys + [k], entries[k := v])
    }

    /** `len(d)`: the number of entries of the table. */
    function Len(): (n: nat)
      requires Valid()
      ensures n == |entries|
    {
      DistinctCardinality(keys);
      assert entries.Keys == set k | k in keys;
      |keys|
    }

    /** `d.values()`: the values in key order, one per key. */
    function Values(): (vs: seq<V>)
      requires Valid()
      ensures |vs| == |keys|
      ensures forall i :: 0 <= i < |keys| ==> vs[i] == entries[keys[i]]
      ensures forall k :: k in entries ==> entries[k] in vs
    {
      var vs := seq(|keys|, i requires 0 <= i < |keys| => entries[keys[i]]);
      assert forall k :: k in entries ==> entries[k] in vs by {
        forall k | k in entries ensures entries[k] in vs {
          var i :| 0 <= i < |keys| && keys[i] == k;
          assert vs[i] == entries[k];
        }
      }
      vs
    }

    /** The position of `k` in insertion order, or `|keys|` when `k` is not a key. */
    function IndexOf(k: string): (i: nat)
      ensures i <= |keys|
      ensures i < |keys| <==> k in keys
      ensures i < |keys| ==> keys[i] == k
      ensures forall j :: 0 <= j < i ==> keys[j] != k
    {
      Position(keys, k)
    }
  }

  /** The dictionary a new object starts with. */
  function Empty<V>(): (d: Dict<V>)
    ensures d.Valid() && d.Len() == 0 && d.Values() == []
  {
    Dict([], map[])
  }

  /** The first position of `k` in `s`, or `|s|` when it does not occur. */
  function Position(s: seq<string>, k: string): (i: nat)
    ensures i <= |s|
    ensures i < |s| <==> k in s
    ensures i < |s| ==> s[i] == k
    ensures forall j :: 0 <= j < i ==> s[j] != k
  {
    if s == [] then 0 else if s[0] == k then 0 else 1 + Position(s[1..], k)
  }

  /** A sequence without repetitions has as many elements as the set of its elements. */
  lemma {:induction false} DistinctCardinality(s: seq<string>)
    requires Distinct(s)
    ensures |set x | x in s| == |s|
  {
    if s != [] {
      DistinctCardinality(s[1..]);
      assert (set x | x in s) == (set x | x in s[1..]) + {s[0]};
      assert s[0] !in s[1..];
    }
  }
}
