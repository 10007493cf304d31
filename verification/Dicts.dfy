/** Dictionaries that remember the order in which their keys were first set. */
module Dicts {
  import opened Sequences

  datatype Dict<K, V> = Dict(keys: seq<K>, items: map<K, V>) {

    ghost predicate Valid() {
      && NoDup(keys)
      && (forall k | k in keys :: k in items)
      && (forall k | k in items :: k in keys)
    }
  }

  function Empty<K, V>(): Dict<K, V> {
    Dict([], map[])
  }

  function Put<K(==), V>(d: Dict<K, V>, k: K, v: V): Dict<K, V> {
    Dict(if k in d.items then d.keys else d.keys + [k], d.items[k := v])
  }

  lemma PutIsValid<K, V>(d: Dict<K, V>, k: K, v: V)
    requires d.Valid()
    ensures Put(d, k, v).Valid()
  {
    if k !in d.items {
      NoDupSnoc(d.keys, k);
    }
  }

  /** The values in key order. */
  function Values<K, V>(d: Dict<K, V>): (r: seq<V>)
    requires forall k | k in d.keys :: k in d.items
    ensures |r| == |d.keys|
  {
    seq(|d.keys|, i requires 0 <= i < |d.keys| => d.items[d.keys[i]])
  }

  /** Applies f to every value. */
  function MapValues<K, V, W>(d: Dict<K, V>, f: V -> W): Dict<K, W> {
    Dict(d.keys, map k | k in d.items :: f(d.items[k]))
  }

  lemma MapValuesIsValid<K, V, W>(d: Dict<K, V>, f: V -> W)
    requires d.Valid()
    ensures MapValues(d, f).Valid()
    ensures Values(MapValues(d, f)) == Map(f, Values(d))
  {
  }

  /** Setting a key replaces its value in the sum of all values. */
  lemma SumAfterPut<K>(d: Dict<K, real>, k: K, v: real)
    requires d.Valid()
    ensures Put(d, k, v).Valid()
    ensures Sum(Values(Put(d, k, v))) == Sum(Values(d)) - Lookup(d.items, k, 0.0) + v
  {
    PutIsValid(d, k, v);
    var e := Put(d, k, v);
    if k in d.items {
      var i :| 0 <= i < |d.keys| && d.keys[i] == k;
      forall j | 0 <= j < |d.keys|
        ensures Values(e)[j] == Values(d)[i := v][j]
      {
        assert j != i ==> d.keys[j] != k;
      }
      assert Values(e) == Values(d)[i := v];
      SumReplaced(Values(d), i, v);
    } else {
      assert Values(e) == Values(d) + [v];
      SumSnoc(Values(d), v);
    }
  }
}
