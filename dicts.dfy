/** Python dictionaries, which remember the order in which keys were first inserted. */
module Dicts {
  import opened Seqs

  /** The keys in insertion order and the value of each key. */
  datatype Dict<K, V> = Dict(keys: seq<K>, items: map<K, V>)

  ghost predicate ValidDict<K(!new), V>(d: Dict<K, V>) {
    Distinct(d.keys) && forall k :: k in d.items <==> k in d.keys
  }

  /** `d.get(k, default)`. */
  function Get<K, V>(d: Dict<K, V>, k: K, default: V): V {
    if k in d.items then d.items[k] else default
  }

  /** `d[k] = v`: a new key goes to the end; an existing key keeps its place. */
  function Put<K, V>(d: Dict<K, V>, k: K, v: V): Dict<K, V> {
    Dict(if k in d.items then d.keys else d.keys + [k], d.items[k := v])
  }

  lemma PutValid<K(!new), V>(d: Dict<K, V>, k: K, v: V)
    requires ValidDict(d)
    ensures ValidDict(Put(d, k, v))
  {
  }

  /** The keys of `ks` that are not keys of `m`, in their order. */
  function NewKeys<K(!new), V>(ks: seq<K>, m: map<K, V>): (r: seq<K>)
    ensures forall k :: k in r <==> k in ks && k !in m
    ensures Distinct(ks) ==> Distinct(r)
  {
    if |ks| == 0 then []
    else if ks[|ks| - 1] in m then NewKeys(ks[..|ks| - 1], m)
    else NewKeys(ks[..|ks| - 1], m) + [ks[|ks| - 1]]
  }

  /** `{**d, **e}`. */
  function Update<K(!new), V>(d: Dict<K, V>, e: Dict<K, V>): Dict<K, V> {
    Dict(d.keys + NewKeys(e.keys, d.items), d.items + e.items)
  }

  /** In `{**d, **e}` a key of `e` takes `e`'s value and any other key keeps `d`'s;
      `d`'s keys keep their order and `e`'s new keys follow in `e`'s order. */
  lemma {:induction false} UpdateSpec<K(!new), V>(d: Dict<K, V>, e: Dict<K, V>)
    requires ValidDict(d) && ValidDict(e)
    ensures ValidDict(Update(d, e))
    ensures forall k :: k in Update(d, e).items <==> k in d.items || k in e.items
    ensures forall k | k in e.items :: Update(d, e).items[k] == e.items[k]
    ensures forall k | k in d.items && k !in e.items :: Update(d, e).items[k] == d.items[k]
    ensures Update(d, e).keys[..|d.keys|] == d.keys
    ensures Update(d, e).keys[|d.keys|..] == NewKeys(e.keys, d.items)
  {
    var r := Update(d, e);
    var n := NewKeys(e.keys, d.items);
    assert r.keys[..|d.keys|] == d.keys && r.keys[|d.keys|..] == n;
    forall a, b | 0 <= a < b < |r.keys| ensures r.keys[a] != r.keys[b] {
      if a < |d.keys| && b >= |d.keys| {
        assert r.keys[b] in n && r.keys[a] in d.items;
      }
    }
  }

  /** `d.values()`: the values in the order of the keys. */
  function Values<K, V>(d: Dict<K, V>): (vs: seq<V>)
    requires forall k | k in d.keys :: k in d.items
    ensures |vs| == |d.keys| && forall i | 0 <= i < |d.keys| :: vs[i] == d.items[d.keys[i]]
  {
    seq(|d.keys|, i requires 0 <= i < |d.keys| => d.items[d.keys[i]])
  }
}
