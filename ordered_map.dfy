/**
  A dictionary that remembers the order in which its keys were first inserted,
  as a Python `dict` does. The store iterates its per-user and per-task
  dictionaries, so that order is observable (leaderboard ties, favourite task).
 */
module OrderedMaps {
  import opened Wrappers

  /** `keys` lists every key of `entries` once, oldest first. */
  datatype OrderedMap<K, V> = OrderedMap(keys: seq<K>, entries: map<K, V>)

  ghost predicate Distinct<K>(s: seq<K>) {
    forall i, j :: 0 <= i < j < |s| ==> s[i] != s[j]
  }

  ghost predicate Valid<K(!new), V>(m: OrderedMap<K, V>) {
    && Distinct(m.keys)
    && (forall k :: k in m.entries <==> k in m.keys)
  }

  function Empty<K(!new), V>(): (m: OrderedMap<K, V>)
    ensures Valid(m) && |m.entries| == 0
  {
    OrderedMap([], map[])
  }

  /** `m.get(k)`. */
  function Get<K, V>(m: OrderedMap<K, V>, k: K): Option<V> {
    if k in m.entries then Some(m.entries[k]) else None
  }

  /** `m[k] = v`: a new key goes to the end of the order, an existing key keeps its place. */
  function Put<K(!new), V>(m: OrderedMap<K, V>, k: K, v: V): (r: OrderedMap<K, V>)
    requires Valid(m)
    ensures Valid(r)
    ensures r.entries == m.entries[k := v]
    ensures r.keys == if k in m.entries then m.keys else m.keys + [k]
  {
    if k in m.entries then OrderedMap(m.keys, m.entries[k := v])
    else OrderedMap(m.keys + [k], m.entries[k := v])
  }

  /** Setting a key twice is the same as setting it once to the second value. */
  lemma PutTwice<K(!new), V>(m: OrderedMap<K, V>, k: K, v1: V, v2: V)
    requires Valid(m)
    ensures Put(Put(m, k, v1), k, v2) == Put(m, k, v2)
  {
    assert m.entries[k := v1][k := v2] == m.entries[k := v2];
  }

  /** Setting a key to the value it already has changes nothing. */
  lemma PutSame<K(!new), V>(m: OrderedMap<K, V>, k: K)
    requires Valid(m) && k in m.entries
    ensures Put(m, k, m.entries[k]) == m
  {
    assert m.entries[k := m.entries[k]] == m.entries;
  }

  lemma {:induction false} DistinctCardinality<K>(s: seq<K>)
    requires Distinct(s)
    ensures |(set x | x in s)| == |s|
  {
    if s != [] {
      var t := s[..|s| - 1];
      var last := s[|s| - 1];
      assert Distinct(t);
      DistinctCardinality(t);
      assert (set x | x in s) == (set x | x in t) + {last} by {
        assert s == t + [last];
      }
      assert last !in (set x | x in t);
    }
  }

  /** `len(m)` is the number of keys in the iteration order. */
  lemma LengthIsKeyCount<K(!new), V>(m: OrderedMap<K, V>)
    requires Valid(m)
    ensures |m.entries| == |m.keys|
  {
    DistinctCardinality(m.keys);
    assert m.entries.Keys == set x | x in m.keys;
  }
}
