/** JavaScript's `Map` as the core uses it: a sequence of key/value entries in
    first-insertion order, where setting an existing key replaces its value in
    place and setting a new key appends it. */
module OrderedMap {
  import opened Common

  datatype Entry<K, V> = Entry(key: K, val: V)

  function Keys<K, V>(m: seq<Entry<K, V>>): (ks: seq<K>)
    ensures |ks| == |m|
    ensures forall t :: 0 <= t < |m| ==> ks[t] == m[t].key
  {
    seq(|m|, t requires 0 <= t < |m| => m[t].key)
  }

  /** `Array.from(map.values())`. */
  function Values<K, V>(m: seq<Entry<K, V>>): (vs: seq<V>)
    ensures |vs| == |m|
    ensures forall t :: 0 <= t < |m| ==> vs[t] == m[t].val
  {
    seq(|m|, t requires 0 <= t < |m| => m[t].val)
  }

  predicate DistinctKeys<K(==), V>(m: seq<Entry<K, V>>) {
    forall s, t :: 0 <= s < t < |m| ==> m[s].key != m[t].key
  }

  /** The position of key `k`, or -1. */
  function Find<K(==), V>(m: seq<Entry<K, V>>, k: K): (i: int)
    ensures -1 <= i < |m|
    ensures i == -1 <==> forall t :: 0 <= t < |m| ==> m[t].key != k
    ensures i >= 0 ==> m[i].key == k && forall t :: 0 <= t < i ==> m[t].key != k
  {
    if m == [] then -1
    else if m[0].key == k then 0
    else
      var i := Find(m[1..], k);
      if i == -1 then -1 else i + 1
  }

  /** `map.get(k)`. */
  function Get<K(==), V>(m: seq<Entry<K, V>>, k: K): (r: Option<V>)
    ensures r.None? <==> forall t :: 0 <= t < |m| ==> m[t].key != k
    ensures r.Some? ==> exists t :: 0 <= t < |m| && m[t] == Entry(k, r.value)
  {
    var i := Find(m, k);
    if i == -1 then None else Some(m[i].val)
  }

  /** `get` finds the entry at the key's position. */
  lemma GetFind<K, V>(m: seq<Entry<K, V>>, k: K)
    ensures Get(m, k).None? <==> Find(m, k) == -1
    ensures Get(m, k).Some? ==> Find(m, k) >= 0 && Get(m, k).value == m[Find(m, k)].val
  { }

  /** `map.set(k, v)`: an existing key keeps its position and takes the new value,
      a new key goes to the end; nothing else changes. */
  function Set<K(==), V>(m: seq<Entry<K, V>>, k: K, v: V): (r: seq<Entry<K, V>>)
    requires DistinctKeys(m)
    ensures DistinctKeys(r)
    ensures Get(r, k) == Some(v)
    ensures Find(m, k) == -1 ==> r == m + [Entry(k, v)]
    ensures Find(m, k) >= 0 ==> |r| == |m| && r[Find(m, k)] == Entry(k, v)
    ensures forall t :: 0 <= t < |m| && m[t].key != k ==> r[t] == m[t]
  {
    var i := Find(m, k);
    if i == -1 then
      var r := m + [Entry(k, v)];
      assert r[|m|].key == k;
      assert forall t :: 0 <= t < |m| ==> r[t] == m[t];
      r
    else
      var r := m[i := Entry(k, v)];
      assert r[i].key == k;
      assert forall t :: 0 <= t < i ==> r[t] == m[t];
      r
  }

  /** The map the constructor `new Map(entries)` builds, extended from `m`. */
  function SetAll<K(==), V>(m: seq<Entry<K, V>>, entries: seq<Entry<K, V>>): (r: seq<Entry<K, V>>)
    requires DistinctKeys(m)
    ensures DistinctKeys(r)
    decreases |entries|
  {
    if entries == [] then m else SetAll(Set(m, entries[0].key, entries[0].val), entries[1..])
  }

  /** After `set`, a key is present when it was before or is the one set. */
  lemma SetHasKey<K, V>(m: seq<Entry<K, V>>, k: K, v: V, k': K)
    requires DistinctKeys(m)
    ensures Find(Set(m, k, v), k') >= 0 <==> Find(m, k') >= 0 || k' == k
  {
    var r := Set(m, k, v);
    if Find(m, k') >= 0 && k' != k {
      assert r[Find(m, k')].key == k';
    }
    if Find(r, k') >= 0 && k' != k && Find(m, k) >= 0 {
      assert m[Find(r, k')].key == k';
    }
  }

  /** Building a map keeps every key that was already there or was set, and nothing else. */
  lemma {:induction false} SetAllKeys<K, V>(m: seq<Entry<K, V>>, entries: seq<Entry<K, V>>, k: K)
    requires DistinctKeys(m)
    ensures Find(SetAll(m, entries), k) >= 0
        <==> Find(m, k) >= 0 || exists j :: 0 <= j < |entries| && entries[j].key == k
    decreases |entries|
  {
    if entries != [] {
      var m' := Set(m, entries[0].key, entries[0].val);
      SetAllKeys(m', entries[1..], k);
      SetHasKey(m, entries[0].key, entries[0].val, k);
      assert forall j :: 1 <= j < |entries| ==> entries[j] == entries[1..][j - 1];
    }
  }

  /** Every value in a built map is a value that was already there or was set under its key. */
  lemma {:induction false} SetAllValues<K, V>(m: seq<Entry<K, V>>, entries: seq<Entry<K, V>>, t: nat)
    requires DistinctKeys(m)
    requires t < |SetAll(m, entries)|
    ensures SetAll(m, entries)[t] in m || SetAll(m, entries)[t] in entries
    decreases |entries|
  {
    if entries != [] {
      var m' := Set(m, entries[0].key, entries[0].val);
      SetAllValues(m', entries[1..], t);
      var e := SetAll(m, entries)[t];
      assert SetAll(m, entries) == SetAll(m', entries[1..]);
      if e in m' && e !in m {
        var s :| 0 <= s < |m'| && m'[s] == e;
        assert s >= |m| || m'[s] != m[s];
        assert e == entries[0];
      }
      if e in entries[1..] {
        var s :| 0 <= s < |entries[1..]| && entries[1..][s] == e;
        assert entries[s + 1] == e;
      }
    }
  }
}
