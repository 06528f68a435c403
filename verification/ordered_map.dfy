/** A JavaScript `Map` with string keys: a finite map that also remembers the order in which its
    keys were first inserted, which is the order `values()` iterates in. */
module OrderedMaps {
  import opened Wrappers

  datatype OrderedMap<V> = OrderedMap(keys: seq<string>, entries: map<string, V>)

  /** Every key is listed once, and the listed keys are exactly the mapped ones. */
  ghost predicate Wf<V>(m: OrderedMap<V>) {
    && (forall i, j | 0 <= i < j < |m.keys| :: m.keys[i] != m.keys[j])
    && (forall k :: k in m.entries <==> k in m.keys)
  }

  /** `new Map()` */
  function Empty<V>(): (m: OrderedMap<V>)
    ensures Wf(m) && Size(m) == 0
    ensures forall k :: Get(m, k) == None
  {
    OrderedMap([], map[])
  }

  /** `map.size`, kept as the length of the key order. */
  function Size<V>(m: OrderedMap<V>): nat {
    |m.keys|
  }

  /** For a well-formed map, `map.size` is the number of entries: each key is
      listed exactly once. */
  lemma SizeCountsEntries<V>(m: OrderedMap<V>)
    requires Wf(m)
    ensures Size(m) == |m.entries|
  {
    assert m.entries.Keys == set k | k in m.keys;
    DistinctCount(m.keys);
  }

  /** A sequence without repetitions has as many distinct elements as positions. */
  lemma {:induction false} DistinctCount(keys: seq<string>)
    requires forall i, j | 0 <= i < j < |keys| :: keys[i] != keys[j]
    ensures |set k | k in keys| == |keys|
  {
    if keys != [] {
      var init := keys[..|keys| - 1];
      var last := keys[|keys| - 1];
      DistinctCount(init);
      assert (set k | k in keys) == (set k | k in init) + {last};
      assert last !in (set k | k in init);
    }
  }

  /** `map.get(k)`, with `undefined` as None. */
  function Get<V>(m: OrderedMap<V>, k: string): (r: Option<V>)
    ensures r.Some? <==> k in m.entries
    ensures r.Some? ==> r.value == m.entries[k]
  {
    if k in m.entries then Some(m.entries[k]) else None
  }

  /** `map.set(k, v)`: a new key goes to the end of the order, an existing key
      keeps its place and only its value changes. */
  function Set<V>(m: OrderedMap<V>, k: string, v: V): (r: OrderedMap<V>)
    ensures Get(r, k) == Some(v)
    ensures forall k' | k' != k :: Get(r, k') == Get(m, k')
    ensures Wf(m) ==> Wf(r)
    ensures k in m.entries ==> Size(r) == Size(m)
    ensures k !in m.entries ==> Size(r) == Size(m) + 1 && r.keys[..Size(m)] == m.keys
  {
    if k in m.entries then OrderedMap(m.keys, m.entries[k := v])
    else OrderedMap(m.keys + [k], m.entries[k := v])
  }

  /** `map.values()`, in iteration order. */
  function Values<V>(m: OrderedMap<V>): (vs: seq<V>)
    requires Wf(m)
    ensures |vs| == Size(m)
  {
    seq(|m.keys|, i requires 0 <= i < |m.keys| => m.entries[m.keys[i]])
  }

  /** Every stored value appears in `values()`, at the position of its key. */
  lemma ValuesFollowKeyOrder<V>(m: OrderedMap<V>, i: nat)
    requires Wf(m) && i < Size(m)
    ensures m.keys[i] in m.entries && Values(m)[i] == m.entries[m.keys[i]]
  {
  }

  /** Setting a fresh key appends its value to the iteration; setting an existing
      key rewrites its value in place. */
  lemma SetThenValues<V>(m: OrderedMap<V>, k: string, v: V)
    requires Wf(m)
    ensures k !in m.entries ==> Values(Set(m, k, v)) == Values(m) + [v]
    ensures k in m.entries ==>
              exists i | 0 <= i < Size(m) :: m.keys[i] == k && Values(Set(m, k, v)) == Values(m)[i := v]
  {
    var r := Set(m, k, v);
    if k !in m.entries {
      assert r.keys == m.keys + [k];
      assert Values(r) == Values(m) + [v];
    } else {
      var i :| 0 <= i < |m.keys| && m.keys[i] == k;
      assert r.keys == m.keys;
      assert Values(r) == Values(m)[i := v];
    }
  }

  /** `values()` lists every stored value, and nothing else. */
  lemma ValuesListsEntries<V>(m: OrderedMap<V>)
    requires Wf(m)
    ensures forall k | k in m.entries :: m.entries[k] in Values(m)
    ensures forall v | v in Values(m) :: exists k | k in m.entries :: m.entries[k] == v
  {
    var vs := Values(m);
    forall k | k in m.entries
      ensures m.entries[k] in vs
    {
      var i :| 0 <= i < |m.keys| && m.keys[i] == k;
      assert vs[i] == m.entries[k];
    }
    forall v | v in vs
      ensures exists k | k in m.entries :: m.entries[k] == v
    {
      var i :| 0 <= i < |vs| && vs[i] == v;
      assert m.entries[m.keys[i]] == v;
    }
  }
}
