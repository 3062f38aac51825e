/**
 A map bounded by a capacity, with an insertion-order queue that names the eviction victim.
 Both the ServiceAccount signature cache and the custom-resource conversion cache are built
 on this same pair of fields.
 */
module FifoCache {
  import opened Prelude

  datatype Fifo<K, V> = Fifo(entries: map<K, V>, order: seq<K>, capacity: nat)

  /** The queue lists exactly the cached keys, each once, and the capacity holds. */
  ghost predicate Valid<K(!new), V>(f: Fifo<K, V>) {
    && 1 <= f.capacity
    && Distinct(f.order)
    && (forall x :: x in f.order <==> x in f.entries)
    && |f.entries| <= f.capacity
  }

  /** The cache after `k := v`: a new key over capacity displaces the oldest key, nothing else. */
  ghost function Inserted<K(!new), V>(f: Fifo<K, V>, k: K, v: V): (r: Fifo<K, V>)
    requires Valid(f)
  {
    if k in f.entries then f.(entries := f.entries[k := v])
    else if |f.entries| < f.capacity then f.(entries := f.entries[k := v], order := f.order + [k])
    else
      QueueLength(f);
      f.(entries := (f.entries - {f.order[0]})[k := v], order := f.order[1..] + [k])
  }

  /** The cache without the keys of `ks`. */
  ghost function Without<K(!new), V>(f: Fifo<K, V>, ks: set<K>): (r: Fifo<K, V>) {
    f.(entries := f.entries - ks, order := Keep(f.order, ks))
  }

  /** The elements of `xs` outside `ks`, in order. */
  function Keep<K(==,!new)>(xs: seq<K>, ks: set<K>): (r: seq<K>)
    ensures forall x :: x in r <==> x in xs && x !in ks
    ensures Distinct(xs) ==> Distinct(r)
  {
    if xs == [] then []
    else
      var rest := Keep(xs[1..], ks);
      assert forall i :: 0 <= i < |rest| ==> rest[i] in xs[1..];
      if xs[0] in ks then rest else [xs[0]] + rest
  }

  lemma QueueLength<K(!new), V>(f: Fifo<K, V>)
    requires Valid(f)
    ensures |f.order| == |f.entries|
  {
    DistinctCardinality(f.order);
    assert Elements(f.order) == f.entries.Keys;
    assert |f.entries.Keys| == |f.entries|;
  }

  lemma UpdatedSize<K, V>(m: map<K, V>, k: K, v: V)
    ensures |m[k := v]| == if k in m then |m| else |m| + 1
  {
    assert m[k := v].Keys == m.Keys + {k};
    assert |m.Keys| == |m| && |m[k := v].Keys| == |m[k := v]|;
  }

  lemma RemovedSize<K, V>(m: map<K, V>, k: K)
    ensures |m - {k}| == if k in m then |m| - 1 else |m|
  {
    assert (m - {k}).Keys == m.Keys - {k};
    assert |m.Keys| == |m| && |(m - {k}).Keys| == |m - {k}|;
  }

  lemma EvictedValid<K(!new), V>(f: Fifo<K, V>, k: K, v: V)
    requires Valid(f) && k !in f.entries && |f.entries| == f.capacity
    ensures Valid(Inserted(f, k, v))
  {
    QueueLength(f);
    var oldest := f.order[0];
    RemovedSize(f.entries, oldest);
    UpdatedSize(f.entries - {oldest}, k, v);
    assert forall x :: x in f.order <==> x == oldest || x in f.order[1..];
  }

  /** Insertion keeps the bound, always caches the new entry, and leaves every entry but the
      oldest alone, which goes only when a new key meets a full cache. */
  lemma InsertedValid<K(!new), V>(f: Fifo<K, V>, k: K, v: V)
    requires Valid(f)
    ensures Valid(Inserted(f, k, v))
    ensures k in Inserted(f, k, v).entries && Inserted(f, k, v).entries[k] == v
    ensures forall x :: x in Inserted(f, k, v).entries && x != k ==>
              x in f.entries && f.entries[x] == Inserted(f, k, v).entries[x]
    ensures forall x :: x in f.entries && x !in Inserted(f, k, v).entries ==>
              k !in f.entries && |f.entries| == f.capacity && 0 < |f.order| && x == f.order[0]
    ensures Inserted(f, k, v).capacity == f.capacity
  {
    QueueLength(f);
    UpdatedSize(f.entries, k, v);
    if k !in f.entries && |f.entries| == f.capacity {
      EvictedValid(f, k, v);
    }
  }

  lemma WithoutValid<K(!new), V>(f: Fifo<K, V>, ks: set<K>)
    requires Valid(f)
    ensures Valid(Without(f, ks))
  {
    var r := Without(f, ks);
    assert r.entries.Keys == f.entries.Keys - ks;
    assert |r.entries| == |r.entries.Keys| <= |f.entries.Keys| == |f.entries|;
  }

  /** The insertion code itself: queue a new key, store, then pop victims while over capacity. */
  method Insert<K(==,!new), V>(entries: map<K, V>, order: seq<K>, capacity: nat, k: K, v: V)
    returns (entries': map<K, V>, order': seq<K>)
    requires Valid(Fifo(entries, order, capacity))
    ensures Fifo(entries', order', capacity) == Inserted(Fifo(entries, order, capacity), k, v)
  {
    QueueLength(Fifo(entries, order, capacity));
    UpdatedSize(entries, k, v);
    order' := order;
    if k !in entries {
      order' := order' + [k];
    }
    entries' := entries[k := v];
    ghost var queued, stored := order', entries';
    while |entries'| > capacity
      invariant if order' == queued then entries' == stored
                else |entries'| == capacity && |stored| == capacity + 1
                     && order' == queued[1..] && entries' == stored - {queued[0]}
      decreases |order'|
    {
      assert order'[0] == order[0] && order[0] in order;
      RemovedSize(entries', order'[0]);
      entries', order' := entries' - {order'[0]}, order'[1..];
    }
    if k !in entries && |entries| == capacity {
      assert stored - {order[0]} == (entries - {order[0]})[k := v] by {
        assert order[0] in order;
      }
    }
  }
}
