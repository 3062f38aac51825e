/** First in, first out: what a bounded cache holds after any insertions and removals. */
module FifoRuns {
  import opened Prelude
  import opened FifoCache

  /** Storing a cached key again does not renew it. */
  lemma InsertedAgain<K(!new), V>(f: Fifo<K, V>, k: K, v: V)
    requires Valid(f) && k in f.entries
    ensures Inserted(f, k, v).order == f.order && Inserted(f, k, v).entries.Keys == f.entries.Keys
  {
  }

  /** Dropping keys keeps the others in order. */
  lemma {:induction false} KeepAppend<K(!new)>(xs: seq<K>, x: K, ks: set<K>)
    ensures Keep(xs + [x], ks) == Keep(xs, ks) + if x in ks then [] else [x]
  {
    if xs == [] {
      assert xs + [x] == [x];
    } else {
      assert (xs + [x])[1..] == xs[1..] + [x];
      KeepAppend(xs[1..], x, ks);
    }
  }

  /** An empty cache after insertions under these keys. */
  ghost function Filled<K(!new), V>(capacity: nat, ks: seq<K>, vs: seq<V>): (r: Fifo<K, V>)
    requires 1 <= capacity && |ks| == |vs|
    ensures Valid(r)
  {
    if ks == [] then Fifo(map[], [], capacity)
    else
      var n := |ks| - 1;
      var f := Filled(capacity, ks[..n], vs[..n]);
      InsertedValid(f, ks[n], vs[n]);
      Inserted(f, ks[n], vs[n])
  }

  /** The last keys, as many as there is room for. */
  function Newest<K>(capacity: nat, ks: seq<K>): seq<K> {
    if |ks| <= capacity then ks else ks[|ks| - capacity..]
  }

  lemma NewestAppend<K>(capacity: nat, ks: seq<K>, k: K)
    requires 1 <= capacity
    ensures Newest(capacity, ks + [k]) ==
            (if |ks| < capacity then ks else Newest(capacity, ks)[1..]) + [k]
  {
  }

  lemma NotNewest<K>(capacity: nat, ks: seq<K>, k: K)
    requires Distinct(ks + [k])
    ensures k !in Newest(capacity, ks) && Distinct(ks)
  {
    assert forall i :: 0 <= i < |ks| ==> (ks + [k])[i] == ks[i];
    assert (ks + [k])[|ks|] == k;
  }

  lemma NewestStep<K(!new), V>(f: Fifo<K, V>, ks: seq<K>, k: K, v: V)
    requires Valid(f) && f.order == Newest(f.capacity, ks) && k !in f.order
    ensures Inserted(f, k, v).order == Newest(f.capacity, ks + [k]) && Inserted(f, k, v).capacity == f.capacity
  {
    QueueLength(f);
    NewestAppend(f.capacity, ks, k);
  }

  /** After any number of insertions under distinct keys the cache holds the newest keys, as many as
      it has room for, oldest first. */
  lemma {:induction false} NewestAreKept<K(!new), V>(capacity: nat, ks: seq<K>, vs: seq<V>)
    requires 1 <= capacity && |ks| == |vs| && Distinct(ks)
    ensures Filled(capacity, ks, vs).order == Newest(capacity, ks) && Filled(capacity, ks, vs).capacity == capacity
  {
    if ks != [] {
      var n := |ks| - 1;
      assert ks == ks[..n] + [ks[n]];
      NotNewest(capacity, ks[..n], ks[n]);
      NewestAreKept(capacity, ks[..n], vs[..n]);
      NewestStep(Filled(capacity, ks[..n], vs[..n]), ks[..n], ks[n], vs[n]);
    }
  }

  /** Removal drops just the given keys and alters no value. */
  lemma WithoutExactly<K(!new), V>(f: Fifo<K, V>, ks: set<K>)
    ensures forall x :: x in Without(f, ks).entries <==> x in f.entries && x !in ks
    ensures forall x :: x in Without(f, ks).entries ==> Without(f, ks).entries[x] == f.entries[x]
    ensures forall x :: x in Without(f, ks).order <==> x in f.order && x !in ks
  {
  }
}
