/**
 The shared half of single-flight conversion: the bounded result cache and the in-flight
 registry. `Shared` is the abstract value of the cache object, and the functions on it are
 the atomic (individually locked) operations every caller interleaves.
 */
module ConversionCache {
  import opened Prelude
  import opened FifoCache

  /** A converted object is identified by the source's resourceVersion and the target version. */
  datatype Key = Key(rv: string, target: string)

  /** A serialized JSON body. */
  type Value = string

  /** A `Notify` is named by its allocation number; `notified` holds those already fired. */
  datatype Shared = Shared(
    cache: Fifo<Key, Value>,
    inFlight: map<Key, nat>,
    notified: set<nat>,
    next: nat)

  datatype Claim = Leader | Follow(notifier: nat)

  /** Registered notifiers are distinct, already allocated and not yet fired. */
  ghost predicate RegistryOk(inFlight: map<Key, nat>, notified: set<nat>, next: nat) {
    && (forall k :: k in inFlight ==> inFlight[k] < next && inFlight[k] !in notified)
    && (forall j, k :: j in inFlight && k in inFlight && inFlight[j] == inFlight[k] ==> j == k)
    && (forall n :: n in notified ==> n < next)
  }

  ghost predicate SharedOk(s: Shared) {
    Valid(s.cache) && RegistryOk(s.inFlight, s.notified, s.next)
  }

  function Lookup(s: Shared, k: Key): Option<Value> {
    if k in s.cache.entries then Some(s.cache.entries[k]) else None
  }

  function ClaimOf(s: Shared, k: Key): Claim {
    if k in s.inFlight then Follow(s.inFlight[k]) else Leader
  }

  /** The registry after `claim(k)`: unchanged for a follower, one fresh notifier for a leader. */
  function Claimed(s: Shared, k: Key): Shared {
    if k in s.inFlight then s else s.(inFlight := s.inFlight[k := s.next], next := s.next + 1)
  }

  /** First locked half of `resolve(k, Some(v))`. */
  ghost function Published(s: Shared, k: Key, v: Value): Shared
    requires Valid(s.cache)
  {
    s.(cache := Inserted(s.cache, k, v))
  }

  /** Second locked half of `resolve(k, _)`: drop the registration and fire its notifier. */
  function Released(s: Shared, k: Key): Shared {
    if k in s.inFlight then s.(inFlight := s.inFlight - {k}, notified := s.notified + {s.inFlight[k]})
    else s
  }

  ghost function Invalidated(s: Shared, ks: set<Key>): Shared {
    s.(cache := Without(s.cache, ks))
  }

  /** Every atomic operation keeps the registry and cache invariants. */
  lemma ClaimedOk(s: Shared, k: Key)
    requires SharedOk(s)
    ensures SharedOk(Claimed(s, k))
  {
  }

  lemma ReleasedOk(s: Shared, k: Key)
    requires SharedOk(s)
    ensures SharedOk(Released(s, k))
  {
  }

  lemma PublishedOk(s: Shared, k: Key, v: Value)
    requires SharedOk(s)
    ensures SharedOk(Published(s, k, v))
    ensures Lookup(Published(s, k, v), k) == Some(v)
  {
    InsertedValid(s.cache, k, v);
  }

  class CrConversionCache {
    const capacity: nat
    var entries: map<Key, Value>
    var order: seq<Key>
    var inFlight: map<Key, nat>
    var notified: set<nat>
    var next: nat

    ghost function State(): Shared
      reads this
    {
      Shared(Fifo(entries, order, capacity), inFlight, notified, next)
    }

    constructor (capacity: nat)
      ensures SharedOk(State())
      ensures this.capacity == if capacity == 0 then 1 else capacity
      ensures entries == map[] && inFlight == map[]
    {
      this.capacity := if capacity == 0 then 1 else capacity;
      entries, order, inFlight, notified, next := map[], [], map[], {}, 0;
    }

    method Get(key: Key) returns (r: Option<Value>)
      ensures r == Lookup(State(), key)
    {
      r := if key in entries then Some(entries[key]) else None;
    }

    method Claim(key: Key) returns (r: Claim)
      requires SharedOk(State())
      modifies this
      ensures r == ClaimOf(old(State()), key)
      ensures State() == Claimed(old(State()), key)
      ensures SharedOk(State()) && key in inFlight
      ensures r.Leader? <==> key !in old(inFlight)
      ensures r.Follow? ==> r.notifier == old(inFlight)[key] && State() == old(State())
      ensures r.Leader? ==> forall k :: k in old(inFlight) ==> inFlight[key] != old(inFlight[k])
    {
      ClaimedOk(State(), key);
      if key in inFlight {
        r := Follow(inFlight[key]);
      } else {
        inFlight := inFlight[key := next];
        next := next + 1;
        r := Leader;
      }
    }

    /** With a value, the result is cached before the slot is released; either way every
        follower of the slot is woken and the slot is free. */
    method Resolve(key: Key, value: Option<Value>)
      requires SharedOk(State())
      modifies this
      ensures State() == Released(if value.Some? then Published(old(State()), key, value.value)
                                  else old(State()), key)
      ensures SharedOk(State()) && inFlight == old(inFlight) - {key}
      ensures key in old(inFlight) ==> old(inFlight[key]) in notified
      ensures value.Some? ==> Lookup(State(), key) == value
    {
      if value.Some? {
        PublishedOk(State(), key, value.value);
        entries, order := Insert(entries, order, capacity, key, value.value);
      }
      ReleasedOk(State(), key);
      if key in inFlight {
        notified := notified + {inFlight[key]};
        inFlight := inFlight - {key};
      }
    }

    /** `invalidate`, `invalidate_by_rv` and `invalidate_by_target_api_versions` each drop a set
        of keys from the map and from the queue. */
    method Invalidate(ks: set<Key>)
      requires SharedOk(State())
      modifies this
      ensures State() == Invalidated(old(State()), ks) && SharedOk(State())
      ensures inFlight == old(inFlight) && notified == old(notified)
      ensures forall k :: k in entries <==> k in old(entries) && k !in ks
      ensures forall k :: k in entries ==> entries[k] == old(entries)[k]
    {
      WithoutValid(State().cache, ks);
      entries := entries - ks;
      order := Keep(order, ks);
    }
  }
}
