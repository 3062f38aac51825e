/**
 The cache in front of ServiceAccount token verification: verified token hashes until an
 expiry, and bound objects recently found live. Times are nanoseconds of the monotonic clock.
 */
module SigCache {
  import opened Prelude
  import opened FifoCache

  const SECOND: nat := 1_000_000_000
  const MAX_TTL: nat := 300 * SECOND
  const LIVENESS_TTL: nat := 5 * SECOND
  const MAX_LIVENESS_ENTRIES: nat := 4096

  type Hash = string

  function Elapsed(now: nat, since: nat): nat { if now >= since then now - since else 0 }

  /** The earlier of the token's own expiry and `now + MAX_TTL`. */
  function CappedExpiry(exp: nat, nowUnix: nat, now: nat): (r: nat)
    ensures now <= r <= now + MAX_TTL
    ensures exp <= nowUnix ==> r == now
    ensures nowUnix <= exp ==> r <= now + (exp - nowUnix) * SECOND
  {
    var remaining := if exp > nowUnix then (exp - nowUnix) * SECOND else 0;
    now + if remaining <= MAX_TTL then remaining else MAX_TTL
  }

  /** Five minutes from now, or the seconds left to the token, whichever is less. */
  lemma CappedExpiryExactly(exp: nat, nowUnix: nat, now: nat)
    ensures var left := if exp > nowUnix then (exp - nowUnix) * 1_000_000_000 else 0;
            CappedExpiry(exp, nowUnix, now) == now + if left < 300_000_000_000 then left else 300_000_000_000
  {
  }

  predicate Hit(entries: map<Hash, nat>, h: Hash, now: nat) { h in entries && entries[h] > now }

  predicate RecentlyLive(live: map<string, nat>, key: string, now: nat) {
    key in live && Elapsed(now, live[key]) < LIVENESS_TTL
  }

  function Unexpired(live: map<string, nat>, now: nat): map<string, nat> {
    map k | k in live && Elapsed(now, live[k]) < LIVENESS_TTL :: live[k]
  }

  /** There is room, if need be after dropping expired entries. */
  predicate HasRoom(live: map<string, nat>, now: nat) {
    |live| < MAX_LIVENESS_ENTRIES || |Unexpired(live, now)| < MAX_LIVENESS_ENTRIES
  }

  function RecordedLive(live: map<string, nat>, key: string, now: nat): map<string, nat> {
    if |live| < MAX_LIVENESS_ENTRIES then live[key := now]
    else if HasRoom(live, now) then Unexpired(live, now)[key := now]
    else Unexpired(live, now)
  }

  /** Recording never exceeds the cap, and never invents or moves another entry. */
  lemma RecordedLiveOk(live: map<string, nat>, key: string, now: nat)
    requires |live| <= MAX_LIVENESS_ENTRIES
    ensures var r := RecordedLive(live, key, now);
            && |r| <= 4096
            && (forall k :: k in r ==> if k == key && HasRoom(live, now) then r[k] == now else k in live && r[k] == live[k])
            && (forall k :: k in live && k != key && RecentlyLive(live, k, now) ==> k in r)
  {
    UpdatedSize(live, key, now);
    UpdatedSize(Unexpired(live, now), key, now);
    assert Unexpired(live, now).Keys <= live.Keys;
    SubsetSize(Unexpired(live, now).Keys, live.Keys);
    assert |Unexpired(live, now).Keys| == |Unexpired(live, now)|;
  }

  class SigCache {
    const capacity: nat
    var entries: map<Hash, nat>
    var order: seq<Hash>
    var live: map<string, nat>

    ghost predicate Valid()
      reads this
    {
      FifoCache.Valid(Fifo(entries, order, capacity)) && |live| <= MAX_LIVENESS_ENTRIES
    }

    constructor (capacity: nat)
      ensures Valid() && entries == map[] && live == map[]
      ensures this.capacity == if capacity == 0 then 1 else capacity
    {
      this.capacity := if capacity == 0 then 1 else capacity;
      entries, order, live := map[], [], map[];
    }

    /** Answers only before the entry's expiry. */
    method Get(h: Hash, now: nat) returns (r: Option<bool>)
      ensures r == Some(true) <==> Hit(entries, h, now)
      ensures r.None? <==> !Hit(entries, h, now)
    {
      r := if h in entries && entries[h] > now then Some(true) else None;
    }

    method InsertVerified(h: Hash, expiresAt: nat)
      requires Valid()
      modifies this
      ensures Valid() && live == old(live)
      ensures Fifo(entries, order, capacity) == Inserted(old(Fifo(entries, order, capacity)), h, expiresAt)
      ensures h in entries && entries[h] == expiresAt
      ensures forall k :: k in entries && k != h ==> k in old(entries) && entries[k] == old(entries[k])
    {
      InsertedValid(Fifo(entries, order, capacity), h, expiresAt);
      entries, order := Insert(entries, order, capacity, h, expiresAt);
    }

    method SeenLive(key: string, now: nat) returns (r: bool)
      ensures r <==> RecentlyLive(live, key, now)
    {
      r := key in live && Elapsed(now, live[key]) < LIVENESS_TTL;
    }

    method RecordLive(key: string, now: nat)
      requires Valid()
      modifies this`live
      ensures Valid() && live == RecordedLive(old(live), key, now)
    {
      RecordedLiveOk(live, key, now);
      if |live| >= MAX_LIVENESS_ENTRIES {
        live := map k | k in live && Elapsed(now, live[k]) < LIVENESS_TTL :: live[k];
        if |live| >= MAX_LIVENESS_ENTRIES {
          return;
        }
      }
      live := live[key := now];
    }
  }
}
