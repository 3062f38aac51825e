/** How many webhook conversions one key can still cost once it is cached. */
module SingleFlightLeaders {
  import opened Prelude
  import opened ConversionCache
  import opened SingleFlight
  import opened SingleFlightProgress

  /** Item `i` has missed the cache on `k` and not yet claimed it. */
  predicate Stale(c: Call, i: nat, k: Key) {
    i < |c.st| && i < |c.items| && (c.st[i].Pending? || c.st[i].Todo?) && KeyAt(c, i) == Some(k)
  }

  /** The call has missed on `k` and does not lead it itself. */
  ghost predicate Unserved(c: Call, k: Key) {
    (exists i: nat :: Stale(c, i, k)) && (forall i: nat :: !Leads(c, i, k))
  }

  ghost function UnservedCalls(s: State, k: Key): set<nat> {
    set c: nat | c < |s.calls| && Unserved(s.calls[c], k)
  }

  /** The action makes a new leader, hence a new webhook conversion, for `k`. */
  ghost predicate NewLeader(s: State, a: Action, k: Key) {
    && a.Act? && a.op.ClaimNext? && a.c < |s.calls|
    && var i := Cursor(s.calls[a.c], ClaimNext);
       i < |s.calls[a.c].st| && i < |s.calls[a.c].items|
       && KeyAt(s.calls[a.c], i) == Some(k) && k !in s.shared.inFlight
  }

  /** While `k` is cached nobody newly misses on it: every scan and every woken follower hits. */
  lemma NoNewMiss(sh: Shared, c: Call, op: Op, k: Key, i: nat)
    requires SharedOk(sh) && CallOk(c) && Enabled(sh, c, op) && k in sh.cache.entries
    requires Stale(StepCall(sh, c, op), i, k)
    ensures Stale(c, i, k) && (op.ClaimNext? ==> i != Cursor(c, op))
  {
    var j := Cursor(c, op);
    if j < |c.st| {
      assert StepCall(sh, c, op) == c.(st := c.st[j := Advance(sh, c, op, j)]);
    }
  }

  /** A call with a stale item keeps the slots it has claimed. */
  lemma StaleCallKeepsLeading(sh: Shared, c: Call, op: Op, k: Key, i: nat, j: nat)
    requires SharedOk(sh) && CallOk(c) && Enabled(sh, c, op) && k in sh.cache.entries
    requires Stale(StepCall(sh, c, op), i, k) && Leads(c, j, k)
    ensures Leads(StepCall(sh, c, op), j, k)
  {
    NoNewMiss(sh, c, op, k, i);
    assert c.phase == Phase.Claim;
  }

  lemma CallStaysUnserved(sh: Shared, c: Call, op: Op, k: Key)
    requires SharedOk(sh) && CallOk(c) && Enabled(sh, c, op) && k in sh.cache.entries
    requires Unserved(StepCall(sh, c, op), k)
    ensures Unserved(c, k)
  {
    var i: nat :| Stale(StepCall(sh, c, op), i, k);
    NoNewMiss(sh, c, op, k, i);
    forall j: nat | Leads(c, j, k) ensures Leads(StepCall(sh, c, op), j, k) {
      StaleCallKeepsLeading(sh, c, op, k, i, j);
    }
  }

  lemma ClaimantLeads(sh: Shared, c: Call, k: Key)
    requires SharedOk(sh) && CallOk(c) && Enabled(sh, c, ClaimNext)
    requires KeyAt(c, Cursor(c, ClaimNext)) == Some(k) && k !in sh.inFlight
    ensures Stale(c, Cursor(c, ClaimNext), k) && Leads(StepCall(sh, c, ClaimNext), Cursor(c, ClaimNext), k)
  {
  }

  lemma NewLeaderWasUnserved(s: State, a: Action, s': State, k: Key)
    requires Next(s, a, s') && NewLeader(s, a, k)
    ensures a.c in UnservedCalls(s, k) && a.c !in UnservedCalls(s', k)
  {
    ClaimantLeads(s.shared, s.calls[a.c], k);
    assert forall i: nat :: Leads(s.calls[a.c], i, k) ==> k in s.owner.Keys;
  }

  lemma NextServes(s: State, a: Action, s': State, k: Key)
    requires Next(s, a, s') && k in s.shared.cache.entries
    ensures UnservedCalls(s', k) <= UnservedCalls(s, k)
  {
    forall c | c in UnservedCalls(s', k) ensures c in UnservedCalls(s, k) {
      if a.Act? && a.c == c {
        CallStaysUnserved(s.shared, s.calls[c], a.op, k);
      }
    }
  }

  lemma NextLeaves(s: State, a: Action, s': State, k: Key)
    requires Next(s, a, s') && k in s.shared.cache.entries
    ensures |UnservedCalls(s', k)| + (if NewLeader(s, a, k) then 1 else 0) <= |UnservedCalls(s, k)|
  {
    NextServes(s, a, s', k);
    if NewLeader(s, a, k) {
      NewLeaderWasUnserved(s, a, s', k);
      SubsetSize(UnservedCalls(s', k), UnservedCalls(s, k) - {a.c});
    } else {
      SubsetSize(UnservedCalls(s', k), UnservedCalls(s, k));
    }
  }

  /** New leaders for `k` in a run. */
  ghost function LeaderCount(ss: seq<State>, acts: seq<Action>, k: Key): nat
    requires |ss| == |acts| + 1
  {
    var n := |acts|;
    if n == 0 then 0
    else LeaderCount(ss[..n], acts[..n - 1], k) + (if NewLeader(ss[n - 1], acts[n - 1], k) then 1 else 0)
  }

  lemma {:induction false} DescentBoundsLeaders(ns: seq<nat>, ss: seq<State>, acts: seq<Action>, k: Key)
    requires |ns| == |ss| == |acts| + 1
    requires forall t :: 0 <= t < |acts| ==>
               ns[t + 1] + (if NewLeader(ss[t], acts[t], k) then 1 else 0) <= ns[t]
    ensures LeaderCount(ss, acts, k) + ns[|acts|] <= ns[0]
  {
    var n := |acts|;
    if n > 0 {
      DescentBoundsLeaders(ns[..n], ss[..n], acts[..n - 1], k);
    }
  }

  /** Once `k` is cached, and for as long as it stays cached, the conversions still to come are at
      most the calls that had missed on it and do not lead it: with none of those left, the webhook
      is never asked for `k` again. */
  lemma LateLeadersWereUnserved(ss: seq<State>, acts: seq<Action>, k: Key)
    requires IsRun(ss, acts)
    requires forall t :: 0 <= t < |acts| ==> k in ss[t].shared.cache.entries
    ensures LeaderCount(ss, acts, k) <= |UnservedCalls(ss[0], k)|
  {
    var ns: seq<nat> := seq(|ss|, t requires 0 <= t < |ss| => |UnservedCalls(ss[t], k)|);
    forall t | 0 <= t < |acts|
      ensures ns[t + 1] + (if NewLeader(ss[t], acts[t], k) then 1 else 0) <= ns[t]
    {
      RunSteps(ss, acts, t);
      NextLeaves(ss[t], acts[t], ss[t + 1], k);
    }
    DescentBoundsLeaders(ns, ss, acts, k);
  }
}
