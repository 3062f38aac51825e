/** What the calls return, and what a woken follower finds. */
module SingleFlightAgreement {
  import opened Prelude
  import opened FifoCache
  import opened ConversionCache
  import opened SingleFlight
  import opened SingleFlightProgress

  // ---- Results ----------------------------------------------------------------------------

  predicate Valued(x: ItemState) { x.Answered? || x.Stored? || x.Converted? }

  /** The conversion of an object, where a resourceVersion stands for exactly one body. */
  function Expected(conv: (Value, string) -> Value, body: string -> Value, x: Item, target: string): Value {
    conv(if x.rv.Some? then body(x.rv.value) else x.body, target)
  }

  ghost predicate CacheRight(conv: (Value, string) -> Value, body: string -> Value, m: map<Key, Value>) {
    forall k :: k in m ==> m[k] == conv(body(k.rv), k.target)
  }

  ghost predicate ItemRight(
    conv: (Value, string) -> Value, body: string -> Value, x: Item, target: string, st: ItemState)
  {
    Valued(st) ==> st.v == Expected(conv, body, x, target)
  }

  ghost predicate CallRight(conv: (Value, string) -> Value, body: string -> Value, c: Call) {
    forall i :: 0 <= i < |c.st| && i < |c.items| ==> ItemRight(conv, body, c.items[i], c.target, c.st[i])
  }

  ghost predicate Right(conv: (Value, string) -> Value, body: string -> Value, s: State) {
    && CacheRight(conv, body, s.shared.cache.entries)
    && forall c :: 0 <= c < |s.calls| ==> CallRight(conv, body, s.calls[c])
  }

  /** In a webhook answer of the right length the value at position k is the conversion of the k-th
      leader, in item order. */
  ghost predicate HonestReply(conv: (Value, string) -> Value, body: string -> Value, c: Call, vs: seq<Value>) {
    |c.st| == |c.items| && |vs| == Leaders(c.st) ==>
      forall i :: 0 <= i < |c.st| && c.st[i].Leading? && Leaders(c.st[..i]) < |vs| ==>
        vs[Leaders(c.st[..i])] == Expected(conv, body, c.items[i], c.target)
  }

  lemma LeadersFirst(st: seq<ItemState>, i: nat)
    requires 0 < i <= |st|
    ensures Leaders(st[..i]) == Leaders(st[1..][..i - 1]) + if st[0].Leading? then 1 else 0
  {
    assert st[..i][1..] == st[1..][..i - 1];
  }

  lemma DeliverLater(st: seq<ItemState>, vs: seq<Value>, i: nat)
    requires |vs| == Leaders(st) && 0 < i < |st|
    ensures var rest := if st[0].Leading? then vs[1..] else vs;
            |rest| == Leaders(st[1..]) && Deliver(st, vs)[i] == Deliver(st[1..], rest)[i - 1]
  {
  }

  /** Each leader is answered with the value at its own position among the leaders. */
  lemma {:induction false} DeliverInOrder(st: seq<ItemState>, vs: seq<Value>, i: nat)
    requires |vs| == Leaders(st) && i < |st| && st[i].Leading?
    ensures Leaders(st[..i]) < |vs| && Deliver(st, vs)[i] == Answered(vs[Leaders(st[..i])])
  {
    if i == 0 {
      assert Leaders(st[..0]) == 0 && Deliver(st, vs)[0] == Answered(vs[0]);
    } else {
      var rest := if st[0].Leading? then vs[1..] else vs;
      LeadersFirst(st, i);
      DeliverLater(st, vs, i);
      DeliverInOrder(st[1..], rest, i - 1);
    }
  }

  lemma HonestDelivery(conv: (Value, string) -> Value, body: string -> Value, c: Call, vs: seq<Value>)
    requires |c.st| == |c.items| && |vs| == Leaders(c.st) && HonestReply(conv, body, c, vs) && CallRight(conv, body, c)
    ensures CallRight(conv, body, c.(st := Deliver(c.st, vs), phase := Publish))
  {
    forall i | 0 <= i < |c.st| ensures ItemRight(conv, body, c.items[i], c.target, Deliver(c.st, vs)[i]) {
      if c.st[i].Leading? {
        DeliverInOrder(c.st, vs, i);
      }
    }
  }

  ghost predicate Honest(conv: (Value, string) -> Value, body: string -> Value, s: State, a: Action) {
    a.Act? && a.c < |s.calls| && a.op.Reply? ==> HonestReply(conv, body, s.calls[a.c], a.op.values)
  }

  lemma StepKeepsCacheRight(conv: (Value, string) -> Value, body: string -> Value, sh: Shared, c: Call, op: Op)
    requires SharedOk(sh) && CallOk(c) && Enabled(sh, c, op)
    requires CacheRight(conv, body, sh.cache.entries) && CallRight(conv, body, c)
    ensures CacheRight(conv, body, StepShared(sh, c, op).cache.entries)
  {
    var i := Cursor(c, op);
    if i < |c.st| && KeyAt(c, i).Some? && c.st[i].Answered? && op.PublishNext? {
      InsertedValid(sh.cache, KeyAt(c, i).value, c.st[i].v);
    }
  }

  lemma StepKeepsCallRight(conv: (Value, string) -> Value, body: string -> Value, sh: Shared, c: Call, op: Op)
    requires SharedOk(sh) && CallOk(c) && Enabled(sh, c, op)
    requires CacheRight(conv, body, sh.cache.entries) && CallRight(conv, body, c)
    requires op.Reply? ==> HonestReply(conv, body, c, op.values)
    ensures CallRight(conv, body, StepCall(sh, c, op))
  {
    var i := Cursor(c, op);
    if i < |c.st| {
      assert ItemRight(conv, body, c.items[i], c.target, Advance(sh, c, op, i));
    }
    if op.Reply? && |op.values| == Leaders(c.st) {
      HonestDelivery(conv, body, c, op.values);
    }
  }

  lemma NextKeepsRight(conv: (Value, string) -> Value, body: string -> Value, s: State, a: Action, s': State)
    requires Next(s, a, s') && Right(conv, body, s) && Honest(conv, body, s, a)
    ensures Right(conv, body, s')
  {
    if a.Act? {
      StepKeepsCacheRight(conv, body, s.shared, s.calls[a.c], a.op);
      StepKeepsCallRight(conv, body, s.shared, s.calls[a.c], a.op);
    }
  }

  lemma {:induction false} RunsKeepRight(
    conv: (Value, string) -> Value, body: string -> Value, ss: seq<State>, acts: seq<Action>, t: nat)
    requires IsRun(ss, acts) && t < |ss| && Right(conv, body, ss[0])
    requires forall u :: 0 <= u < |acts| ==> Honest(conv, body, ss[u], acts[u])
    ensures Right(conv, body, ss[t])
  {
    if t > 0 {
      RunsKeepRight(conv, body, ss, acts, t - 1);
      RunSteps(ss, acts, t - 1);
      NextKeepsRight(conv, body, ss[t - 1], acts[t - 1], ss[t]);
    }
  }

  /** In every run of honest webhook answers, every item a call has converted carries the
      conversion of its own source, whether it was led, followed or read from the cache. */
  lemma ConversionsAgree(
    conv: (Value, string) -> Value, body: string -> Value, ss: seq<State>, acts: seq<Action>, t: nat, c: nat, i: nat)
    requires IsRun(ss, acts) && t < |ss| && Right(conv, body, ss[0])
    requires forall u :: 0 <= u < |acts| ==> Honest(conv, body, ss[u], acts[u])
    ensures Right(conv, body, ss[t])
    ensures c < |ss[t].calls| && i < |ss[t].calls[c].st| && i < |ss[t].calls[c].items|
            && ss[t].calls[c].st[i].Converted? ==>
              var x, target := ss[t].calls[c].items[i], ss[t].calls[c].target;
              && ss[t].calls[c].st[i].v == Expected(conv, body, x, target)
              && ((x.rv.Some? ==> body(x.rv.value) == x.body) ==> ss[t].calls[c].st[i].v == conv(x.body, target))
  {
    RunsKeepRight(conv, body, ss, acts, t);
    if c < |ss[t].calls| {
      assert CallRight(conv, body, ss[t].calls[c]);
    }
  }

  // ---- Finished calls -----------------------------------------------------------------------

  /** Once scanned, an item is left alone exactly if it is at the target version. */
  ghost predicate CallPlaced(c: Call) {
    forall i :: 0 <= i < |c.st| && i < |c.items| && !c.st[i].Unscanned? ==>
      (c.st[i].Untouched? <==> c.items[i].apiVersion == Some(c.target))
  }

  ghost predicate Placed(s: State) { forall c :: 0 <= c < |s.calls| ==> CallPlaced(s.calls[c]) }

  lemma StepKeepsPlaced(sh: Shared, c: Call, op: Op)
    requires CallOk(c) && Enabled(sh, c, op) && CallPlaced(c)
    ensures CallPlaced(StepCall(sh, c, op))
  {
    var j := Cursor(c, op);
    if j < |c.st| {
      assert StepCall(sh, c, op) == c.(st := c.st[j := Advance(sh, c, op, j)]);
    } else {
      RoundKeepsPlaced(sh, c, op);
    }
  }

  lemma RoundKeepsPlaced(sh: Shared, c: Call, op: Op)
    requires CallOk(c) && Enabled(sh, c, op) && CallPlaced(c) && Cursor(c, op) == |c.st|
    ensures CallPlaced(StepCall(sh, c, op))
  {
    var d := StepCall(sh, c, op);
    assert |d.st| == |c.st| && d.items == c.items && d.target == c.target;
    forall i | 0 <= i < |d.st| && !d.st[i].Unscanned?
      ensures d.st[i].Untouched? <==> d.items[i].apiVersion == Some(d.target)
    {
      assert d.st[i].Untouched? <==> c.st[i].Untouched?;
      assert !c.st[i].Unscanned?;
    }
  }

  lemma {:induction false} RunsKeepPlaced(ss: seq<State>, acts: seq<Action>, t: nat)
    requires IsRun(ss, acts) && t < |ss| && Placed(ss[0])
    ensures Placed(ss[t])
  {
    if t > 0 {
      RunsKeepPlaced(ss, acts, t - 1);
      RunSteps(ss, acts, t - 1);
      var s, a := ss[t - 1], acts[t - 1];
      if a.Act? {
        StepKeepsPlaced(s.shared, s.calls[a.c], a.op);
      }
    }
  }

  lemma DoneIsSettled(conv: (Value, string) -> Value, body: string -> Value, c: Call, i: nat)
    requires CallOk(c) && CallPlaced(c) && CallRight(conv, body, c) && c.phase.Done? && i < |c.items|
    ensures c.st[i] == if c.items[i].apiVersion == Some(c.target) then Untouched
                       else Converted(Expected(conv, body, c.items[i], c.target))
  {
    assert InPhase(c.phase, c.st[i], KeyAt(c, i).Some?);
  }

  /** Under an honest webhook a call that is done, in any run from a started server, has converted
      every item to the target version, except those it found there. */
  lemma DoneCallsAreConverted(
    conv: (Value, string) -> Value, body: string -> Value, ss: seq<State>, acts: seq<Action>, t: nat, c: nat, i: nat,
    capacity: nat)
    requires IsRun(ss, acts) && t < |ss| && ss[0] == Initial(capacity)
    requires forall u :: 0 <= u < |acts| ==> Honest(conv, body, ss[u], acts[u])
    requires c < |ss[t].calls| && ss[t].calls[c].phase.Done? && i < |ss[t].calls[c].items|
    ensures var call := ss[t].calls[c];
            && |call.st| == |call.items|
            && call.st[i] == if call.items[i].apiVersion == Some(call.target) then Untouched
                             else Converted(Expected(conv, body, call.items[i], call.target))
  {
    RunsKeepInv(ss, acts, t);
    RunsKeepPlaced(ss, acts, t);
    RunsKeepRight(conv, body, ss, acts, t);
    DoneIsSettled(conv, body, ss[t].calls[c], i);
  }

  // ---- Woken followers ----------------------------------------------------------------------

  /** Item `i` waits, or has just stopped waiting, on notifier `n` for `k`. */
  predicate Holds(c: Call, i: nat, k: Key, n: nat) {
    && i < |c.st| && i < |c.items| && KeyAt(c, i) == Some(k)
    && (c.st[i].Woken? || c.st[i].Following?) && c.st[i].n == n
  }

  predicate Storing(c: Call, i: nat, k: Key) {
    i < |c.st| && i < |c.items| && KeyAt(c, i) == Some(k) && c.st[i].Stored?
  }

  /** Whoever was released by a leader of `k` that had published, or is about to release others so,
      finds `k` cached. */
  ghost predicate Feeds(s: State, k: Key, c: nat, i: nat)
    requires c < |s.calls|
  {
    && (forall n :: n in s.delivered && Holds(s.calls[c], i, k, n) ==> k in s.shared.cache.entries)
    && (Storing(s.calls[c], i, k) ==> k in s.shared.cache.entries)
  }

  ghost predicate Fed(s: State, k: Key) {
    forall c: nat, i: nat :: c < |s.calls| ==> Feeds(s, k, c, i)
  }

  ghost predicate KeepsCached(s: State, s': State, k: Key) {
    k in s.shared.cache.entries ==> k in s'.shared.cache.entries
  }

  /** A notifier delivered now belongs to a leader of the key its followers wait for. */
  lemma DeliveredForKey(sh: Shared, c: Call, op: Op, b: Call, i: nat, k: Key, n: nat)
    requires SharedOk(sh) && CallOk(c) && Enabled(sh, c, op) && FollowOk(sh, b)
    requires Holds(b, i, k, n) && n in Delivers(sh, c, op)
    ensures Storing(c, Cursor(c, op), k)
  {
  }

  /** An item that holds a notifier after its call's own step held it before, unless it has just
      claimed, and then the notifier has not fired. */
  lemma ActorHolds(sh: Shared, c: Call, op: Op, i: nat, k: Key, n: nat)
    requires SharedOk(sh) && CallOk(c) && Enabled(sh, c, op)
    requires Holds(StepCall(sh, c, op), i, k, n)
    ensures Holds(c, i, k, n) || (n !in sh.notified && Delivers(sh, c, op) == {})
  {
    StepKeepsCallOk(sh, c, op);
    if StepCall(sh, c, op).st[i].Following? {
      NewFollower(sh, c, op, i);
    } else {
      NewlyWoken(sh, c, op, i);
    }
  }

  lemma ActorStoring(sh: Shared, c: Call, op: Op, i: nat, k: Key)
    requires SharedOk(sh) && CallOk(c) && Enabled(sh, c, op)
    requires Storing(StepCall(sh, c, op), i, k)
    ensures k in StepShared(sh, c, op).cache.entries || Storing(c, i, k)
  {
    var j := Cursor(c, op);
    if op.PublishNext? && c.st[j].Answered? && KeyAt(c, j).Some? {
      PublishedOk(sh, KeyAt(c, j).value, c.st[j].v);
    }
  }

  lemma ActKeepsFed(s: State, a: Action, s': State, k: Key, c: nat, i: nat)
    requires Next(s, a, s') && KeepsCached(s, s', k) && a.Act? && c < |s.calls|
    requires Feeds(s, k, c, i) && Feeds(s, k, a.c, Cursor(s.calls[a.c], a.op))
    ensures Feeds(s', k, c, i)
  {
    var actor := s.calls[a.c];
    forall n | n in s'.delivered && Holds(s'.calls[c], i, k, n) ensures k in s'.shared.cache.entries {
      if a.c == c {
        ActorHolds(s.shared, actor, a.op, i, k, n);
      } else {
        assert s'.calls[c] == s.calls[c];
      }
      if n !in s.delivered {
        DeliveredForKey(s.shared, actor, a.op, s.calls[c], i, k, n);
      }
    }
    if Storing(s'.calls[c], i, k) {
      if a.c == c {
        ActorStoring(s.shared, actor, a.op, i, k);
      } else {
        assert s'.calls[c] == s.calls[c];
      }
    }
  }

  lemma NextKeepsFed(s: State, a: Action, s': State, k: Key)
    requires Next(s, a, s') && Fed(s, k) && KeepsCached(s, s', k)
    ensures Fed(s', k)
  {
    forall c: nat, i: nat | c < |s'.calls| ensures Feeds(s', k, c, i) {
      if a.Act? {
        ActKeepsFed(s, a, s', k, c, i);
      } else if c < |s.calls| {
        assert s'.calls[c] == s.calls[c] && s'.delivered == s.delivered;
        assert Feeds(s, k, c, i);
      }
    }
  }

  lemma RunKeepsFed(ss: seq<State>, acts: seq<Action>, k: Key, t: nat)
    requires IsRun(ss, acts) && t < |acts| && Fed(ss[t], k) && KeepsCached(ss[t], ss[t + 1], k)
    ensures Fed(ss[t + 1], k)
  {
    RunSteps(ss, acts, t);
    NextKeepsFed(ss[t], acts[t], ss[t + 1], k);
  }

  lemma {:induction false} RunsStayFed(ss: seq<State>, acts: seq<Action>, k: Key, t: nat)
    requires IsRun(ss, acts) && t < |ss| && Fed(ss[0], k)
    requires forall u :: 0 <= u < |acts| ==> KeepsCached(ss[u], ss[u + 1], k)
    ensures Fed(ss[t], k)
  {
    if t > 0 {
      RunsStayFed(ss, acts, k, t - 1);
      assert KeepsCached(ss[t - 1], ss[t - 1 + 1], k);
      RunKeepsFed(ss, acts, k, t - 1);
    }
  }

  /** A follower woken by a leader that had published hits the cache, whatever other leaders of the
      key failed before or since: over every run from a started server, evicting the key is the only
      exception. */
  lemma WokenFollowersHit(capacity: nat, ss: seq<State>, acts: seq<Action>, k: Key, t: nat, c: nat, i: nat)
    requires IsRun(ss, acts) && ss[0] == Initial(capacity) && t < |ss|
    requires forall u :: 0 <= u < |acts| ==> KeepsCached(ss[u], ss[u + 1], k)
    requires c < |ss[t].calls| && i < |ss[t].calls[c].st| && i < |ss[t].calls[c].items|
    requires ss[t].calls[c].st[i].Woken? && KeyAt(ss[t].calls[c], i) == Some(k)
    requires ss[t].calls[c].st[i].n in ss[t].delivered
    ensures Lookup(ss[t].shared, k).Some?
  {
    RunsStayFed(ss, acts, k, t);
    assert Feeds(ss[t], k, c, i);
    assert Holds(ss[t].calls[c], i, k, ss[t].calls[c].st[i].n);
  }
}
