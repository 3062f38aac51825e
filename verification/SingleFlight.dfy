/**
 Any number of concurrent list conversions interleaving on one shared cache. Each call walks
 its page of items through the phases of `convert_cr_list_items`; one step is one locked
 operation on the cache, one await that returns, or one local transition between phases.
 A benchmark racer is the call with a single item.
 */
module SingleFlight {
  import opened Prelude
  import opened FifoCache
  import opened ConversionCache

  /** A stored object: its body, its own apiVersion and its resourceVersion, if readable. */
  datatype Item = Item(body: Value, apiVersion: Option<string>, rv: Option<string>)

  datatype ItemState =
    | Unscanned
    | Untouched            // already at the target version
    | Pending              // missed the cache, to be claimed in the next round
    | Todo                 // in this round's claim loop
    | Leading              // sent to the webhook by this call
    | Answered(v: Value)   // converted, not yet published
    | Stored(v: Value)     // published to the cache, slot still held
    | Following(n: nat)    // waiting for another leader's notifier
    | Woken(n: nat)        // notified, about to re-read the cache
    | Converted(v: Value)
    | Dropped              // abandoned with a failed or cancelled call

  datatype Phase = Scan | Claim | Webhook | Publish | Release | Wait | Done | Failed

  datatype Call = Call(target: string, items: seq<Item>, st: seq<ItemState>, phase: Phase)

  /** `owner` and `delivered` are auxiliary: which item of which call registered each in-flight key,
      and which notifiers were fired by a leader that had published. */
  datatype State = State(shared: Shared, calls: seq<Call>, owner: map<Key, (nat, nat)>, delivered: set<nat>)

  datatype Op =
    | ScanNext | ScanEnd
    | ClaimNext | ClaimEnd
    | Reply(values: seq<Value>) | Fault
    | PublishNext | PublishEnd
    | ReleaseNext | ReleaseEnd
    | WaitNext | WaitEnd
    | Cancel

  datatype Action =
    | Act(c: nat, op: Op)
    | Evict(ks: set<Key>)
    | Arrive(target: string, items: seq<Item>)

  function KeyOf(item: Item, target: string): Option<Key> {
    if item.rv.Some? then Some(Key(item.rv.value, target)) else None
  }

  function KeyAt(c: Call, i: nat): Option<Key>
    requires i < |c.items|
  {
    KeyOf(c.items[i], c.target)
  }

  predicate Led(x: ItemState) { x.Leading? || x.Answered? || x.Stored? }

  predicate Publishing(x: ItemState) { x.Answered? || x.Stored? }

  predicate Awaiting(x: ItemState) { x.Following? || x.Woken? }

  predicate Settled(x: ItemState) { x.Untouched? || x.Converted? }

  function Leaders(st: seq<ItemState>): nat {
    Sum((x: ItemState) => if x.Leading? then 1 else 0, st)
  }

  function NextRound(st: seq<ItemState>): (r: seq<ItemState>)
  {
    seq(|st|, i requires 0 <= i < |st| => if st[i].Pending? then Todo else st[i])
  }

  /** The k-th object of the webhook's answer belongs to the k-th leader, in item order. */
  function Deliver(st: seq<ItemState>, vs: seq<Value>): (r: seq<ItemState>)
    requires |vs| == Leaders(st)
    ensures |r| == |st|
    ensures forall i :: 0 <= i < |st| ==> if st[i].Leading? then r[i].Answered? else r[i] == st[i]
  {
    if st == [] then []
    else if st[0].Leading? then [Answered(vs[0])] + Deliver(st[1..], vs[1..])
    else [st[0]] + Deliver(st[1..], vs)
  }

  /** Leaving early keeps only the registered slots, which the claim guard still releases. */
  function Abandoned(c: Call): seq<ItemState>
    requires |c.st| == |c.items|
  {
    seq(|c.st|, i requires 0 <= i < |c.st| =>
      if Settled(c.st[i]) then c.st[i]
      else if c.st[i].Leading? && KeyAt(c, i).Some? then Leading
      else Dropped)
  }

  /** Which states an item may be in during each phase. */
  predicate InPhase(p: Phase, x: ItemState, keyed: bool) {
    Settled(x) ||
    match p
    case Scan => x.Unscanned? || x.Pending?
    case Claim => x.Todo? || x.Leading? || (x.Following? && keyed)
    case Webhook => x.Leading? || (x.Following? && keyed)
    case Publish => x.Answered? || (x.Stored? && keyed) || (x.Following? && keyed)
    case Release => (x.Leading? && keyed) || x.Dropped?
    case Wait => (x.Following? && keyed) || (x.Woken? && keyed) || x.Pending?
    case Done => false
    case Failed => x.Dropped?
  }

  ghost predicate CallOk(c: Call) {
    && |c.st| == |c.items|
    && forall i :: 0 <= i < |c.st| ==> InPhase(c.phase, c.st[i], KeyAt(c, i).Some?)
  }

  function Cursor(c: Call, op: Op): nat {
    match op
    case ScanNext => First(c.st, (x: ItemState) => x.Unscanned?)
    case ClaimNext => First(c.st, (x: ItemState) => x.Todo?)
    case PublishNext => First(c.st, (x: ItemState) => Publishing(x))
    case ReleaseNext => First(c.st, (x: ItemState) => x.Leading?)
    case WaitNext => First(c.st, (x: ItemState) => Awaiting(x))
    case _ => |c.st|
  }

  /** Every operation but one may run as soon as its phase is reached: only an item that follows
      a notifier has to wait, until that notifier has fired. */
  predicate Enabled(sh: Shared, c: Call, op: Op) {
    match op
    case ScanNext => c.phase.Scan? && Cursor(c, op) < |c.st|
    case ScanEnd => c.phase.Scan? && Cursor(c, ScanNext) == |c.st|
    case ClaimNext => c.phase.Claim? && Cursor(c, op) < |c.st|
    case ClaimEnd => c.phase.Claim? && Cursor(c, ClaimNext) == |c.st|
    case Reply(_) => c.phase.Webhook?
    case Fault => c.phase.Webhook?
    case PublishNext => c.phase.Publish? && Cursor(c, op) < |c.st|
    case PublishEnd => c.phase.Publish? && Cursor(c, PublishNext) == |c.st|
    case ReleaseNext => c.phase.Release? && Cursor(c, op) < |c.st|
    case ReleaseEnd => c.phase.Release? && Cursor(c, ReleaseNext) == |c.st|
    case WaitNext =>
      var i := Cursor(c, op);
      c.phase.Wait? && i < |c.st| && (c.st[i].Following? ==> c.st[i].n in sh.notified)
    case WaitEnd => c.phase.Wait? && Cursor(c, WaitNext) == |c.st|
    case Cancel =>
      var i := Cursor(c, WaitNext);
      c.phase.Webhook? || (c.phase.Wait? && i < |c.st| && c.st[i].Following?)
  }

  /** The effect of one operation on the shared cache. */
  ghost function StepShared(sh: Shared, c: Call, op: Op): Shared
    requires SharedOk(sh) && CallOk(c) && Enabled(sh, c, op)
  {
    var i := Cursor(c, op);
    if i == |c.st| || KeyAt(c, i).None? then sh
    else
      var key := KeyAt(c, i).value;
      match op
      case ClaimNext => Claimed(sh, key)
      case PublishNext => if c.st[i].Answered? then Published(sh, key, c.st[i].v) else Released(sh, key)
      case ReleaseNext => Released(sh, key)
      case _ => sh
  }

  /** The effect of one operation on the call that performs it. */
  function StepCall(sh: Shared, c: Call, op: Op): Call
    requires |c.st| == |c.items|
    requires Enabled(sh, c, op)
    requires forall i :: 0 <= i < |c.st| ==> InPhase(c.phase, c.st[i], KeyAt(c, i).Some?)
  {
    match op
    case ScanEnd => Continue(c)
    case ClaimEnd => c.(phase := if Leaders(c.st) > 0 then Webhook else Wait)
    case Reply(values) =>
      if |values| == Leaders(c.st) then c.(st := Deliver(c.st, values), phase := Publish)
      else c.(st := Abandoned(c), phase := Release)
    case Fault => c.(st := Abandoned(c), phase := Release)
    case PublishEnd => c.(phase := Wait)
    case ReleaseEnd => c.(phase := Failed)
    case WaitEnd => Continue(c)
    case Cancel => c.(st := Abandoned(c), phase := Release)
    case _ => var i := Cursor(c, op); c.(st := c.st[i := Advance(sh, c, op, i)])
  }

  /** The new state of the item an operation works on. */
  function Advance(sh: Shared, c: Call, op: Op, i: nat): ItemState
    requires |c.st| == |c.items| && i < |c.st|
    requires InPhase(c.phase, c.st[i], KeyAt(c, i).Some?)
    requires Enabled(sh, c, op) && i == Cursor(c, op)
  {
    var key := KeyAt(c, i);
    match op
    case ScanNext =>
      if c.items[i].apiVersion == Some(c.target) then Untouched
      else if key.Some? && Lookup(sh, key.value).Some? then Converted(Lookup(sh, key.value).value)
      else Pending
    case ClaimNext =>
      if key.None? then Leading
      else (match ClaimOf(sh, key.value) case Leader => Leading case Follow(n) => Following(n))
    case PublishNext =>
      if key.Some? && c.st[i].Answered? then Stored(c.st[i].v) else Converted(c.st[i].v)
    case WaitNext =>
      if c.st[i].Following? then Woken(c.st[i].n)
      else if Lookup(sh, key.value).Some? then Converted(Lookup(sh, key.value).value)
      else Pending
    case _ => Dropped
  }

  /** The `while !pending.is_empty()` test. */
  function Continue(c: Call): Call {
    if exists i :: 0 <= i < |c.st| && c.st[i].Pending? then c.(st := NextRound(c.st), phase := Phase.Claim)
    else c.(phase := Done)
  }

  function Fresh(target: string, items: seq<Item>): Call {
    Call(target, items, seq(|items|, _ => Unscanned), Scan)
  }

  // ---- Invariant --------------------------------------------------------------------------

  /** Item `i` of the call has claimed `k` and not yet given it back. */
  predicate Leads(c: Call, i: nat, k: Key) {
    i < |c.st| && i < |c.items| && Led(c.st[i]) && KeyAt(c, i) == Some(k)
  }

  /** A key is registered exactly while one item of one call leads it. */
  ghost predicate OwnerOk(s: State) {
    && s.owner.Keys == s.shared.inFlight.Keys
    && (forall k :: k in s.owner ==>
          s.owner[k].0 < |s.calls| && Leads(s.calls[s.owner[k].0], s.owner[k].1, k))
    && (forall c: nat, i: nat, k :: c < |s.calls| && Leads(s.calls[c], i, k) ==>
          k in s.owner && s.owner[k] == (c, i))
  }

  /** A waiting item holds a notifier that has fired, or the very one registered for its key. */
  ghost predicate FollowOk(sh: Shared, c: Call) {
    forall i :: 0 <= i < |c.st| && i < |c.items| ==>
      && (c.st[i].Following? ==>
            && KeyAt(c, i).Some? && c.st[i].n < sh.next
            && (c.st[i].n in sh.notified
                || (KeyAt(c, i).value in sh.inFlight && sh.inFlight[KeyAt(c, i).value] == c.st[i].n)))
      && (c.st[i].Woken? ==> c.st[i].n in sh.notified)
  }

  ghost predicate Inv(s: State) {
    && SharedOk(s.shared)
    && (forall c :: 0 <= c < |s.calls| ==> CallOk(s.calls[c]) && FollowOk(s.shared, s.calls[c]))
    && OwnerOk(s) && s.delivered <= s.shared.notified
  }

  ghost predicate CanAct(s: State, a: Action) {
    match a
    case Act(c, op) => c < |s.calls| && Enabled(s.shared, s.calls[c], op)
    case Evict(_) => true
    case Arrive(_, _) => true
  }

  /** The notifier an operation fires after having published, if any. */
  function Delivers(sh: Shared, c: Call, op: Op): set<nat>
    requires |c.st| == |c.items|
  {
    var i := Cursor(c, op);
    if op.PublishNext? && i < |c.st| && c.st[i].Stored? && KeyAt(c, i).Some? && KeyAt(c, i).value in sh.inFlight
    then {sh.inFlight[KeyAt(c, i).value]} else {}
  }

  ghost function Apply(s: State, a: Action): (r: State)
    requires Inv(s) && CanAct(s, a)
  {
    match a
    case Act(c, op) =>
      var sh := StepShared(s.shared, s.calls[c], op);
      State(sh, s.calls[c := StepCall(s.shared, s.calls[c], op)],
            map k | k in sh.inFlight :: if k in s.owner then s.owner[k] else (c, Cursor(s.calls[c], op)),
            s.delivered + Delivers(s.shared, s.calls[c], op))
    case Evict(ks) => s.(shared := Invalidated(s.shared, ks))
    case Arrive(target, items) => s.(calls := s.calls + [Fresh(target, items)])
  }

  function Initial(capacity: nat): (s: State)
  {
    State(Shared(Fifo(map[], [], if capacity == 0 then 1 else capacity), map[], {}, 0), [], map[], {})
  }

  // ---- Preservation -----------------------------------------------------------------------

  lemma {:induction false} NoLeaders(st: seq<ItemState>)
    ensures Leaders(st) == 0 <==> forall i :: 0 <= i < |st| ==> !st[i].Leading?
  {
    if st != [] {
      NoLeaders(st[1..]);
      assert forall i :: 1 <= i < |st| ==> st[i] == st[1..][i - 1];
    }
  }

  lemma AdvanceInPhase(sh: Shared, c: Call, op: Op)
    requires CallOk(c) && Enabled(sh, c, op) && Cursor(c, op) < |c.st|
    ensures var i := Cursor(c, op); InPhase(c.phase, Advance(sh, c, op, i), KeyAt(c, i).Some?)
  {
  }

  lemma ContinueOk(c: Call)
    requires |c.st| == |c.items|
    requires forall i :: 0 <= i < |c.st| ==> Settled(c.st[i]) || c.st[i].Pending?
    ensures CallOk(Continue(c))
  {
  }

  lemma StepKeepsCallOk(sh: Shared, c: Call, op: Op)
    requires CallOk(c) && Enabled(sh, c, op)
    ensures CallOk(StepCall(sh, c, op))
  {
    match op
    case ScanEnd => ContinueOk(c);
    case WaitEnd => ContinueOk(c);
    case ClaimEnd => NoLeaders(c.st);
    case Reply(vs) =>
    case Fault =>
    case Cancel =>
    case PublishEnd =>
    case ReleaseEnd =>
    case _ => AdvanceInPhase(sh, c, op);
  }

  lemma StepKeepsSharedOk(sh: Shared, c: Call, op: Op)
    requires SharedOk(sh) && CallOk(c) && Enabled(sh, c, op)
    ensures SharedOk(StepShared(sh, c, op))
  {
    var i := Cursor(c, op);
    if i < |c.st| && KeyAt(c, i).Some? {
      ClaimedOk(sh, KeyAt(c, i).value);
      ReleasedOk(sh, KeyAt(c, i).value);
      if c.st[i].Answered? {
        PublishedOk(sh, KeyAt(c, i).value, c.st[i].v);
      }
    }
  }

  lemma LeadershipElsewhere(sh: Shared, c: Call, op: Op, j: nat, k: Key)
    requires CallOk(c) && Enabled(sh, c, op) && j != Cursor(c, op)
    ensures Leads(StepCall(sh, c, op), j, k) == Leads(c, j, k)
  {
  }

  lemma LeadershipAtCursor(sh: Shared, c: Call, op: Op, k: Key)
    requires SharedOk(sh) && CallOk(c) && Enabled(sh, c, op)
    requires Leads(c, Cursor(c, op), k) ==> k in sh.inFlight
    ensures var d, sh', i := StepCall(sh, c, op), StepShared(sh, c, op), Cursor(c, op);
            && Leads(d, i, k) == (k in sh'.inFlight && (Leads(c, i, k) || k !in sh.inFlight))
            && (k in sh.inFlight && !Leads(c, i, k) ==> k in sh'.inFlight)
  {
    var i := Cursor(c, op);
    if i < |c.st| {
      assert StepCall(sh, c, op) == c.(st := c.st[i := Advance(sh, c, op, i)]);
    }
  }

  lemma SharedChange(sh: Shared, c: Call, op: Op)
    requires SharedOk(sh) && CallOk(c) && Enabled(sh, c, op)
    ensures var sh' := StepShared(sh, c, op);
            var i := Cursor(c, op);
            && sh.notified <= sh'.notified && sh.next <= sh'.next
            && (i == |c.st| || KeyAt(c, i).None? ==> sh' == sh)
            && (forall k :: k in sh.inFlight && k !in sh'.inFlight ==> sh.inFlight[k] in sh'.notified)
            && (forall k :: k in sh.inFlight && k in sh'.inFlight ==> sh.inFlight[k] == sh'.inFlight[k])
  {
  }

  lemma FollowersSurvive(sh: Shared, sh': Shared, c: Call)
    requires FollowOk(sh, c) && sh.notified <= sh'.notified && sh.next <= sh'.next
    requires forall k :: k in sh.inFlight && k !in sh'.inFlight ==> sh.inFlight[k] in sh'.notified
    requires forall k :: k in sh.inFlight && k in sh'.inFlight ==> sh.inFlight[k] == sh'.inFlight[k]
    ensures FollowOk(sh', c)
  {
  }

  /** The only way an item starts to follow is a claim on a registered key. */
  lemma NewFollower(sh: Shared, c: Call, op: Op, j: nat)
    requires SharedOk(sh) && CallOk(c) && Enabled(sh, c, op) && j < |c.st|
    requires j < |StepCall(sh, c, op).st| && StepCall(sh, c, op).st[j].Following?
    ensures StepCall(sh, c, op).items == c.items && StepCall(sh, c, op).target == c.target
    ensures c.st[j] == StepCall(sh, c, op).st[j]
         || (KeyAt(c, j).Some? && KeyAt(c, j).value in sh.inFlight && StepShared(sh, c, op) == sh
             && StepCall(sh, c, op).st[j].n == sh.inFlight[KeyAt(c, j).value])
  {
  }

  /** And it wakes only once its notifier has fired. */
  lemma NewlyWoken(sh: Shared, c: Call, op: Op, j: nat)
    requires SharedOk(sh) && CallOk(c) && Enabled(sh, c, op) && j < |c.st|
    requires j < |StepCall(sh, c, op).st| && StepCall(sh, c, op).st[j].Woken?
    ensures c.st[j] == StepCall(sh, c, op).st[j]
         || (c.st[j].Following? && c.st[j].n in sh.notified && c.st[j].n == StepCall(sh, c, op).st[j].n)
  {
  }

  lemma ActorFollows(sh: Shared, c: Call, op: Op)
    requires SharedOk(sh) && CallOk(c) && Enabled(sh, c, op) && FollowOk(sh, c)
    ensures FollowOk(StepShared(sh, c, op), StepCall(sh, c, op))
  {
    SharedChange(sh, c, op);
    FollowersSurvive(sh, StepShared(sh, c, op), c);
    var d := StepCall(sh, c, op);
    forall j: nat | j < |d.st| && j < |c.st| && d.st[j].Following?
      ensures d.items == c.items && d.target == c.target
      ensures c.st[j] == d.st[j]
           || (KeyAt(c, j).Some? && KeyAt(c, j).value in sh.inFlight && StepShared(sh, c, op) == sh
               && d.st[j].n == sh.inFlight[KeyAt(c, j).value])
    {
      NewFollower(sh, c, op, j);
    }
    forall j: nat | j < |d.st| && j < |c.st| && d.st[j].Woken?
      ensures c.st[j] == d.st[j] || (c.st[j].Following? && c.st[j].n in sh.notified && c.st[j].n == d.st[j].n)
    {
      NewlyWoken(sh, c, op, j);
    }
  }

  /** An operation changes leadership at most at its cursor, and there exactly as it changes the
      registration of the item's key; so ownership follows leadership, whatever the operation was. */
  lemma OwnerTransfer(s: State, s': State, c: nat, i: nat)
    requires OwnerOk(s) && c < |s.calls| && |s.calls| == |s'.calls|
    requires forall b :: 0 <= b < |s.calls| && b != c ==> s'.calls[b] == s.calls[b]
    requires forall j: nat, k :: j != i ==> Leads(s'.calls[c], j, k) == Leads(s.calls[c], j, k)
    requires forall k :: Leads(s'.calls[c], i, k) ==
                         (k in s'.shared.inFlight && (Leads(s.calls[c], i, k) || k !in s.shared.inFlight))
    requires forall k :: k in s.shared.inFlight && !Leads(s.calls[c], i, k) ==> k in s'.shared.inFlight
    requires s'.owner == map k | k in s'.shared.inFlight :: if k in s.owner then s.owner[k] else (c, i)
    ensures OwnerOk(s')
  {
    assert forall k :: k in s.owner <==> k in s.shared.inFlight.Keys;
  }

  lemma ActKeepsOwner(s: State, c: nat, op: Op)
    requires Inv(s) && CanAct(s, Act(c, op))
    ensures OwnerOk(Apply(s, Act(c, op)))
  {
    var call, s' := s.calls[c], Apply(s, Act(c, op));
    var i := Cursor(call, op);
    assert forall k :: Leads(call, i, k) ==> k in s.shared.inFlight.Keys;
    forall j: nat, k | j != i ensures Leads(s'.calls[c], j, k) == Leads(call, j, k) {
      LeadershipElsewhere(s.shared, call, op, j, k);
    }
    forall k
      ensures Leads(s'.calls[c], i, k) ==
              (k in s'.shared.inFlight && (Leads(call, i, k) || k !in s.shared.inFlight))
      ensures k in s.shared.inFlight && !Leads(call, i, k) ==> k in s'.shared.inFlight
    {
      LeadershipAtCursor(s.shared, call, op, k);
    }
    OwnerTransfer(s, s', c, i);
  }

  lemma ActKeepsCalls(s: State, c: nat, op: Op)
    requires Inv(s) && CanAct(s, Act(c, op))
    ensures var s' := Apply(s, Act(c, op));
            forall b :: 0 <= b < |s'.calls| ==> CallOk(s'.calls[b]) && FollowOk(s'.shared, s'.calls[b])
  {
    var call := s.calls[c];
    StepKeepsCallOk(s.shared, call, op);
    ActorFollows(s.shared, call, op);
    SharedChange(s.shared, call, op);
    forall b | 0 <= b < |s.calls| && b != c ensures FollowOk(StepShared(s.shared, call, op), s.calls[b]) {
      FollowersSurvive(s.shared, StepShared(s.shared, call, op), s.calls[b]);
    }
  }

  lemma DeliveredFired(sh: Shared, c: Call, op: Op)
    requires SharedOk(sh) && CallOk(c) && Enabled(sh, c, op)
    ensures Delivers(sh, c, op) <= StepShared(sh, c, op).notified && sh.notified <= StepShared(sh, c, op).notified
  {
  }

  lemma ActKeepsInv(s: State, c: nat, op: Op)
    requires Inv(s) && CanAct(s, Act(c, op))
    ensures Inv(Apply(s, Act(c, op)))
  {
    StepKeepsSharedOk(s.shared, s.calls[c], op);
    ActKeepsCalls(s, c, op);
    ActKeepsOwner(s, c, op);
    DeliveredFired(s.shared, s.calls[c], op);
  }

  /** The invariant depends on the cache only through its validity. */
  lemma CacheChangeKeepsInv(s: State, cache: Fifo<Key, Value>)
    requires Inv(s) && Valid(cache)
    ensures Inv(s.(shared := s.shared.(cache := cache)))
  {
    var s' := s.(shared := s.shared.(cache := cache));
    forall c | 0 <= c < |s'.calls| ensures CallOk(s'.calls[c]) && FollowOk(s'.shared, s'.calls[c]) {
      FollowersSurvive(s.shared, s'.shared, s.calls[c]);
    }
  }

  lemma EvictKeepsInv(s: State, ks: set<Key>)
    requires Inv(s)
    ensures Inv(Apply(s, Evict(ks)))
  {
    WithoutValid(s.shared.cache, ks);
    CacheChangeKeepsInv(s, Without(s.shared.cache, ks));
  }

  lemma ArriveKeepsInv(s: State, target: string, items: seq<Item>)
    requires Inv(s)
    ensures Inv(Apply(s, Arrive(target, items)))
  {
  }

  /** Every step of every interleaving keeps the invariant. */
  lemma ApplyKeepsInv(s: State, a: Action)
    requires Inv(s) && CanAct(s, a)
    ensures Inv(Apply(s, a))
  {
    match a
    case Act(c, op) => ActKeepsInv(s, c, op);
    case Evict(ks) => EvictKeepsInv(s, ks);
    case Arrive(target, items) => ArriveKeepsInv(s, target, items);
  }
}
