/**
 A herd of calls for one object, started on a fresh server: the run that attains the bound on late
 leaders, without eviction, fault or cancellation.
 */
module SingleFlightHerd {
  import opened Prelude
  import opened FifoCache
  import opened ConversionCache
  import opened SingleFlight
  import opened SingleFlightProgress
  import opened SingleFlightLeaders

  /** One object to convert, and what the webhook makes of it. */
  datatype Work = Work(target: string, item: Item, value: Value)

  predicate WorkOk(w: Work) { w.item.rv.Some? && w.item.apiVersion != Some(w.target) }

  function WorkKey(w: Work): Key
    requires WorkOk(w)
  {
    Key(w.item.rv.value, w.target)
  }

  function One(w: Work, x: ItemState, p: Phase): Call { Call(w.target, [w.item], [x], p) }

  // ---- The actions of the herd ----------------------------------------------------------------

  /** What an action of the herd does, seen from outside: before, after, and what it needs and does
      to the shared cache. */
  datatype Kind = Scanning | Scanned | Claiming | Claimed | Answering | Publishing | Releasing

  function OpOf(w: Work, kind: Kind): Op {
    match kind
    case Scanning => ScanNext
    case Scanned => ScanEnd
    case Claiming => ClaimNext
    case Claimed => ClaimEnd
    case Answering => Reply([w.value])
    case Publishing => PublishNext
    case Releasing => PublishNext
  }

  function Before(w: Work, kind: Kind): Call {
    match kind
    case Scanning => One(w, Unscanned, Scan)
    case Scanned => One(w, Pending, Scan)
    case Claiming => One(w, Todo, Phase.Claim)
    case Claimed => One(w, Leading, Phase.Claim)
    case Answering => One(w, Leading, Webhook)
    case Publishing => One(w, Answered(w.value), Publish)
    case Releasing => One(w, Stored(w.value), Publish)
  }

  function After(w: Work, kind: Kind): Call {
    match kind
    case Scanning => One(w, Pending, Scan)
    case Scanned => One(w, Todo, Phase.Claim)
    case Claiming => One(w, Leading, Phase.Claim)
    case Claimed => One(w, Leading, Webhook)
    case Answering => One(w, Answered(w.value), Publish)
    case Publishing => One(w, Stored(w.value), Publish)
    case Releasing => One(w, Converted(w.value), Publish)
  }

  predicate Needs(sh: Shared, w: Work, kind: Kind)
    requires WorkOk(w)
  {
    match kind
    case Scanning => WorkKey(w) !in sh.cache.entries
    case Claiming => WorkKey(w) !in sh.inFlight
    case _ => true
  }

  predicate Does(sh: Shared, sh': Shared, w: Work, kind: Kind)
    requires WorkOk(w)
  {
    match kind
    case Claiming => sh'.cache == sh.cache
    case Publishing => WorkKey(w) in sh'.cache.entries
    case Releasing => sh'.cache == sh.cache && WorkKey(w) !in sh'.inFlight
    case _ => sh' == sh
  }

  lemma KindEnabled(sh: Shared, w: Work, kind: Kind)
    requires WorkOk(w) && Needs(sh, w, kind)
    ensures Enabled(sh, Before(w, kind), OpOf(w, kind)) && CallOk(Before(w, kind))
  {
  }

  lemma KindStepsCall(sh: Shared, w: Work, kind: Kind)
    requires WorkOk(w) && Needs(sh, w, kind)
    ensures CallOk(Before(w, kind)) && Enabled(sh, Before(w, kind), OpOf(w, kind))
    ensures StepCall(sh, Before(w, kind), OpOf(w, kind)) == After(w, kind)
  {
    var c := Before(w, kind);
    var d := StepCall(sh, c, OpOf(w, kind));
    match kind
    case Scanned =>
      assert c.st[0].Pending?;
      assert d.st == [Todo];
    case Claimed => assert Leaders([Leading]) == 1;
    case Answering =>
      assert Leaders([Leading]) == 1;
      assert d.st == [Answered(w.value)];
    case _ => assert d.st == c.st[0 := Advance(sh, c, OpOf(w, kind), 0)] == [Advance(sh, c, OpOf(w, kind), 0)];
  }

  lemma KindStepsShared(sh: Shared, w: Work, kind: Kind)
    requires SharedOk(sh) && WorkOk(w) && Needs(sh, w, kind)
    ensures CallOk(Before(w, kind)) && Enabled(sh, Before(w, kind), OpOf(w, kind))
    ensures Does(sh, StepShared(sh, Before(w, kind), OpOf(w, kind)), w, kind)
  {
    KindEnabled(sh, w, kind);
    if kind.Publishing? {
      PublishedOk(sh, WorkKey(w), w.value);
    }
  }

  // ---- Paths ----------------------------------------------------------------------------------

  predicate Benign(a: Action) { a.Arrive? || (a.Act? && !a.op.Fault? && !a.op.Cancel?) }

  /** A run from `s0` to `s` with `n` new leaders of `k`, and, if `cached`, `k` cached all along. */
  ghost predicate Path(ss: seq<State>, acts: seq<Action>, s0: State, s: State, k: Key, n: nat, cached: bool) {
    IsRun(ss, acts) && Along(ss, acts, s0, s, k, n, cached)
  }

  ghost predicate Along(ss: seq<State>, acts: seq<Action>, s0: State, s: State, k: Key, n: nat, cached: bool) {
    && |ss| == |acts| + 1 && ss[0] == s0 && ss[|acts|] == s && LeaderCount(ss, acts, k) == n
    && (forall t :: 0 <= t < |acts| ==> Benign(acts[t]))
    && (cached ==> forall t :: 0 <= t < |ss| ==> k in ss[t].shared.cache.entries)
  }

  lemma ExtendRun(ss: seq<State>, acts: seq<Action>, a: Action, s': State)
    requires IsRun(ss, acts) && Next(ss[|acts|], a, s')
    ensures IsRun(ss + [s'], acts + [a])
  {
    AppendStep(ss, acts, a, s', s => Inv(s), (s, a, s') => Next(s, a, s'));
  }

  lemma AlongLater(ss: seq<State>, acts: seq<Action>, s0: State, s: State, k: Key, n: nat, cached: bool, a: Action, s': State)
    requires Along(ss, acts, s0, s, k, n, cached) && Benign(a) && (cached ==> k in s'.shared.cache.entries)
    ensures Along(ss + [s'], acts + [a], s0, s', k, n + (if NewLeader(s, a, k) then 1 else 0), cached)
  {
    var ss', acts' := ss + [s'], acts + [a];
    assert ss'[..|acts'|] == ss && acts'[..|acts'| - 1] == acts;
  }

  lemma ExtendPath(ss: seq<State>, acts: seq<Action>, s0: State, s: State, k: Key, n: nat, cached: bool, a: Action, s': State)
    requires Path(ss, acts, s0, s, k, n, cached) && Next(s, a, s') && Benign(a)
    requires cached ==> k in s'.shared.cache.entries
    ensures Path(ss + [s'], acts + [a], s0, s', k, n + (if NewLeader(s, a, k) then 1 else 0), cached)
  {
    assert IsRun(ss + [s'], acts + [a]) by { ExtendRun(ss, acts, a, s'); }
    assert Along(ss + [s'], acts + [a], s0, s', k, n + (if NewLeader(s, a, k) then 1 else 0), cached) by {
      AlongLater(ss, acts, s0, s, k, n, cached, a, s');
    }
  }

  ghost predicate Reaches(s0: State, s: State, k: Key, n: nat, cached: bool) {
    exists ss, acts :: Path(ss, acts, s0, s, k, n, cached)
  }

  ghost function Reached(s0: State, k: Key, cached: bool): iset<(State, nat)> {
    iset s, n | Reaches(s0, s, k, n, cached) :: (s, n)
  }

  // ---- Reached states -------------------------------------------------------------------------

  predicate Fits(s: State, w: Work, kind: Kind, c: nat)
    requires WorkOk(w)
  {
    c < |s.calls| && s.calls[c] == Before(w, kind) && Needs(s.shared, w, kind)
  }

  predicate Result(s: State, s': State, w: Work, kind: Kind, c: nat)
    requires WorkOk(w) && c < |s.calls|
  {
    s'.calls == s.calls[c := After(w, kind)] && Does(s.shared, s'.shared, w, kind)
  }

  /** From a reached state, that action of call `c` leads to a reached state. */
  ghost predicate CanGo(reached: iset<(State, nat)>, s: State, n: nat, w: Work, kind: Kind, c: nat)
    requires WorkOk(w) && c < |s.calls|
  {
    exists s' :: (s', n + if kind.Claiming? then 1 else 0) in reached && Result(s, s', w, kind, c)
  }

  ghost predicate CanJoin(reached: iset<(State, nat)>, s: State, n: nat, w: Work) {
    exists s' :: (s', n) in reached && s'.shared == s.shared && s'.calls == s.calls + [One(w, Unscanned, Scan)]
  }

  ghost predicate Closed(reached: iset<(State, nat)>, w: Work)
    requires WorkOk(w)
  {
    && (forall s, n, kind, c: nat {:trigger CanGo(reached, s, n, w, kind, c)} ::
          (s, n) in reached && Fits(s, w, kind, c) ==> CanGo(reached, s, n, w, kind, c))
    && (forall s, n {:trigger CanJoin(reached, s, n, w)} :: (s, n) in reached ==> CanJoin(reached, s, n, w))
  }

  lemma GoResult(s: State, w: Work, kind: Kind, c: nat)
    requires Inv(s) && WorkOk(w) && Fits(s, w, kind, c)
    ensures CanAct(s, Act(c, OpOf(w, kind))) && Result(s, Apply(s, Act(c, OpOf(w, kind))), w, kind, c)
    ensures NewLeader(s, Act(c, OpOf(w, kind)), WorkKey(w)) <==> kind.Claiming?
  {
    KindStepsCall(s.shared, w, kind);
    KindStepsShared(s.shared, w, kind);
  }

  lemma GoStep(s: State, w: Work, kind: Kind, c: nat)
    requires Inv(s) && WorkOk(w) && Fits(s, w, kind, c)
    ensures var a := Act(c, OpOf(w, kind));
            && CanAct(s, a) && Next(s, a, Apply(s, a)) && Result(s, Apply(s, a), w, kind, c)
            && (NewLeader(s, a, WorkKey(w)) <==> kind.Claiming?)
            && (WorkKey(w) in s.shared.cache.entries ==> WorkKey(w) in Apply(s, a).shared.cache.entries)
  {
    GoResult(s, w, kind, c);
  }

  lemma PathEnd(ss: seq<State>, acts: seq<Action>, s0: State, s: State, k: Key, n: nat, cached: bool)
    requires Path(ss, acts, s0, s, k, n, cached)
    ensures Inv(s) && (cached ==> k in s.shared.cache.entries)
  {
    RunsKeepInv(ss, acts, |acts|);
  }

  lemma PathGo(ss: seq<State>, acts: seq<Action>, s0: State, s: State, n: nat, w: Work, kind: Kind, c: nat, cached: bool)
    requires WorkOk(w) && Path(ss, acts, s0, s, WorkKey(w), n, cached) && Inv(s) && Fits(s, w, kind, c)
    requires cached ==> WorkKey(w) in s.shared.cache.entries
    ensures CanAct(s, Act(c, OpOf(w, kind)))
    ensures var a := Act(c, OpOf(w, kind));
            Path(ss + [Apply(s, a)], acts + [a], s0, Apply(s, a), WorkKey(w), n + (if kind.Claiming? then 1 else 0), cached)
  {
    GoStep(s, w, kind, c);
    var a := Act(c, OpOf(w, kind));
    ExtendPath(ss, acts, s0, s, WorkKey(w), n, cached, a, Apply(s, a));
  }

  lemma ReachesGo(s0: State, s: State, n: nat, w: Work, kind: Kind, c: nat, cached: bool)
    requires WorkOk(w) && Reaches(s0, s, WorkKey(w), n, cached) && Fits(s, w, kind, c)
    ensures Inv(s) && CanAct(s, Act(c, OpOf(w, kind)))
    ensures var s' := Apply(s, Act(c, OpOf(w, kind)));
            Reaches(s0, s', WorkKey(w), n + (if kind.Claiming? then 1 else 0), cached)
  {
    var ss: seq<State>, acts: seq<Action> :| Path(ss, acts, s0, s, WorkKey(w), n, cached);
    PathEnd(ss, acts, s0, s, WorkKey(w), n, cached);
    PathGo(ss, acts, s0, s, n, w, kind, c, cached);
  }

  lemma ReachesJoin(s0: State, s: State, n: nat, w: Work, cached: bool)
    requires WorkOk(w) && Reaches(s0, s, WorkKey(w), n, cached)
    ensures Inv(s) && Reaches(s0, Apply(s, Arrive(w.target, [w.item])), WorkKey(w), n, cached)
  {
    var k, a := WorkKey(w), Arrive(w.target, [w.item]);
    var ss, acts :| Path(ss, acts, s0, s, k, n, cached);
    RunsKeepInv(ss, acts, |acts|);
    ExtendPath(ss, acts, s0, s, k, n, cached, a, Apply(s, a));
  }

  lemma JoinResult(s: State, w: Work)
    requires Inv(s)
    ensures var s' := Apply(s, Arrive(w.target, [w.item]));
            s'.shared == s.shared && s'.calls == s.calls + [One(w, Unscanned, Scan)]
  {
    assert seq(1, _ => Unscanned) == [Unscanned];
  }

  lemma ReachedIsClosed(s0: State, w: Work, cached: bool)
    requires WorkOk(w)
    ensures Closed(Reached(s0, WorkKey(w), cached), w)
  {
    var reached := Reached(s0, WorkKey(w), cached);
    forall s, n, kind, c: nat | (s, n) in reached && Fits(s, w, kind, c) ensures CanGo(reached, s, n, w, kind, c) {
      ReachesGo(s0, s, n, w, kind, c, cached);
      GoResult(s, w, kind, c);
      assert (Apply(s, Act(c, OpOf(w, kind))), n + if kind.Claiming? then 1 else 0) in reached;
    }
    forall s, n | (s, n) in reached ensures CanJoin(reached, s, n, w) {
      ReachesJoin(s0, s, n, w, cached);
      JoinResult(s, w);
      assert (Apply(s, Arrive(w.target, [w.item])), n) in reached;
    }
  }

  lemma Begin(s: State, k: Key, cached: bool)
    requires Inv(s) && (cached ==> k in s.shared.cache.entries)
    ensures (s, 0) in Reached(s, k, cached)
  {
    assert Path([s], [], s, s, k, 0, cached);
  }

  // ---- The herd -------------------------------------------------------------------------------

  lemma Go(reached: iset<(State, nat)>, s: State, n: nat, w: Work, kind: Kind, c: nat) returns (s': State)
    requires WorkOk(w) && Closed(reached, w) && (s, n) in reached && Fits(s, w, kind, c)
    ensures (s', n + if kind.Claiming? then 1 else 0) in reached && Result(s, s', w, kind, c)
  {
    assert CanGo(reached, s, n, w, kind, c);
    s' :| (s', n + if kind.Claiming? then 1 else 0) in reached && Result(s, s', w, kind, c);
  }

  /** `m` calls arrive and miss. */
  lemma {:induction false} AllMiss(reached: iset<(State, nat)>, s: State, n: nat, w: Work, m: nat) returns (s': State)
    requires WorkOk(w) && Closed(reached, w) && (s, n) in reached && s.calls == []
    requires WorkKey(w) !in s.shared.cache.entries
    ensures (s', n) in reached && s'.shared == s.shared && |s'.calls| == m
    ensures forall c :: 0 <= c < m ==> s'.calls[c] == One(w, Todo, Phase.Claim)
  {
    if m == 0 {
      s' := s;
    } else {
      var r := AllMiss(reached, s, n, w, m - 1);
      assert CanJoin(reached, r, n, w);
      s' :| (s', n) in reached && s'.shared == r.shared && s'.calls == r.calls + [One(w, Unscanned, Scan)];
      s' := Go(reached, s', n, w, Scanning, m - 1);
      s' := Go(reached, s', n, w, Scanned, m - 1);
    }
  }

  /** A call that has missed leads, whether or not the key is cached by now. */
  lemma Round(reached: iset<(State, nat)>, s: State, n: nat, w: Work, c: nat) returns (s': State)
    requires WorkOk(w) && Closed(reached, w) && (s, n) in reached
    requires c < |s.calls| && s.calls[c] == One(w, Todo, Phase.Claim) && WorkKey(w) !in s.shared.inFlight
    ensures (s', n + 1) in reached && s'.calls == s.calls[c := One(w, Converted(w.value), Publish)]
    ensures WorkKey(w) in s'.shared.cache.entries && WorkKey(w) !in s'.shared.inFlight
  {
    s' := Go(reached, s, n, w, Claiming, c);
    s' := Go(reached, s', n + 1, w, Claimed, c);
    s' := Go(reached, s', n + 1, w, Answering, c);
    s' := Go(reached, s', n + 1, w, Publishing, c);
    s' := Go(reached, s', n + 1, w, Releasing, c);
  }

  /** The `m` calls after the first lead in turn. */
  lemma {:induction false} Rounds(reached: iset<(State, nat)>, s: State, w: Work, m: nat) returns (s': State)
    requires WorkOk(w) && Closed(reached, w) && (s, 0) in reached && m < |s.calls|
    requires WorkKey(w) !in s.shared.inFlight
    requires forall c :: 1 <= c < |s.calls| ==> s.calls[c] == One(w, Todo, Phase.Claim)
    ensures (s', m) in reached && |s'.calls| == |s.calls| && WorkKey(w) !in s'.shared.inFlight
    ensures forall c :: m < c < |s.calls| ==> s'.calls[c] == One(w, Todo, Phase.Claim)
  {
    if m == 0 {
      s' := s;
    } else {
      s' := Rounds(reached, s, w, m - 1);
      s' := Round(reached, s', m - 1, w, m);
    }
  }

  function UpTo(m: nat): set<nat> { if m == 0 then {} else UpTo(m - 1) + {m} }

  lemma {:induction false} UpToMeaning(m: nat)
    ensures |UpTo(m)| == m && forall c :: c in UpTo(m) <==> 1 <= c <= m
  {
    if m > 0 {
      UpToMeaning(m - 1);
    }
  }

  lemma HerdIsUnserved(s: State, w: Work, m: nat)
    requires WorkOk(w) && |s.calls| == m + 1 && s.calls[0] == One(w, Converted(w.value), Publish)
    requires forall c :: 1 <= c <= m ==> s.calls[c] == One(w, Todo, Phase.Claim)
    ensures |UnservedCalls(s, WorkKey(w))| == m
  {
    var k := WorkKey(w);
    forall c: nat | 1 <= c <= m ensures Unserved(s.calls[c], k) {
      assert Stale(s.calls[c], 0, k);
    }
    UpToMeaning(m);
    assert UnservedCalls(s, k) == UpTo(m);
  }

  /** The bound on late leaders is attained for every number of calls: from a fresh server, `m + 1`
      calls for one object all miss, the first converts it and caches it, and then each of the others
      still leads a conversion of its own, although the key never leaves the cache. */
  lemma LateLeaderBoundIsAttained(capacity: nat, w: Work, m: nat)
      returns (ss: seq<State>, acts: seq<Action>, qs: seq<State>, more: seq<Action>)
    requires WorkOk(w)
    ensures IsRun(ss, acts) && ss[0] == Initial(capacity) && LeaderCount(ss, acts, WorkKey(w)) == 1
    ensures IsRun(qs, more) && qs[0] == ss[|acts|]
    ensures forall a :: a in acts + more ==> Benign(a)
    ensures forall t :: 0 <= t < |qs| ==> WorkKey(w) in qs[t].shared.cache.entries
    ensures |UnservedCalls(qs[0], WorkKey(w))| == m && LeaderCount(qs, more, WorkKey(w)) == m
  {
    var k, s0 := WorkKey(w), Initial(capacity);
    InitialInv(capacity);
    Begin(s0, k, false);
    ReachedIsClosed(s0, w, false);
    var s := AllMiss(Reached(s0, k, false), s0, 0, w, m + 1);
    s := Round(Reached(s0, k, false), s, 0, w, 0);
    HerdIsUnserved(s, w, m);
    ss, acts :| Path(ss, acts, s0, s, k, 1, false);
    RunsKeepInv(ss, acts, |acts|);
    Begin(s, k, true);
    ReachedIsClosed(s, w, true);
    var end := Rounds(Reached(s, k, true), s, w, m);
    qs, more :| Path(qs, more, s, end, k, m, true);
  }
}
