/**
 Runs of a freshly started server that attain the bounds on expiry and revocation, for every delay
 and every forward jump of the wall clock.
 */
module SaRuns {
  import opened Prelude
  import opened FifoCache
  import opened SigCache
  import opened SaNames
  import opened SaTokens
  import opened SaClocks

  // ---- Building runs --------------------------------------------------------------------------

  /** A run from `s0` to `s` whose forward jumps add up to `rise`, in which nothing is written and the
      wall clock is never set back. */
  ghost predicate Trace(env: Env, ss: seq<State>, acts: seq<Action>, s0: State, s: State, rise: nat) {
    IsRun(env, ss, acts) && Ends(ss, acts, s0, s, rise)
  }

  ghost predicate Ends(ss: seq<State>, acts: seq<Action>, s0: State, s: State, rise: nat) {
    && |ss| == |acts| + 1 && ss[0] == s0 && ss[|acts|] == s && TotalRise(ss, acts, |acts|) == rise
    && forall u :: 0 <= u < |ss| ==> ss[u].store == s0.store && s0.wall - s0.mono <= ss[u].wall - ss[u].mono
  }

  predicate Plain(s: State, a: Action) { !a.Write? && (a.SetWall? ==> s.wall <= a.wall) }

  ghost predicate Reaches(env: Env, s0: State, s: State, rise: nat) {
    exists ss, acts :: Trace(env, ss, acts, s0, s, rise)
  }

  lemma Begin(env: Env, s: State)
    requires EnvOk(env) && Inv(env, s)
    ensures Reaches(env, s, s, 0)
  {
    assert Trace(env, [s], [], s, s, 0);
  }

  lemma {:induction false} RiseOfPrefix(ss: seq<State>, acts: seq<Action>, x: State, a: Action, t: nat)
    requires t <= |acts| < |ss|
    ensures TotalRise(ss + [x], acts + [a], t) == TotalRise(ss, acts, t)
  {
    if t > 0 {
      RiseOfPrefix(ss, acts, x, a, t - 1);
    }
  }

  lemma ExtendRun(env: Env, ss: seq<State>, acts: seq<Action>, a: Action, s': State)
    requires IsRun(env, ss, acts) && Next(env, ss[|acts|], a, s')
    ensures IsRun(env, ss + [s'], acts + [a])
  {
    AppendStep(ss, acts, a, s', s => Inv(env, s), (s, a, s') => Next(env, s, a, s'));
  }

  lemma PlainKeeps(env: Env, s: State, a: Action, s': State)
    requires Next(env, s, a, s') && Plain(s, a)
    ensures s'.store == s.store && s.wall - s.mono <= s'.wall - s'.mono
  {
  }

  lemma EndsLater(ss: seq<State>, acts: seq<Action>, s0: State, s: State, rise: nat, a: Action, s': State)
    requires Ends(ss, acts, s0, s, rise) && s'.store == s.store && s.wall - s.mono <= s'.wall - s'.mono
    ensures Ends(ss + [s'], acts + [a], s0, s', rise + Rise(s, a))
  {
    RiseOfPrefix(ss, acts, s', a, |acts|);
  }

  lemma ExtendTrace(env: Env, ss: seq<State>, acts: seq<Action>, s0: State, s: State, rise: nat, a: Action, s': State)
    requires Trace(env, ss, acts, s0, s, rise) && Next(env, s, a, s') && Plain(s, a)
    ensures Trace(env, ss + [s'], acts + [a], s0, s', rise + Rise(s, a))
  {
    assert IsRun(env, ss + [s'], acts + [a]) by { ExtendRun(env, ss, acts, a, s'); }
    assert Ends(ss + [s'], acts + [a], s0, s', rise + Rise(s, a)) by {
      PlainKeeps(env, s, a, s');
      EndsLater(ss, acts, s0, s, rise, a, s');
    }
  }

  // ---- The effect of one action ---------------------------------------------------------------

  predicate SameWorld(s: State, s': State) {
    s'.mono == s.mono && s'.wall == s.wall && s'.ring == s.ring && s'.store == s.store
  }

  predicate SameCaches(s: State, s': State) { s'.sig == s.sig && s'.live == s.live && s'.liveWhy == s.liveWhy }

  /** The caches after a step of that call. */
  predicate CacheEffect(env: Env, s: State, call: Call, s': State) {
    match call.phase
    case Remember(cl, _) =>
      && env.hash(call.token) in s'.sig.entries
      && s'.sig.entries[env.hash(call.token)] == CappedExpiry(cl.exp, Unix(s), s.mono)
      && s'.live == s.live && s'.liveWhy == s.liveWhy
    case Note(cl, sub, readAt, wall) =>
      var key, uid := SubjectKey(cl, sub), SubjectUid(cl, sub);
      |s.live| < MAX_LIVENESS_ENTRIES ==>
        && s'.sig == s.sig && s'.live == s.live[MemoKey(key, uid) := s.mono]
        && s'.liveWhy == s.liveWhy[MemoKey(key, uid) := (key, uid, readAt, wall)]
    case _ => SameCaches(s, s')
  }

  /** What the reader of a run needs to know of an action. */
  predicate Effect(env: Env, s: State, a: Action, s': State)
    requires CanAct(s, a)
  {
    match a
    case Step(c, storeError) =>
      && SameWorld(s, s') && s'.calls == s.calls[c := NextCall(env, s, s.calls[c], storeError)]
      && CacheEffect(env, s, s.calls[c], s')
    case Arrive(token, audiences) =>
      SameWorld(s, s') && SameCaches(s, s') && s'.calls == s.calls + [Arrived(token, audiences, s.mono)]
    case Pass(elapsed) => s' == s.(mono := s.mono + elapsed, wall := s.wall + elapsed)
    case SetWall(wall) => s' == s.(wall := wall)
    case _ => true
  }

  lemma CacheStep(env: Env, s: State, call: Call, s': State)
    requires CacheOk(env, s) && SameCaches(NextCache(env, s, call), s')
    ensures CacheEffect(env, s, call, s')
  {
    if call.phase.Remember? {
      InsertedValid(s.sig, env.hash(call.token), CappedExpiry(call.phase.cl.exp, Unix(s), s.mono));
    }
  }

  lemma NextCacheWorld(env: Env, s: State, call: Call)
    requires CacheOk(env, s)
    ensures SameWorld(s, NextCache(env, s, call))
  {
  }

  lemma StepResult(env: Env, s: State, c: nat, storeError: bool, s': State)
    requires CacheOk(env, s) && CanAct(s, Step(c, storeError)) && s' == Apply(env, s, Step(c, storeError))
    ensures SameWorld(s, s') && SameCaches(NextCache(env, s, s.calls[c]), s')
    ensures s'.calls == s.calls[c := NextCall(env, s, s.calls[c], storeError)]
  {
    NextCacheWorld(env, s, s.calls[c]);
    var n := NextCache(env, s, s.calls[c]);
    assert s' == n.(calls := s'.calls, facts := s'.facts);
  }

  lemma ApplyEffect(env: Env, s: State, a: Action)
    requires CacheOk(env, s) && CanAct(s, a) && Plain(s, a)
    ensures Effect(env, s, a, Apply(env, s, a))
  {
    if a.Step? {
      StepResult(env, s, a.c, a.storeError, Apply(env, s, a));
      CacheStep(env, s, s.calls[a.c], Apply(env, s, a));
    }
  }

  // ---- Reached states -------------------------------------------------------------------------

  /** Every plain action leads from reached states to reached states. */
  ghost predicate Closed(env: Env, reached: iset<(State, nat)>) {
    forall s, rise, a {:trigger OneMore(env, reached, s, rise, a)} ::
      (s, rise) in reached && CanAct(s, a) && Plain(s, a) ==> OneMore(env, reached, s, rise, a)
  }

  ghost predicate OneMore(env: Env, reached: iset<(State, nat)>, s: State, rise: nat, a: Action)
    requires CanAct(s, a)
  {
    exists s' :: (s', rise + Rise(s, a)) in reached && Effect(env, s, a, s')
  }

  ghost function Reached(env: Env, s0: State): iset<(State, nat)> {
    iset s, rise | Reaches(env, s0, s, rise) :: (s, rise)
  }

  lemma ReachesOneMore(env: Env, s0: State, s: State, rise: nat, a: Action)
    requires Reaches(env, s0, s, rise) && CanAct(s, a) && Plain(s, a)
    ensures Inv(env, s) && Reaches(env, s0, Apply(env, s, a), rise + Rise(s, a))
  {
    var ss, acts :| Trace(env, ss, acts, s0, s, rise);
    RunsKeepInv(env, ss, acts, |acts|);
    ExtendTrace(env, ss, acts, s0, s, rise, a, Apply(env, s, a));
  }

  lemma ReachedOneMore(env: Env, s0: State, s: State, rise: nat, a: Action)
    requires (s, rise) in Reached(env, s0) && CanAct(s, a) && Plain(s, a)
    ensures OneMore(env, Reached(env, s0), s, rise, a)
  {
    ReachesOneMore(env, s0, s, rise, a);
    ApplyEffect(env, s, a);
    assert (Apply(env, s, a), rise + Rise(s, a)) in Reached(env, s0);
  }

  lemma ReachedIsClosed(env: Env, s0: State)
    ensures Closed(env, Reached(env, s0))
  {
    forall s, rise, a | (s, rise) in Reached(env, s0) && CanAct(s, a) && Plain(s, a)
      ensures OneMore(env, Reached(env, s0), s, rise, a)
    {
      ReachedOneMore(env, s0, s, rise, a);
    }
  }

  /** One action more. */
  lemma Do(env: Env, reached: iset<(State, nat)>, s: State, rise: nat, a: Action) returns (s': State)
    requires Closed(env, reached) && (s, rise) in reached && CanAct(s, a) && Plain(s, a)
    ensures Effect(env, s, a, s') && (s', rise + Rise(s, a)) in reached
  {
    assert OneMore(env, reached, s, rise, a);
    s' :| (s', rise + Rise(s, a)) in reached && Effect(env, s, a, s');
  }

  lemma DoStep(env: Env, reached: iset<(State, nat)>, s: State, rise: nat, c: nat) returns (s': State)
    requires Closed(env, reached) && (s, rise) in reached && CanAct(s, Step(c, false))
    ensures (s', rise) in reached && SameWorld(s, s')
    ensures s'.calls == s.calls[c := NextCall(env, s, s.calls[c], false)] && CacheEffect(env, s, s.calls[c], s')
  {
    s' := Do(env, reached, s, rise, Step(c, false));
  }

  lemma DoArrive(env: Env, reached: iset<(State, nat)>, s: State, rise: nat, token: string, audiences: seq<string>)
      returns (s': State)
    requires Closed(env, reached) && (s, rise) in reached
    ensures (s', rise) in reached && SameWorld(s, s') && SameCaches(s, s')
    ensures s'.calls == s.calls + [Arrived(token, audiences, s.mono)]
  {
    s' := Do(env, reached, s, rise, Arrive(token, audiences));
  }

  /** Time passes, and then the wall clock is set forward by `jump`. */
  lemma DoWait(env: Env, reached: iset<(State, nat)>, s: State, rise: nat, elapsed: nat, jump: nat) returns (s': State)
    requires Closed(env, reached) && (s, rise) in reached
    ensures (s', rise + jump) in reached && SameCaches(s, s') && s'.calls == s.calls
    ensures s'.mono == s.mono + elapsed && s'.wall == s.wall + elapsed + jump
    ensures s'.ring == s.ring && s'.store == s.store
  {
    var mid := Do(env, reached, s, rise, Pass(elapsed));
    s' := Do(env, reached, mid, rise, SetWall(mid.wall + jump));
  }

  // ---- Whole stretches of a call --------------------------------------------------------------

  /** A token with nothing wrong but, perhaps, the time. */
  ghost predicate Genuine(env: Env, token: string, audiences: seq<string>, cl: Claims) {
    && EnvOk(env) && env.kid(token).Some? && env.signed(token) && env.claims(token) == Some(cl)
    && AudienceOk(cl, audiences) && SubjectOk(cl.sub)
  }

  /** Call `c` waits to check the ServiceAccount; nothing else has changed but the signature cache. */
  predicate Checking(s: State, s': State, c: nat, cl: Claims) {
    && SameWorld(s, s') && s'.live == s.live && s'.liveWhy == s.liveWhy
    && c < |s.calls| && |s'.calls| == |s.calls|
    && (forall b :: 0 <= b < |s.calls| && b != c ==> s'.calls[b] == s.calls[b])
    && s'.calls[c].phase == CheckMemo(cl, Account)
    && s'.calls[c].sigAt == s.mono && s'.calls[c].sigWall == s.wall
  }

  predicate Waiting(s: State, c: nat, token: string, audiences: seq<string>) {
    c < |s.calls| && s.calls[c].phase.Resolve? && s.calls[c].token == token && s.calls[c].audiences == audiences
  }

  /** The ring is consulted and the cache is asked. */
  lemma LooksUp(env: Env, reached: iset<(State, nat)>, s: State, rise: nat, c: nat, token: string, audiences: seq<string>, cl: Claims)
      returns (s': State)
    requires Closed(env, reached) && (s, rise) in reached && Waiting(s, c, token, audiences) && Genuine(env, token, audiences, cl)
    requires env.kid(token).value in s.ring
    ensures (s', rise) in reached && SameWorld(s, s') && SameCaches(s, s')
    ensures s'.calls == s.calls[c := s.calls[c].(phase := Lookup, ringAt := s.mono)]
  {
    s' := DoStep(env, reached, s, rise, c);
  }

  /** On a cache miss the token is verified and cached. */
  lemma Verifies(env: Env, reached: iset<(State, nat)>, s: State, rise: nat, c: nat, token: string, audiences: seq<string>, cl: Claims)
      returns (s': State)
    requires Closed(env, reached) && (s, rise) in reached && Waiting(s, c, token, audiences) && Genuine(env, token, audiences, cl)
    requires env.kid(token).value in s.ring && !Hit(s.sig.entries, env.hash(token), s.mono) && Unix(s) <= cl.exp
    ensures (s', rise) in reached && Checking(s, s', c, cl)
    ensures env.hash(token) in s'.sig.entries
    ensures s'.sig.entries[env.hash(token)] == CappedExpiry(cl.exp, Unix(s), s.mono)
  {
    s' := LooksUp(env, reached, s, rise, c, token, audiences, cl);
    s' := DoStep(env, reached, s', rise, c);
    s' := DoStep(env, reached, s', rise, c);
    assert s'.calls[c].phase == Remember(cl, Unix(s)) && s'.calls[c].token == token;
    s' := DoStep(env, reached, s', rise, c);
    assert s'.calls[c].phase == Inspect(cl) && s'.calls[c].audiences == audiences;
    s' := DoStep(env, reached, s', rise, c);
  }

  /** On a hit it is not. */
  lemma Hits(env: Env, reached: iset<(State, nat)>, s: State, rise: nat, c: nat, token: string, audiences: seq<string>, cl: Claims)
      returns (s': State)
    requires Closed(env, reached) && (s, rise) in reached && Waiting(s, c, token, audiences) && Genuine(env, token, audiences, cl)
    requires env.kid(token).value in s.ring && Hit(s.sig.entries, env.hash(token), s.mono)
    ensures (s', rise) in reached && Checking(s, s', c, cl) && s'.sig == s.sig
  {
    s' := LooksUp(env, reached, s, rise, c, token, audiences, cl);
    s' := DoStep(env, reached, s', rise, c);
    s' := DoStep(env, reached, s', rise, c);
  }

  /** Without a memo entry the object is read, and found live. */
  lemma Reads(env: Env, reached: iset<(State, nat)>, s: State, rise: nat, c: nat, cl: Claims, sub: Subject)
      returns (s': State)
    requires Closed(env, reached) && (s, rise) in reached && c < |s.calls| && s.calls[c].phase == CheckMemo(cl, sub)
    requires MemoKey(SubjectKey(cl, sub), SubjectUid(cl, sub)) !in s.live
    requires ObjectIsLive(s.store, SubjectKey(cl, sub), SubjectUid(cl, sub), Unix(s))
    ensures (s', rise) in reached && SameWorld(s, s') && SameCaches(s, s')
    ensures s'.calls == s.calls[c := s.calls[c].(phase := Note(cl, sub, s.mono, s.wall))]
  {
    s' := DoStep(env, reached, s, rise, c);
    s' := DoStep(env, reached, s', rise, c);
  }

  /** The result of the read is noted, and trusted. */
  lemma Notes(env: Env, reached: iset<(State, nat)>, s: State, rise: nat, c: nat, cl: Claims, sub: Subject,
              readAt: nat, wall: nat) returns (s': State)
    requires Closed(env, reached) && (s, rise) in reached && |s.live| < MAX_LIVENESS_ENTRIES
    requires c < |s.calls| && s.calls[c].phase == Note(cl, sub, readAt, wall)
    ensures (s', rise) in reached && SameWorld(s, s')
    ensures s'.calls == s.calls[c := AfterLive(s.calls[c], cl, sub, Trust(s.mono, s.mono, readAt, wall), s.wall)]
    ensures var key, uid := SubjectKey(cl, sub), SubjectUid(cl, sub);
            && s'.live == s.live[MemoKey(key, uid) := s.mono]
            && s'.liveWhy == s.liveWhy[MemoKey(key, uid) := (key, uid, readAt, wall)]
  {
    s' := DoStep(env, reached, s, rise, c);
  }

  /** A recent note is trusted without a read. */
  lemma Recalls(env: Env, reached: iset<(State, nat)>, s: State, rise: nat, c: nat, cl: Claims, sub: Subject)
      returns (s': State)
    requires Closed(env, reached) && (s, rise) in reached && c < |s.calls| && s.calls[c].phase == CheckMemo(cl, sub)
    requires RecentlyLive(s.live, MemoKey(SubjectKey(cl, sub), SubjectUid(cl, sub)), s.mono)
    ensures (s', rise) in reached && SameWorld(s, s') && SameCaches(s, s')
    ensures var t := MemoAnswer(s, MemoKey(SubjectKey(cl, sub), SubjectUid(cl, sub)));
            s'.calls == s.calls[c := AfterLive(s.calls[c], cl, sub, t, s.wall)]
  {
    s' := DoStep(env, reached, s, rise, c);
  }

  // ---- The bound objects ----------------------------------------------------------------------

  lemma MemosDiffer(cl: Claims)
    ensures SubjectKey(cl, Account) != SubjectKey(cl, BoundPod)
    ensures MemoKey(SubjectKey(cl, Account), SubjectUid(cl, Account))
         != MemoKey(SubjectKey(cl, BoundPod), SubjectUid(cl, BoundPod))
  {
    var a, b := SubjectKey(cl, Account), SubjectKey(cl, BoundPod);
    assert a[10] == 's' && b[10] == 'p';
    assert MemoKey(a, SubjectUid(cl, Account))[10] == 's' && MemoKey(b, SubjectUid(cl, BoundPod))[10] == 'p';
  }

  /** The objects a token is bound to: its ServiceAccount, deleted or not, and its Pod if it has one. */
  function Objects(cl: Claims, deletedAt: Option<Option<int>>): map<string, Body> {
    var account := map[SubjectKey(cl, Account) := Body(Some(cl.account.uid), deletedAt)];
    if cl.pod.Some? then account[SubjectKey(cl, BoundPod) := Body(Some(cl.pod.value.uid), None)] else account
  }

  lemma ObjectsAre(cl: Claims, deletedAt: Option<Option<int>>)
    ensures var store, key := Objects(cl, deletedAt), SubjectKey(cl, Account);
            key in store && store[key] == Body(Some(cl.account.uid), deletedAt)
    ensures forall unix: nat :: cl.pod.Some? ==>
              ObjectIsLive(Objects(cl, deletedAt), SubjectKey(cl, BoundPod), SubjectUid(cl, BoundPod), unix)
  {
    MemosDiffer(cl);
  }

  /** With nothing noted yet and its objects live, a call reads them and is accepted. */
  lemma Completes(env: Env, reached: iset<(State, nat)>, s: State, rise: nat, c: nat, cl: Claims) returns (s': State)
    requires Closed(env, reached) && (s, rise) in reached && c < |s.calls| && s.calls[c].phase == CheckMemo(cl, Account)
    requires s.live == map[] && s.store == Objects(cl, None)
    ensures (s', rise) in reached && |s'.calls| == |s.calls|
    ensures s'.calls[c].phase == Accepted(cl) && s'.calls[c].sigWall == s.calls[c].sigWall
  {
    ObjectsAre(cl, None);
    s' := Reads(env, reached, s, rise, c, cl, Account);
    s' := Notes(env, reached, s', rise, c, cl, Account, s.mono, s.wall);
    if cl.pod.Some? {
      MemosDiffer(cl);
      s' := Reads(env, reached, s', rise, c, cl, BoundPod);
      s' := Notes(env, reached, s', rise, c, cl, BoundPod, s.mono, s.wall);
    }
  }

  // ---- An expired token accepted --------------------------------------------------------------

  lemma CachedUntil(exp: nat)
    requires exp >= 1
    ensures (exp * SECOND - 1) / SECOND == exp - 1 && CappedExpiry(exp, exp - 1, 0) == SECOND
  {
  }

  /** Verified a nanosecond before the second of its expiry begins, the token is served from the
      cache until just before the entry ends; by then the wall clock has been set forward. */
  lemma ExpiredReached(env: Env, reached: iset<(State, nat)>, s0: State,
                       token: string, audiences: seq<string>, cl: Claims, rise: nat) returns (s: State)
    requires Closed(env, reached) && (s0, 0) in reached && Genuine(env, token, audiences, cl)
    requires cl.exp >= 1
    requires s0 == Start(0, cl.exp * SECOND - 1, {env.kid(token).value}, Objects(cl, None), 1)
    ensures (s, rise) in reached && |s.calls| == 2 && s.calls[1].phase == Accepted(cl)
    ensures s.calls[1].sigWall + 2 == (cl.exp + 1) * SECOND + rise
  {
    CachedUntil(cl.exp);
    s := DoArrive(env, reached, s0, 0, token, audiences);
    s := Verifies(env, reached, s, 0, 0, token, audiences, cl);
    s := DoWait(env, reached, s, 0, SECOND - 1, rise);
    s := DoArrive(env, reached, s, rise, token, audiences);
    s := Hits(env, reached, s, rise, 1, token, audiences, cl);
    s := Completes(env, reached, s, rise, 1, cl);
  }

  lemma StartReached(env: Env, mono: nat, wall: nat, ring: set<string>, store: map<string, Body>)
    requires EnvOk(env)
    ensures var s0 := Start(mono, wall, ring, store, 1);
            Closed(env, Reached(env, s0)) && (s0, 0) in Reached(env, s0)
  {
    var s0 := Start(mono, wall, ring, store, 1);
    StartIsWellFormed(env, mono, wall, ring, store, 1);
    Begin(env, s0);
    ReachedIsClosed(env, s0);
  }

  /** For every forward jump there is a run that attains the bound on expiry. */
  lemma ExpiryBoundIsAttained(env: Env, token: string, audiences: seq<string>, cl: Claims, rise: nat)
      returns (ss: seq<State>, acts: seq<Action>)
    requires Genuine(env, token, audiences, cl) && cl.exp >= 1
    ensures IsRun(env, ss, acts) && ss[0].calls == [] && ss[0].facts == {} && TotalRise(ss, acts, |acts|) == rise
    ensures var s := ss[|acts|];
            && |s.calls| == 2 && s.calls[1].phase == Accepted(cl)
            && s.calls[1].sigWall + 2 == (cl.exp + 1) * SECOND + rise
  {
    var wall, ring, store := cl.exp * SECOND - 1, {env.kid(token).value}, Objects(cl, None);
    var s0 := Start(0, wall, ring, store, 1);
    StartReached(env, 0, wall, ring, store);
    var s := ExpiredReached(env, Reached(env, s0), s0, token, audiences, cl, rise);
    ss, acts :| Trace(env, ss, acts, s0, s, rise);
  }

  /** A run with forward jumps of at most `rise` in all that accepts a token past its `exp`. */
  ghost predicate Late(env: Env, ss: seq<State>, acts: seq<Action>, c: nat, rise: nat) {
    && IsRun(env, ss, acts) && ss[0].calls == [] && ss[0].facts == {} && TotalRise(ss, acts, |acts|) <= rise
    && c < |ss[|acts|].calls| && ss[|acts|].calls[c].phase.Accepted?
    && ss[|acts|].calls[c].sigWall / SECOND > ss[|acts|].calls[c].phase.cl.exp
  }

  /** The expiry is kept exactly while the wall clock is set forward by at most one nanosecond in
      all: every longer jump admits a run that accepts an expired token. */
  lemma ExpiryIsKeptExactly(env: Env, token: string, audiences: seq<string>, cl: Claims, rise: nat)
    requires Genuine(env, token, audiences, cl) && cl.exp >= 1
    ensures (exists ss: seq<State>, acts: seq<Action>, c: nat :: Late(env, ss, acts, c, rise)) <==> rise > 1
  {
    if rise > 1 {
      var ss, acts := ExpiryBoundIsAttained(env, token, audiences, cl, rise);
      assert Late(env, ss, acts, 1, rise);
    } else {
      forall ss: seq<State>, acts: seq<Action>, c: nat ensures !Late(env, ss, acts, c, rise) {
        NotLate(env, ss, acts, c, rise);
      }
    }
  }

  lemma NotLate(env: Env, ss: seq<State>, acts: seq<Action>, c: nat, rise: nat)
    requires rise <= 1
    ensures !Late(env, ss, acts, c, rise)
  {
    if IsRun(env, ss, acts) && ss[0].calls == [] && ss[0].facts == {} && TotalRise(ss, acts, |acts|) <= rise
       && c < |ss[|acts|].calls| && ss[|acts|].calls[c].phase.Accepted? {
      AcceptedNearExpiry(env, ss, acts, |acts|, c);
    }
  }

  // ---- A revoked object trusted ---------------------------------------------------------------

  function AccountMemo(cl: Claims): string { MemoKey(SubjectKey(cl, Account), SubjectUid(cl, Account)) }

  /** Both calls have passed the signature; the first has read the ServiceAccount, in the last
      nanosecond of its leeway. */
  lemma OneReads(env: Env, reached: iset<(State, nat)>, s0: State, token: string, audiences: seq<string>,
                 cl: Claims, d: nat) returns (s: State)
    requires Closed(env, reached) && (s0, 0) in reached && Genuine(env, token, audiences, cl)
    requires cl.exp > d + 60
    requires s0 == Start(0, (d + 61) * SECOND - 1, {env.kid(token).value}, Objects(cl, Some(Some(d))), 1)
    ensures (s, 0) in reached && |s.calls| == 2 && s.mono == 0 && s.wall == s0.wall && s.store == s0.store
    ensures s.live == map[] && s.calls[0].phase == Note(cl, Account, 0, s0.wall)
    ensures s.calls[1].phase == CheckMemo(cl, Account)
  {
    ObjectsAre(cl, Some(Some(d)));
    s := DoArrive(env, reached, s0, 0, token, audiences);
    s := Verifies(env, reached, s, 0, 0, token, audiences, cl);
    s := DoArrive(env, reached, s, 0, token, audiences);
    s := Hits(env, reached, s, 0, 1, token, audiences, cl);
    s := Reads(env, reached, s, 0, 0, cl, Account);
  }

  /** It notes the read after `lag`; the other recalls the note just before it lapses. */
  lemma OtherRecalls(env: Env, reached: iset<(State, nat)>, s: State, cl: Claims, lag: nat, rise: nat)
      returns (s': State)
    requires Closed(env, reached) && (s, 0) in reached && |s.calls| == 2 && s.mono == 0
    requires s.live == map[] && s.calls[0].phase == Note(cl, Account, 0, s.wall)
    requires s.calls[1].phase == CheckMemo(cl, Account)
    ensures (s', rise) in reached && |s'.calls| == 2 && s'.store == s.store
    ensures s'.mono == lag + LIVENESS_TTL - 1 && s'.wall == s.wall + s'.mono + rise
    ensures s'.live == map[AccountMemo(cl) := lag]
    ensures s'.calls[1] == AfterLive(s.calls[1], cl, Account, Trust(s'.mono, lag, 0, s.wall), s'.wall)
  {
    s' := DoWait(env, reached, s, 0, lag, rise);
    s' := Notes(env, reached, s', rise, 0, cl, Account, 0, s.wall);
    s' := DoWait(env, reached, s', rise, LIVENESS_TTL - 1, 0);
    s' := Recalls(env, reached, s', rise, 1, cl, Account);
  }

  /** And then it spends `lag` on its Pod. */
  lemma PodAccepts(env: Env, reached: iset<(State, nat)>, s: State, rise: nat, cl: Claims, noted: nat, lag: nat)
      returns (s': State)
    requires Closed(env, reached) && (s, rise) in reached && |s.calls| == 2 && cl.pod.Some?
    requires s.live == map[AccountMemo(cl) := noted] && s.calls[1].phase == CheckMemo(cl, BoundPod)
    requires ObjectIsLive(s.store, SubjectKey(cl, BoundPod), SubjectUid(cl, BoundPod), Unix(s))
    ensures (s', rise) in reached && |s'.calls| == 2
    ensures s'.calls[1].phase == Accepted(cl) && s'.calls[1].account == s.calls[1].account
    ensures s'.calls[1].doneAt == s.mono + lag && s'.calls[1].doneWall == s.wall + lag
  {
    MemosDiffer(cl);
    s' := Reads(env, reached, s, rise, 1, cl, BoundPod);
    s' := DoWait(env, reached, s', rise, lag, 0);
    s' := Notes(env, reached, s', rise, 1, cl, BoundPod, s.mono, s.wall);
  }

  /** For every delay in noting a read, every delay in checking a bound Pod and every forward jump
      there is a run that attains the bounds on revocation, by either clock: the ServiceAccount is
      deleted at `d` throughout, and stops being live one nanosecond into the run. */
  lemma RevocationBoundIsAttained(env: Env, token: string, audiences: seq<string>, cl: Claims,
                                  d: nat, lag: nat, podLag: nat, rise: nat)
      returns (ss: seq<State>, acts: seq<Action>)
    requires Genuine(env, token, audiences, cl) && cl.exp > d + 60 && (cl.pod.None? ==> podLag == 0)
    ensures IsRun(env, ss, acts) && ss[0].calls == [] && ss[0].facts == {} && TotalRise(ss, acts, |acts|) == rise
    ensures forall u :: 0 <= u < |ss| ==> DeletedBy(ss[u].store, SubjectKey(cl, Account), SubjectUid(cl, Account), d)
    ensures forall u :: 0 <= u < |ss| && 1 <= ss[u].mono ==>
              !ObjectIsLive(ss[u].store, SubjectKey(cl, Account), SubjectUid(cl, Account), Unix(ss[u]))
    ensures |ss[|acts|].calls| == 2 && ss[|acts|].calls[1].phase == Accepted(cl)
    ensures var call := ss[|acts|].calls[1];
            && call.account.Some? && Delay(call, call.account.value) == lag + podLag
            && call.doneAt + 2 == 1 + LIVENESS_TTL + lag + podLag
            && call.doneWall + 2 == (d + 61) * SECOND + LIVENESS_TTL + lag + podLag + rise
  {
    var wall, ring, store := (d + 61) * SECOND - 1, {env.kid(token).value}, Objects(cl, Some(Some(d)));
    var s0 := Start(0, wall, ring, store, 1);
    StartReached(env, 0, wall, ring, store);
    var s := OneReads(env, Reached(env, s0), s0, token, audiences, cl, d);
    s := OtherRecalls(env, Reached(env, s0), s, cl, lag, rise);
    ObjectsAre(cl, Some(Some(d)));
    if cl.pod.Some? {
      s := PodAccepts(env, Reached(env, s0), s, rise, cl, lag, podLag);
    }
    ss, acts :| Trace(env, ss, acts, s0, s, rise);
    LeewayOver(ss, acts, s0, s, rise, d);
  }

  lemma LeewayOver(ss: seq<State>, acts: seq<Action>, s0: State, s: State, rise: nat, d: nat)
    requires Ends(ss, acts, s0, s, rise) && s0.mono == 0 && s0.wall == (d + 61) * SECOND - 1
    ensures forall u :: 0 <= u < |ss| && 1 <= ss[u].mono ==> Unix(ss[u]) > d + 60
  {
    forall u | 0 <= u < |ss| && 1 <= ss[u].mono ensures Unix(ss[u]) > d + 60 {
      assert ss[u].wall >= (d + 61) * SECOND;
    }
  }

  /** A run that accepts a call on `s` more than the TTL after it stopped being live, at `x`, although
      the delays it suffered are at most `delay`. */
  ghost predicate Outlives(env: Env, ss: seq<State>, acts: seq<Action>, c: nat, s: Subject, x: nat, delay: int) {
    && IsRun(env, ss, acts) && ss[0].calls == [] && ss[0].facts == {}
    && c < |ss[|acts|].calls|
    && var call := ss[|acts|].calls[c];
       && call.phase.Accepted? && (s.BoundPod? ==> call.phase.cl.pod.Some?)
       && (forall u :: 0 <= u < |acts| && x <= ss[u].mono ==>
             !ObjectIsLive(ss[u].store, SubjectKey(call.phase.cl, s), SubjectUid(call.phase.cl, s), Unix(ss[u])))
       && Answer(call, s).Some? && Delay(call, Answer(call, s).value) <= delay
       && call.doneAt > x + LIVENESS_TTL
  }

  /** Revocation takes effect within the TTL exactly while the delays are at most two nanoseconds:
      any longer delay admits a run that accepts a revoked token later than that. */
  lemma RevocationIsPromptExactly(env: Env, token: string, audiences: seq<string>, cl: Claims, d: nat, delay: nat)
    requires Genuine(env, token, audiences, cl) && cl.exp > d + 60
    ensures (exists ss: seq<State>, acts: seq<Action>, c: nat, s: Subject, x: nat ::
               Outlives(env, ss, acts, c, s, x, delay)) <==> delay > 2
  {
    if delay > 2 {
      var ss, acts := RevocationBoundIsAttained(env, token, audiences, cl, d, delay, 0, 0);
      assert Outlives(env, ss, acts, 1, Account, 1, delay);
    } else {
      forall ss: seq<State>, acts: seq<Action>, c: nat, s: Subject, x: nat
        ensures !Outlives(env, ss, acts, c, s, x, delay)
      {
        NotOutlived(env, ss, acts, c, s, x, delay);
      }
    }
  }

  lemma NotOutlived(env: Env, ss: seq<State>, acts: seq<Action>, c: nat, s: Subject, x: nat, delay: nat)
    requires delay <= 2
    ensures !Outlives(env, ss, acts, c, s, x, delay)
  {
    if Outlives(env, ss, acts, c, s, x, delay) {
      AcceptanceEndsAfterRevocation(env, ss, acts, |acts|, c, s, x);
    }
  }
}
