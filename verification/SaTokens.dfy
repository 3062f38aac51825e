/**
 ServiceAccount token verification as an interleaved step system. Any number of calls of
 `try_verify_sa_jwt` run against a changing key ring, a changing store, both clocks and the
 shared cache; one step is one clock-reading cache operation, one store read or one check.
 Signature checking and claim decoding are foreign code: they are arbitrary functions here.
 */
module SaTokens {
  import opened Prelude
  import opened Text
  import opened FifoCache
  import opened SigCache
  import opened SaNames

  datatype ObjectRef = ObjectRef(name: string, uid: string)

  datatype Claims = Claims(
    sub: string,
    exp: nat,
    aud: seq<string>,
    namespace: string,
    account: ObjectRef,
    pod: Option<ObjectRef>)

  /** `kid` names the ring key of an ES256 token; `signed` says that key's signature and the
      issuer hold. Equal hashes mean equal tokens. */
  datatype Env = Env(
    kid: string -> Option<string>,
    signed: string -> bool,
    claims: string -> Option<Claims>,
    hash: string -> Hash)

  /** A stored body: its uid, and its deletion timestamp if any, `Some(None)` if unreadable. */
  datatype Body = Body(uid: Option<string>, deletedAt: Option<Option<int>>)

  datatype Subject = Account | BoundPod

  /** On what a liveness answer rests: a read at `readAt`, when the wall clock showed `wall`, noted
      at `notedAt` and trusted at `at`. */
  datatype Trust = Trust(at: nat, notedAt: nat, readAt: nat, wall: nat)

  /** On what a signature answer rests: a full verification at Unix second `unix`, and the two
      clocks when the result was cached. */
  datatype Proof = Proof(unix: nat, cachedMono: nat, cachedWall: nat)

  datatype Phase =
    | Resolve
    | Lookup
    | Verify
    | Remember(cl: Claims, unix: nat)
    | Inspect(cl: Claims)
    | CheckMemo(cl: Claims, s: Subject)
    | Read(cl: Claims, s: Subject)
    | Note(cl: Claims, s: Subject, readAt: nat, wall: nat)
    | Accepted(cl: Claims)
    | Rejected

  /** The fields after `phase` are auxiliary: when the call arrived, when the ring was consulted,
      when and on what the signature was accepted (`sigWall` is the wall clock then), the liveness
      answers, and both clocks when the call was accepted. */
  datatype Call = Call(
    token: string,
    audiences: seq<string>,
    phase: Phase,
    arrived: nat,
    ringAt: nat,
    sigAt: nat,
    sigWall: nat,
    proof: Option<Proof>,
    account: Option<Trust>,
    pod: Option<Trust>,
    doneAt: nat,
    doneWall: nat)

  datatype Fact =
    | InRing(kid: string, at: nat)
    | Verified(token: string, unix: nat)
    | Cached(token: string, mono: nat, wall: nat)
    | Live(key: string, uid: string, readAt: nat, wall: nat)

  /** `sigWhy` and `liveWhy` are auxiliary: what each cache entry was made from. */
  datatype State = State(
    mono: nat,
    wall: nat,
    ring: set<string>,
    store: map<string, Body>,
    sig: Fifo<Hash, nat>,
    live: map<string, nat>,
    sigWhy: map<Hash, (string, Proof)>,
    liveWhy: map<string, (string, string, nat, nat)>,
    calls: seq<Call>,
    facts: set<Fact>)

  datatype Action =
    | Pass(elapsed: nat)
    | SetWall(wall: nat)
    | Rotate(ring: set<string>)
    | Write(store: map<string, Body>)
    | Arrive(token: string, audiences: seq<string>)
    | Step(c: nat, storeError: bool)

  const DELETION_LEEWAY: int := 60
  const DEFAULT_AUDIENCE: string := "https://kubernetes.default.svc"

  function Unix(s: State): nat { s.wall / SECOND }

  function ObjectKey(resource: string, namespace: string, name: string): string {
    "/registry/" + resource + "/" + namespace + "/" + name
  }

  function SubjectKey(c: Claims, s: Subject): string {
    match s
    case Account => ObjectKey("serviceaccounts", c.namespace, c.account.name)
    case BoundPod => ObjectKey("pods", c.namespace, if c.pod.Some? then c.pod.value.name else "")
  }

  function SubjectUid(c: Claims, s: Subject): string {
    match s
    case Account => c.account.uid
    case BoundPod => if c.pod.Some? then c.pod.value.uid else ""
  }

  function MemoKey(key: string, uid: string): string { key + ['\0'] + uid }

  /** Present, the same incarnation, and not deleted longer ago than the leeway. */
  predicate ObjectIsLive(store: map<string, Body>, key: string, uid: string, unix: nat) {
    && key in store
    && store[key].uid == Some(uid)
    && (store[key].deletedAt.Some? ==>
          store[key].deletedAt.value.Some? && unix - store[key].deletedAt.value.value <= DELETION_LEEWAY)
  }

  predicate AudienceOk(c: Claims, audiences: seq<string>) {
    var allowed := if audiences == [] then [DEFAULT_AUDIENCE] else audiences;
    exists a :: a in c.aud && a in allowed
  }

  function Reject(c: Call): Call { c.(phase := Rejected) }

  function AfterLive(c: Call, cl: Claims, s: Subject, t: Trust, wall: nat): Call {
    var d := if s.Account? then c.(account := Some(t)) else c.(pod := Some(t));
    if s.Account? && cl.pod.Some? then d.(phase := CheckMemo(cl, BoundPod))
    else d.(phase := Accepted(cl), doneAt := t.at, doneWall := wall)
  }

  // ---- Invariant ------------------------------------------------------------------------------

  /** Hashing is collision-free, and tokens are only signed for objects whose names hold no NUL. */
  ghost predicate EnvOk(env: Env) {
    && (forall t, u :: env.hash(t) == env.hash(u) ==> t == u)
    && (forall t, s :: env.signed(t) && env.claims(t).Some? ==> '\0' !in SubjectKey(env.claims(t).value, s))
  }

  /** The signature was accepted on a full verification, and either its own expiry had not
      passed, or an unexpired cache entry was served. */
  ghost predicate SigOk(env: Env, facts: set<Fact>, token: string, cl: Claims, sigAt: nat, sigWall: nat, p: Proof) {
    && env.signed(token) && env.claims(token) == Some(cl) && Verified(token, p.unix) in facts
    && (|| sigWall / SECOND <= cl.exp
        || (Cached(token, p.cachedMono, p.cachedWall) in facts
            && p.cachedMono <= sigAt < CappedExpiry(cl.exp, p.cachedWall / SECOND, p.cachedMono)))
  }

  ghost predicate TrustOk(facts: set<Fact>, cl: Claims, s: Subject, t: Trust) {
    && Live(SubjectKey(cl, s), SubjectUid(cl, s), t.readAt, t.wall) in facts
    && t.readAt <= t.notedAt <= t.at < t.notedAt + LIVENESS_TTL
  }

  ghost predicate RingOk(env: Env, facts: set<Fact>, mono: nat, c: Call) {
    env.kid(c.token).Some? && InRing(env.kid(c.token).value, c.ringAt) in facts && c.arrived <= c.ringAt <= mono
  }

  ghost predicate Vetted(env: Env, facts: set<Fact>, mono: nat, c: Call, cl: Claims) {
    c.proof.Some? && c.ringAt <= c.sigAt <= mono && SigOk(env, facts, c.token, cl, c.sigAt, c.sigWall, c.proof.value)
  }

  ghost predicate Admissible(env: Env, facts: set<Fact>, mono: nat, c: Call, cl: Claims) {
    Vetted(env, facts, mono, c, cl) && AudienceOk(cl, c.audiences) && SubjectOk(cl.sub)
  }

  ghost predicate AccountOk(facts: set<Fact>, c: Call, cl: Claims)
    requires c.account.Some?
  {
    c.sigAt <= c.account.value.at && TrustOk(facts, cl, Account, c.account.value)
  }

  /** What a call has established once it works on subject `s`. */
  ghost predicate Subjected(env: Env, facts: set<Fact>, mono: nat, c: Call, cl: Claims, s: Subject) {
    && Admissible(env, facts, mono, c, cl)
    && (s.BoundPod? ==> cl.pod.Some? && c.account.Some? && AccountOk(facts, c, cl) && c.account.value.at <= mono)
  }

  ghost predicate CallOk(env: Env, facts: set<Fact>, mono: nat, c: Call) {
    && (c.phase.Resolve? ==> c.arrived <= mono)
    && (!c.phase.Resolve? && !c.phase.Rejected? ==> RingOk(env, facts, mono, c))
    && match c.phase
       case Remember(cl, unix) => Vetted(env, facts, mono, c, cl) && Verified(c.token, unix) in facts
       case Inspect(cl) => Vetted(env, facts, mono, c, cl)
       case CheckMemo(cl, s) => Subjected(env, facts, mono, c, cl, s)
       case Read(cl, s) => Subjected(env, facts, mono, c, cl, s)
       case Note(cl, s, readAt, wall) =>
         && Subjected(env, facts, mono, c, cl, s) && readAt <= mono
         && Live(SubjectKey(cl, s), SubjectUid(cl, s), readAt, wall) in facts
       case Accepted(cl) =>
         && Admissible(env, facts, mono, c, cl)
         && c.account.Some? && AccountOk(facts, c, cl) && c.account.value.at <= c.doneAt <= mono
         && (cl.pod.None? ==> c.doneAt == c.account.value.at)
         && (cl.pod.Some? ==>
               c.pod.Some? && TrustOk(facts, cl, BoundPod, c.pod.value) && c.doneAt == c.pod.value.at)
       case _ => true
  }

  ghost predicate SigEntryOk(env: Env, facts: set<Fact>, mono: nat, h: Hash, expiresAt: nat, why: (string, Proof)) {
    var (token, p) := why;
    && env.hash(token) == h && env.signed(token) && env.claims(token).Some?
    && Verified(token, p.unix) in facts && Cached(token, p.cachedMono, p.cachedWall) in facts && p.cachedMono <= mono
    && expiresAt == CappedExpiry(env.claims(token).value.exp, p.cachedWall / SECOND, p.cachedMono)
  }

  ghost predicate LiveEntryOk(facts: set<Fact>, mono: nat, memo: string, at: nat, why: (string, string, nat, nat)) {
    var (key, uid, readAt, wall) := why;
    '\0' !in key && memo == MemoKey(key, uid) && Live(key, uid, readAt, wall) in facts && readAt <= at <= mono
  }

  ghost predicate CacheOk(env: Env, s: State) {
    && Valid(s.sig) && |s.live| <= MAX_LIVENESS_ENTRIES
    && (forall h :: h in s.sig.entries ==>
          h in s.sigWhy && SigEntryOk(env, s.facts, s.mono, h, s.sig.entries[h], s.sigWhy[h]))
    && (forall m :: m in s.live ==>
          m in s.liveWhy && LiveEntryOk(s.facts, s.mono, m, s.live[m], s.liveWhy[m]))
  }

  ghost predicate Inv(env: Env, s: State) {
    CacheOk(env, s) && forall c :: 0 <= c < |s.calls| ==> CallOk(env, s.facts, s.mono, s.calls[c])
  }

  // ---- Steps ----------------------------------------------------------------------------------

  predicate CanAct(s: State, a: Action) {
    a.Step? ==> a.c < |s.calls| && !s.calls[a.c].phase.Accepted? && !s.calls[a.c].phase.Rejected?
  }

  /** The fact a step establishes, if any. */
  function NewFacts(env: Env, s: State, call: Call, storeError: bool): set<Fact> {
    match call.phase
    case Resolve =>
      var kid := env.kid(call.token);
      if kid.Some? && kid.value in s.ring then {InRing(kid.value, s.mono)} else {}
    case Verify =>
      var cl := env.claims(call.token);
      if env.signed(call.token) && cl.Some? && Unix(s) <= cl.value.exp then {Verified(call.token, Unix(s))} else {}
    case Read(cl, sub) =>
      var key, uid := SubjectKey(cl, sub), SubjectUid(cl, sub);
      if !storeError && ObjectIsLive(s.store, key, uid, Unix(s)) then {Live(key, uid, s.mono, s.wall)} else {}
    case Remember(_, _) => {Cached(call.token, s.mono, s.wall)}
    case _ => {}
  }

  function Why<V>(m: map<string, V>, k: string, none: V): V { if k in m then m[k] else none }

  /** The liveness answer a memo entry gives. */
  function MemoAnswer(s: State, memo: string): Trust
    requires memo in s.live
  {
    var why := Why(s.liveWhy, memo, ("", "", 0, 0));
    Trust(s.mono, s.live[memo], why.2, why.3)
  }

  /** The call after one of its steps. */
  function NextCall(env: Env, s: State, call: Call, storeError: bool): Call {
    match call.phase
    case Resolve =>
      if NewFacts(env, s, call, storeError) != {} then call.(phase := Lookup, ringAt := s.mono) else Reject(call)
    case Lookup =>
      var h := env.hash(call.token);
      if !Hit(s.sig.entries, h, s.mono) then call.(phase := Verify)
      else if env.claims(call.token).None? then Reject(call)
      else call.(phase := Inspect(env.claims(call.token).value), sigAt := s.mono, sigWall := s.wall,
                 proof := Some(Why(s.sigWhy, h, ("", Proof(0, 0, 0))).1))
    case Verify =>
      if NewFacts(env, s, call, storeError) != {} then
        call.(phase := Remember(env.claims(call.token).value, Unix(s)), sigAt := s.mono, sigWall := s.wall,
              proof := Some(Proof(Unix(s), s.mono, s.wall)))
      else Reject(call)
    case Remember(cl, _) => call.(phase := Inspect(cl))
    case Inspect(cl) =>
      if AudienceOk(cl, call.audiences) && SubjectOk(cl.sub) then call.(phase := CheckMemo(cl, Account)) else Reject(call)
    case CheckMemo(cl, sub) =>
      var memo := MemoKey(SubjectKey(cl, sub), SubjectUid(cl, sub));
      if RecentlyLive(s.live, memo, s.mono) then
        AfterLive(call, cl, sub, MemoAnswer(s, memo), s.wall)
      else call.(phase := Read(cl, sub))
    case Read(cl, sub) =>
      if NewFacts(env, s, call, storeError) != {} then call.(phase := Note(cl, sub, s.mono, s.wall)) else Reject(call)
    case Note(cl, sub, readAt, wall) => AfterLive(call, cl, sub, Trust(s.mono, s.mono, readAt, wall), s.wall)
    case _ => call
  }

  /** The cache after a step: a verified token is remembered, a live object is noted. */
  ghost function NextCache(env: Env, s: State, call: Call): State
    requires CacheOk(env, s)
  {
    match call.phase
    case Remember(cl, unix) =>
      var h := env.hash(call.token);
      s.(sig := Inserted(s.sig, h, CappedExpiry(cl.exp, Unix(s), s.mono)),
         sigWhy := s.sigWhy[h := (call.token, Proof(unix, s.mono, s.wall))],
         facts := s.facts + {Cached(call.token, s.mono, s.wall)})
    case Note(cl, sub, readAt, wall) =>
      var key, uid := SubjectKey(cl, sub), SubjectUid(cl, sub);
      s.(live := RecordedLive(s.live, MemoKey(key, uid), s.mono),
         liveWhy := if HasRoom(s.live, s.mono) then s.liveWhy[MemoKey(key, uid) := (key, uid, readAt, wall)] else s.liveWhy)
    case _ => s
  }

  function Arrived(token: string, audiences: seq<string>, mono: nat): Call {
    Call(token, audiences, Resolve, mono, 0, 0, 0, None, None, None, 0, 0)
  }

  ghost function Apply(env: Env, s: State, a: Action): State
    requires CacheOk(env, s) && CanAct(s, a)
  {
    match a
    case Pass(elapsed) => s.(mono := s.mono + elapsed, wall := s.wall + elapsed)
    case SetWall(wall) => s.(wall := wall)
    case Rotate(ring) => s.(ring := ring)
    case Write(store) => s.(store := store)
    case Arrive(token, audiences) =>
      s.(calls := s.calls + [Arrived(token, audiences, s.mono)])
    case Step(c, storeError) =>
      NextCache(env, s, s.calls[c]).(
        calls := s.calls[c := NextCall(env, s, s.calls[c], storeError)],
        facts := s.facts + NewFacts(env, s, s.calls[c], storeError))
  }

  // ---- Preservation ---------------------------------------------------------------------------

  lemma MemoKeyInjective(k1: string, u1: string, k2: string, u2: string)
    requires '\0' !in k1 && '\0' !in k2 && MemoKey(k1, u1) == MemoKey(k2, u2)
    ensures k1 == k2 && u1 == u2
  {
    SplitOnceAt(k1, '\0', u1);
    SplitOnceAt(k2, '\0', u2);
  }

  lemma CallOkMonotone(env: Env, c: Call, f: set<Fact>, f': set<Fact>, mono: nat, mono': nat)
    requires CallOk(env, f, mono, c) && f <= f' && mono <= mono'
    ensures CallOk(env, f', mono', c)
  {
  }

  lemma LookupOk(env: Env, s: State, c: Call)
    requires EnvOk(env) && CacheOk(env, s) && CallOk(env, s.facts, s.mono, c) && c.phase.Lookup?
    ensures CallOk(env, s.facts, s.mono, NextCall(env, s, c, false))
  {
    var h := env.hash(c.token);
    if Hit(s.sig.entries, h, s.mono) {
      assert SigEntryOk(env, s.facts, s.mono, h, s.sig.entries[h], s.sigWhy[h]);
    }
  }

  /** A memo hit rests on a read of this very object and uid, noted less than the TTL ago. */
  lemma MemoTrust(env: Env, s: State, cl: Claims, sub: Subject, memo: string)
    requires CacheOk(env, s) && '\0' !in SubjectKey(cl, sub)
    requires memo == MemoKey(SubjectKey(cl, sub), SubjectUid(cl, sub)) && RecentlyLive(s.live, memo, s.mono)
    ensures TrustOk(s.facts, cl, sub, MemoAnswer(s, memo))
  {
    assert LiveEntryOk(s.facts, s.mono, memo, s.live[memo], s.liveWhy[memo]);
    MemoKeyInjective(SubjectKey(cl, sub), SubjectUid(cl, sub), s.liveWhy[memo].0, s.liveWhy[memo].1);
  }

  lemma AfterLiveOk(env: Env, facts: set<Fact>, mono: nat, c: Call, cl: Claims, sub: Subject, t: Trust, wall: nat)
    requires RingOk(env, facts, mono, c) && Subjected(env, facts, mono, c, cl, sub) && TrustOk(facts, cl, sub, t)
    requires t.at == mono
    ensures CallOk(env, facts, mono, AfterLive(c, cl, sub, t, wall))
  {
  }

  lemma CheckMemoOk(env: Env, s: State, c: Call)
    requires EnvOk(env) && CacheOk(env, s) && CallOk(env, s.facts, s.mono, c) && c.phase.CheckMemo?
    ensures CallOk(env, s.facts, s.mono, NextCall(env, s, c, false))
  {
    var cl, sub := c.phase.cl, c.phase.s;
    var memo := MemoKey(SubjectKey(cl, sub), SubjectUid(cl, sub));
    if RecentlyLive(s.live, memo, s.mono) {
      MemoTrust(env, s, cl, sub, memo);
      AfterLiveOk(env, s.facts, s.mono, c, cl, sub, MemoAnswer(s, memo), s.wall);
    }
  }

  lemma SignatureStepOk(env: Env, s: State, c: Call, storeError: bool)
    requires CacheOk(env, s) && CallOk(env, s.facts, s.mono, c) && (c.phase.Resolve? || c.phase.Verify?)
    ensures CallOk(env, s.facts + NewFacts(env, s, c, storeError), s.mono, NextCall(env, s, c, storeError))
  {
  }

  lemma ReadStepOk(env: Env, s: State, c: Call, storeError: bool)
    requires EnvOk(env) && CacheOk(env, s) && CallOk(env, s.facts, s.mono, c)
    requires !c.phase.Resolve? && !c.phase.Verify? && !c.phase.Lookup? && !c.phase.CheckMemo? && !c.phase.Note?
    ensures CallOk(env, s.facts + NewFacts(env, s, c, storeError), s.mono, NextCall(env, s, c, storeError))
  {
    CallOkMonotone(env, c, s.facts, s.facts + NewFacts(env, s, c, storeError), s.mono, s.mono);
  }

  lemma NoteStepOk(env: Env, s: State, c: Call)
    requires CallOk(env, s.facts, s.mono, c) && c.phase.Note?
    ensures CallOk(env, s.facts, s.mono, NextCall(env, s, c, false))
  {
    AfterLiveOk(env, s.facts, s.mono, c, c.phase.cl, c.phase.s,
                Trust(s.mono, s.mono, c.phase.readAt, c.phase.wall), s.wall);
  }

  lemma NextCallOk(env: Env, s: State, c: Call, storeError: bool)
    requires EnvOk(env) && CacheOk(env, s) && CallOk(env, s.facts, s.mono, c)
    ensures CallOk(env, s.facts + NewFacts(env, s, c, storeError), s.mono, NextCall(env, s, c, storeError))
  {
    if c.phase.Resolve? || c.phase.Verify? {
      SignatureStepOk(env, s, c, storeError);
    } else if c.phase.Lookup? || c.phase.CheckMemo? || c.phase.Note? {
      assert s.facts + NewFacts(env, s, c, storeError) == s.facts;
      if c.phase.Lookup? {
        LookupOk(env, s, c);
      } else if c.phase.CheckMemo? {
        CheckMemoOk(env, s, c);
      } else {
        NoteStepOk(env, s, c);
      }
    } else {
      ReadStepOk(env, s, c, storeError);
    }
  }

  lemma RememberOk(env: Env, s: State, c: Call)
    requires CacheOk(env, s) && CallOk(env, s.facts, s.mono, c) && c.phase.Remember?
    ensures CacheOk(env, NextCache(env, s, c))
  {
    var h, at := env.hash(c.token), CappedExpiry(c.phase.cl.exp, Unix(s), s.mono);
    InsertedValid(s.sig, h, at);
    var s' := NextCache(env, s, c);
    forall x | x in s'.sig.entries
      ensures x in s'.sigWhy && SigEntryOk(env, s'.facts, s'.mono, x, s'.sig.entries[x], s'.sigWhy[x])
    {
      assert x != h ==> SigEntryOk(env, s.facts, s.mono, x, s.sig.entries[x], s.sigWhy[x]);
    }
  }

  lemma NoteOk(env: Env, s: State, c: Call)
    requires EnvOk(env) && CacheOk(env, s) && CallOk(env, s.facts, s.mono, c) && c.phase.Note?
    ensures CacheOk(env, NextCache(env, s, c))
  {
    var key, uid := SubjectKey(c.phase.cl, c.phase.s), SubjectUid(c.phase.cl, c.phase.s);
    RecordedLiveOk(s.live, MemoKey(key, uid), s.mono);
    var s' := NextCache(env, s, c);
    forall m | m in s'.live
      ensures m in s'.liveWhy && LiveEntryOk(s'.facts, s'.mono, m, s'.live[m], s'.liveWhy[m])
    {
      if m == MemoKey(key, uid) && HasRoom(s.live, s.mono) {
        assert s'.liveWhy[m] == (key, uid, c.phase.readAt, c.phase.wall);
      } else {
        assert LiveEntryOk(s.facts, s.mono, m, s.live[m], s.liveWhy[m]);
      }
    }
  }

  lemma NextCacheOk(env: Env, s: State, c: Call)
    requires EnvOk(env) && CacheOk(env, s) && CallOk(env, s.facts, s.mono, c)
    ensures CacheOk(env, NextCache(env, s, c))
  {
    if c.phase.Remember? {
      RememberOk(env, s, c);
    } else if c.phase.Note? {
      NoteOk(env, s, c);
    }
  }

  lemma CacheOkMonotone(env: Env, s: State, s': State)
    requires CacheOk(env, s)
    requires s'.sig == s.sig && s'.live == s.live && s'.sigWhy == s.sigWhy && s'.liveWhy == s.liveWhy
    requires s.facts <= s'.facts && s.mono <= s'.mono
    ensures CacheOk(env, s')
  {
  }

  lemma CallsOkMonotone(env: Env, s: State, s': State)
    requires Inv(env, s) && s.facts <= s'.facts && s.mono <= s'.mono
    ensures forall c :: 0 <= c < |s.calls| ==> CallOk(env, s'.facts, s'.mono, s.calls[c])
  {
    forall c | 0 <= c < |s.calls| ensures CallOk(env, s'.facts, s'.mono, s.calls[c]) {
      CallOkMonotone(env, s.calls[c], s.facts, s'.facts, s.mono, s'.mono);
    }
  }

  lemma StepKeepsCalls(env: Env, s: State, a: Action)
    requires EnvOk(env) && Inv(env, s) && CanAct(s, a) && a.Step?
    ensures var s' := Apply(env, s, a);
            forall c :: 0 <= c < |s'.calls| ==> CallOk(env, s'.facts, s'.mono, s'.calls[c])
  {
    var s' := Apply(env, s, a);
    StepMoves(env, s, a);
    CallsOkMonotone(env, s, s');
    NextCallOk(env, s, s.calls[a.c], a.storeError);
  }

  lemma StepMoves(env: Env, s: State, a: Action)
    requires CacheOk(env, s) && CanAct(s, a) && a.Step?
    ensures var s' := Apply(env, s, a);
            && s'.calls == s.calls[a.c := NextCall(env, s, s.calls[a.c], a.storeError)]
            && s'.facts == s.facts + NewFacts(env, s, s.calls[a.c], a.storeError) && s'.mono == s.mono
  {
  }

  /** As far as the cache is concerned a step does what `NextCache` says. */
  lemma StepCaches(env: Env, s: State, a: Action)
    requires CacheOk(env, s) && CanAct(s, a) && a.Step?
    ensures var t, s' := NextCache(env, s, s.calls[a.c]), Apply(env, s, a);
            && s'.sig == t.sig && s'.live == t.live && s'.sigWhy == t.sigWhy && s'.liveWhy == t.liveWhy
            && t.facts <= s'.facts && t.mono == s'.mono
  {
  }

  lemma StepKeepsCache(env: Env, s: State, a: Action)
    requires EnvOk(env) && CacheOk(env, s) && CanAct(s, a) && a.Step? && CallOk(env, s.facts, s.mono, s.calls[a.c])
    ensures CacheOk(env, Apply(env, s, a))
  {
    var t, s' := NextCache(env, s, s.calls[a.c]), Apply(env, s, a);
    NextCacheOk(env, s, s.calls[a.c]);
    StepCaches(env, s, a);
    CacheOkMonotone(env, t, s');
  }

  /** Every step of every interleaving keeps the invariant. */
  lemma ApplyKeepsInv(env: Env, s: State, a: Action)
    requires EnvOk(env) && Inv(env, s) && CanAct(s, a)
    ensures Inv(env, Apply(env, s, a))
  {
    if a.Step? {
      StepKeepsCalls(env, s, a);
      StepKeepsCache(env, s, a);
    } else {
      CallsOkMonotone(env, s, Apply(env, s, a));
      CacheOkMonotone(env, s, Apply(env, s, a));
    }
  }

  // ---- Runs -----------------------------------------------------------------------------------

  ghost predicate Next(env: Env, s: State, a: Action, s': State) {
    Inv(env, s) && CanAct(s, a) && s' == Apply(env, s, a)
  }

  /** Steps are defined on well-formed states only; that they never leave these is proved below. */
  ghost predicate IsRun(env: Env, ss: seq<State>, acts: seq<Action>) {
    && EnvOk(env) && |ss| == |acts| + 1 && Inv(env, ss[0])
    && forall t :: 0 <= t < |acts| && Inv(env, ss[t]) ==> Next(env, ss[t], acts[t], ss[t + 1])
  }

  lemma NextKeepsInv(env: Env, s: State, a: Action, s': State)
    requires EnvOk(env) && Next(env, s, a, s')
    ensures Inv(env, s')
  {
    ApplyKeepsInv(env, s, a);
  }

  lemma {:induction false} Lasts(ss: seq<State>, good: State -> bool, t: nat)
    requires t < |ss| && good(ss[0]) && forall u :: 0 <= u < |ss| - 1 && good(ss[u]) ==> good(ss[u + 1])
    ensures good(ss[t])
  {
    if t > 0 {
      Lasts(ss, good, t - 1);
      assert good(ss[t - 1 + 1]);
    }
  }

  lemma RunsKeepInv(env: Env, ss: seq<State>, acts: seq<Action>, t: nat)
    requires IsRun(env, ss, acts) && t < |ss|
    ensures Inv(env, ss[t])
  {
    forall u | 0 <= u < |ss| - 1 && Inv(env, ss[u]) ensures Inv(env, ss[u + 1]) {
      NextKeepsInv(env, ss[u], acts[u], ss[u + 1]);
    }
    Lasts(ss, s => Inv(env, s), t);
  }

  /** A server starts with an empty cache and nothing established. */
  function Start(mono: nat, wall: nat, ring: set<string>, store: map<string, Body>, capacity: nat): State {
    State(mono, wall, ring, store, Fifo(map[], [], if capacity == 0 then 1 else capacity), map[], map[], map[], [], {})
  }

  lemma StartIsWellFormed(env: Env, mono: nat, wall: nat, ring: set<string>, store: map<string, Body>, capacity: nat)
    ensures Inv(env, Start(mono, wall, ring, store, capacity))
  {
  }

  /** The fact held in that state. */
  ghost predicate Holds(env: Env, s: State, f: Fact) {
    match f
    case InRing(kid, at) => at == s.mono && kid in s.ring
    case Verified(token, unix) =>
      unix == Unix(s) && env.signed(token) && env.claims(token).Some? && unix <= env.claims(token).value.exp
    case Cached(_, mono, wall) => mono == s.mono && wall == s.wall
    case Live(key, uid, readAt, wall) =>
      readAt == s.mono && wall == s.wall && ObjectIsLive(s.store, key, uid, Unix(s))
  }

  lemma NewFactHolds(env: Env, s: State, a: Action, s': State, f: Fact)
    requires Next(env, s, a, s') && f in s'.facts && f !in s.facts
    ensures Holds(env, s, f)
  {
    assert f in NewFacts(env, s, s.calls[a.c], a.storeError);
  }

  /** A fact that appears only where it holds held somewhere. */
  lemma {:induction false} HeldWhenNew(ss: seq<State>, f: Fact, holds: State -> bool, t: nat)
    requires t < |ss| && f !in ss[0].facts && f in ss[t].facts
    requires forall u :: 0 <= u < |ss| - 1 && f in ss[u + 1].facts && f !in ss[u].facts ==> holds(ss[u])
    ensures exists u :: 0 <= u < t && holds(ss[u])
  {
    if f in ss[t - 1].facts {
      HeldWhenNew(ss, f, holds, t - 1);
    } else {
      assert f in ss[t - 1 + 1].facts;
    }
  }

  /** Facts are never made up: each was true in a state the run had passed through. */
  lemma FactsHeld(env: Env, ss: seq<State>, acts: seq<Action>, t: nat, f: Fact)
    requires IsRun(env, ss, acts) && ss[0].facts == {} && t < |ss| && f in ss[t].facts
    ensures exists u :: 0 <= u < t && Holds(env, ss[u], f)
  {
    forall u | 0 <= u < |ss| - 1 && f in ss[u + 1].facts && f !in ss[u].facts ensures Holds(env, ss[u], f) {
      RunsKeepInv(env, ss, acts, u);
      NewFactHolds(env, ss[u], acts[u], ss[u + 1], f);
    }
    HeldWhenNew(ss, f, s => Holds(env, s, f), t);
  }

  ghost predicate Held(env: Env, ss: seq<State>, t: nat, f: Fact)
    requires t < |ss|
  {
    exists u :: 0 <= u < t && Holds(env, ss[u], f)
  }

  // ---- What acceptance means ------------------------------------------------------------------

  /** The token is for one of the audiences asked for, or for the API server if none is asked for. */
  ghost predicate MeetsAudience(aud: seq<string>, audiences: seq<string>) {
    || (exists i, j :: 0 <= i < |aud| && 0 <= j < |audiences| && aud[i] == audiences[j])
    || (audiences == [] && exists i :: 0 <= i < |aud| && aud[i] == "https://kubernetes.default.svc")
  }

  ghost predicate NamesAccount(sub: string) {
    exists ns: string, name: string :: ':' !in ns && sub == "system:serviceaccount:" + ns + ":" + name
  }

  /** The object is there under that uid, and not deleted more than a minute ago. */
  ghost predicate FoundLive(s: State, key: string, uid: string) {
    && key in s.store && s.store[key].uid == Some(uid)
    && match s.store[key].deletedAt
       case None => true
       case Some(None) => false
       case Some(Some(deletedAt)) => s.wall / 1_000_000_000 - deletedAt <= 60
  }

  lemma AudienceExactly(cl: Claims, audiences: seq<string>)
    ensures AudienceOk(cl, audiences) <==> MeetsAudience(cl.aud, audiences)
  {
    var allowed := if audiences == [] then ["https://kubernetes.default.svc"] else audiences;
    if AudienceOk(cl, audiences) {
      var a :| a in cl.aud && a in allowed;
      var i :| 0 <= i < |cl.aud| && cl.aud[i] == a;
      var j :| 0 <= j < |allowed| && allowed[j] == a;
      assert cl.aud[i] == allowed[j];
    }
    if i, j :| 0 <= i < |cl.aud| && 0 <= j < |allowed| && cl.aud[i] == allowed[j] {
      assert cl.aud[i] in cl.aud && cl.aud[i] in allowed;
    } else if audiences == [] {
      assert forall i :: 0 <= i < |cl.aud| ==> cl.aud[i] != allowed[0];
    }
  }

  lemma SubjectExactly(sub: string)
    ensures SubjectOk(sub) <==> NamesAccount(sub)
  {
    SubjectOkMeaning(sub);
  }

  lemma LiveExactly(s: State, key: string, uid: string)
    ensures ObjectIsLive(s.store, key, uid, Unix(s)) <==> FoundLive(s, key, uid)
  {
  }

  lemma SubjectKeys(cl: Claims)
    ensures SubjectKey(cl, Account) == "/registry/serviceaccounts/" + cl.namespace + "/" + cl.account.name
    ensures cl.pod.Some? ==> SubjectKey(cl, BoundPod) == "/registry/pods/" + cl.namespace + "/" + cl.pod.value.name
  {
    assert "/registry/" + "serviceaccounts" + "/" == "/registry/serviceaccounts/";
    assert "/registry/" + "pods" + "/" == "/registry/pods/";
  }

  /** The object was found live by a read of this run, noted less than five seconds before the answer
      was trusted. */
  ghost predicate Trusted(ss: seq<State>, t: nat, key: string, uid: string, tr: Trust)
    requires t < |ss|
  {
    && (exists u :: 0 <= u < t && FoundLive(ss[u], key, uid) && ss[u].mono == tr.readAt && ss[u].wall == tr.wall)
    && tr.readAt <= tr.notedAt <= tr.at < tr.notedAt + 5_000_000_000
  }

  lemma TrustHeld(env: Env, ss: seq<State>, acts: seq<Action>, t: nat, cl: Claims, s: Subject, tr: Trust)
    requires IsRun(env, ss, acts) && ss[0].facts == {} && t < |ss| && TrustOk(ss[t].facts, cl, s, tr)
    ensures Trusted(ss, t, SubjectKey(cl, s), SubjectUid(cl, s), tr)
  {
    var key, uid := SubjectKey(cl, s), SubjectUid(cl, s);
    FactsHeld(env, ss, acts, t, Live(key, uid, tr.readAt, tr.wall));
    var u :| 0 <= u < t && Holds(env, ss[u], Live(key, uid, tr.readAt, tr.wall));
    LiveExactly(ss[u], key, uid);
  }

  lemma AccountHeld(env: Env, ss: seq<State>, acts: seq<Action>, t: nat, cl: Claims, tr: Trust)
    requires IsRun(env, ss, acts) && ss[0].facts == {} && t < |ss| && TrustOk(ss[t].facts, cl, Account, tr)
    ensures Trusted(ss, t, "/registry/serviceaccounts/" + cl.namespace + "/" + cl.account.name, cl.account.uid, tr)
  {
    TrustHeld(env, ss, acts, t, cl, Account, tr);
    SubjectKeys(cl);
  }

  lemma PodHeld(env: Env, ss: seq<State>, acts: seq<Action>, t: nat, cl: Claims, tr: Trust)
    requires IsRun(env, ss, acts) && ss[0].facts == {} && t < |ss| && TrustOk(ss[t].facts, cl, BoundPod, tr)
    requires cl.pod.Some?
    ensures Trusted(ss, t, "/registry/pods/" + cl.namespace + "/" + cl.pod.value.name, cl.pod.value.uid, tr)
  {
    TrustHeld(env, ss, acts, t, cl, BoundPod, tr);
    SubjectKeys(cl);
  }

  /** In every run of clock ticks, clock corrections, key rotations, store writes and interleaved
      calls, an accepted token's key was in the ring during this call, the token was once fully
      verified before its expiry, its audience meets this call's list, its subject names a
      ServiceAccount, and this ServiceAccount, and its Pod if bound, were found live under the very
      uid by a store read that was noted less than five seconds before this call trusted it. */
  lemma AcceptedTokenWasChecked(env: Env, ss: seq<State>, acts: seq<Action>, t: nat, c: nat)
    requires IsRun(env, ss, acts) && ss[0].facts == {} && t < |ss|
    requires c < |ss[t].calls| && ss[t].calls[c].phase.Accepted?
    ensures var call := ss[t].calls[c];
            var cl := call.phase.cl;
            && env.claims(call.token) == Some(cl)
            && env.kid(call.token).Some? && Held(env, ss, t, InRing(env.kid(call.token).value, call.ringAt))
            && call.proof.Some? && Held(env, ss, t, Verified(call.token, call.proof.value.unix))
            && call.arrived <= call.ringAt <= call.sigAt
            && MeetsAudience(cl.aud, call.audiences) && NamesAccount(cl.sub)
            && call.account.Some?
            && Trusted(ss, t, "/registry/serviceaccounts/" + cl.namespace + "/" + cl.account.name, cl.account.uid,
                       call.account.value)
            && call.sigAt <= call.account.value.at <= call.doneAt
            && (cl.pod.Some? ==>
                  call.pod.Some?
                  && Trusted(ss, t, "/registry/pods/" + cl.namespace + "/" + cl.pod.value.name, cl.pod.value.uid,
                             call.pod.value))
  {
    RunsKeepInv(env, ss, acts, t);
    var call := ss[t].calls[c];
    assert CallOk(env, ss[t].facts, ss[t].mono, call);
    FactsHeld(env, ss, acts, t, InRing(env.kid(call.token).value, call.ringAt));
    FactsHeld(env, ss, acts, t, Verified(call.token, call.proof.value.unix));
    AudienceExactly(call.phase.cl, call.audiences);
    SubjectExactly(call.phase.cl.sub);
    AccountHeld(env, ss, acts, t, call.phase.cl, call.account.value);
    if call.phase.cl.pod.Some? {
      PodHeld(env, ss, acts, t, call.phase.cl, call.pod.value);
    }
  }

  /** A call whose token is verified is rejected at the inspection exactly when the token is not for
      its audience or names no ServiceAccount, and otherwise goes on to its ServiceAccount. */
  lemma InspectionExactly(env: Env, ss: seq<State>, acts: seq<Action>, t: nat, c: nat, storeError: bool)
    requires IsRun(env, ss, acts) && t < |acts| && acts[t] == Step(c, storeError)
    requires c < |ss[t].calls| && ss[t].calls[c].phase.Inspect?
    ensures c < |ss[t + 1].calls|
    ensures var call, next := ss[t].calls[c], ss[t + 1].calls[c];
            var cl := call.phase.cl;
            && (next.phase.Rejected? <==> !MeetsAudience(cl.aud, call.audiences) || !NamesAccount(cl.sub))
            && (!next.phase.Rejected? ==> next.phase == CheckMemo(cl, Account))
  {
    RunsKeepInv(env, ss, acts, t);
    assert Next(env, ss[t], acts[t], ss[t + 1]);
    var call := ss[t].calls[c];
    AudienceExactly(call.phase.cl, call.audiences);
    SubjectExactly(call.phase.cl.sub);
  }
}
