/** The other half of the token check: a token with nothing wrong is not turned away. */
module SaCompleteness {
  import opened Prelude
  import opened SaNames
  import opened SaTokens

  /** Everything the check looks at, at the moment it looks. */
  ghost predicate Favourable(env: Env, s: State, call: Call) {
    && env.kid(call.token).Some? && env.kid(call.token).value in s.ring
    && env.signed(call.token) && env.claims(call.token).Some?
    && var cl := env.claims(call.token).value;
       && s.wall / 1_000_000_000 <= cl.exp && MeetsAudience(cl.aud, call.audiences) && NamesAccount(cl.sub)
       && FoundLive(s, "/registry/serviceaccounts/" + cl.namespace + "/" + cl.account.name, cl.account.uid)
       && (cl.pod.Some? ==>
             FoundLive(s, "/registry/pods/" + cl.namespace + "/" + cl.pod.value.name, cl.pod.value.uid))
  }

  /** The most steps a call can still take. */
  function StepsLeft(p: Phase): nat {
    match p
    case Resolve => 11
    case Lookup => 10
    case Verify => 9
    case Remember(_, _) => 8
    case Inspect(_) => 7
    case CheckMemo(_, s) => if s.Account? then 6 else 3
    case Read(_, s) => if s.Account? then 5 else 2
    case Note(_, s, _, _) => if s.Account? then 4 else 1
    case Accepted(_) => 0
    case Rejected => 0
  }

  /** The claims a call works with are those of its token, and a Pod is checked only if one is bound. */
  ghost predicate Faithful(env: Env, call: Call) {
    match call.phase
    case Remember(cl, _) => env.claims(call.token) == Some(cl)
    case Inspect(cl) => env.claims(call.token) == Some(cl)
    case CheckMemo(cl, s) => env.claims(call.token) == Some(cl) && (s.BoundPod? ==> cl.pod.Some?)
    case Read(cl, s) => env.claims(call.token) == Some(cl) && (s.BoundPod? ==> cl.pod.Some?)
    case Note(cl, s, _, _) => env.claims(call.token) == Some(cl) && (s.BoundPod? ==> cl.pod.Some?)
    case _ => true
  }

  lemma CallIsFaithful(env: Env, facts: set<Fact>, mono: nat, call: Call)
    requires CallOk(env, facts, mono, call)
    ensures Faithful(env, call)
  {
  }

  ghost predicate Nearer(call: Call, d: Call) {
    !d.phase.Rejected? && StepsLeft(d.phase) < StepsLeft(call.phase)
  }

  lemma FavourableSignature(env: Env, s: State, call: Call)
    requires Favourable(env, s, call) && Faithful(env, call)
    requires call.phase.Resolve? || call.phase.Lookup? || call.phase.Verify? || call.phase.Remember?
    ensures Nearer(call, NextCall(env, s, call, false))
  {
  }

  lemma FavourableClaims(env: Env, s: State, call: Call)
    requires Favourable(env, s, call)
    ensures var cl := env.claims(call.token).value; AudienceOk(cl, call.audiences) && SubjectOk(cl.sub)
  {
    AudienceExactly(env.claims(call.token).value, call.audiences);
    SubjectExactly(env.claims(call.token).value.sub);
  }

  lemma InspectionPasses(env: Env, s: State, call: Call)
    requires call.phase.Inspect? && AudienceOk(call.phase.cl, call.audiences) && SubjectOk(call.phase.cl.sub)
    ensures Nearer(call, NextCall(env, s, call, false))
  {
  }

  lemma FavourableObject(env: Env, s: State, call: Call, sub: Subject)
    requires Favourable(env, s, call) && (sub.BoundPod? ==> env.claims(call.token).value.pod.Some?)
    ensures var cl := env.claims(call.token).value;
            ObjectIsLive(s.store, SubjectKey(cl, sub), SubjectUid(cl, sub), Unix(s))
  {
    var cl := env.claims(call.token).value;
    SubjectKeys(cl);
    LiveExactly(s, SubjectKey(cl, sub), SubjectUid(cl, sub));
  }

  lemma FavourableRead(env: Env, s: State, call: Call)
    requires Favourable(env, s, call) && Faithful(env, call) && call.phase.Read?
    ensures Nearer(call, NextCall(env, s, call, false))
  {
    var cl, sub := call.phase.cl, call.phase.s;
    FavourableObject(env, s, call, sub);
    assert Live(SubjectKey(cl, sub), SubjectUid(cl, sub), s.mono, s.wall) in NewFacts(env, s, call, false);
  }

  lemma FavourableNote(env: Env, s: State, call: Call)
    requires call.phase.CheckMemo? || call.phase.Note?
    ensures Nearer(call, NextCall(env, s, call, false))
  {
  }

  /** How often the actions from `t0` to `t` step call `c`. */
  function OwnSteps(acts: seq<Action>, c: nat, t0: nat, t: nat): nat
    requires t0 <= t <= |acts|
  {
    if t == t0 then 0 else OwnSteps(acts, c, t0, t - 1) + (if acts[t - 1].Step? && acts[t - 1].c == c then 1 else 0)
  }

  /** The step of a call is favourable: no store error, and everything in order at that moment. */
  ghost predicate Kind(env: Env, s: State, a: Action, c: nat) {
    a.Step? && a.c == c && c < |s.calls| ==> !a.storeError && Favourable(env, s, s.calls[c])
  }

  lemma NextCallOf(env: Env, s: State, a: Action, s': State, c: nat)
    requires Next(env, s, a, s') && c < |s.calls|
    ensures c < |s'.calls| && Faithful(env, s.calls[c])
    ensures if a.Step? && a.c == c then
              !s.calls[c].phase.Accepted? && !s.calls[c].phase.Rejected?
              && s'.calls[c] == NextCall(env, s, s.calls[c], a.storeError)
            else s'.calls[c] == s.calls[c]
  {
    CallIsFaithful(env, s.facts, s.mono, s.calls[c]);
  }

  /** A step in favourable circumstances brings the call nearer to its end and never rejects it. */
  lemma KindStep(env: Env, s: State, a: Action, s': State, c: nat)
    requires Next(env, s, a, s') && c < |s.calls| && Kind(env, s, a, c) && !s.calls[c].phase.Rejected?
    ensures c < |s'.calls| && !s'.calls[c].phase.Rejected?
    ensures var own := if a.Step? && a.c == c then 1 else 0;
            StepsLeft(s'.calls[c].phase) + own <= StepsLeft(s.calls[c].phase)
  {
    NextCallOf(env, s, a, s', c);
    if a.Step? && a.c == c {
      if s.calls[c].phase.CheckMemo? || s.calls[c].phase.Note? {
        FavourableNote(env, s, s.calls[c]);
      } else if s.calls[c].phase.Read? {
        FavourableRead(env, s, s.calls[c]);
      } else if s.calls[c].phase.Inspect? {
        FavourableClaims(env, s, s.calls[c]);
        InspectionPasses(env, s, s.calls[c]);
      } else {
        FavourableSignature(env, s, s.calls[c]);
      }
    }
  }

  /** From `s` to `s'` call `c` comes no further from its end, and nearer if the step was its own. */
  ghost predicate Advances(s: State, a: Action, s': State, c: nat) {
    c < |s.calls| && !s.calls[c].phase.Rejected? ==>
      && c < |s'.calls| && !s'.calls[c].phase.Rejected?
      && StepsLeft(s'.calls[c].phase) + (if a.Step? && a.c == c then 1 else 0) <= StepsLeft(s.calls[c].phase)
  }

  lemma {:induction false} Descends(ss: seq<State>, acts: seq<Action>, c: nat, t0: nat, t: nat)
    requires |ss| == |acts| + 1 && t0 <= t < |ss| && c < |ss[t0].calls| && !ss[t0].calls[c].phase.Rejected?
    requires forall u :: t0 <= u < t ==> Advances(ss[u], acts[u], ss[u + 1], c)
    ensures c < |ss[t].calls| && !ss[t].calls[c].phase.Rejected?
    ensures OwnSteps(acts, c, t0, t) + StepsLeft(ss[t].calls[c].phase) <= StepsLeft(ss[t0].calls[c].phase)
  {
    if t > t0 {
      Descends(ss, acts, c, t0, t - 1);
      assert Advances(ss[t - 1], acts[t - 1], ss[t - 1 + 1], c);
    }
  }

  /** Whatever else happens, a call whose own steps are favourable is never rejected: it can always
      step on until it is accepted, and that takes at most eleven steps of its own. */
  lemma GoodTokenIsAccepted(env: Env, ss: seq<State>, acts: seq<Action>, c: nat, t0: nat, t: nat)
    requires IsRun(env, ss, acts) && t0 <= t < |ss|
    requires c < |ss[t0].calls| && ss[t0].calls[c].phase.Resolve?
    requires forall u :: t0 <= u < t ==> Kind(env, ss[u], acts[u], c)
    ensures c < |ss[t].calls| && !ss[t].calls[c].phase.Rejected?
    ensures OwnSteps(acts, c, t0, t) + StepsLeft(ss[t].calls[c].phase) <= 11
    ensures ss[t].calls[c].phase.Accepted? || CanAct(ss[t], Step(c, false))
  {
    forall u | t0 <= u < t ensures Advances(ss[u], acts[u], ss[u + 1], c) {
      RunsKeepInv(env, ss, acts, u);
      if c < |ss[u].calls| && !ss[u].calls[c].phase.Rejected? {
        KindStep(env, ss[u], acts[u], ss[u + 1], c);
      }
    }
    Descends(ss, acts, c, t0, t);
  }
}
