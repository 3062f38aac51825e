/**
 How long an accepted token can outlive its own expiry, or the object it is bound to. The bounds
 hold over every run and name every delay and every forward jump of the wall clock that matters.
 */
module SaClocks {
  import opened Prelude
  import opened SigCache
  import opened SaTokens

  /** How far an action sets the wall clock forward. */
  function Rise(s: State, a: Action): nat {
    if a.SetWall? && a.wall > s.wall then a.wall - s.wall else 0
  }

  /** The forward jumps of the first `t` actions. */
  function TotalRise(ss: seq<State>, acts: seq<Action>, t: nat): nat
    requires t <= |acts| < |ss|
  {
    if t == 0 then 0 else TotalRise(ss, acts, t - 1) + Rise(ss[t - 1], acts[t - 1])
  }

  // ---- What a step does to the clocks and to the stamps of a call -------------------------------

  predicate SameSignature(a: Call, b: Call) {
    a.token == b.token && a.proof == b.proof && a.sigAt == b.sigAt && a.sigWall == b.sigWall
  }

  /** A step stamps the signature only in `Lookup` and `Verify`, and the end only when it accepts. */
  predicate Stamps(mono: nat, wall: nat, before: Call, after: Call) {
    && !before.phase.Accepted?
    && (SameSignature(before, after)
        || (after.sigAt == mono && after.sigWall == wall && (after.phase.Inspect? || after.phase.Remember?)))
    && (after.phase.Accepted? ==> after.doneAt == mono && after.doneWall == wall)
  }

  predicate CallMoves(s: State, s': State, c: nat)
    requires c < |s'.calls|
  {
    if c < |s.calls| then s'.calls[c] == s.calls[c] || Stamps(s.mono, s.wall, s.calls[c], s'.calls[c])
    else s'.calls[c].phase.Resolve? && s'.calls[c].proof.None?
  }

  ghost predicate Moves(s: State, a: Action, s': State) {
    && s.mono <= s'.mono && s'.wall - s'.mono <= s.wall - s.mono + Rise(s, a)
    && forall c: nat :: c < |s'.calls| ==> CallMoves(s, s', c)
  }

  ghost predicate Moving(ss: seq<State>, acts: seq<Action>) {
    && |ss| == |acts| + 1 && ss[0].calls == []
    && forall t :: 0 <= t < |acts| ==> Moves(ss[t], acts[t], ss[t + 1])
  }

  lemma SignatureStamps(env: Env, s: State, call: Call, storeError: bool)
    requires call.phase.Resolve? || call.phase.Lookup? || call.phase.Verify?
    ensures Stamps(s.mono, s.wall, call, NextCall(env, s, call, storeError))
  {
  }

  lemma LivenessStamps(env: Env, s: State, call: Call, storeError: bool)
    requires call.phase.CheckMemo? || call.phase.Note?
    ensures Stamps(s.mono, s.wall, call, NextCall(env, s, call, storeError))
  {
  }

  lemma PlainStamps(env: Env, s: State, call: Call, storeError: bool)
    requires call.phase.Remember? || call.phase.Inspect? || call.phase.Read? || call.phase.Rejected?
    ensures Stamps(s.mono, s.wall, call, NextCall(env, s, call, storeError))
  {
  }

  lemma NextCallStamps(env: Env, s: State, call: Call, storeError: bool)
    requires !call.phase.Accepted?
    ensures Stamps(s.mono, s.wall, call, NextCall(env, s, call, storeError))
  {
    if call.phase.Resolve? || call.phase.Lookup? || call.phase.Verify? {
      SignatureStamps(env, s, call, storeError);
    } else if call.phase.CheckMemo? || call.phase.Note? {
      LivenessStamps(env, s, call, storeError);
    } else {
      PlainStamps(env, s, call, storeError);
    }
  }

  lemma NextMoves(env: Env, s: State, a: Action, s': State)
    requires Next(env, s, a, s')
    ensures Moves(s, a, s')
  {
    if a.Step? {
      NextCallStamps(env, s, s.calls[a.c], a.storeError);
    }
  }

  lemma RunsMove(env: Env, ss: seq<State>, acts: seq<Action>)
    requires IsRun(env, ss, acts) && ss[0].calls == []
    ensures Moving(ss, acts)
  {
    forall t | 0 <= t < |acts| ensures Moves(ss[t], acts[t], ss[t + 1]) {
      RunsKeepInv(env, ss, acts, t);
      NextMoves(env, ss[t], acts[t], ss[t + 1]);
    }
  }

  /** The wall clock gains on the monotonic clock by forward jumps only. */
  lemma {:induction false} WallGains(ss: seq<State>, acts: seq<Action>, u: nat, t: nat)
    requires Moving(ss, acts) && u <= t < |ss|
    ensures ss[u].mono <= ss[t].mono && TotalRise(ss, acts, u) <= TotalRise(ss, acts, t)
    ensures ss[t].wall - ss[t].mono <= ss[u].wall - ss[u].mono + TotalRise(ss, acts, t) - TotalRise(ss, acts, u)
  {
    if u < t {
      WallGains(ss, acts, u, t - 1);
      assert Moves(ss[t - 1], acts[t - 1], ss[t - 1 + 1]);
    }
  }

  /** The step that accepted a call. */
  lemma {:induction false} AcceptedMoment(ss: seq<State>, acts: seq<Action>, t: nat, c: nat) returns (u: nat)
    requires Moving(ss, acts) && t < |ss| && c < |ss[t].calls| && ss[t].calls[c].phase.Accepted?
    ensures u < t && c < |ss[u + 1].calls| && ss[u + 1].calls[c] == ss[t].calls[c]
    ensures ss[u].mono == ss[t].calls[c].doneAt && ss[u].wall == ss[t].calls[c].doneWall
  {
    assert Moves(ss[t - 1], acts[t - 1], ss[t - 1 + 1]);
    assert CallMoves(ss[t - 1], ss[t], c);
    if ss[t - 1].calls[c] == ss[t].calls[c] {
      u := AcceptedMoment(ss, acts, t - 1, c);
    } else {
      u := t - 1;
    }
  }

  /** The step that accepted a call's signature. */
  lemma {:induction false} SignedMoment(ss: seq<State>, acts: seq<Action>, t: nat, c: nat) returns (u: nat)
    requires Moving(ss, acts) && t < |ss| && c < |ss[t].calls| && ss[t].calls[c].proof.Some?
    ensures u < t && c < |ss[u + 1].calls| && SameSignature(ss[u + 1].calls[c], ss[t].calls[c])
    ensures ss[u + 1].calls[c].phase.Inspect? || ss[u + 1].calls[c].phase.Remember?
    ensures ss[u].mono == ss[t].calls[c].sigAt && ss[u].wall == ss[t].calls[c].sigWall
  {
    assert Moves(ss[t - 1], acts[t - 1], ss[t - 1 + 1]);
    assert CallMoves(ss[t - 1], ss[t], c);
    if SameSignature(ss[t - 1].calls[c], ss[t].calls[c]) {
      u := SignedMoment(ss, acts, t - 1, c);
    } else {
      u := t - 1;
    }
  }

  // ---- Expiry ---------------------------------------------------------------------------------

  /** A hit is served less than `exp` after caching on the monotonic clock, so on the wall clock it
      is late by no more than the clock was set forward. */
  lemma HitNearExpiry(exp: nat, cachedMono: nat, cachedWall: nat, sigAt: nat, sigWall: nat, rise: nat)
    requires cachedMono <= sigAt < CappedExpiry(exp, cachedWall / SECOND, cachedMono)
    requires sigWall - sigAt <= cachedWall - cachedMono + rise
    ensures sigWall + 2 <= (exp + 1) * SECOND + rise
  {
    var q := cachedWall / SECOND;
    assert q < exp;
    assert sigAt < cachedMono + (exp - q) * SECOND;
    assert cachedWall < (q + 1) * SECOND;
  }

  /** The lateness that forward jumps of `rise` in all can cause. */
  function Lateness(rise: nat): nat { if rise > 1 then rise - 1 else 0 }

  lemma AcceptedSignature(env: Env, ss: seq<State>, acts: seq<Action>, t: nat, c: nat)
    requires IsRun(env, ss, acts) && t < |ss| && c < |ss[t].calls| && ss[t].calls[c].phase.Accepted?
    ensures ss[t].calls[c].proof.Some? && env.claims(ss[t].calls[c].token) == Some(ss[t].calls[c].phase.cl)
  {
    RunsKeepInv(env, ss, acts, t);
    assert CallOk(env, ss[t].facts, ss[t].mono, ss[t].calls[c]);
  }

  /** What the signature rested on when it was accepted. */
  lemma SignatureHeld(env: Env, ss: seq<State>, acts: seq<Action>, t: nat, c: nat)
    requires IsRun(env, ss, acts) && ss[0].facts == {} && t < |ss| && c < |ss[t].calls|
    requires ss[t].calls[c].phase.Inspect? || ss[t].calls[c].phase.Remember?
    ensures var call := ss[t].calls[c];
            && call.proof.Some? && env.claims(call.token).Some?
            && var exp, p := env.claims(call.token).value.exp, call.proof.value;
               || call.sigWall / SECOND <= exp
               || (p.cachedMono <= call.sigAt < CappedExpiry(exp, p.cachedWall / SECOND, p.cachedMono)
                   && exists w :: 0 <= w < t && ss[w].mono == p.cachedMono && ss[w].wall == p.cachedWall)
  {
    var call := ss[t].calls[c];
    RunsKeepInv(env, ss, acts, t);
    assert CallOk(env, ss[t].facts, ss[t].mono, call);
    var p := call.proof.value;
    if call.sigWall / SECOND > env.claims(call.token).value.exp {
      FactsHeld(env, ss, acts, t, Cached(call.token, p.cachedMono, p.cachedWall));
    }
  }

  lemma SignedNearExpiry(env: Env, ss: seq<State>, acts: seq<Action>, t: nat, c: nat) returns (u: nat)
    requires IsRun(env, ss, acts) && ss[0].calls == [] && ss[0].facts == {} && t < |ss|
    requires c < |ss[t].calls| && ss[t].calls[c].phase.Accepted?
    ensures var call := ss[t].calls[c];
            && u < t && ss[u].mono == call.sigAt && ss[u].wall == call.sigWall
            && call.sigWall < (call.phase.cl.exp + 1) * SECOND + Lateness(TotalRise(ss, acts, u))
  {
    var call := ss[t].calls[c];
    RunsMove(env, ss, acts);
    AcceptedSignature(env, ss, acts, t, c);
    u := SignedMoment(ss, acts, t, c);
    SignatureHeld(env, ss, acts, u + 1, c);
    var p := call.proof.value;
    if call.sigWall / SECOND > call.phase.cl.exp {
      var w :| 0 <= w < u + 1 && ss[w].mono == p.cachedMono && ss[w].wall == p.cachedWall;
      WallGains(ss, acts, w, u);
      HitNearExpiry(call.phase.cl.exp, p.cachedMono, p.cachedWall, call.sigAt, call.sigWall, TotalRise(ss, acts, u));
    } else {
      assert call.sigWall < (call.sigWall / SECOND + 1) * SECOND;
    }
  }

  /** Over every run: a token's signature is accepted no later than its `exp`, plus what the wall
      clock was set forward beyond one nanosecond, and the call is accepted no later than that plus
      the time its own liveness checks took. */
  lemma AcceptedNearExpiry(env: Env, ss: seq<State>, acts: seq<Action>, t: nat, c: nat)
    requires IsRun(env, ss, acts) && ss[0].calls == [] && ss[0].facts == {} && t < |ss|
    requires c < |ss[t].calls| && ss[t].calls[c].phase.Accepted?
    ensures var call, rise := ss[t].calls[c], TotalRise(ss, acts, t);
            && call.sigWall < (call.phase.cl.exp + 1) * SECOND + Lateness(rise)
            && call.doneWall < (call.phase.cl.exp + 1) * SECOND + rise + (call.doneAt - call.sigAt)
  {
    RunsMove(env, ss, acts);
    var v := AcceptedMoment(ss, acts, t, c);
    var u := SignedNearExpiry(env, ss, acts, v + 1, c);
    WallGains(ss, acts, u, v);
    WallGains(ss, acts, v, t);
  }

  /** So no token is accepted past its `exp` while the wall clock is never set forward. */
  lemma AcceptedBeforeExpiry(env: Env, ss: seq<State>, acts: seq<Action>, t: nat, c: nat)
    requires IsRun(env, ss, acts) && ss[0].calls == [] && ss[0].facts == {} && t < |ss|
    requires c < |ss[t].calls| && ss[t].calls[c].phase.Accepted?
    requires forall u :: 0 <= u < |acts| && acts[u].SetWall? ==> acts[u].wall <= ss[u].wall
    ensures ss[t].calls[c].sigWall / SECOND <= ss[t].calls[c].phase.cl.exp
  {
    NoJumpNoRise(ss, acts, t);
    AcceptedNearExpiry(env, ss, acts, t, c);
  }

  lemma {:induction false} NoJumpNoRise(ss: seq<State>, acts: seq<Action>, t: nat)
    requires t <= |acts| < |ss|
    requires forall u :: 0 <= u < |acts| && acts[u].SetWall? ==> acts[u].wall <= ss[u].wall
    ensures TotalRise(ss, acts, t) == 0
  {
    if t > 0 {
      NoJumpNoRise(ss, acts, t - 1);
    }
  }

  // ---- Revocation -----------------------------------------------------------------------------

  /** The liveness answer an accepted call rests on. */
  function Answer(call: Call, s: Subject): Option<Trust> { if s.Account? then call.account else call.pod }

  /** How long after the read of `s` the call was accepted, apart from the TTL: the read had to be
      noted, by this call or the one that left the memo, and for the ServiceAccount of a bound token
      the Pod had to be checked as well. */
  function Delay(call: Call, tr: Trust): int { (tr.notedAt - tr.readAt) + (call.doneAt - tr.at) }

  ghost predicate AnswerOk(env: Env, s: State, call: Call, cl: Claims, sub: Subject) {
    && Answer(call, sub).Some?
    && var tr := Answer(call, sub).value;
       && Holds(env, s, Live(SubjectKey(cl, sub), SubjectUid(cl, sub), tr.readAt, tr.wall))
       && tr.readAt <= tr.notedAt <= tr.at < tr.notedAt + LIVENESS_TTL && tr.at <= call.doneAt
  }

  lemma AnswerHeld(env: Env, ss: seq<State>, acts: seq<Action>, t: nat, c: nat, s: Subject) returns (u: nat)
    requires IsRun(env, ss, acts) && ss[0].facts == {} && t < |ss|
    requires c < |ss[t].calls| && ss[t].calls[c].phase.Accepted?
    requires s.BoundPod? ==> ss[t].calls[c].phase.cl.pod.Some?
    ensures u < t && AnswerOk(env, ss[u], ss[t].calls[c], ss[t].calls[c].phase.cl, s)
  {
    var call := ss[t].calls[c];
    RunsKeepInv(env, ss, acts, t);
    assert CallOk(env, ss[t].facts, ss[t].mono, call);
    var tr := Answer(call, s).value;
    assert TrustOk(ss[t].facts, call.phase.cl, s, tr);
    var f := Live(SubjectKey(call.phase.cl, s), SubjectUid(call.phase.cl, s), tr.readAt, tr.wall);
    FactsHeld(env, ss, acts, t, f);
    u :| 0 <= u < t && Holds(env, ss[u], f);
  }

  /** Over every run: if from monotonic time `x` on the ServiceAccount, or the bound Pod, is not live
      (gone, recreated, or deleted longer ago than the leeway), then no call is accepted on it later
      than `x` plus the TTL plus the delay in noting the read it rests on, by whichever call, and the
      time this call then spent on its Pod. */
  lemma AcceptanceEndsAfterRevocation(env: Env, ss: seq<State>, acts: seq<Action>, t: nat, c: nat, s: Subject, x: nat)
    requires IsRun(env, ss, acts) && ss[0].calls == [] && ss[0].facts == {} && t < |ss|
    requires c < |ss[t].calls| && ss[t].calls[c].phase.Accepted?
    requires s.BoundPod? ==> ss[t].calls[c].phase.cl.pod.Some?
    requires var cl := ss[t].calls[c].phase.cl;
             forall u :: 0 <= u < t && x <= ss[u].mono ==>
               !ObjectIsLive(ss[u].store, SubjectKey(cl, s), SubjectUid(cl, s), Unix(ss[u]))
    ensures var call := ss[t].calls[c];
            Answer(call, s).Some? && call.doneAt + 2 <= x + LIVENESS_TTL + Delay(call, Answer(call, s).value)
  {
    var u := AnswerHeld(env, ss, acts, t, c, s);
  }

  /** Absent, another incarnation, or marked for deletion no later than Unix second `d`. */
  predicate DeletedBy(store: map<string, Body>, key: string, uid: string, d: int) {
    || key !in store
    || store[key].uid != Some(uid)
    || (store[key].deletedAt.Some? && (store[key].deletedAt.value.None? || store[key].deletedAt.value.value <= d))
  }

  /** Over every run: an object deleted at `d` carries no acceptance, by the wall clock, beyond
      `d` plus the leeway of 60 seconds (to the end of that second), the TTL, the same two delays and
      the forward jumps of the wall clock. */
  lemma AcceptanceEndsAfterDeletion(env: Env, ss: seq<State>, acts: seq<Action>, t: nat, c: nat, s: Subject, d: int)
    requires IsRun(env, ss, acts) && ss[0].calls == [] && ss[0].facts == {} && t < |ss|
    requires c < |ss[t].calls| && ss[t].calls[c].phase.Accepted?
    requires s.BoundPod? ==> ss[t].calls[c].phase.cl.pod.Some?
    requires var cl := ss[t].calls[c].phase.cl;
             forall u :: 0 <= u < t && d + DELETION_LEEWAY < Unix(ss[u]) ==>
               DeletedBy(ss[u].store, SubjectKey(cl, s), SubjectUid(cl, s), d)
    ensures var call := ss[t].calls[c];
            Answer(call, s).Some? &&
            call.doneWall + 2 <= (d + DELETION_LEEWAY + 1) * SECOND + LIVENESS_TTL
                                 + Delay(call, Answer(call, s).value) + TotalRise(ss, acts, t)
  {
    RunsMove(env, ss, acts);
    var v := AcceptedMoment(ss, acts, t, c);
    var u := AnswerHeld(env, ss, acts, v + 1, c, s);
    WallGains(ss, acts, u, v);
    WallGains(ss, acts, v, t);
    assert Unix(ss[u]) <= d + DELETION_LEEWAY;
    assert ss[u].wall < (Unix(ss[u]) + 1) * SECOND <= (d + DELETION_LEEWAY + 1) * SECOND;
  }
}
