/** ServiceAccount signing keys: rotation with an overlap, so no token loses its key early. */
module SaKeyring {
  import opened Prelude

  datatype KeyEntry = KeyEntry(kid: string, signFrom: int)

  /** Durations in seconds. */
  datatype Policy = Policy(rotateAfter: nat, prepublish: nat, maxLifetime: nat, margin: nat)

  predicate PolicyOk(p: Policy) { p.prepublish < p.rotateAfter }

  function RetireAfter(p: Policy): nat { p.maxLifetime + p.margin }

  /** Never empty, in strictly increasing order of first signing, no kid twice. */
  ghost predicate KeysOk(keys: seq<KeyEntry>) {
    && keys != []
    && (forall i, j :: 0 <= i < j < |keys| ==> keys[i].signFrom < keys[j].signFrom)
    && (forall i, j :: 0 <= i < j < |keys| ==> keys[i].kid != keys[j].kid)
  }

  predicate HasKid(keys: seq<KeyEntry>, kid: string) {
    exists i :: 0 <= i < |keys| && keys[i].kid == kid
  }

  /** How many of the oldest keys are dropped: each one whose successor has been signing for
      longer than any token of its own can live. */
  function Retirable(keys: seq<KeyEntry>, now: int, p: Policy): (n: nat)
    ensures n == 0 || n < |keys|
  {
    if |keys| >= 2 && keys[1].signFrom + RetireAfter(p) <= now then 1 + Retirable(keys[1..], now, p) else 0
  }

  function Retired(keys: seq<KeyEntry>, now: int, p: Policy): seq<KeyEntry> {
    keys[Retirable(keys, now, p)..]
  }

  lemma {:induction false} RetirableMeaning(keys: seq<KeyEntry>, now: int, p: Policy)
    ensures var n := Retirable(keys, now, p); n > 0 ==> keys[n].signFrom + RetireAfter(p) <= now
  {
    if |keys| >= 2 && keys[1].signFrom + RetireAfter(p) <= now {
      RetirableMeaning(keys[1..], now, p);
    }
  }

  predicate SuccessorDue(keys: seq<KeyEntry>, now: int, p: Policy) {
    var newest := if keys == [] then now else keys[|keys| - 1].signFrom;
    newest + p.rotateAfter - p.prepublish <= now
  }

  function SuccessorStart(keys: seq<KeyEntry>, now: int, p: Policy): int {
    var newest := if keys == [] then now else keys[|keys| - 1].signFrom;
    if newest + p.rotateAfter >= now + p.prepublish then newest + p.rotateAfter else now + p.prepublish
  }

  function Planned(keys: seq<KeyEntry>, now: int, p: Policy, newKid: string): seq<KeyEntry> {
    var kept := Retired(keys, now, p);
    if SuccessorDue(kept, now, p) then kept + [KeyEntry(newKid, SuccessorStart(kept, now, p))] else kept
  }

  /** The last key allowed to sign at `now`, or the first key. */
  function SignerIndex(keys: seq<KeyEntry>, now: int): (r: nat)
    ensures keys != [] ==> r < |keys|
    ensures r < |keys| && keys[r].signFrom > now ==> r == 0
  {
    if keys == [] then 0
    else if keys[|keys| - 1].signFrom <= now then |keys| - 1
    else if |keys| == 1 then 0
    else SignerIndex(keys[..|keys| - 1], now)
  }

  lemma {:induction false} SignerIsLastStarted(keys: seq<KeyEntry>, now: int)
    requires KeysOk(keys)
    ensures var r := SignerIndex(keys, now); r + 1 < |keys| ==> now < keys[r + 1].signFrom
  {
    if keys[|keys| - 1].signFrom > now && |keys| > 1 {
      SignerIsLastStarted(keys[..|keys| - 1], now);
    }
  }

  lemma PlannedOk(keys: seq<KeyEntry>, now: int, p: Policy, newKid: string)
    requires KeysOk(keys) && PolicyOk(p) && !HasKid(keys, newKid)
    ensures KeysOk(Planned(keys, now, p, newKid))
  {
    assert KeysOk(Retired(keys, now, p));
    assert forall i :: 0 <= i < |Retired(keys, now, p)| ==> Retired(keys, now, p)[i].kid != newKid;
  }

  /** A successor is published for verification at least `prepublish` before it may sign. */
  lemma SuccessorIsPrepublished(keys: seq<KeyEntry>, now: int, p: Policy, newKid: string, later: int)
    requires KeysOk(keys) && PolicyOk(p) && !HasKid(keys, newKid)
    ensures var next := Planned(keys, now, p, newKid);
            next != [] && next[SignerIndex(next, later)].kid == newKid ==> now + p.prepublish <= later
  {
    var next := Planned(keys, now, p, newKid);
    var kept := Retired(keys, now, p);
    assert forall i :: 0 <= i < |kept| ==> kept[i].kid != newKid;
    var i := SignerIndex(next, later);
    assert i < |kept| ==> next[i] == kept[i];
  }

  /** What `plan` does to the vector in place. */
  method Plan(keys: seq<KeyEntry>, now: int, p: Policy, newKid: string) returns (next: seq<KeyEntry>, changed: bool)
    ensures next == Planned(keys, now, p, newKid)
    ensures !changed ==> next == keys
  {
    next, changed := keys, false;
    ghost var n := 0;
    while |next| >= 2 && next[1].signFrom + RetireAfter(p) <= now
      invariant n <= |keys| && next == keys[n..]
      invariant Retirable(keys, now, p) == n + Retirable(next, now, p)
      invariant !changed ==> n == 0
      decreases |next|
    {
      next, changed, n := next[1..], true, n + 1;
    }
    var newest := if next == [] then now else next[|next| - 1].signFrom;
    if newest + p.rotateAfter - p.prepublish <= now {
      var start := newest + p.rotateAfter;
      if start < now + p.prepublish {
        start := now + p.prepublish;
      }
      next, changed := next + [KeyEntry(newKid, start)], true;
    }
  }

  // ---- Runs -----------------------------------------------------------------------------------

  /** A minted token, as far as the keyring is concerned. */
  datatype Minted = Minted(kid: string, exp: int)

  /** `signer` is the snapshot taken by the last successful tick, at time `ticked`. */
  datatype Ring = Ring(keys: seq<KeyEntry>, signer: string, ticked: int, now: int, tokens: set<Minted>)

  /** The clock is the wall clock: it passes, or is set forward, by `Wait`, and can be set back. */
  datatype Event =
    | Wait(seconds: nat)
    | SetBack(seconds: nat)
    | Tick(newKid: string)
    | Sign(lifetime: nat)

  predicate Allowed(r: Ring, e: Event, p: Policy) {
    match e
    case Wait(_) => true
    case SetBack(_) => true
    case Tick(newKid) => !HasKid(r.keys, newKid)
    case Sign(lifetime) => lifetime <= p.maxLifetime
  }

  function Happen(r: Ring, e: Event, p: Policy): Ring
    requires Allowed(r, e, p)
  {
    match e
    case Wait(seconds) => r.(now := r.now + seconds)
    case SetBack(seconds) => r.(now := r.now - seconds)
    case Tick(newKid) =>
      var keys := Planned(r.keys, r.now, p, newKid);
      r.(keys := keys, ticked := r.now,
         signer := if keys == [] then r.signer else keys[SignerIndex(keys, r.now)].kid)
    case Sign(lifetime) => r.(tokens := r.tokens + {Minted(r.signer, r.now + lifetime)})
  }

  ghost predicate IsRun(rs: seq<Ring>, es: seq<Event>, p: Policy) {
    && |rs| == |es| + 1
    && forall t :: 0 <= t < |es| ==> Allowed(rs[t], es[t], p) && rs[t + 1] == Happen(rs[t], es[t], p)
  }

  /** How far the clock is set back in all. */
  function Back(es: seq<Event>): nat {
    if es == [] then 0 else (if es[0].SetBack? then es[0].seconds else 0) + Back(es[1..])
  }

  lemma {:induction false} BackAppend(es: seq<Event>, fs: seq<Event>)
    ensures Back(es + fs) == Back(es) + Back(fs)
  {
    if es == [] {
      assert es + fs == fs;
    } else {
      assert (es + fs)[1..] == es[1..] + fs;
      BackAppend(es[1..], fs);
    }
  }

  lemma {:induction false} BackRest(es: seq<Event>, t: nat)
    requires t < |es|
    ensures Back(es[t..]) == (if es[t].SetBack? then es[t].seconds else 0) + Back(es[t + 1..])
  {
    assert es[t..][1..] == es[t + 1..];
  }

  /** When the key after key `i` starts to sign, or the earliest it can if there is none yet. */
  function NextStart(keys: seq<KeyEntry>, i: nat, now: int, p: Policy): int
    requires i < |keys|
  {
    if i + 1 < |keys| then keys[i + 1].signFrom else SuccessorStart(keys, now, p)
  }

  /** Key `i` outlasts a token of its own that expires at `exp`. */
  predicate Outlasts(keys: seq<KeyEntry>, i: nat, exp: int, now: int, p: Policy)
    requires i < |keys|
  {
    exp < NextStart(keys, i, now, p) + RetireAfter(p)
  }

  ghost predicate CoveredAt(keys: seq<KeyEntry>, i: int, m: Minted, now: int, p: Policy) {
    0 <= i < |keys| && keys[i].kid == m.kid && Outlasts(keys, i, m.exp, now, p)
  }

  ghost predicate Covers(keys: seq<KeyEntry>, m: Minted, now: int, p: Policy) {
    exists i :: CoveredAt(keys, i, m, now, p)
  }

  ghost predicate Covered(r: Ring, m: Minted, p: Policy) {
    m.exp < r.now || Covers(r.keys, m, r.now, p)
  }

  /** The guard a caller could test before signing, if the clock is set back by at most `back` from
      then on: the signing key outlasts the token by that much. */
  ghost predicate SafeToSign(r: Ring, lifetime: nat, p: Policy, back: nat) {
    Covers(r.keys, Minted(r.signer, r.now + lifetime + back), r.now, p)
  }

  /** In order, no successor due at the last tick, and the snapshot's signer is one of the keys,
      followed by none that had started then. */
  ghost predicate RingOk(r: Ring, p: Policy) {
    && KeysOk(r.keys) && PolicyOk(p) && !SuccessorDue(r.keys, r.ticked, p)
    && exists i :: SignsAt(r, i)
  }

  ghost predicate SignsAt(r: Ring, i: int) {
    0 <= i < |r.keys| && r.keys[i].kid == r.signer && (i + 1 < |r.keys| ==> r.ticked < r.keys[i + 1].signFrom)
  }

  lemma TickKeepsRing(r: Ring, newKid: string, p: Policy)
    requires RingOk(r, p) && !HasKid(r.keys, newKid)
    ensures RingOk(Happen(r, Tick(newKid), p), p)
  {
    var r' := Happen(r, Tick(newKid), p);
    PlannedOk(r.keys, r.now, p, newKid);
    SignerIsLastStarted(r'.keys, r.now);
    assert SignsAt(r', SignerIndex(r'.keys, r.now));
  }

  lemma HappenKeepsRing(r: Ring, e: Event, p: Policy)
    requires RingOk(r, p) && Allowed(r, e, p)
    ensures RingOk(Happen(r, e, p), p)
  {
    if e.Tick? {
      TickKeepsRing(r, e.newKid, p);
    } else {
      var i :| SignsAt(r, i);
      assert SignsAt(Happen(r, e, p), i);
    }
  }

  lemma PlanCovers(keys: seq<KeyEntry>, now: int, p: Policy, newKid: string, m: Minted, i: int)
    requires KeysOk(keys) && CoveredAt(keys, i, m, now, p) && now <= m.exp
    ensures CoveredAt(Planned(keys, now, p, newKid), i - Retirable(keys, now, p), m, now, p)
  {
    RetirableMeaning(keys, now, p);
  }

  /** The token, had it `back` seconds longer to live. */
  function Longer(m: Minted, back: int): Minted { m.(exp := m.exp + back) }

  lemma SetBackCovers(r: Ring, seconds: nat, p: Policy, m: Minted)
    requires RingOk(r, p) && Covered(r, m, p)
    ensures Covered(Happen(r, SetBack(seconds), p), Longer(m, 0 - seconds), p)
  {
    if m.exp >= r.now {
      var i :| CoveredAt(r.keys, i, m, r.now, p);
      assert CoveredAt(r.keys, i, Longer(m, 0 - seconds), r.now - seconds, p);
    }
  }

  /** Whatever else happens, a covered token stays covered. */
  lemma HappenCovers(r: Ring, e: Event, p: Policy, m: Minted)
    requires RingOk(r, p) && Allowed(r, e, p) && !e.SetBack? && Covered(r, m, p)
    ensures Covered(Happen(r, e, p), m, p)
  {
    var r' := Happen(r, e, p);
    if m.exp >= r'.now {
      var i :| CoveredAt(r.keys, i, m, r.now, p);
      if e.Tick? {
        PlanCovers(r.keys, r.now, p, e.newKid, m, i);
      } else {
        assert CoveredAt(r'.keys, i, m, r'.now, p);
      }
    }
  }

  lemma {:induction false} RunsKeepRing(rs: seq<Ring>, es: seq<Event>, p: Policy, t: nat)
    requires IsRun(rs, es, p) && RingOk(rs[0], p) && t < |rs|
    ensures RingOk(rs[t], p)
  {
    if t > 0 {
      RunsKeepRing(rs, es, p, t - 1);
      assert rs[t - 1 + 1] == Happen(rs[t - 1], es[t - 1], p);
      HappenKeepsRing(rs[t - 1], es[t - 1], p);
    }
  }

  /** One event uses up as much of the allowance as it sets the clock back. */
  lemma StepCovers(rs: seq<Ring>, es: seq<Event>, p: Policy, m: Minted, t: nat)
    requires IsRun(rs, es, p) && t < |es| && RingOk(rs[t], p) && Covered(rs[t], Longer(m, Back(es[t..])), p)
    ensures Covered(rs[t + 1], Longer(m, Back(es[t + 1..])), p)
  {
    BackRest(es, t);
    var longer := Longer(m, Back(es[t..]));
    if es[t].SetBack? {
      SetBackCovers(rs[t], es[t].seconds, p, longer);
      assert Longer(longer, 0 - es[t].seconds) == Longer(m, Back(es[t + 1..]));
    } else {
      HappenCovers(rs[t], es[t], p, longer);
    }
  }

  lemma {:induction false} CoveredLasts(rs: seq<Ring>, es: seq<Event>, p: Policy, m: Minted, t: nat)
    requires IsRun(rs, es, p) && RingOk(rs[0], p) && Covered(rs[0], Longer(m, Back(es)), p) && t < |rs|
    ensures Covered(rs[t], Longer(m, Back(es[t..])), p)
  {
    if t > 0 {
      CoveredLasts(rs, es, p, m, t - 1);
      RunsKeepRing(rs, es, p, t - 1);
      StepCovers(rs, es, p, m, t - 1);
    } else {
      assert es[0..] == es;
    }
  }

  /** Being covered for longer is being covered. */
  lemma CoveredForLess(r: Ring, p: Policy, m: Minted, back: nat, less: nat)
    requires Covered(r, Longer(m, back), p) && less <= back
    ensures Covered(r, Longer(m, less), p)
  {
    if m.exp + less >= r.now {
      var i :| CoveredAt(r.keys, i, Longer(m, back), r.now, p);
      assert CoveredAt(r.keys, i, Longer(m, less), r.now, p);
    }
  }

  // ---- Which signatures outlive their key -----------------------------------------------------

  ghost predicate Orphaned(r: Ring, m: Minted) {
    m in r.tokens && r.now <= m.exp && !HasKid(r.keys, m.kid)
  }

  lemma CoveredIsNotOrphaned(r: Ring, m: Minted, p: Policy, back: nat)
    requires Covered(r, Longer(m, back), p)
    ensures !Orphaned(r, m)
  {
  }

  /** From `r` on, no run of waiting, ticks, further signatures and at most `back` seconds of setting
      the clock back orphans `m`. */
  ghost predicate NeverOrphaned(r: Ring, m: Minted, p: Policy, back: nat) {
    forall rs, es, t :: IsRun(rs, es, p) && rs[0] == r && Back(es) <= back && 0 <= t < |rs| ==> !Orphaned(rs[t], m)
  }

  lemma {:induction false} RetirableAtLeast(keys: seq<KeyEntry>, now: int, p: Policy, n: nat)
    requires KeysOk(keys) && n < |keys| && keys[n].signFrom + RetireAfter(p) <= now
    ensures Retirable(keys, now, p) >= n
  {
    if n > 0 {
      RetirableAtLeast(keys[1..], now, p, n - 1);
    }
  }

  /** Once its successor has signed for long enough, a tick drops key `i`. */
  lemma TickDrops(keys: seq<KeyEntry>, i: nat, now: int, p: Policy, newKid: string)
    requires KeysOk(keys) && i + 1 < |keys| && keys[i + 1].signFrom + RetireAfter(p) <= now
    requires newKid != keys[i].kid
    ensures !HasKid(Planned(keys, now, p, newKid), keys[i].kid)
  {
    RetirableAtLeast(keys, now, p, i + 1);
    var n := Retirable(keys, now, p);
    assert forall j :: 0 <= j < |keys| - n ==> Retired(keys, now, p)[j] == keys[n + j];
  }

  /** One event more. */
  lemma Extend(rs: seq<Ring>, es: seq<Event>, p: Policy, e: Event) returns (rs': seq<Ring>, es': seq<Event>)
    requires IsRun(rs, es, p) && Allowed(rs[|es|], e, p)
    ensures IsRun(rs', es', p) && es' == es + [e] && rs' == rs + [Happen(rs[|es|], e, p)]
    ensures Back(es') == Back(es) + if e.SetBack? then e.seconds else 0
  {
    rs', es' := rs + [Happen(rs[|es|], e, p)], es + [e];
    BackAppend(es, [e]);
  }

  lemma Prepend(r: Ring, e: Event, p: Policy, rs: seq<Ring>, es: seq<Event>) returns (rs': seq<Ring>, es': seq<Event>)
    requires Allowed(r, e, p) && IsRun(rs, es, p) && rs[0] == Happen(r, e, p)
    ensures IsRun(rs', es', p) && rs'[0] == r && |es'| == |es| + 1 && rs'[|es'|] == rs[|es|]
    ensures Back(es') == Back(es) + if e.SetBack? then e.seconds else 0
  {
    rs', es' := [r] + rs, [e] + es;
    forall t | 0 <= t < |es'| ensures Allowed(rs'[t], es'[t], p) && rs'[t + 1] == Happen(rs'[t], es'[t], p) {
      if t > 0 {
        assert rs'[t + 1] == rs[t - 1 + 1];
      }
    }
    assert es'[1..] == es;
  }

  /** How long until a tick gives the last key a successor. */
  function SuccessorDelay(keys: seq<KeyEntry>, now: int, p: Policy): nat
    requires keys != []
  {
    var due := keys[|keys| - 1].signFrom + p.rotateAfter - p.prepublish - now;
    if due > 0 then due else 0
  }

  lemma DueAfterDelay(keys: seq<KeyEntry>, now: int, p: Policy)
    requires keys != [] && PolicyOk(p)
    ensures var later := now + SuccessorDelay(keys, now, p);
            SuccessorDue(keys, later, p) && SuccessorStart(keys, later, p) == SuccessorStart(keys, now, p)
            && later <= SuccessorStart(keys, now, p)
  {
  }

  /** After that tick the last key has a successor that starts at `NextStart`. */
  lemma TickGivesSuccessor(keys: seq<KeyEntry>, now: int, later: int, p: Policy, newKid: string)
    requires KeysOk(keys) && PolicyOk(p) && !HasKid(keys, newKid)
    requires SuccessorDue(keys, later, p) && SuccessorStart(keys, later, p) == SuccessorStart(keys, now, p)
    ensures var next := Planned(keys, later, p, newKid);
            && 2 <= |next| && next[|next| - 2] == keys[|keys| - 1]
            && next[|next| - 1] == KeyEntry(newKid, SuccessorStart(keys, now, p))
            && (forall k :: HasKid(next, k) ==> HasKid(keys, k) || k == newKid)
  {
    var kept, next := Retired(keys, later, p), Planned(keys, later, p, newKid);
    assert next == kept + [KeyEntry(newKid, SuccessorStart(keys, now, p))];
    forall k | HasKid(next, k) ensures HasKid(keys, k) || k == newKid {
      var j :| 0 <= j < |next| && next[j].kid == k;
      if j < |kept| {
        assert keys[Retirable(keys, later, p) + j].kid == k;
      }
    }
  }

  lemma DroppedThenSetBack(waited: Ring, i: nat, m: Minted, p: Policy, b: string, back: nat)
    requires KeysOk(waited.keys) && i + 1 < |waited.keys| && waited.keys[i].kid == m.kid && m in waited.tokens
    requires waited.keys[i + 1].signFrom + RetireAfter(p) <= waited.now == m.exp + back && !HasKid(waited.keys, b)
    ensures Orphaned(Happen(Happen(waited, Tick(b), p), SetBack(back), p), m)
  {
    TickDrops(waited.keys, i, waited.now, p, b);
  }

  lemma OrphanedWithSuccessor(r: Ring, i: nat, m: Minted, p: Policy, b: string, back: nat)
      returns (rs: seq<Ring>, es: seq<Event>)
    requires KeysOk(r.keys) && i + 1 < |r.keys| && r.keys[i].kid == m.kid && m in r.tokens
    requires r.keys[i + 1].signFrom + RetireAfter(p) <= m.exp + back && r.now <= m.exp + back && !HasKid(r.keys, b)
    ensures IsRun(rs, es, p) && rs[0] == r && Back(es) == back && Orphaned(rs[|es|], m)
  {
    var waited := r.(now := m.exp + back);
    var ticked := Happen(waited, Tick(b), p);
    DroppedThenSetBack(waited, i, m, p, b, back);
    rs, es := Extend([ticked], [], p, SetBack(back));
    rs, es := Prepend(waited, Tick(b), p, rs, es);
    rs, es := Prepend(r, Wait(m.exp + back - r.now), p, rs, es);
  }

  lemma OrphanedLast(r: Ring, m: Minted, p: Policy, b: string, c: string, back: nat)
      returns (rs: seq<Ring>, es: seq<Event>)
    requires KeysOk(r.keys) && PolicyOk(p) && r.keys[|r.keys| - 1].kid == m.kid && m in r.tokens
    requires SuccessorStart(r.keys, r.now, p) + RetireAfter(p) <= m.exp + back && r.now <= m.exp
    requires !HasKid(r.keys, b) && !HasKid(r.keys, c) && b != c
    ensures IsRun(rs, es, p) && rs[0] == r && Back(es) == back && Orphaned(rs[|es|], m)
  {
    var d := SuccessorDelay(r.keys, r.now, p);
    DueAfterDelay(r.keys, r.now, p);
    var waited := Happen(r, Wait(d), p);
    PlannedOk(r.keys, waited.now, p, b);
    TickGivesSuccessor(r.keys, r.now, waited.now, p, b);
    var ticked := Happen(waited, Tick(b), p);
    rs, es := OrphanedWithSuccessor(ticked, |ticked.keys| - 2, m, p, c, back);
    rs, es := Prepend(waited, Tick(b), p, rs, es);
    rs, es := Prepend(r, Wait(d), p, rs, es);
  }

  /** An unsafe signature is orphaned by some continuation: wait, tick, wait until `back` seconds
      after the token expires, tick, and set the clock back. */
  lemma UnsafeSignatureIsOrphaned(r: Ring, lifetime: nat, p: Policy, b: string, c: string, back: nat)
      returns (rs: seq<Ring>, es: seq<Event>)
    requires RingOk(r, p) && lifetime <= p.maxLifetime && !SafeToSign(r, lifetime, p, back)
    requires !HasKid(r.keys, b) && !HasKid(r.keys, c) && b != c
    ensures IsRun(rs, es, p) && rs[0] == Happen(r, Sign(lifetime), p) && Back(es) == back
    ensures Orphaned(rs[|es|], Minted(r.signer, r.now + lifetime))
  {
    var m := Minted(r.signer, r.now + lifetime);
    var signed := Happen(r, Sign(lifetime), p);
    var i :| SignsAt(r, i);
    assert !CoveredAt(r.keys, i, Longer(m, back), r.now, p);
    if i + 1 < |r.keys| {
      rs, es := OrphanedWithSuccessor(signed, i, m, p, b, back);
    } else {
      rs, es := OrphanedLast(signed, m, p, b, c, back);
    }
  }

  /** Some name no key bears. */
  lemma FreshKid(keys: seq<KeyEntry>, other: string) returns (kid: string)
    ensures !HasKid(keys, kid) && kid != other
  {
    kid := NewName(keys, other);
  }

  function NewName(keys: seq<KeyEntry>, other: string): (kid: string)
    ensures |kid| > |other| && forall i :: 0 <= i < |keys| ==> |kid| > |keys[i].kid|
  {
    if keys == [] then other + "k"
    else
      var rest := NewName(keys[1..], other);
      assert forall i :: 1 <= i < |keys| ==> keys[i] == keys[1..][i - 1];
      rest + keys[0].kid + "k"
  }

  /** With the clock set back by at most `back` from then on, signing is safe exactly when the
      signer's key outlasts the token by that much: then no run ever drops the key before the token
      expires, and otherwise some run does. */
  lemma SigningIsSafeExactly(r: Ring, lifetime: nat, p: Policy, back: nat)
    requires RingOk(r, p) && lifetime <= p.maxLifetime
    ensures SafeToSign(r, lifetime, p, back) <==>
            NeverOrphaned(Happen(r, Sign(lifetime), p), Minted(r.signer, r.now + lifetime), p, back)
  {
    var m := Minted(r.signer, r.now + lifetime);
    HappenKeepsRing(r, Sign(lifetime), p);
    if SafeToSign(r, lifetime, p, back) {
      var signed := Happen(r, Sign(lifetime), p);
      assert Covered(signed, Longer(m, back), p);
      forall rs, es, t | IsRun(rs, es, p) && rs[0] == signed && Back(es) <= back && 0 <= t < |rs|
        ensures !Orphaned(rs[t], m)
      {
        CoveredForLess(signed, p, m, back, Back(es));
        CoveredLasts(rs, es, p, m, t);
        CoveredIsNotOrphaned(rs[t], m, p, Back(es[t..]));
      }
    } else {
      var b := FreshKid(r.keys, "");
      var c := FreshKid(r.keys, b);
      var rs, es := UnsafeSignatureIsOrphaned(r, lifetime, p, b, c, back);
      assert IsRun(rs, es, p) && Orphaned(rs[|es|], m);
    }
  }

  // ---- Whole runs -----------------------------------------------------------------------------

  /** `load_or_generate` without a key file: one key, signing from now on. */
  function FreshRing(kid: string, now: int): Ring { Ring([KeyEntry(kid, now)], kid, now, now, {}) }

  /** The tick at the end of `load_or_generate` leaves it alone. */
  lemma FreshRingOk(kid: string, now: int, p: Policy, newKid: string)
    requires PolicyOk(p) && newKid != kid
    ensures RingOk(FreshRing(kid, now), p)
    ensures Happen(FreshRing(kid, now), Tick(newKid), p) == FreshRing(kid, now)
  {
    assert SignsAt(FreshRing(kid, now), 0);
  }

  /** Every signature is safe, given how far the clock is still to be set back after it. */
  ghost predicate AllSafe(rs: seq<Ring>, es: seq<Event>, p: Policy) {
    && |rs| == |es| + 1
    && forall u :: 0 <= u < |es| && es[u].Sign? ==> SafeToSign(rs[u], es[u].lifetime, p, Back(es[u + 1..]))
  }

  lemma {:induction false} TokensCovered(rs: seq<Ring>, es: seq<Event>, p: Policy, t: nat, m: Minted)
    requires IsRun(rs, es, p) && RingOk(rs[0], p) && rs[0].tokens == {} && AllSafe(rs, es, p) && t < |rs|
    requires m in rs[t].tokens
    ensures Covered(rs[t], Longer(m, Back(es[t..])), p)
  {
    if t > 0 {
      RunsKeepRing(rs, es, p, t - 1);
      assert rs[t - 1 + 1] == Happen(rs[t - 1], es[t - 1], p);
      if m in rs[t - 1].tokens {
        TokensCovered(rs, es, p, t - 1, m);
        StepCovers(rs, es, p, m, t - 1);
      } else {
        assert SafeToSign(rs[t - 1], es[t - 1].lifetime, p, Back(es[t - 1 + 1..]));
        assert Longer(m, Back(es[t..])) == Minted(rs[t - 1].signer, rs[t - 1].now + es[t - 1].lifetime + Back(es[t..]));
      }
    }
  }

  /** Over every run of waiting, setting the clock back, rotation and safe signing, an unexpired
      token's key is always in the ring: rotation never orphans it. */
  lemma NoTokenLosesItsKey(rs: seq<Ring>, es: seq<Event>, p: Policy, t: nat, m: Minted)
    requires IsRun(rs, es, p) && RingOk(rs[0], p) && rs[0].tokens == {} && AllSafe(rs, es, p) && t < |rs|
    ensures !Orphaned(rs[t], m)
  {
    if m in rs[t].tokens {
      TokensCovered(rs, es, p, t, m);
      CoveredIsNotOrphaned(rs[t], m, p, Back(es[t..]));
    }
  }

  /** Signing within `margin` of the last tick is safe, if what the clock will be set back still
      fits into the margin. */
  lemma PromptSigningIsSafe(r: Ring, lifetime: nat, p: Policy, back: nat)
    requires RingOk(r, p) && lifetime <= p.maxLifetime && r.now + back <= r.ticked + p.margin
    ensures SafeToSign(r, lifetime, p, back)
  {
    var i :| SignsAt(r, i);
    assert CoveredAt(r.keys, i, Minted(r.signer, r.now + lifetime + back), r.now, p);
  }

  // ---- Which policies need prompt ticks -------------------------------------------------------

  /** No run of the server, however late its ticks, orphans a token while its clock is set back by
      at most `back`. */
  ghost predicate NeverOrphans(p: Policy, back: nat) {
    forall kid, now, rs, es, t, m ::
      IsRun(rs, es, p) && rs[0] == FreshRing(kid, now) && Back(es) <= back && 0 <= t < |rs| ==> !Orphaned(rs[t], m)
  }

  /** Without a prepublished successor the last key is always the signer. */
  ghost predicate LastSigns(r: Ring) {
    r.keys != [] && r.keys[|r.keys| - 1].kid == r.signer && r.keys[|r.keys| - 1].signFrom <= r.now
  }

  lemma {:induction false} LastKeepsSigning(rs: seq<Ring>, es: seq<Event>, p: Policy, t: nat)
    requires IsRun(rs, es, p) && RingOk(rs[0], p) && LastSigns(rs[0]) && p.prepublish == 0 && t < |rs|
    requires forall u :: 0 <= u < |es| && es[u].SetBack? ==> es[u].seconds == 0
    ensures LastSigns(rs[t])
  {
    if t > 0 {
      LastKeepsSigning(rs, es, p, t - 1);
      assert rs[t - 1 + 1] == Happen(rs[t - 1], es[t - 1], p);
      LastSignsNext(rs[t - 1], es[t - 1], p);
    }
  }

  lemma LastSignsNext(r: Ring, e: Event, p: Policy)
    requires LastSigns(r) && Allowed(r, e, p) && p.prepublish == 0 && (e.SetBack? ==> e.seconds == 0)
    ensures LastSigns(Happen(r, e, p))
  {
  }

  lemma {:induction false} NoBack(es: seq<Event>)
    requires Back(es) == 0
    ensures forall u :: 0 <= u < |es| ==> (es[u].SetBack? ==> es[u].seconds == 0) && Back(es[u + 1..]) == 0
  {
    if es != [] {
      NoBack(es[1..]);
      forall u | 0 <= u < |es| ensures (es[u].SetBack? ==> es[u].seconds == 0) && Back(es[u + 1..]) == 0 {
        if u > 0 {
          assert es[u] == es[1..][u - 1] && es[u + 1..] == es[1..][u - 1 + 1..];
        }
      }
    }
  }

  lemma WithoutPrepublishAllIsSafe(rs: seq<Ring>, es: seq<Event>, p: Policy)
    requires IsRun(rs, es, p) && RingOk(rs[0], p) && LastSigns(rs[0]) && p.prepublish == 0 && p.margin > 0
    requires Back(es) == 0
    ensures AllSafe(rs, es, p)
  {
    NoBack(es);
    forall u | 0 <= u < |es| && es[u].Sign? ensures SafeToSign(rs[u], es[u].lifetime, p, Back(es[u + 1..])) {
      LastKeepsSigning(rs, es, p, u);
      var m := Minted(rs[u].signer, rs[u].now + es[u].lifetime);
      assert Allowed(rs[u], es[u], p);
      assert CoveredAt(rs[u].keys, |rs[u].keys| - 1, m, rs[u].now, p);
    }
  }

  /** The fresh ring once its successor is published, with no tick since. */
  function Prepublished(p: Policy, now: int): Ring {
    Ring([KeyEntry("a", 0), KeyEntry("b", p.rotateAfter)], "a", p.rotateAfter - p.prepublish, now, {})
  }

  lemma PrepublishingTick(p: Policy)
    requires PolicyOk(p) && p.prepublish > 0
    ensures var now := p.rotateAfter - p.prepublish;
            var r := FreshRing("a", 0).(now := now);
            !HasKid(r.keys, "b") && Happen(r, Tick("b"), p) == Prepublished(p, now)
  {
    var now := p.rotateAfter - p.prepublish;
    var keys := [KeyEntry("a", 0), KeyEntry("b", p.rotateAfter)];
    assert Planned(FreshRing("a", 0).keys, now, p, "b") == keys;
    assert SignerIndex(keys[..1], now) == 0 && SignerIndex(keys, now) == 0;
  }

  lemma StaleSignerIsUnsafe(r: Ring, p: Policy)
    requires KeysOk(r.keys) && r.keys[0].kid == r.signer
    requires NextStart(r.keys, 0, r.now, p) + p.margin <= r.now
    ensures !SafeToSign(r, p.maxLifetime, p, 0)
  {
    assert forall i :: 0 <= i < |r.keys| && r.keys[i].kid == r.signer ==> i == 0;
  }

  lemma TickThenWait(before: Ring, after: Ring, p: Policy, kid: string, seconds: nat)
      returns (rs: seq<Ring>, es: seq<Event>)
    requires !HasKid(before.keys, kid) && Happen(before, Tick(kid), p) == after
    ensures IsRun(rs, es, p) && rs[0] == before && Back(es) == 0
    ensures rs[|es|] == after.(now := after.now + seconds)
  {
    rs, es := Extend([after], [], p, Wait(seconds));
    rs, es := Prepend(before, Tick(kid), p, rs, es);
  }

  lemma PrepublishedRun(p: Policy) returns (rs: seq<Ring>, es: seq<Event>)
    requires PolicyOk(p) && p.prepublish > 0
    ensures IsRun(rs, es, p) && rs[0] == FreshRing("a", 0) && Back(es) == 0
    ensures rs[|es|] == Prepublished(p, p.rotateAfter + p.margin)
  {
    var now := p.rotateAfter - p.prepublish;
    PrepublishingTick(p);
    var before, after := FreshRing("a", 0).(now := now), Prepublished(p, now);
    rs, es := TickThenWait(before, after, p, "b", p.prepublish + p.margin);
    rs, es := Prepend(FreshRing("a", 0), Wait(now), p, rs, es);
  }

  /** The ring without prepublishing, once the successor has started: `"b"` signs from then on. */
  function Succeeded(p: Policy, signer: string, ticked: int, now: int): Ring {
    Ring([KeyEntry("a", 0), KeyEntry("b", p.rotateAfter)], signer, ticked, now, {})
  }

  lemma RotatingTick(p: Policy)
    requires PolicyOk(p) && p.prepublish == 0
    ensures var r := FreshRing("a", 0).(now := p.rotateAfter);
            !HasKid(r.keys, "b") && Happen(r, Tick("b"), p) == Succeeded(p, "b", p.rotateAfter, p.rotateAfter)
  {
    var keys := [KeyEntry("a", 0), KeyEntry("b", p.rotateAfter)];
    assert Planned(FreshRing("a", 0).keys, p.rotateAfter, p, "b") == keys;
  }

  /** A tick one second too early, after the clock was set back, makes the old key the signer again. */
  lemma EarlyTick(p: Policy)
    requires PolicyOk(p) && p.prepublish == 0
    ensures var early := p.rotateAfter - 1;
            var r := Succeeded(p, "b", p.rotateAfter, early);
            !HasKid(r.keys, "c") && Happen(r, Tick("c"), p) == Succeeded(p, "a", early, early)
  {
    var early := p.rotateAfter - 1;
    var keys := [KeyEntry("a", 0), KeyEntry("b", p.rotateAfter)];
    assert Planned(keys, early, p, "c") == keys;
    assert keys[..1] == [KeyEntry("a", 0)];
    assert SignerIndex(keys[..1], early) == 0 && SignerIndex(keys, early) == 0;
  }

  lemma RotatesBack(p: Policy) returns (r: Ring, after: Ring, early: Ring)
    requires PolicyOk(p) && p.prepublish == 0
    ensures r == FreshRing("a", 0) && early == Succeeded(p, "a", p.rotateAfter - 1, p.rotateAfter - 1)
    ensures !HasKid(r.keys, "b") && Happen(r.(now := r.now + p.rotateAfter), Tick("b"), p) == after
    ensures !HasKid(after.keys, "c") && Happen(after.(now := after.now - 1), Tick("c"), p) == early
  {
    r, after := FreshRing("a", 0), Succeeded(p, "b", p.rotateAfter, p.rotateAfter);
    early := Succeeded(p, "a", p.rotateAfter - 1, p.rotateAfter - 1);
    assert r.(now := r.now + p.rotateAfter) == FreshRing("a", 0).(now := p.rotateAfter);
    assert after.(now := after.now - 1) == Succeeded(p, "b", p.rotateAfter, p.rotateAfter - 1);
    RotatingTick(p);
    EarlyTick(p);
  }

  /** Wait, tick, set the clock back by a second, tick again and wait. */
  lemma TickBackTick(r: Ring, after: Ring, early: Ring, p: Policy, wait: nat, b: string, c: string, more: nat)
      returns (rs: seq<Ring>, es: seq<Event>)
    requires !HasKid(r.keys, b) && Happen(r.(now := r.now + wait), Tick(b), p) == after
    requires !HasKid(after.keys, c) && Happen(after.(now := after.now - 1), Tick(c), p) == early
    ensures IsRun(rs, es, p) && rs[0] == r && Back(es) == 1 && rs[|es|] == early.(now := early.now + more)
  {
    rs, es := TickThenWait(after.(now := after.now - 1), early, p, c, more);
    rs, es := Prepend(after, SetBack(1), p, rs, es);
    rs, es := Prepend(r.(now := r.now + wait), Tick(b), p, rs, es);
    rs, es := Prepend(r, Wait(wait), p, rs, es);
  }

  lemma SetBackRun(p: Policy) returns (rs: seq<Ring>, es: seq<Event>)
    requires PolicyOk(p) && p.prepublish == 0
    ensures IsRun(rs, es, p) && rs[0] == FreshRing("a", 0) && Back(es) == 1
    ensures rs[|es|] == Succeeded(p, "a", p.rotateAfter - 1, p.rotateAfter + p.margin)
  {
    var r, after, early := RotatesBack(p);
    rs, es := TickBackTick(r, after, early, p, p.rotateAfter, "b", "c", p.margin + 1);
  }

  /** A fresh server, left without ticks at the wrong moment or with its clock set back by a second,
      reaches an unsafe signature. */
  lemma StalledRun(p: Policy, back: nat) returns (rs: seq<Ring>, es: seq<Event>)
    requires PolicyOk(p) && (p.prepublish > 0 || p.margin == 0 || back > 0)
    ensures IsRun(rs, es, p) && rs[0] == FreshRing("a", 0) && Back(es) <= back
    ensures RingOk(rs[|es|], p) && !SafeToSign(rs[|es|], p.maxLifetime, p, 0)
  {
    var r: Ring;
    if p.prepublish > 0 {
      r := Prepublished(p, p.rotateAfter + p.margin);
      rs, es := PrepublishedRun(p);
    } else if p.margin == 0 {
      r := FreshRing("a", 0).(now := p.rotateAfter);
      rs, es := Extend([FreshRing("a", 0)], [], p, Wait(p.rotateAfter));
    } else {
      r := Succeeded(p, "a", p.rotateAfter - 1, p.rotateAfter + p.margin);
      rs, es := SetBackRun(p);
    }
    assert rs[|es|] == r;
    StaleSignerIsUnsafe(r, p);
    assert RingOk(rs[0], p) by { FreshRingOk("a", 0, p, "b"); }
    RunsKeepRing(rs, es, p, |es|);
  }

  lemma Append(p: Policy, rs: seq<Ring>, es: seq<Event>, qs: seq<Ring>, fs: seq<Event>)
      returns (rs': seq<Ring>, es': seq<Event>)
    requires IsRun(rs, es, p) && IsRun(qs, fs, p) && qs[0] == rs[|es|]
    ensures IsRun(rs', es', p) && rs'[0] == rs[0] && rs'[|es'|] == qs[|fs|] && Back(es') == Back(es) + Back(fs)
  {
    rs', es' := rs + qs[1..], es + fs;
    BackAppend(es, fs);
    forall t | 0 <= t < |es'| ensures Allowed(rs'[t], es'[t], p) && rs'[t + 1] == Happen(rs'[t], es'[t], p) {
      if t >= |es| {
        assert rs'[t] == qs[t - |es|] && rs'[t + 1] == qs[t - |es| + 1];
      } else {
        assert rs'[t + 1] == rs[t + 1];
      }
    }
  }

  lemma SigningUnsafelyOrphans(r: Ring, p: Policy) returns (rs: seq<Ring>, es: seq<Event>)
    requires RingOk(r, p) && !SafeToSign(r, p.maxLifetime, p, 0)
    ensures IsRun(rs, es, p) && rs[0] == r && Back(es) == 0
    ensures Orphaned(rs[|es|], Minted(r.signer, r.now + p.maxLifetime))
  {
    var b := FreshKid(r.keys, "");
    var c := FreshKid(r.keys, b);
    rs, es := UnsafeSignatureIsOrphaned(r, p.maxLifetime, p, b, c, 0);
    rs, es := Prepend(r, Sign(p.maxLifetime), p, rs, es);
  }

  lemma IntolerantPolicyOrphans(p: Policy, back: nat) returns (rs: seq<Ring>, es: seq<Event>, m: Minted)
    requires PolicyOk(p) && (p.prepublish > 0 || p.margin == 0 || back > 0)
    ensures IsRun(rs, es, p) && rs[0] == FreshRing("a", 0) && Back(es) <= back && Orphaned(rs[|es|], m)
  {
    rs, es := StalledRun(p, back);
    var r := rs[|es|];
    m := Minted(r.signer, r.now + p.maxLifetime);
    var qs, fs := SigningUnsafelyOrphans(r, p);
    rs, es := Append(p, rs, es, qs, fs);
  }

  /** A server from which no delay of its ticks can take a token's key is one that does not
      prepublish, has a margin and never sees its clock set back; otherwise some run from a fresh
      ring orphans a token, and setting the clock back by one second is enough for that. */
  lemma PolicyToleratesDelayExactly(p: Policy, back: nat)
    requires PolicyOk(p)
    ensures NeverOrphans(p, back) <==> p.prepublish == 0 && p.margin > 0 && back == 0
  {
    if p.prepublish == 0 && p.margin > 0 && back == 0 {
      forall kid, now, rs, es, t, m
        | IsRun(rs, es, p) && rs[0] == FreshRing(kid, now) && Back(es) <= back && 0 <= t < |rs|
        ensures !Orphaned(rs[t], m)
      {
        FreshRingOk(kid, now, p, kid + "x");
        WithoutPrepublishAllIsSafe(rs, es, p);
        NoTokenLosesItsKey(rs, es, p, t, m);
      }
    } else {
      var rs, es, m := IntolerantPolicyOrphans(p, back);
      assert IsRun(rs, es, p) && Orphaned(rs[|es|], m);
    }
  }
}
