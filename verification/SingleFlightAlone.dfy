/** Exactly when a call left to itself costs one more webhook conversion of a cached key. */
module SingleFlightAlone {
  import opened Prelude
  import opened ConversionCache
  import opened SingleFlight
  import opened SingleFlightProgress
  import opened SingleFlightLeaders

  /** The call waits for a notifier that has not fired. */
  predicate Blocked(sh: Shared, c: Call) {
    c.phase.Wait? && exists i :: 0 <= i < |c.st| && c.st[i].Following? && c.st[i].n !in sh.notified
  }

  /** The call still has `k` to claim, nobody holds `k`, and the call is not blocked. */
  ghost predicate Ready(sh: Shared, c: Call, k: Key) {
    Unserved(c, k) && k !in sh.inFlight && !Blocked(sh, c)
  }

  /** The next operation makes the call a new leader for `k`. */
  predicate AtKey(c: Call, op: Op, k: Key) {
    op.ClaimNext? && Cursor(c, op) < |c.items| && KeyAt(c, Cursor(c, op)) == Some(k)
  }

  predicate Local(op: Op) { op.ScanNext? || op.ScanEnd? || op.ClaimNext? || op.WaitNext? || op.WaitEnd? }

  // ---- A ready call gets there ----------------------------------------------------------------

  lemma ReadyIsEnabled(sh: Shared, c: Call, k: Key)
    requires CallOk(c) && Ready(sh, c, k)
    ensures Enabled(sh, c, NextOp(c)) && Local(NextOp(c))
  {
    var i: nat :| Stale(c, i, k);
    assert InPhase(c.phase, c.st[i], KeyAt(c, i).Some?);
  }

  lemma ItemStaysStale(sh: Shared, c: Call, op: Op, k: Key, i: nat)
    requires SharedOk(sh) && CallOk(c) && Enabled(sh, c, op) && Local(op) && Stale(c, i, k) && !AtKey(c, op, k)
    ensures Stale(StepCall(sh, c, op), i, k)
  {
    var j := Cursor(c, op);
    if j < |c.st| {
      assert StepCall(sh, c, op) == c.(st := c.st[j := Advance(sh, c, op, j)]);
    }
  }

  lemma NothingLed(sh: Shared, c: Call, op: Op, k: Key, i: nat)
    requires SharedOk(sh) && CallOk(c) && Enabled(sh, c, op) && Local(op) && !Leads(c, i, k) && !AtKey(c, op, k)
    ensures !Leads(StepCall(sh, c, op), i, k)
  {
    var j := Cursor(c, op);
    if j < |c.st| {
      assert StepCall(sh, c, op) == c.(st := c.st[j := Advance(sh, c, op, j)]);
    }
  }

  lemma LocalShares(sh: Shared, c: Call, op: Op, k: Key)
    requires SharedOk(sh) && CallOk(c) && Enabled(sh, c, op) && Local(op) && !AtKey(c, op, k)
    ensures var sh' := StepShared(sh, c, op);
            && sh'.cache == sh.cache && sh'.notified == sh.notified
            && (k in sh'.inFlight <==> k in sh.inFlight)
  {
  }

  lemma StaysUnblocked(sh: Shared, c: Call, op: Op)
    requires CallOk(c) && Enabled(sh, c, op) && Local(op) && !Blocked(sh, c)
    ensures !Blocked(sh, StepCall(sh, c, op))
  {
  }

  lemma StaysReady(sh: Shared, c: Call, op: Op, k: Key)
    requires SharedOk(sh) && CallOk(c) && Enabled(sh, c, op) && Local(op) && Ready(sh, c, k) && !AtKey(c, op, k)
    ensures Ready(StepShared(sh, c, op), StepCall(sh, c, op), k)
  {
    LocalShares(sh, c, op, k);
    StaysUnblocked(sh, c, op);
    var i: nat :| Stale(c, i, k);
    ItemStaysStale(sh, c, op, k, i);
    forall j: nat ensures !Leads(StepCall(sh, c, op), j, k) {
      NothingLed(sh, c, op, k, j);
    }
  }

  // ---- Only a ready call does -----------------------------------------------------------------

  /** A call releases only what it leads. */
  lemma ReleasesItsOwn(sh: Shared, c: Call, op: Op, k: Key)
    requires SharedOk(sh) && CallOk(c) && Enabled(sh, c, op)
    requires k in sh.inFlight && k !in StepShared(sh, c, op).inFlight
    ensures Leads(c, Cursor(c, op), k)
  {
  }

  lemma BlockedWaits(sh: Shared, c: Call, op: Op)
    requires CallOk(c) && Enabled(sh, c, op) && Blocked(sh, c)
    ensures op.WaitNext? || op.Cancel?
  {
  }

  lemma WaitingStaysBlocked(sh: Shared, c: Call)
    requires SharedOk(sh) && CallOk(c) && Enabled(sh, c, WaitNext) && Blocked(sh, c)
    ensures Blocked(StepShared(sh, c, WaitNext), StepCall(sh, c, WaitNext))
  {
    var i :| 0 <= i < |c.st| && c.st[i].Following? && c.st[i].n !in sh.notified;
    assert StepCall(sh, c, WaitNext).st[i] == c.st[i];
  }

  /** A blocked call stays blocked, or is cancelled. */
  lemma StaysBlocked(sh: Shared, c: Call, op: Op, k: Key)
    requires SharedOk(sh) && CallOk(c) && Enabled(sh, c, op) && Blocked(sh, c)
    ensures Blocked(StepShared(sh, c, op), StepCall(sh, c, op)) || !Unserved(StepCall(sh, c, op), k)
  {
    BlockedWaits(sh, c, op);
    if op.WaitNext? {
      WaitingStaysBlocked(sh, c);
    } else {
      assert forall i: nat :: !Stale(StepCall(sh, c, op), i, k);
    }
  }

  lemma StaysUnready(sh: Shared, c: Call, op: Op, k: Key)
    requires SharedOk(sh) && CallOk(c) && Enabled(sh, c, op) && !Ready(sh, c, k) && k in sh.cache.entries
    ensures !Ready(StepShared(sh, c, op), StepCall(sh, c, op), k)
  {
    if Ready(StepShared(sh, c, op), StepCall(sh, c, op), k) {
      CallStaysUnserved(sh, c, op, k);
      if k in sh.inFlight {
        ReleasesItsOwn(sh, c, op, k);
      } else {
        StaysBlocked(sh, c, op, k);
      }
    }
  }

  // ---- Runs of one call -----------------------------------------------------------------------

  /** The operations, performed by call `c` with nobody else moving and `k` cached throughout, end
      with `c` becoming a new leader for `k`. */
  ghost predicate LeadsBy(s: State, c: nat, k: Key, ops: seq<Op>)
    decreases |ops|
  {
    && ops != [] && Inv(s) && CanAct(s, Act(c, ops[0])) && k in s.shared.cache.entries
    && if |ops| == 1 then NewLeader(s, Act(c, ops[0]), k)
       else LeadsBy(Apply(s, Act(c, ops[0])), c, k, ops[1..])
  }

  ghost predicate LeadsAlone(s: State, c: nat, k: Key) {
    exists ops: seq<Op> :: LeadsBy(s, c, k, ops)
  }

  lemma NewLeaderIsAtKey(s: State, c: nat, op: Op, k: Key)
    requires Inv(s) && CanAct(s, Act(c, op))
    ensures NewLeader(s, Act(c, op), k) <==> AtKey(s.calls[c], op, k) && k !in s.shared.inFlight
  {
  }

  lemma ReadyStep(s: State, c: nat, k: Key)
    requires Inv(s) && c < |s.calls| && Ready(s.shared, s.calls[c], k) && k in s.shared.cache.entries
    ensures var a := Act(c, NextOp(s.calls[c]));
            && CanAct(s, a)
            && (NewLeader(s, a, k) ||
                var s' := Apply(s, a);
                && Inv(s') && Weight(s') < Weight(s) && c < |s'.calls|
                && Ready(s'.shared, s'.calls[c], k) && k in s'.shared.cache.entries)
  {
    var op := NextOp(s.calls[c]);
    ReadyIsEnabled(s.shared, s.calls[c], k);
    NewLeaderIsAtKey(s, c, op, k);
    if !AtKey(s.calls[c], op, k) {
      StaysReady(s.shared, s.calls[c], op, k);
      LocalShares(s.shared, s.calls[c], op, k);
      ApplyKeepsInv(s, Act(c, op));
      ActLowersWeight(s, c, op);
    }
  }

  lemma {:induction false} ReadyLeads(s: State, c: nat, k: Key) returns (ops: seq<Op>)
    requires Inv(s) && c < |s.calls| && Ready(s.shared, s.calls[c], k) && k in s.shared.cache.entries
    ensures LeadsBy(s, c, k, ops)
    decreases Weight(s)
  {
    var op := NextOp(s.calls[c]);
    ReadyStep(s, c, k);
    if NewLeader(s, Act(c, op), k) {
      ops := [op];
    } else {
      var rest := ReadyLeads(Apply(s, Act(c, op)), c, k);
      ops := [op] + rest;
      assert ops[1..] == rest;
    }
  }

  lemma UnreadyStep(s: State, c: nat, op: Op, k: Key)
    requires Inv(s) && CanAct(s, Act(c, op)) && !Ready(s.shared, s.calls[c], k) && k in s.shared.cache.entries
    ensures !NewLeader(s, Act(c, op), k)
    ensures var s' := Apply(s, Act(c, op)); c < |s'.calls| && !Ready(s'.shared, s'.calls[c], k)
  {
    StaysUnready(s.shared, s.calls[c], op, k);
    if NewLeader(s, Act(c, op), k) {
      NewLeaderWasUnserved(s, Act(c, op), Apply(s, Act(c, op)), k);
    }
  }

  lemma {:induction false} UnreadyNeverLeads(s: State, c: nat, k: Key, ops: seq<Op>)
    requires c < |s.calls| && !Ready(s.shared, s.calls[c], k)
    ensures !LeadsBy(s, c, k, ops)
    decreases |ops|
  {
    if LeadsBy(s, c, k, ops) {
      UnreadyStep(s, c, ops[0], k);
      if |ops| > 1 {
        UnreadyNeverLeads(Apply(s, Act(c, ops[0])), c, k, ops[1..]);
      }
    }
  }

  /** From every state with `k` cached, a call left to itself costs one more conversion of `k`
      exactly when it has missed on `k` without leading it, nobody holds `k`, and it is not waiting
      for a notifier still to fire. */
  lemma LateLeaderExactly(s: State, c: nat, k: Key)
    requires Inv(s) && c < |s.calls| && k in s.shared.cache.entries
    ensures LeadsAlone(s, c, k) <==> Ready(s.shared, s.calls[c], k)
  {
    if Ready(s.shared, s.calls[c], k) {
      var ops := ReadyLeads(s, c, k);
    } else {
      forall ops: seq<Op> ensures !LeadsBy(s, c, k, ops) {
        UnreadyNeverLeads(s, c, k, ops);
      }
    }
  }
}
