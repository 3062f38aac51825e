/** No lost wakeup, no deadlock and a bound on the length of every run. */
module SingleFlightProgress {
  import opened Prelude
  import opened ConversionCache
  import opened SingleFlight

  predicate Finished(c: Call) { c.phase.Done? || c.phase.Failed? }

  /** In every reachable state a key is in flight exactly when some item leads it, and then
      only one item of one call does. */
  lemma ExclusiveLeadership(s: State, k: Key)
    requires Inv(s)
    ensures k in s.shared.inFlight <==> exists c: nat, i: nat :: c < |s.calls| && Leads(s.calls[c], i, k)
    ensures forall b: nat, i: nat, c: nat, j: nat ::
              b < |s.calls| && Leads(s.calls[b], i, k) && c < |s.calls| && Leads(s.calls[c], j, k) ==> b == c && i == j
  {
    if k in s.shared.inFlight {
      assert k in s.owner.Keys;
      assert Leads(s.calls[s.owner[k].0], s.owner[k].1, k);
    }
  }

  /** The operation a call would perform next; it is blocked only on an unfired notifier. */
  function NextOp(c: Call): Op {
    match c.phase
    case Scan => if Cursor(c, ScanNext) < |c.st| then ScanNext else ScanEnd
    case Claim => if Cursor(c, ClaimNext) < |c.st| then ClaimNext else ClaimEnd
    case Webhook => Reply([])
    case Publish => if Cursor(c, PublishNext) < |c.st| then PublishNext else PublishEnd
    case Release => if Cursor(c, ReleaseNext) < |c.st| then ReleaseNext else ReleaseEnd
    case _ => if Cursor(c, WaitNext) < |c.st| then WaitNext else WaitEnd
  }

  lemma BlockedFollows(sh: Shared, c: Call)
    requires CallOk(c) && !Finished(c) && !Enabled(sh, c, NextOp(c))
    ensures var i := Cursor(c, WaitNext); i < |c.st| && c.st[i].Following? && c.st[i].n !in sh.notified
  {
  }

  lemma LeaderIsEnabled(sh: Shared, c: Call, i: nat, k: Key)
    requires CallOk(c) && Leads(c, i, k)
    ensures Enabled(sh, c, NextOp(c))
  {
  }

  /** Whatever the interleaving so far, while a call is unfinished some call can take a step
      of its own, without being cancelled: a blocked follower's key is held by a call that is
      itself not blocked. */
  lemma Progress(s: State, c: nat)
    requires Inv(s) && c < |s.calls| && !Finished(s.calls[c])
    ensures exists b: nat :: b < |s.calls| && Enabled(s.shared, s.calls[b], NextOp(s.calls[b]))
  {
    var call := s.calls[c];
    if !Enabled(s.shared, call, NextOp(call)) {
      BlockedFollows(s.shared, call);
      var k := KeyAt(call, Cursor(call, WaitNext)).value;
      assert k in s.shared.inFlight.Keys && k in s.owner;
      LeaderIsEnabled(s.shared, s.calls[s.owner[k].0], s.owner[k].1, k);
    }
  }

  // ---- Termination ------------------------------------------------------------------------

  /** Items that may still be led, or are being led. */
  function Open(x: ItemState): nat { if Settled(x) || x.Dropped? then 0 else 1 }

  function Rank(x: ItemState, notified: set<nat>): nat {
    match x
    case Unscanned => 8
    case Following(n) => if n in notified then 7 else 1
    case Woken(_) => 6
    case Pending => 5
    case Todo => 4
    case Leading => 3
    case Answered(_) => 2
    case Stored(_) => 1
    case _ => 0
  }

  function PhaseRank(p: Phase): nat {
    match p
    case Scan => 5
    case Claim => 4
    case Webhook => 3
    case Publish => 2
    case Release => 2
    case Wait => 1
    case _ => 0
  }

  function OpenFn(): ItemState -> nat { x => Open(x) }
  function RankFn(notified: set<nat>): ItemState -> nat { x => Rank(x, notified) }

  function CallOpen(c: Call): nat { Sum(OpenFn(), c.st) }
  function CallRank(c: Call, notified: set<nat>): nat { 5 * Sum(RankFn(notified), c.st) + PhaseRank(c.phase) }

  function CallOpenFn(): Call -> nat { c => CallOpen(c) }
  function CallRankFn(notified: set<nat>): Call -> nat { c => CallRank(c, notified) }
  function SizeFn(): Call -> nat { (c: Call) => |c.st| }

  function TotalOpen(s: State): nat { Sum(CallOpenFn(), s.calls) }
  function TotalRank(s: State): nat { Sum(CallRankFn(s.shared.notified), s.calls) }
  function Items(s: State): nat { Sum(SizeFn(), s.calls) }

  function Times(n: nat, b: nat): nat { if n == 0 then 0 else b + Times(n - 1, b) }

  lemma {:induction false} TimesIsProduct(n: nat, b: nat)
    ensures Times(n, b) == n * b
  {
    if n > 0 {
      TimesIsProduct(n - 1, b);
      assert n * b == b + (n - 1) * b;
    }
  }

  /** A strictly decreasing weight: open items first, then ranks below their greatest value. */
  function Weight(s: State): nat {
    Times(TotalOpen(s), RankBound(s) + 1) + TotalRank(s)
  }

  function RankBound(s: State): nat { 40 * Items(s) + 5 * |s.calls| }

  lemma CallBounded(c: Call, notified: set<nat>)
    ensures CallRank(c, notified) <= 40 * |c.st| + 5
    ensures CallOpen(c) <= |c.st|
  {
    SumBound(RankFn(notified), c.st, 8);
    SumBound(OpenFn(), c.st, 1);
  }

  lemma {:induction false} RanksBounded(calls: seq<Call>, notified: set<nat>)
    ensures Sum(CallRankFn(notified), calls) <= 40 * Sum(SizeFn(), calls) + 5 * |calls|
    ensures Sum(CallOpenFn(), calls) <= Sum(SizeFn(), calls)
  {
    if calls != [] {
      RanksBounded(calls[1..], notified);
      CallBounded(calls[0], notified);
    }
  }

  /** The item under the cursor is closed, or moves down one rank without waking anyone. */
  lemma AdvanceDecreases(sh: Shared, c: Call, op: Op)
    requires SharedOk(sh) && CallOk(c) && Enabled(sh, c, op) && Cursor(c, op) < |c.st|
    ensures var x, y := c.st[Cursor(c, op)], Advance(sh, c, op, Cursor(c, op));
            || Open(y) < Open(x)
            || (Open(y) == Open(x) && StepShared(sh, c, op).notified == sh.notified
                && Rank(y, sh.notified) < Rank(x, sh.notified))
  {
  }

  /** `d` has closed an item of `c`, or has a lower rank while no notifier fired. */
  ghost predicate Lower(d: Call, c: Call, before: set<nat>, after: set<nat>) {
    && |d.st| == |c.st|
    && (|| CallOpen(d) < CallOpen(c)
        || (CallOpen(d) == CallOpen(c) && after == before && CallRank(d, before) < CallRank(c, before)))
  }

  lemma PhaseDecreases(d: Call, c: Call, notified: set<nat>)
    requires |d.st| == |c.st| && PhaseRank(d.phase) < PhaseRank(c.phase)
    requires forall i :: 0 <= i < |c.st| ==> Open(d.st[i]) <= Open(c.st[i])
    requires forall i :: 0 <= i < |c.st| ==> Rank(d.st[i], notified) <= Rank(c.st[i], notified)
    ensures Lower(d, c, notified, notified)
  {
    SumMonotone(OpenFn(), OpenFn(), d.st, c.st);
    SumMonotone(RankFn(notified), RankFn(notified), d.st, c.st);
  }

  lemma ContinueDecreases(c: Call, notified: set<nat>)
    requires |c.st| == |c.items| && (c.phase.Scan? || c.phase.Wait?)
    ensures Lower(Continue(c), c, notified, notified)
  {
    var d := Continue(c);
    SumMonotone(OpenFn(), OpenFn(), d.st, c.st);
    SumMonotone(RankFn(notified), RankFn(notified), d.st, c.st);
    if p :| 0 <= p < |c.st| && c.st[p].Pending? {
      assert RankFn(notified)(d.st[p]) < RankFn(notified)(c.st[p]);
      SumMonotone(OpenFn(), OpenFn(), c.st, d.st);
    }
  }

  lemma CancelDecreases(c: Call, notified: set<nat>)
    requires CallOk(c) && c.phase.Wait? && Cursor(c, WaitNext) < |c.st|
    ensures Lower(c.(st := Abandoned(c), phase := Release), c, notified, notified)
  {
    var d, w := Abandoned(c), Cursor(c, WaitNext);
    assert OpenFn()(d[w]) < OpenFn()(c.st[w]);
    SumMonotone(OpenFn(), OpenFn(), d, c.st);
  }

  lemma CursorDecreases(sh: Shared, c: Call, op: Op)
    requires SharedOk(sh) && CallOk(c) && Enabled(sh, c, op) && Cursor(c, op) < |c.st|
    ensures Lower(StepCall(sh, c, op), c, sh.notified, StepShared(sh, c, op).notified)
  {
    var i := Cursor(c, op);
    AdvanceDecreases(sh, c, op);
    SumUpdate(OpenFn(), c.st, i, Advance(sh, c, op, i));
    SumUpdate(RankFn(sh.notified), c.st, i, Advance(sh, c, op, i));
  }

  lemma AbandonDecreases(c: Call, notified: set<nat>)
    requires CallOk(c) && c.phase.Webhook?
    ensures Lower(c.(st := Abandoned(c), phase := Release), c, notified, notified)
  {
    PhaseDecreases(c.(st := Abandoned(c), phase := Release), c, notified);
  }

  lemma DeliverDecreases(c: Call, values: seq<Value>, notified: set<nat>)
    requires CallOk(c) && c.phase.Webhook? && |values| == Leaders(c.st)
    ensures Lower(c.(st := Deliver(c.st, values), phase := Publish), c, notified, notified)
  {
    PhaseDecreases(c.(st := Deliver(c.st, values), phase := Publish), c, notified);
  }

  lemma EndDecreases(sh: Shared, c: Call, op: Op)
    requires SharedOk(sh) && CallOk(c) && Enabled(sh, c, op) && Cursor(c, op) == |c.st|
    requires !op.ScanEnd? && !op.WaitEnd? && !(op.Cancel? && c.phase.Wait?)
    ensures Lower(StepCall(sh, c, op), c, sh.notified, sh.notified)
  {
    if op.Reply? && |op.values| == Leaders(c.st) {
      DeliverDecreases(c, op.values, sh.notified);
    } else if op.Reply? || op.Fault? || op.Cancel? {
      AbandonDecreases(c, sh.notified);
    } else {
      PhaseDecreases(StepCall(sh, c, op), c, sh.notified);
    }
  }

  /** Every operation closes an item, or lowers the rank of its call and wakes nobody. */
  lemma StepDecreases(sh: Shared, c: Call, op: Op)
    requires SharedOk(sh) && CallOk(c) && Enabled(sh, c, op)
    ensures Lower(StepCall(sh, c, op), c, sh.notified, StepShared(sh, c, op).notified)
  {
    if Cursor(c, op) < |c.st| {
      CursorDecreases(sh, c, op);
    } else if op.ScanEnd? || op.WaitEnd? {
      ContinueDecreases(c, sh.notified);
    } else if op.Cancel? && c.phase.Wait? {
      CancelDecreases(c, sh.notified);
    } else {
      EndDecreases(sh, c, op);
    }
  }

  /** Replacing one call by a lower one lowers the weight of the whole system. */
  lemma {:induction false} WeightUpdate(s: State, s': State, c: nat, d: Call)
    requires c < |s.calls| && s'.calls == s.calls[c := d]
    requires Lower(d, s.calls[c], s.shared.notified, s'.shared.notified)
    ensures Weight(s') < Weight(s)
  {
    SumUpdate(SizeFn(), s.calls, c, d);
    SumUpdate(CallOpenFn(), s.calls, c, d);
    RanksBounded(s'.calls, s'.shared.notified);
    if CallOpen(d) < CallOpen(s.calls[c]) {
      Lexicographic(TotalOpen(s'), TotalOpen(s), TotalRank(s'), RankBound(s));
    } else {
      SumUpdate(CallRankFn(s.shared.notified), s.calls, c, d);
    }
  }

  lemma {:induction false} Lexicographic(fewer: nat, more: nat, rank: nat, bound: nat)
    requires fewer < more && rank <= bound
    ensures Times(fewer, bound + 1) + rank < Times(more, bound + 1)
  {
    if more > fewer + 1 {
      Lexicographic(fewer, more - 1, rank, bound);
    }
  }

  lemma ActLowersWeight(s: State, c: nat, op: Op)
    requires Inv(s) && CanAct(s, Act(c, op))
    ensures Weight(Apply(s, Act(c, op))) < Weight(s)
  {
    StepDecreases(s.shared, s.calls[c], op);
    WeightUpdate(s, Apply(s, Act(c, op)), c, StepCall(s.shared, s.calls[c], op));
  }

  // ---- Runs -------------------------------------------------------------------------------

  ghost predicate Next(s: State, a: Action, s': State) {
    Inv(s) && CanAct(s, a) && s' == Apply(s, a)
  }

  /** `ss` are the states that `acts` lead through, starting from any well-formed state. Steps are
      defined on well-formed states only; that they never leave these is proved, not assumed. */
  ghost predicate IsRun(ss: seq<State>, acts: seq<Action>) {
    && |ss| == |acts| + 1
    && Inv(ss[0])
    && forall t :: 0 <= t < |acts| && Inv(ss[t]) ==> Next(ss[t], acts[t], ss[t + 1])
  }

  /** The invariant holds in every state of every run. */
  lemma {:induction false} RunsKeepInv(ss: seq<State>, acts: seq<Action>, t: nat)
    requires IsRun(ss, acts) && t < |ss|
    ensures Inv(ss[t])
  {
    if t > 0 {
      RunsKeepInv(ss, acts, t - 1);
      assert Next(ss[t - 1], acts[t - 1], ss[t - 1 + 1]);
      ApplyKeepsInv(ss[t - 1], acts[t - 1]);
    }
  }

  lemma RunSteps(ss: seq<State>, acts: seq<Action>, t: nat)
    requires IsRun(ss, acts) && t < |acts|
    ensures Next(ss[t], acts[t], ss[t + 1])
  {
    RunsKeepInv(ss, acts, t);
  }

  lemma InitialInv(capacity: nat)
    ensures Inv(Initial(capacity))
  {
  }

  /** No run ever deadlocks: in each of its states, if a call is unfinished then some call can
      step of its own accord. */
  lemma RunsNeverBlock(ss: seq<State>, acts: seq<Action>, t: nat, c: nat)
    requires IsRun(ss, acts) && t < |ss| && c < |ss[t].calls| && !Finished(ss[t].calls[c])
    ensures exists b: nat :: b < |ss[t].calls| && Enabled(ss[t].shared, ss[t].calls[b], NextOp(ss[t].calls[b]))
  {
    RunsKeepInv(ss, acts, t);
    Progress(ss[t], c);
  }

  function Acts(acts: seq<Action>): nat {
    if acts == [] then 0 else Acts(acts[..|acts| - 1]) + (if acts[|acts| - 1].Act? then 1 else 0)
  }

  lemma {:induction false} DescentBoundsLength(ws: seq<nat>, acts: seq<Action>)
    requires |ws| == |acts| + 1
    requires forall t :: 0 <= t < |acts| ==> if acts[t].Act? then ws[t + 1] < ws[t] else ws[t + 1] <= ws[t]
    ensures Acts(acts) + ws[|acts|] <= ws[0]
  {
    var n := |acts|;
    if n > 0 {
      DescentBoundsLength(ws[..n], acts[..n - 1]);
    }
  }

  lemma NextLowersWeight(s: State, a: Action, s': State)
    requires Next(s, a, s') && !a.Arrive?
    ensures if a.Act? then Weight(s') < Weight(s) else Weight(s') == Weight(s)
  {
    if a.Act? {
      ActLowersWeight(s, a.c, a.op);
    }
  }

  /** The most steps that `n` items in `c` calls can take. */
  function MaxSteps(n: nat, c: nat): nat { (n + 1) * (40 * n + 5 * c + 1) }

  lemma WeightBounded(s: State)
    ensures Weight(s) <= MaxSteps(Items(s), |s.calls|)
  {
    RanksBounded(s.calls, s.shared.notified);
    Lexicographic(TotalOpen(s), Items(s) + 1, TotalRank(s), RankBound(s));
    TimesIsProduct(Items(s) + 1, RankBound(s) + 1);
  }

  lemma WeightBoundsRun(ss: seq<State>, acts: seq<Action>)
    requires IsRun(ss, acts)
    requires forall t :: 0 <= t < |acts| ==> !acts[t].Arrive?
    ensures Acts(acts) <= Weight(ss[0])
  {
    var ws: seq<nat> := seq(|ss|, t requires 0 <= t < |ss| => Weight(ss[t]));
    forall t | 0 <= t < |acts|
      ensures if acts[t].Act? then ws[t + 1] < ws[t] else ws[t + 1] <= ws[t]
    {
      RunSteps(ss, acts, t);
      NextLowersWeight(ss[t], acts[t], ss[t + 1]);
    }
    DescentBoundsLength(ws, acts);
  }

  /** From a state with `N` items in `C` calls, no interleaving, with any webhook answers,
      faults, cancellations and evictions, takes more than (N + 1)(40 N + 5 C + 1) steps. */
  lemma RunsAreBounded(ss: seq<State>, acts: seq<Action>)
    requires IsRun(ss, acts)
    requires forall t :: 0 <= t < |acts| ==> !acts[t].Arrive?
    ensures Acts(acts) <= MaxSteps(Items(ss[0]), |ss[0].calls|)
  {
    WeightBoundsRun(ss, acts);
    WeightBounded(ss[0]);
  }
}
