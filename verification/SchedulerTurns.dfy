/** Ready virtual processors of one priority run in turn
    (Kernel/Sources/dispatcher/VirtualProcessorScheduler.c:109-228, 299-512). */
module SchedulerTurns {
  import opened Sequences
  import opened PriorityBitmap
  import opened MonotonicClocks
  import opened SchedulerState
  import opened SchedulerInvariant
  import opened SchedulerSteps
  import opened SchedulerRuns
  import opened SchedulerReachable
  import opened SchedulerWaits
  import opened SchedulerArrivals
  import opened SchedulerWakes
  import opened SchedulerEffects
  import opened SchedulerLives

  // ---- Order in a ready list ------------------------------------------------------------

  /** `r` is what is left of `q`, in order, with newcomers behind it. */
  ghost predicate InTurn(q: seq<VpId>, r: seq<VpId>) {
    exists kept, added :: r == kept + added && Thinned(q, kept) && forall v | v in added :: v !in q
  }

  lemma InTurnKeepsOrder(q: seq<VpId>, r: seq<VpId>, a: VpId, b: VpId)
    requires InTurn(q, r) && Before(q, a, b) && a in r && b in r
    ensures Before(r, a, b)
  {
    var kept, added :| r == kept + added && Thinned(q, kept) && forall v | v in added :: v !in q;
    assert a in kept && b in kept;
    assert Before(kept, a, b);
    var i, j :| 0 <= i < j < |kept| && kept[i] == a && kept[j] == b;
    assert r[i] == a && r[j] == b;
  }

  lemma NewcomersBehind(q: seq<VpId>, r: seq<VpId>, a: VpId, b: VpId)
    requires InTurn(q, r) && a in q && b !in q && a in r && b in r
    ensures Before(r, a, b)
  {
    var kept, added :| r == kept + added && Thinned(q, kept) && forall v | v in added :: v !in q;
    assert a in kept && b in added;
    var i :| 0 <= i < |kept| && kept[i] == a;
    var j :| 0 <= j < |added| && added[j] == b;
    assert r[i] == a && r[|kept| + j] == b;
  }

  lemma AppendedInTurn(q: seq<VpId>, added: seq<VpId>)
    requires forall v | v in added :: v !in q
    ensures InTurn(q, q + added)
  {
    ThinnedSame(q);
  }

  /** The head leaves, and newcomers come. */
  lemma HeadLeavesInTurn(q: seq<VpId>, grown: seq<VpId>, last: seq<VpId>)
    requires Distinct(q) && (forall v | v in grown :: v !in q) && (forall v | v in last :: v !in q)
    requires q + grown != []
    ensures InTurn(q, (q + grown)[1..] + last)
  {
    if q == [] {
      ThinnedSame(q);
      assert (q + grown)[1..] + last == [] + (grown[1..] + last);
    } else {
      HeadGoes(q, q[0]);
      WithoutThins(q, q[0]);
      assert (q + grown)[1..] + last == q[1..] + (grown + last);
    }
  }

  lemma WithoutInTurn(q: seq<VpId>, v: VpId)
    requires Distinct(q)
    ensures InTurn(q, Without(q, v))
  {
    WithoutThins(q, v);
    assert Without(q, v) == Without(q, v) + [];
  }

  // ---- What each operation does to a ready list -------------------------------------------

  /** The expiry loop puts those it wakes behind everybody who is ready. */
  lemma {:induction false} ExpireGrows(s: Sched, p: nat) returns (added: seq<VpId>)
    requires Inv(s) && p < PRIORITY_COUNT
    ensures Expire(s).ready[p] == s.ready[p] + added && forall v | v in added :: v !in s.ready[p]
    ensures forall v | v in added :: v in s.vps && s.vps[v].state.Waiting?
    decreases |s.timeouts|
  {
    hide BitmapOk, ReadyOk, WaitOk, TimeoutOk, FinalOk, Placed, SchedulerState.WakeUpOne;
    added := [];
    if s.timeouts != [] {
      var v := s.timeouts[0];
      TimeoutOwner(s, v);
      if s.vps[v].timeoutDeadline <= s.now {
        var q := s.vps[v].waitingOn.value;
        ExpireFirst(s);
        var t := WakeUpOne(s, q, v, TimedOut, false, false);
        TimedOutLists(s, q, v, p);
        var rest := ExpireGrows(t, p);
        added := t.ready[p][|s.ready[p]|..] + rest;
        assert Expire(s).ready[p] == s.ready[p] + added;
      }
    }
  }

  lemma TimedOutLists(s: Sched, q: QueueId, v: VpId, p: nat)
    requires Inv(s) && q in s.queues && v in s.queues[q] && v in s.vps && s.vps[v].state.Waiting? && p < PRIORITY_COUNT
    ensures v !in s.ready[p]
    ensures var t := WakeUpOne(s, q, v, TimedOut, false, false);
            |t.ready| == PRIORITY_COUNT && (t.ready[p] == s.ready[p] || t.ready[p] == s.ready[p] + [v])
  {
    hide BitmapOk, TimeoutOk, FinalOk, Placed, SetBit;
  }

  /** The running VP, waiters and suspended ones are on no ready list. */
  lemma ListedAreReady(s: Sched, p: nat, v: VpId)
    requires Inv(s) && p < PRIORITY_COUNT && v in s.ready[p]
    ensures v in s.vps && v != s.running && s.vps[v].state.Ready? && s.vps[v].suspensionCount == 0
    ensures s.vps[v].effectivePriority == p && Distinct(s.ready[p])
  {
  }

  /** The CPU goes to the head of a list. */
  lemma NextInTurn(ready: seq<seq<VpId>>, vps: map<VpId, Vp>, t: Sched, p: nat)
    requires GoesToNext(ready, vps, t) && p < |ready| && Distinct(ready[p])
    ensures |t.ready| == |ready| && InTurn(ready[p], t.ready[p])
    ensures forall b | b in ready[p] && b != ready[p][0] && b in vps && vps[b].effectivePriority == p :: t.running != b
  {
    if ready[p] != [] { HeadLeavesInTurn(ready[p], [], []); }
    AppendedInTurn(ready[p], []);
    assert ready[p] + [] == ready[p];
    if t.ready[p] != ready[p] { assert ready[p][1..] + [] == ready[p][1..]; }
  }

  lemma SwitchedInTurn(q: seq<VpId>, added: seq<VpId>, grown: seq<seq<VpId>>, ready: seq<seq<VpId>>, p: nat, from: int,
                       r: VpId, base: int)
    requires ListsSwitched(grown, ready, from, r, base) && p < |grown| && grown[p] == q + added
    requires Distinct(q) && r !in q && forall v | v in added :: v !in q
    ensures |ready| == |grown| && InTurn(q, ready[p])
  {
    var last := if p == base then [r] else [];
    if p == from {
      HeadLeavesInTurn(q, added, last);
    } else {
      AppendedInTurn(q, added + last);
      assert q + (added + last) == (q + added) + last;
    }
  }

  lemma TickInTurn(s: Sched, p: nat)
    requires Inv(s) && p < PRIORITY_COUNT
    ensures |Tick(s).ready| == PRIORITY_COUNT && InTurn(s.ready[p], Tick(s).ready[p])
    ensures forall b | b in s.ready[p] && b != s.ready[p][0] :: Tick(s).running != b
  {
    hide BitmapOk, WaitOk, TimeoutOk, FinalOk, Placed, Expire, EndSlice, ListsSwitched;
    var a := Advance(s);
    var e := Expire(a);
    var added := ExpireGrows(a, p);
    SliceEffect(e);
    AppendedInTurn(s.ready[p], added);
    if e.running in s.ready[p] { ListedAreReady(s, p, e.running); }
    var t := Tick(s);
    if t.running != e.running {
      SwitchedInTurn(s.ready[p], added, e.ready, t.ready, p, e.vps[t.running].effectivePriority, e.running,
                     e.vps[e.running].priority);
      if t.running in s.ready[p] { HeadOfGrown(s, e, p, added, t.running); }
    } else if e.running in s.ready[p] {
      ListedAreReady(s, p, e.running);
    }
  }

  lemma HeadOfGrown(s: Sched, e: Sched, p: nat, added: seq<VpId>, b: VpId)
    requires Inv(s) && Inv(e) && p < PRIORITY_COUNT && e.ready[p] == s.ready[p] + added && b in s.ready[p] && b in e.vps
    requires HeadsAll(e.ready, b, e.vps[b].effectivePriority)
    ensures b == s.ready[p][0]
  {
    assert b in e.ready[p];
    ListedAreReady(e, p, b);
  }

  lemma {:induction false} ArrivingWait(s: Sched, vs: seq<VpId>, reason: WakeReason, p: int)
    requires Known(s.vps, vs) && s.quantumsPerQuarter > 0
    ensures forall v | v in Arriving(s, vs, reason, p) :: v in vs
  {
    if vs != [] {
      assert forall v | v in vs[1..] :: v in vs;
      ArrivingWait(s, vs[1..], reason, p);
    }
  }

  lemma WakeInTurn(s: Sched, q: QueueId, count: int, reason: WakeReason, allowSwitch: bool, cooperation: bool, p: nat)
    requires Inv(s) && q in s.queues && (reason.Finished? || reason.Interrupted?) && p < PRIORITY_COUNT
    ensures var t := WakeUpSome(s, q, count, reason, allowSwitch, cooperation);
            && |t.ready| == PRIORITY_COUNT && InTurn(s.ready[p], t.ready[p])
            && forall b | b in s.ready[p] :: t.running != b
  {
    hide BitmapOk, TimeoutOk, FinalOk, Placed, WakeUpSome, ListsSwitched;
    var vs := s.queues[q][..Considered(count, |s.queues[q]|)];
    var t := WakeUpSome(s, q, count, reason, allowSwitch, cooperation);
    PassLeaves(s, q, count, reason);
    WakeListsExactly(s, q, count, reason, allowSwitch, cooperation);
    WakeSwitchesExactly(s, q, count, reason, allowSwitch, cooperation);
    var added := Arriving(s, vs, reason, p);
    ArrivingWait(s, vs, reason, p);
    forall v | v in added ensures v !in s.ready[p] { assert v in s.queues[q]; }
    if s.running in s.ready[p] { ListedAreReady(s, p, s.running); }
    if t.running == s.running {
      AppendedInTurn(s.ready[p], added);
    } else {
      var grown :| ListsGrown(s, grown, vs, reason)
                   && ListsSwitched(grown, t.ready, AfterSleep(s, t.running), s.running, s.vps[s.running].priority);
      SwitchedInTurn(s.ready[p], added, grown, t.ready, p, AfterSleep(s, t.running), s.running,
                     s.vps[s.running].priority);
      FirstArrives(s, vs, reason);
      assert t.running in s.queues[q];
    }
  }

  /** The one operation that lets somebody stay on a list and lose its place there. */
  predicate MovesBack(s: Sched, step: Step, p: nat)
    requires p < |s.ready|
  {
    step.SetPriorityStep? && step.pri == p && step.v in s.ready[p]
  }

  /** Every other operation leaves a ready list in order, with newcomers at its end, and gives the
      CPU to nobody on it but its head. */
  lemma StepInTurn(s: Sched, idle: VpId, step: Step, p: nat)
    requires Safe(s, idle) && Enabled(s, idle, step) && p < PRIORITY_COUNT && !MovesBack(s, step, p)
    ensures |Apply(s, idle, step).ready| == PRIORITY_COUNT
    ensures InTurn(s.ready[p], Apply(s, idle, step).ready[p])
    ensures forall b | b in s.ready[p] && b != s.ready[p][0] :: Apply(s, idle, step).running != b
  {
    hide BitmapOk, WaitOk, TimeoutOk, FinalOk, Placed, Apply, GoesToNext, InTurn, HeadsAll;
    AppendedInTurn(s.ready[p], []);
    assert s.ready[p] + [] == s.ready[p];
    if s.running in s.ready[p] { ListedAreReady(s, p, s.running); }
    match step
    case TickStep => TickApplies(s, idle); TickInTurn(s, p);
    case WaitStep(_, _, _, _) => WaitInTurn(s, idle, step, p);
    case WakeStep(q, count, reason, allowSwitch, cooperation) =>
      WakeApplies(s, idle, step);
      WakeInTurn(s, q, count, reason, allowSwitch, cooperation, p);
    case SuspendStep(v) => SuspendInTurn(s, idle, v, p);
    case ResumeStep(v, force, cooperation) => ResumeInTurn(s, idle, v, force, cooperation, p);
    case SetPriorityStep(v, pri) => SetPriorityInTurn(s, idle, v, pri, p);
    case CreateStep(v, pri) => CreateEffect(s, idle, v, pri);
    case NewQueueStep(q) => NewQueueApplies(s, idle, q);
    case TerminateStep(cooperation) => TerminateInTurn(s, idle, cooperation, p);
    case FinalizeStep => FinalizeEffect(s, idle);
  }

  lemma WaitInTurn(s: Sched, idle: VpId, wait: Step, p: nat)
    requires Safe(s, idle) && Enabled(s, idle, wait) && wait.WaitStep? && p < PRIORITY_COUNT
    ensures var t := Apply(s, idle, wait);
            && |t.ready| == PRIORITY_COUNT && InTurn(s.ready[p], t.ready[p])
            && forall b | b in s.ready[p] && b != s.ready[p][0] :: t.running != b
  {
    hide BitmapOk, WaitOk, TimeoutOk, FinalOk, Placed, Apply, GoesToNext;
    WaitEffect(s, idle, wait);
    AppendedInTurn(s.ready[p], []);
    assert s.ready[p] + [] == s.ready[p];
    if Apply(s, idle, wait) != s {
      var r := s.running;
      var vp := s.vps[r].(state := Waiting, waitingOn := Some(wait.q), waitStart := s.now,
                          wakeReason := NoReason, interruptable := wait.interruptable,
                          timeoutValid := wait.deadline.Some?,
                          timeoutDeadline := if wait.deadline.Some?
                                             then ToQuantums(s.nsPerQuantum, wait.deadline.value, AwayFromZero)
                                             else s.vps[r].timeoutDeadline);
      NextInTurn(s.ready, s.vps[r := vp], Apply(s, idle, wait), p);
    }
  }

  lemma TerminateInTurn(s: Sched, idle: VpId, cooperation: bool, p: nat)
    requires Safe(s, idle) && Enabled(s, idle, TerminateStep(cooperation)) && p < PRIORITY_COUNT
    ensures var t := Apply(s, idle, TerminateStep(cooperation));
            && |t.ready| == PRIORITY_COUNT && InTurn(s.ready[p], t.ready[p])
            && forall b | b in s.ready[p] && b != s.ready[p][0] :: t.running != b
  {
    hide BitmapOk, WaitOk, TimeoutOk, FinalOk, Placed, Apply, GoesToNext;
    TerminateEffect(s, idle, cooperation);
    var r := s.running;
    NextInTurn(s.ready, s.vps[r := s.vps[r].(terminated := true, state := Ready)],
               Apply(s, idle, TerminateStep(cooperation)), p);
  }

  lemma SuspendInTurn(s: Sched, idle: VpId, v: VpId, p: nat)
    requires Safe(s, idle) && Enabled(s, idle, SuspendStep(v)) && p < PRIORITY_COUNT
    ensures var t := Apply(s, idle, SuspendStep(v));
            && |t.ready| == PRIORITY_COUNT && InTurn(s.ready[p], t.ready[p])
            && forall b | b in s.ready[p] && b != s.ready[p][0] :: t.running != b
  {
    hide BitmapOk, WaitOk, TimeoutOk, FinalOk, Placed, Apply, GoesToNext;
    SuspendEffect(s, idle, v);
    AppendedInTurn(s.ready[p], []);
    assert s.ready[p] + [] == s.ready[p];
    WithoutInTurn(s.ready[p], v);
    if s.running in s.ready[p] { ListedAreReady(s, p, s.running); }
    if v == s.running && s.vps[v].suspensionCount < 127 {
      NextInTurn(s.ready, s.vps[v := s.vps[v].(suspensionCount := s.vps[v].suspensionCount + 1, state := Ready)],
                 Apply(s, idle, SuspendStep(v)), p);
    }
  }

  lemma ResumeInTurn(s: Sched, idle: VpId, v: VpId, force: bool, cooperation: bool, p: nat)
    requires Safe(s, idle) && Enabled(s, idle, ResumeStep(v, force, cooperation)) && p < PRIORITY_COUNT
    ensures var t := Apply(s, idle, ResumeStep(v, force, cooperation));
            |t.ready| == PRIORITY_COUNT && InTurn(s.ready[p], t.ready[p]) && t.running == s.running
  {
    hide BitmapOk, WaitOk, TimeoutOk, FinalOk, Placed, Apply;
    ResumeEffect(s, idle, v, force, cooperation);
    AppendedInTurn(s.ready[p], []);
    assert s.ready[p] + [] == s.ready[p];
    if v in s.ready[p] {
      ListedAreReady(s, p, v);
    } else {
      AppendedInTurn(s.ready[p], [v]);
    }
  }

  lemma SetPriorityInTurn(s: Sched, idle: VpId, v: VpId, pri: int, p: nat)
    requires Safe(s, idle) && Enabled(s, idle, SetPriorityStep(v, pri)) && p < PRIORITY_COUNT
    requires !MovesBack(s, SetPriorityStep(v, pri), p)
    ensures var t := Apply(s, idle, SetPriorityStep(v, pri));
            |t.ready| == PRIORITY_COUNT && InTurn(s.ready[p], t.ready[p]) && t.running == s.running
  {
    hide BitmapOk, WaitOk, TimeoutOk, FinalOk, Placed, Apply;
    SetPriorityEffect(s, idle, v, pri);
    AppendedInTurn(s.ready[p], []);
    assert s.ready[p] + [] == s.ready[p];
    WithoutInTurn(s.ready[p], v);
    if v !in s.ready[p] {
      AppendedInTurn(s.ready[p], [v]);
      assert IndexOf(s.ready[p], v) == |s.ready[p]|;
    } else {
      ListedAreReady(s, p, v);
    }
  }

  // ---- Runs ---------------------------------------------------------------------------------

  /** `a` and `b` are on ready list `p` in every state of this run, and nobody sets the priority of
      either to `p` once more. */
  ghost predicate BothReady(s: Sched, idle: VpId, steps: seq<Step>, p: nat, a: VpId, b: VpId)
    requires Safe(s, idle) && p < PRIORITY_COUNT
    decreases |steps|
  {
    && a in s.ready[p] && b in s.ready[p]
    && (steps != [] ==>
          && Enabled(s, idle, steps[0])
          && !(steps[0].SetPriorityStep? && steps[0].pri == p && (steps[0].v == a || steps[0].v == b))
          && (StepKeepsSafe(s, idle, steps[0]);
              BothReady(Apply(s, idle, steps[0]), idle, steps[1..], p, a, b)))
  }

  /** Moving somebody else to the end of the list does not change the order of two others. */
  lemma MovedBackKeepsOrder(s: Sched, idle: VpId, step: Step, p: nat, a: VpId, b: VpId)
    requires Safe(s, idle) && Enabled(s, idle, step) && p < PRIORITY_COUNT && MovesBack(s, step, p)
    requires Before(s.ready[p], a, b) && step.v != a && step.v != b
    ensures var t := Apply(s, idle, step);
            |t.ready| == PRIORITY_COUNT && Before(t.ready[p], a, b) && t.running == s.running
  {
    hide BitmapOk, WaitOk, TimeoutOk, FinalOk, Placed, Apply;
    var v := step.v;
    SetPriorityEffect(s, idle, v, step.pri);
    ListedAreReady(s, p, v);
    WithoutThins(s.ready[p], v);
    WithoutMembers(s.ready[p], v);
    if s.vps[v].priority != p {
      var rest := Without(s.ready[p], v);
      assert Before(rest, a, b);
      var i, j :| 0 <= i < j < |rest| && rest[i] == a && rest[j] == b;
      assert (rest + [v])[i] == a && (rest + [v])[j] == b;
    }
  }

  /** Ready VPs of one priority run in turn: over any run in which two of them stay ready, the one
      that came first stays before the other, and the next step does not give the CPU to the
      other one. */
  lemma {:induction false} ReadyRunInTurn(s: Sched, idle: VpId, steps: seq<Step>, p: nat, a: VpId, b: VpId, last: Step)
    requires Safe(s, idle) && p < PRIORITY_COUNT && BothReady(s, idle, steps, p, a, b) && Before(s.ready[p], a, b)
    ensures Exec(s, idle, steps).Some?
    ensures var t := Exec(s, idle, steps).value;
            && |t.ready| == PRIORITY_COUNT && Before(t.ready[p], a, b)
            && (Enabled(t, idle, last) ==> Apply(t, idle, last).running != b)
    decreases |steps|
  {
    hide BitmapOk, ReadyOk, WaitOk, TimeoutOk, FinalOk, Placed, Apply, Before;
    if steps == [] {
      if Enabled(s, idle, last) { NextIsNot(s, idle, last, p, a, b); }
    } else {
      StepKeepsSafe(s, idle, steps[0]);
      if MovesBack(s, steps[0], p) {
        MovedBackKeepsOrder(s, idle, steps[0], p, a, b);
      } else {
        StepInTurn(s, idle, steps[0], p);
        InTurnKeepsOrder(s.ready[p], Apply(s, idle, steps[0]).ready[p], a, b);
      }
      ReadyRunInTurn(Apply(s, idle, steps[0]), idle, steps[1..], p, a, b, last);
    }
  }

  lemma NextIsNot(s: Sched, idle: VpId, last: Step, p: nat, a: VpId, b: VpId)
    requires Safe(s, idle) && p < PRIORITY_COUNT && Before(s.ready[p], a, b) && Enabled(s, idle, last)
    ensures Apply(s, idle, last).running != b
  {
    hide BitmapOk, WaitOk, TimeoutOk, FinalOk, Placed, Apply;
    BehindSomebody(s, p, a, b);
    if MovesBack(s, last, p) {
      SetPriorityEffect(s, idle, last.v, last.pri);
    } else {
      StepInTurn(s, idle, last, p);
    }
  }

  lemma BehindSomebody(s: Sched, p: nat, a: VpId, b: VpId)
    requires Inv(s) && p < PRIORITY_COUNT && Before(s.ready[p], a, b)
    ensures b in s.ready[p] && b != s.ready[p][0] && b != s.running
  {
    var i, j :| 0 <= i < j < |s.ready[p]| && s.ready[p][i] == a && s.ready[p][j] == b;
    ListedAreReady(s, p, b);
  }

  /** Whoever becomes ready stands behind all who are ready with the same priority. */
  lemma NewlyReadyStandsBehind(s: Sched, idle: VpId, step: Step, p: nat, a: VpId, b: VpId)
    requires Safe(s, idle) && Enabled(s, idle, step) && p < PRIORITY_COUNT && !MovesBack(s, step, p)
    requires |Apply(s, idle, step).ready| == PRIORITY_COUNT
    requires a in s.ready[p] && b !in s.ready[p]
    requires a in Apply(s, idle, step).ready[p] && b in Apply(s, idle, step).ready[p]
    ensures Before(Apply(s, idle, step).ready[p], a, b)
  {
    StepInTurn(s, idle, step, p);
    NewcomersBehind(s.ready[p], Apply(s, idle, step).ready[p], a, b);
  }
}
