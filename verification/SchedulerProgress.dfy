/** Bounded preemption: a ready VP cannot be kept waiting by a running VP that never
    blocks for more quantum ticks than the decay of the runner's priority takes. */
module SchedulerProgress {
  import opened Sequences
  import opened PriorityBitmap
  import opened MonotonicClocks
  import opened SchedulerState
  import opened SchedulerInvariant
  import opened SchedulerSteps
  import opened SchedulerRuns

  /** Sum of the quantum allowances of the priorities `q <= k < p`. */
  function AllowanceSum(q: int, p: int): (n: nat)
    requires 0 <= q && p <= PRIORITY_COUNT
    decreases p - q
  {
    if q >= p then 0 else AllowanceSum(q, p - 1) + Allowance(p - 1)
  }

  /** Ticks the running VP can still take before its priority is below `q`. */
  function Budget(s: Sched, q: int): (n: int)
    requires Shaped(s) && InRange(q)
  {
    s.vps[s.running].quantumAllowance + AllowanceSum(q, s.vps[s.running].effectivePriority)
  }

  /** `w` sits on a ready list with effective priority at least `q`. */
  ghost predicate ReadyAt(s: Sched, w: VpId, q: int)
    requires Shaped(s)
  {
    && w in s.vps && w in s.ready[s.vps[w].effectivePriority]
    && s.vps[w].effectivePriority >= q
  }

  // ---- Ticks --------------------------------------------------------------------

  /** The expiry loop touches only VPs that are waiting. */
  lemma ExpireFrame(s: Sched, u: VpId)
    requires Inv(s) && u in s.vps && !s.vps[u].state.Waiting?
    ensures u in Expire(s).vps && Expire(s).vps[u] == s.vps[u]
    decreases |s.timeouts|
  {
    if s.timeouts != [] {
      var v := s.timeouts[0];
      TimeoutOwner(s, v);
      if s.vps[v].timeoutDeadline <= s.now {
        var q := s.vps[v].waitingOn.value;
        WakeUpOneInv(s, q, v, TimedOut);
        WakeUpOneFrame(s, q, v, TimedOut);
        WithoutMembers(s.timeouts, v);
        ExpireFrame(WakeUpOne(s, q, v, TimedOut, false, false), u);
      }
    }
  }

  lemma ReadyStays(s: Sched, t: Sched, w: VpId, q: int)
    requires Inv(s) && Inv(t) && ReadyAt(s, w, q) && w in t.vps && t.vps[w] == s.vps[w]
    requires t.running == s.running
    ensures ReadyAt(t, w, q) && w != s.running && s.vps[w].state.Ready?
  {
    assert Placed(t, w);
  }

  lemma AllowanceSumStep(q: int, p: int)
    requires 0 <= q < p <= PRIORITY_COUNT
    ensures AllowanceSum(q, p) == AllowanceSum(q, p - 1) + Allowance(p - 1)
  {
  }

  lemma SliceSpendsBudget(s: Sched, w: VpId, q: int)
    requires Inv(s) && ReadyAt(s, w, q) && 1 <= q <= PRIORITY_HIGHEST
    ensures var t := EndSlice(s);
            if t.running == s.running then Budget(t, q) < Budget(s, q)
            else t.vps[t.running].effectivePriority >= q
  {
    hide BitmapOk, WaitOk, TimeoutOk, FinalOk, Placed, AllowanceSum;
    var vp := s.vps[s.running];
    if vp.quantumAllowance <= 1 {
      var lower := Max(vp.effectivePriority - 1, PRIORITY_LOWEST);
      var s1 := SetVp(s, s.running, vp.(effectivePriority := lower, quantumAllowance := Allowance(lower)));
      SetRunningInv(s, vp.priority, lower, Allowance(lower));
      BestBeatsReady(s1, w, {s.running});
      BestIsHighest(s1, {s.running});
      var b := Best(s1).value;
      if s1.vps[b].effectivePriority > lower {
        RotateInv(s1, b);
      } else {
        NextSliceIsCheaper(q, vp.effectivePriority);
      }
    }
  }

  /** A slice at the next lower priority, if that is not below `q`, is paid for by the sum. */
  lemma NextSliceIsCheaper(q: int, p: int)
    requires 0 <= q < p <= PRIORITY_HIGHEST
    ensures Allowance(p - 1) + AllowanceSum(q, p - 1) == AllowanceSum(q, p)
  {
    AllowanceSumStep(q, p);
  }

  lemma TickSpendsBudget(s: Sched, w: VpId, q: int)
    requires Inv(s) && ReadyAt(s, w, q) && 1 <= q <= PRIORITY_HIGHEST
    ensures Shaped(Tick(s))
    ensures var t := Tick(s);
            if t.running == s.running then Budget(t, q) < Budget(s, q)
            else t.vps[t.running].effectivePriority >= q
  {
    var a := Advance(s);
    ReadyStays(s, a, w, q);
    ExpireFrame(a, w);
    ExpireFrame(a, s.running);
    var e := Expire(a);
    ReadyStays(a, e, w, q);
    SliceSpendsBudget(e, w, q);
  }

  // ---- Other steps --------------------------------------------------------------

  /** The runner after a step that is neither a tick nor a priority change of the runner:
      either the same VP with the same slice, or one of effective priority at least `q`. */
  ghost predicate RunnerKept(s: Sched, t: Sched, q: int)
    requires Shaped(s)
  {
    && Shaped(t)
    && if t.running == s.running then
         && t.vps[t.running].effectivePriority == s.vps[s.running].effectivePriority
         && t.vps[t.running].quantumAllowance == s.vps[s.running].quantumAllowance
       else t.vps[t.running].effectivePriority >= q
  }

  lemma SwitchAwayRunner(s: Sched, w: VpId, q: int)
    requires Core(s, {}) && !s.vps[s.running].state.Running? && ReadyAt(s, w, q)
    ensures Shaped(SwitchAway(s)) && SwitchAway(s).vps[SwitchAway(s).running].effectivePriority >= q
  {
    BestBeatsReady(s, w, {});
    SwitchAwayInv(s);
  }

  lemma MaybeSwitchRunner(s: Sched, v: VpId, cooperation: bool, w: VpId, q: int)
    requires Inv(s) && ReadyAt(s, w, q) && v in s.vps
    ensures RunnerKept(s, MaybeSwitchTo(s, v, cooperation), q)
  {
    var t := MaybeSwitchTo(s, v, cooperation);
    if t != s {
      BestBeatsReady(s, w, {s.running});
      BestIsHighest(s, {s.running});
      PreemptInv(s, v);
      SwitchToInv(AddReady(s, s.running, s.vps[s.running].priority), v);
    }
  }

  lemma WakeEachFrame(s: Sched, q: QueueId, vs: seq<VpId>, reason: WakeReason, found: Option<VpId>, u: VpId)
    requires Inv(s) && OnQueue(s, q, vs) && (found.Some? ==> found.value in s.vps)
    requires u in s.vps && !s.vps[u].state.Waiting?
    ensures WakeEach(s, q, vs, reason, found).0.vps[u] == s.vps[u]
    decreases |vs|
  {
    if vs != [] {
      var v := vs[0];
      assert v in vs;
      var t := WakeUpOne(s, q, v, reason, false, false);
      WakeEachStep(s, q, vs, reason);
      WakeUpOneFrame(s, q, v, reason);
      var candidate :=
        if found.None? && t.vps[v].state.Ready? && t.vps[v].suspensionCount == 0 then Some(v) else found;
      WakeEachFrame(t, q, vs[1..], reason, candidate, u);
    }
  }

  lemma WakeRunner(s: Sched, wq: QueueId, count: int, reason: WakeReason, allowSwitch: bool,
                   cooperation: bool, w: VpId, q: int)
    requires Inv(s) && ReadyAt(s, w, q) && wq in s.queues
    ensures RunnerKept(s, WakeUpSome(s, wq, count, reason, allowSwitch, cooperation), q)
  {
    var n := WakeCount(count, |s.queues[wq]|);
    PrefixOnQueue(s, wq, n);
    ReadyStays(s, s, w, q);
    WakeEachFrame(s, wq, s.queues[wq][..n], reason, None, w);
    WakeEachFrame(s, wq, s.queues[wq][..n], reason, None, s.running);
    var (t, candidate) := FirstPass(s, wq, n, reason);
    ReadyStays(s, t, w, q);
    if candidate.Some? {
      MaybeSwitchRunner(t, candidate.value, cooperation, w, q);
    }
  }

  lemma WaitRunner(s: Sched, idle: VpId, wq: QueueId, interruptable: bool, w: VpId, q: int)
    requires Core(s, {s.running}) && !s.vps[s.running].terminated && wq in s.queues
    requires w != s.running && ReadyAt(s, w, q)
    ensures RunnerKept(s, SwitchAway(Enqueue(s, wq, interruptable)), q)
            && SwitchAway(Enqueue(s, wq, interruptable)).running != s.running
  {
    EnqueueCore(s, wq, interruptable, {s.running});
    assert {s.running} - {s.running} == {};
    var e := Enqueue(s, wq, interruptable);
    SwitchAwayRunner(e, w, q);
    BestIsHighest(e, {});
  }

  /** The running VP is put aside with new fields and the best ready VP takes over. */
  lemma AsideRunner(s: Sched, s1: Sched, w: VpId, q: int)
    requires Shaped(s1) && s1.vps[s1.running].state.Running?
    requires Core(SetVp(s1, s1.running, s1.vps[s1.running].(state := Ready)), {})
    requires ReadyAt(s1, w, q) && w != s1.running
    requires s1.vps[s1.running].suspensionCount > 0 || s1.vps[s1.running].terminated
    requires Shaped(s) && s.running == s1.running
    ensures RunnerKept(s, SwitchAway(s1), q)
  {
    var v := s1.running;
    var s2 := SetVp(s1, v, s1.vps[v].(state := Ready));
    BestBeatsReady(s2, w, {});
    SwitchAwayParks(s1, s2, v);
    SwitchAwayRunner(s2, w, q);
    AsideIsLeft(s2, v);
  }

  lemma AsideIsLeft(s: Sched, v: VpId)
    requires Core(s, {}) && s.running == v && s.vps[v].state.Ready? && Best(s).Some?
    requires s.vps[v].suspensionCount > 0 || s.vps[v].terminated
    ensures SwitchAway(s).running != v
  {
    SwitchAwayInv(s);
    BestIsHighest(s, {});
  }

  lemma SuspendSelf(s: Sched, up: Vp, w: VpId, q: int)
    requires Inv(s) && ReadyAt(s, w, q) && up == s.vps[s.running].(suspensionCount := 1)
    ensures RunnerKept(s, SwitchAway(SetVp(s, s.running, up)), q)
  {
    ReadyStays(s, s, w, q);
    ParkedCore(s, up);
    ReadyAtElsewhere(s, up, w, q);
    AsideRunner(s, SetVp(s, s.running, up), w, q);
  }

  lemma SuspendRunner(s: Sched, v: VpId, w: VpId, q: int)
    requires Inv(s) && ReadyAt(s, w, q) && v in s.vps && !s.vps[v].terminated
    ensures RunnerKept(s, Suspend(s, v), q)
  {
    if v == s.running {
      SuspendRunningIs(s);
      var t := SwitchAway(SetVp(s, s.running, s.vps[s.running].(suspensionCount := 1)));
      assert RunnerKept(s, t, q) by {
        SuspendSelf(s, s.vps[v].(suspensionCount := 1), w, q);
      }
    } else {
      SuspendOther(s, v, q);
    }
  }

  lemma ReadyAtElsewhere(s: Sched, up: Vp, w: VpId, q: int)
    requires Shaped(s) && ReadyAt(s, w, q) && w != s.running
    requires InRange(up.priority) && InRange(up.effectivePriority)
    ensures Shaped(SetVp(s, s.running, up)) && ReadyAt(SetVp(s, s.running, up), w, q)
  {
  }

  lemma SuspendOther(s: Sched, v: VpId, q: int)
    requires Inv(s) && v in s.vps && v != s.running
    ensures RunnerKept(s, Suspend(s, v), q)
  {
    assert Placed(s, v);
  }

  lemma ParkedCore(s: Sched, up: Vp)
    requires Inv(s) && s.vps[s.running].suspensionCount < SUSPENSION_MAX
    requires up == s.vps[s.running].(suspensionCount := s.vps[s.running].suspensionCount + 1)
    ensures Core(SetVp(SetVp(s, s.running, up), s.running, up.(state := Ready)), {})
  {
    var v := s.running;
    var s2 := SetVp(s, v, up.(state := Ready));
    assert s2 == SetVp(SetVp(s, v, up), v, up.(state := Ready));
    SetLooseCore(s, v, up.(state := Ready), {v});
    SettleCore(s2, v, {v});
    assert {v} - {v} == {};
  }

  lemma TerminateRunner(s: Sched, cooperation: bool, w: VpId, q: int)
    requires Inv(s) && ReadyAt(s, w, q) && !FinalizesNow(s)
    ensures RunnerKept(s, Terminate(s, cooperation), q)
  {
    hide BitmapOk, ReadyOk, WaitOk, TimeoutOk, FinalOk, Placed;
    var v := s.running;
    var dead := s.vps[v].(terminated := true);
    var s1 := s.(vps := s.vps[v := dead], finalizer := s.finalizer + [v]);
    var s2 := SetVp(s1, v, dead.(state := Ready));
    assert s2.vps == s.vps[v := dead.(state := Ready)];
    TerminatedCore(s, s2);
    ReadyStays(s, s, w, q);
    AsideRunner(s, s1, w, q);
  }

  lemma ResumeRunner(s: Sched, v: VpId, force: bool, cooperation: bool, q: int)
    requires Inv(s) && v in s.vps && !s.vps[v].terminated
    ensures RunnerKept(s, Resume(s, v, force, cooperation), q)
  {
    if v != s.running { assert Placed(s, v); }
  }

  lemma WaitStepRunner(s: Sched, idle: VpId, wq: QueueId, deadline: Option<TimeInterval>, curTime: int,
                       interruptable: bool, w: VpId, q: int)
    requires Inv(s) && wq in s.queues && ReadyAt(s, w, q)
    ensures var r := WaitOn(s, wq, deadline, curTime, interruptable);
            r.Blocked? ==> RunnerKept(s, r.next, q)
  {
    ReadyStays(s, s, w, q);
    match deadline
    case None => WaitRunner(s, idle, wq, interruptable, w, q);
    case Some(t) =>
      ArmTimeoutCore(s, s.running, t, {s.running});
      WaitRunner(ArmTimeout(s, s.running, t), idle, wq, interruptable, w, q);
  }

  lemma SetPriorityRunner(s: Sched, v: VpId, pri: int, q: int)
    requires Inv(s) && v in s.vps && v != s.running && InRange(pri)
    ensures RunnerKept(s, SetPriority(s, v, pri), q)
  {
    assert Placed(s, v);
  }

  predicate SetsRunner(s: Sched, step: Step) {
    step.SetPriorityStep? && step.v == s.running
  }

  /** A new priority gives the runner a full new slice. */
  ghost predicate RunnerRenewed(s: Sched, t: Sched, pri: int)
    requires Shaped(s) && InRange(pri)
  {
    && Shaped(t) && t.running == s.running
    && if s.vps[s.running].priority == pri then t == s
       else t.vps[t.running].effectivePriority == pri && t.vps[t.running].quantumAllowance == Allowance(pri)
  }

  lemma OtherStepsKeepRunner(s: Sched, idle: VpId, step: Step, w: VpId, q: int)
    requires Safe(s, idle) && Enabled(s, idle, step) && ReadyAt(s, w, q) && !step.TickStep?
    ensures if SetsRunner(s, step) then RunnerRenewed(s, Apply(s, idle, step), step.pri)
            else RunnerKept(s, Apply(s, idle, step), q)
  {
    match step
    case WaitStep(wq, deadline, curTime, interruptable) =>
      WaitStepRunner(s, idle, wq, deadline, curTime, interruptable, w, q);
    case WakeStep(wq, count, reason, allowSwitch, cooperation) =>
      WakeRunner(s, wq, count, reason, allowSwitch, cooperation, w, q);
    case SuspendStep(v) => SuspendRunner(s, v, w, q);
    case ResumeStep(v, force, cooperation) => ResumeRunner(s, v, force, cooperation, q);
    case SetPriorityStep(v, pri) => if v != s.running { SetPriorityRunner(s, v, pri, q); }
    case CreateStep(v, pri) =>
    case NewQueueStep(_) =>
    case TerminateStep(cooperation) => TerminateRunner(s, cooperation, w, q);
    case FinalizeStep => FinalizeKeepsSafe(s, idle);
  }

  // ---- Runs ---------------------------------------------------------------------

  /** In this run `r` keeps the CPU while `w` stays on a ready list with effective priority at
      least `q`. */
  ghost predicate KeptWaiting(s: Sched, idle: VpId, steps: seq<Step>, r: VpId, w: VpId, q: int)
    requires Safe(s, idle)
    decreases |steps|
  {
    && s.running == r && ReadyAt(s, w, q)
    && (steps != [] ==>
          && Enabled(s, idle, steps[0])
          && (StepKeepsSafe(s, idle, steps[0]);
              KeptWaiting(Apply(s, idle, steps[0]), idle, steps[1..], r, w, q)))
  }

  function Ticks(steps: seq<Step>): nat {
    if steps == [] then 0 else (if steps[0].TickStep? then 1 else 0) + Ticks(steps[1..])
  }

  /** How often the priority of `r` is set. */
  function Renewals(steps: seq<Step>, r: VpId): nat {
    if steps == [] then 0
    else (if steps[0].SetPriorityStep? && steps[0].v == r then 1 else 0) + Renewals(steps[1..], r)
  }

  /** However the other steps interleave, the number of ticks `r` can keep `w` waiting stays
      below the budget `r` started with; each time somebody sets the priority of `r` itself
      adds no more than a full budget. */
  lemma {:induction false} BoundedPreemption(s: Sched, idle: VpId, steps: seq<Step>, r: VpId, w: VpId, q: int)
    requires Safe(s, idle) && 1 <= q <= PRIORITY_HIGHEST
    requires KeptWaiting(s, idle, steps, r, w, q)
    ensures Ticks(steps) < Budget(s, q) + 280 * Renewals(steps, r)
    decreases |steps|
  {
    hide BitmapOk, ReadyOk, WaitOk, TimeoutOk, FinalOk, Placed, Apply, AllowanceSum;
    if steps != [] {
      var t := Apply(s, idle, steps[0]);
      StepKeepsSafe(s, idle, steps[0]);
      BoundedPreemption(t, idle, steps[1..], r, w, q);
      StepSpends(s, idle, steps[0], w, q);
    }
  }

  /** The budget after a step that leaves the runner in place. */
  lemma StepSpends(s: Sched, idle: VpId, step: Step, w: VpId, q: int)
    requires Safe(s, idle) && Enabled(s, idle, step) && ReadyAt(s, w, q) && 1 <= q <= PRIORITY_HIGHEST
    requires Apply(s, idle, step).running == s.running && Safe(Apply(s, idle, step), idle)
    ensures var t := Apply(s, idle, step);
            && 1 <= Budget(s, q)
            && (step.TickStep? ==> Budget(t, q) < Budget(s, q))
            && (!step.TickStep? && !SetsRunner(s, step) ==> Budget(t, q) <= Budget(s, q))
            && Budget(t, q) <= 280
  {
    hide BitmapOk, ReadyOk, WaitOk, TimeoutOk, FinalOk, Placed, AllowanceSum;
    BudgetBound(Apply(s, idle, step), q);
    if step.TickStep? { TickSpendsBudget(s, w, q); } else { OtherStepsKeepRunner(s, idle, step, w, q); }
  }

  /** Whoever replaces the runner while `w` is ready has effective priority at least `q`. */
  lemma SuccessorIsWorthy(s: Sched, idle: VpId, step: Step, w: VpId, q: int)
    requires Safe(s, idle) && Enabled(s, idle, step) && ReadyAt(s, w, q) && 1 <= q <= PRIORITY_HIGHEST
    ensures Safe(Apply(s, idle, step), idle)
    ensures var t := Apply(s, idle, step);
            t.running != s.running ==> t.vps[t.running].effectivePriority >= q
  {
    StepKeepsSafe(s, idle, step);
    if step.TickStep? {
      TickSpendsBudget(s, w, q);
    } else {
      OtherStepsKeepRunner(s, idle, step, w, q);
    }
  }

  lemma AllowanceSumMonotone(q: int, p: int, q': int, p': int)
    requires 0 <= q' <= q && p <= p' <= PRIORITY_COUNT
    ensures AllowanceSum(q, p) <= AllowanceSum(q', p')
    decreases (p' - q') + (if p < p' then p' - p else 0)
  {
    if p < p' {
      if q' < p' { AllowanceSumMonotone(q, p, q', p' - 1); }
      else { }
    } else if q' < p' {
      if q < p { AllowanceSumMonotone(q, p - 1, q', p' - 1); }
    }
  }

  /** The eight priorities `8m` to `8m + 7` share the allowance `8 - m`. */
  lemma AllowanceRow(m: nat, first: int, j: nat, p: int)
    requires m < 8 && first == 8 * m && j <= 8 && p == first + j && p >= 1
    ensures AllowanceSum(1, p) == if m == 0 then 8 * (j - 1) else AllowanceSum(1, first) + (8 - m) * j
  {
    if j > 0 && p > 1 {
      assert Allowance(p - 1) == 8 - m;
      assert (8 - m) * j == (8 - m) * (j - 1) + (8 - m);
      AllowanceRow(m, first, j - 1, p - 1);
    }
  }

  function RowTotal(m: nat): nat
    requires m < 8
  {
    if m == 0 then 56 else RowTotal(m - 1) + 8 * (8 - m)
  }

  lemma AllowanceRows(m: nat, p: int)
    requires m < 8 && p == 8 * m + 8
    ensures AllowanceSum(1, p) == RowTotal(m)
  {
    AllowanceRow(m, 8 * m, 8, p);
    if m > 0 {
      AllowanceRows(m - 1, p - 8);
    }
  }

  lemma AllRows()
    ensures AllowanceSum(1, 64) == 280
  {
    AllowanceRows(7, 64);
    assert RowTotal(3) == 56 + 56 + 48 + 40;
    assert RowTotal(7) == RowTotal(3) + 32 + 24 + 16 + 8;
  }

  /** The budget never exceeds the allowances of the priorities from `q` to the runner's
      own, and so never 280 ticks. */
  lemma BudgetBound(s: Sched, q: int)
    requires Inv(s) && 1 <= q <= PRIORITY_HIGHEST
    ensures var p := s.vps[s.running].effectivePriority;
            && Budget(s, q) <= 280
            && (p >= q ==> Budget(s, q) <= AllowanceSum(q, p + 1))
            && (p < q ==> Budget(s, q) <= Allowance(p))
  {
    hide BitmapOk, ReadyOk, WaitOk, TimeoutOk, FinalOk, Placed;
    var p := s.vps[s.running].effectivePriority;
    if p >= q {
      AllRows();
      AllowanceSumMonotone(q, p + 1, 1, 64);
    }
  }
}
