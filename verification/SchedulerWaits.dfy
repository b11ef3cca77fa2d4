/** Timed waits end exactly at the first quantum tick at or after their deadline, and
    wake-ups take exactly the waiters they should. */
module SchedulerWaits {
  import opened Arithmetic
  import opened Sequences
  import opened PriorityBitmap
  import opened MonotonicClocks
  import opened SchedulerState
  import opened SchedulerInvariant
  import opened SchedulerSteps
  import opened SchedulerRuns
  import opened SchedulerProgress
  import opened SchedulerReachable

  // ---- The expiry loop ----------------------------------------------------------

  /** The expiry loop leaves no timeout that is due. */
  lemma {:induction false} ExpireClears(s: Sched)
    requires Inv(s)
    ensures forall v | v in Expire(s).timeouts :: Expire(s).vps[v].timeoutDeadline > s.now
    decreases |s.timeouts|
  {
    if s.timeouts != [] {
      var v := s.timeouts[0];
      TimeoutOwner(s, v);
      if s.vps[v].timeoutDeadline <= s.now {
        ExpireFirst(s);
        ExpireClears(WakeUpOne(s, s.vps[v].waitingOn.value, v, TimedOut, false, false));
      }
    }
  }

  /** One round of the expiry loop ends the wait of the first VP and touches no other. */
  lemma ExpireFirst(s: Sched)
    requires Inv(s) && s.timeouts != []
    requires s.timeouts[0] in s.vps && s.vps[s.timeouts[0]].timeoutDeadline <= s.now
    ensures var v := s.timeouts[0];
            && s.vps[v].timeoutValid && s.vps[v].waitingOn.Some? && s.vps[v].waitingOn.value in s.queues
            && var t := WakeUpOne(s, s.vps[v].waitingOn.value, v, TimedOut, false, false);
               && Inv(t) && t.now == s.now && |t.timeouts| < |s.timeouts| && Expire(s) == Expire(t)
               && v in t.vps && t.vps == s.vps[v := t.vps[v]]
               && !t.vps[v].state.Waiting? && t.vps[v].wakeReason.TimedOut?
  {
    var v := s.timeouts[0];
    TimeoutOwner(s, v);
    var q := s.vps[v].waitingOn.value;
    WakeUpOneInv(s, q, v, TimedOut);
    WakeUpOneFrame(s, q, v, TimedOut);
    WithoutMembers(s.timeouts, v);
  }

  /** A due timeout ends its wait with reason TimedOut; no other VP is touched. */
  lemma {:induction false} ExpireEffect(s: Sched, u: VpId)
    requires Inv(s) && u in s.vps
    ensures u in Expire(s).vps
    ensures if s.vps[u].timeoutValid && s.vps[u].timeoutDeadline <= s.now
            then !Expire(s).vps[u].state.Waiting? && Expire(s).vps[u].wakeReason.TimedOut?
            else Expire(s).vps[u] == s.vps[u]
    decreases |s.timeouts|
  {
    if s.timeouts != [] {
      var v := s.timeouts[0];
      TimeoutOwner(s, v);
      if s.vps[v].timeoutDeadline <= s.now {
        ExpireFirst(s);
        var t := WakeUpOne(s, s.vps[v].waitingOn.value, v, TimedOut, false, false);
        if u == v {
          ExpireFrame(t, v);
        } else {
          ExpireEffect(t, u);
        }
      } else if s.vps[u].timeoutValid {
        FirstIsEarliest(s, u);
      }
    }
  }

  /** No armed timeout is due before the first one of the queue. */
  lemma FirstIsEarliest(s: Sched, u: VpId)
    requires Inv(s) && u in s.vps && s.timeouts != []
    requires s.vps[u].timeoutValid
    ensures s.timeouts[0] in s.vps
    ensures s.vps[s.timeouts[0]].timeoutDeadline <= s.vps[u].timeoutDeadline
  {
    assert u in s.timeouts;
    var k :| 0 <= k < |s.timeouts| && s.timeouts[k] == u;
  }

  /** The record after an operation that starts and ends no wait. */
  ghost predicate NoWaitChange(a: Vp, b: Vp) {
    && b.wakeReason == a.wakeReason && b.timeoutDeadline == a.timeoutDeadline
    && b.timeoutValid == a.timeoutValid
    && (a.state.Waiting? ==> b == a)
    && (!a.state.Waiting? ==> !b.state.Waiting?)
  }

  lemma RotateFrame(s: Sched, pri: int, b: VpId, u: VpId)
    requires Shaped(s) && b in s.vps && u in s.vps && InRange(pri)
    requires !s.vps[s.running].state.Waiting? && !s.vps[b].state.Waiting?
    ensures var t := SwitchContext(AddReady(RemoveReady(s, b), s.running, pri), b);
            u in t.vps && t.timeouts == s.timeouts && NoWaitChange(s.vps[u], t.vps[u])
  {
  }

  /** Charging the slice leaves waiting VPs alone and starts no wait. */
  lemma SliceFrame(s: Sched, u: VpId)
    requires Inv(s) && u in s.vps
    ensures u in EndSlice(s).vps && EndSlice(s).timeouts == s.timeouts
    ensures NoWaitChange(s.vps[u], EndSlice(s).vps[u])
  {
    var vp := s.vps[s.running];
    if vp.quantumAllowance <= 1 {
      var lower := Max(vp.effectivePriority - 1, PRIORITY_LOWEST);
      var s1 := SetVp(s, s.running, vp.(effectivePriority := lower, quantumAllowance := Allowance(lower)));
      SliceOver(s, s1, lower, u);
    }
  }

  lemma SliceOver(s: Sched, s1: Sched, lower: int, u: VpId)
    requires Inv(s) && u in s.vps && InRange(lower)
    requires s1 == SetVp(s, s.running, s.vps[s.running].(effectivePriority := lower,
                                                         quantumAllowance := Allowance(lower)))
    ensures Shaped(s1) && u in s1.vps && s1.timeouts == s.timeouts && NoWaitChange(s.vps[u], s1.vps[u])
    ensures Best(s1).Some? ==>
              && Best(s1).value in s1.vps
              && var t := SwitchContext(AddReady(RemoveReady(s1, Best(s1).value), s1.running,
                                                 s.vps[s.running].priority),
                                        Best(s1).value);
                 u in t.vps && t.timeouts == s.timeouts && NoWaitChange(s.vps[u], t.vps[u])
  {
    SetRunningInv(s, s.vps[s.running].priority, lower, Allowance(lower));
    BestIsHighest(s1, {s.running});
    if Best(s1).Some? {
      RotateFrame(s1, s.vps[s.running].priority, Best(s1).value, u);
    }
  }

  // ---- Deadlines ----------------------------------------------------------------

  /** No armed timeout is due. */
  ghost predicate Timely(s: Sched) {
    forall v | v in s.timeouts && v in s.vps :: s.vps[v].timeoutDeadline > s.now
  }

  /** A wait whose deadline fits the quantum type, made at a clock reading that is not
      behind the quantum counter. */
  predicate Clocked(s: Sched, step: Step)
    requires s.nsPerQuantum > 0
  {
    step.WaitStep? ==>
      && s.now * s.nsPerQuantum <= step.curTime
      && (step.deadline.Some? ==> IsInt32(FirstQuantumAt(Nanos(step.deadline.value), s.nsPerQuantum)))
  }

  lemma TickStaysTimely(s: Sched)
    requires Inv(s)
    ensures Timely(Tick(s))
  {
    var e := Expire(Advance(s));
    ExpireClears(Advance(s));
    forall v | v in Tick(s).timeouts && v in Tick(s).vps
      ensures Tick(s).vps[v].timeoutDeadline > Tick(s).now
    {
      SliceFrame(e, e.running);
      assert v in e.timeouts;
      SliceFrame(e, v);
    }
  }

  /** How a step other than a tick may change the record of a VP. */
  ghost predicate Evolves(a: Vp, b: Vp) {
    && (b.timeoutValid ==> a.timeoutValid && b.timeoutDeadline == a.timeoutDeadline)
    && (b.wakeReason.TimedOut? ==> a.wakeReason.TimedOut?)
    && (a.state.Waiting? && b.state.Waiting? ==> SameWait(a, b))
  }

  /** Two records of one wait: only the base priority and the suspension count may differ. */
  ghost predicate SameWait(a: Vp, b: Vp) {
    b == a.(priority := b.priority, suspensionCount := b.suspensionCount)
  }

  lemma SwitchToEvolves(s: Sched, v: VpId, u: VpId)
    requires Shaped(s) && v in s.vps && u in s.vps && !s.vps[v].state.Waiting?
    ensures u in SwitchTo(s, v).vps && Evolves(s.vps[u], SwitchTo(s, v).vps[u])
  {
  }

  lemma MaybeSwitchEvolves(s: Sched, v: VpId, cooperation: bool, u: VpId)
    requires Inv(s) && v in s.vps && u in s.vps
    ensures u in MaybeSwitchTo(s, v, cooperation).vps
    ensures Evolves(s.vps[u], MaybeSwitchTo(s, v, cooperation).vps[u])
  {
    if MaybeSwitchTo(s, v, cooperation) != s {
      SwitchToEvolves(AddReady(s, s.running, s.vps[s.running].priority), v, u);
    }
  }

  lemma EvolvesTransitive(a: Vp, b: Vp, c: Vp)
    requires Evolves(a, b) && Evolves(b, c) && (b.state.Waiting? || !c.state.Waiting?)
    ensures Evolves(a, c)
  {
  }

  lemma WakeUpOneEvolves(s: Sched, q: QueueId, v: VpId, reason: WakeReason, u: VpId)
    requires Inv(s) && q in s.queues && v in s.queues[q] && u in s.vps && !reason.TimedOut?
    ensures var t := WakeUpOne(s, q, v, reason, false, false);
            && u in t.vps && Evolves(s.vps[u], t.vps[u])
            && (t.vps[u].state.Waiting? ==> s.vps[u].state.Waiting?)
  {
    WakeUpOneFrame(s, q, v, reason);
  }

  lemma {:induction false} WakeEachEvolves(s: Sched, q: QueueId, vs: seq<VpId>, reason: WakeReason,
                                           found: Option<VpId>, u: VpId)
    requires Inv(s) && OnQueue(s, q, vs) && (found.Some? ==> found.value in s.vps) && u in s.vps
    requires !reason.TimedOut?
    ensures var last := WakeEach(s, q, vs, reason, found).0.vps[u];
            Evolves(s.vps[u], last) && (last.state.Waiting? ==> s.vps[u].state.Waiting?)
    decreases |vs|
  {
    hide BitmapOk, ReadyOk, WaitOk, TimeoutOk, FinalOk, Placed, SchedulerState.WakeUpOne;
    if vs != [] {
      var v := vs[0];
      WakeEachStep(s, q, vs, reason);
      var t := WakeUpOne(s, q, v, reason, false, false);
      assert v in vs;
      WakeUpOneEvolves(s, q, v, reason, u);
      var candidate :=
        if found.None? && t.vps[v].state.Ready? && t.vps[v].suspensionCount == 0 then Some(v) else found;
      WakeEachEvolves(t, q, vs[1..], reason, candidate, u);
      var last := WakeEach(t, q, vs[1..], reason, candidate).0.vps[u];
      EvolvesTransitive(s.vps[u], t.vps[u], last);
    }
  }

  lemma WakeEvolves(s: Sched, q: QueueId, count: int, reason: WakeReason, allowSwitch: bool,
                    cooperation: bool, u: VpId)
    requires Inv(s) && q in s.queues && u in s.vps && !reason.TimedOut?
    ensures u in WakeUpSome(s, q, count, reason, allowSwitch, cooperation).vps
    ensures Evolves(s.vps[u], WakeUpSome(s, q, count, reason, allowSwitch, cooperation).vps[u])
  {
    var n := WakeCount(count, |s.queues[q]|);
    PrefixOnQueue(s, q, n);
    WakeEachEvolves(s, q, s.queues[q][..n], reason, None, u);
    var (t, candidate) := FirstPass(s, q, n, reason);
    if allowSwitch && candidate.Some? {
      MaybeSwitchEvolves(t, candidate.value, cooperation, u);
      MaybeSwitchStartsNoWait(t, candidate.value, cooperation, u);
      EvolvesTransitive(s.vps[u], t.vps[u], MaybeSwitchTo(t, candidate.value, cooperation).vps[u]);
    }
  }

  lemma MaybeSwitchStartsNoWait(s: Sched, v: VpId, cooperation: bool, u: VpId)
    requires Inv(s) && v in s.vps && u in s.vps
    ensures u in MaybeSwitchTo(s, v, cooperation).vps
    ensures !s.vps[u].state.Waiting? ==> !MaybeSwitchTo(s, v, cooperation).vps[u].state.Waiting?
  {
  }

  /** What WaitOn does to the records of the other VPs and of the caller. */
  lemma EnqueueFrame(s: Sched, idle: VpId, q: QueueId, interruptable: bool, u: VpId)
    requires Core(s, {s.running}) && IdleOk(s, idle) && s.now >= 0
    requires !s.vps[s.running].terminated && q in s.queues && s.running != idle && u in s.vps
    ensures var t := SwitchAway(Enqueue(s, q, interruptable));
            && u in t.vps
            && (u != s.running ==>
                  t.vps[u] == s.vps[u] || (s.vps[u].state.Ready? && t.vps[u] == s.vps[u].(state := Running)))
            && (u == s.running ==>
                  && t.vps[u].state.Waiting? && t.vps[u].waitingOn == Some(q)
                  && t.vps[u].wakeReason.NoReason?
                  && t.vps[u].timeoutValid == s.vps[u].timeoutValid
                  && t.vps[u].timeoutDeadline == s.vps[u].timeoutDeadline)
            && t.now == s.now && t.nsPerQuantum == s.nsPerQuantum
  {
    EnqueueCore(s, q, interruptable, {s.running});
    assert {s.running} - {s.running} == {};
    var e := Enqueue(s, q, interruptable);
    BlockingFindsSuccessor(e, {}, idle);
    SwitchAwayInv(e);
    BestIsHighest(e, {});
  }

  lemma WaitFrame(s: Sched, idle: VpId, q: QueueId, deadline: Option<TimeInterval>, curTime: int,
                  interruptable: bool, u: VpId)
    requires Safe(s, idle) && q in s.queues && s.running != idle && u in s.vps
    requires WaitOn(s, q, deadline, curTime, interruptable).Blocked?
    ensures var t := WaitOn(s, q, deadline, curTime, interruptable).next;
            && u in t.vps && t.now == s.now && t.nsPerQuantum == s.nsPerQuantum
            && (u != s.running ==> Evolves(s.vps[u], t.vps[u]))
            && (u == s.running ==>
                  && t.vps[u].state.Waiting? && t.vps[u].waitingOn == Some(q)
                  && t.vps[u].wakeReason.NoReason?
                  && (t.vps[u].timeoutValid <==> deadline.Some?)
                  && (deadline.Some? ==>
                        t.vps[u].timeoutDeadline == ToQuantums(s.nsPerQuantum, deadline.value, AwayFromZero)))
  {
    match deadline
    case None => EnqueueFrame(s, idle, q, interruptable, u);
    case Some(d) =>
      ArmTimeoutCore(s, s.running, d, {s.running});
      EnqueueFrame(ArmTimeout(s, s.running, d), idle, q, interruptable, u);
  }

  lemma SuspendSelfEvolves(s: Sched, idle: VpId, u: VpId)
    requires Safe(s, idle) && s.running != idle && !s.vps[s.running].terminated && u in s.vps
    ensures u in Suspend(s, s.running).vps && Evolves(s.vps[u], Suspend(s, s.running).vps[u])
  {
    SuspendRunningIs(s);
    var up := s.vps[s.running].(suspensionCount := 1);
    assert Evolves(SetVp(s, s.running, up).vps[u], SwitchAway(SetVp(s, s.running, up)).vps[u]) by {
      ParkedCore(s, up);
      AsideEvolves(SetVp(s, s.running, up), idle, u);
    }
  }

  lemma SuspendEvolves(s: Sched, idle: VpId, v: VpId, u: VpId)
    requires Safe(s, idle) && v in s.vps && !s.vps[v].terminated && v != idle && u in s.vps
    ensures u in Suspend(s, v).vps && Evolves(s.vps[u], Suspend(s, v).vps[u])
  {
    if v == s.running {
      SuspendSelfEvolves(s, idle, u);
    } else if s.vps[v].suspensionCount < SUSPENSION_MAX {
      assert !s.vps[v].state.Running? by { assert Placed(s, v); }
      SuspendOtherIs(s, v);
    }
  }

  lemma AsideEvolves(s1: Sched, idle: VpId, u: VpId)
    requires Shaped(s1) && s1.vps[s1.running].state.Running? && s1.now >= 0
    requires var s2 := SetVp(s1, s1.running, s1.vps[s1.running].(state := Ready));
             Core(s2, {}) && IdleOk(s2, idle)
    requires u in s1.vps
    ensures u in SwitchAway(s1).vps && Evolves(s1.vps[u], SwitchAway(s1).vps[u])
  {
    var s2 := SetVp(s1, s1.running, s1.vps[s1.running].(state := Ready));
    SwitchAwaySafe(s2, idle);
    SwitchAwayParks(s1, s2, s1.running);
    SwitchAwayInv(s2);
    BestIsHighest(s2, {});
  }

  lemma TerminateEvolves(s: Sched, idle: VpId, cooperation: bool, u: VpId)
    requires Safe(s, idle) && s.running != idle && !FinalizesNow(s) && u in s.vps
    ensures u in Terminate(s, cooperation).vps && Evolves(s.vps[u], Terminate(s, cooperation).vps[u])
  {
    var v := s.running;
    var dead := s.vps[v].(terminated := true);
    var s1 := s.(vps := s.vps[v := dead], finalizer := s.finalizer + [v]);
    var s2 := SetVp(s1, v, dead.(state := Ready));
    assert s2.vps == s.vps[v := dead.(state := Ready)];
    TerminatedCore(s, s2);
    AsideEvolves(s1, idle, u);
  }

  lemma WaitEvolves(s: Sched, idle: VpId, step: Step, u: VpId)
    requires Safe(s, idle) && Enabled(s, idle, step) && step.WaitStep?
    requires u in s.vps && u != s.running
    ensures u in Apply(s, idle, step).vps && Evolves(s.vps[u], Apply(s, idle, step).vps[u])
  {
    if WaitOn(s, step.q, step.deadline, step.curTime, step.interruptable).Blocked? {
      WaitFrame(s, idle, step.q, step.deadline, step.curTime, step.interruptable, u);
    }
  }

  lemma SetPriorityEvolves(s: Sched, v: VpId, pri: int, u: VpId)
    requires Inv(s) && v in s.vps && InRange(pri) && u in s.vps
    ensures u in SetPriority(s, v, pri).vps && Evolves(s.vps[u], SetPriority(s, v, pri).vps[u])
  {
    hide BitmapOk, ReadyOk, WaitOk, TimeoutOk, FinalOk, Placed, AddReady, RemoveReady;
    if s.vps[v].state.Ready? && s.vps[v].suspensionCount == 0 && s.vps[v].priority != pri {
      RequeueEvolves(s, v, pri, u);
    }
  }

  lemma RequeueEvolves(s: Sched, v: VpId, pri: int, u: VpId)
    requires Shaped(s) && v in s.vps && InRange(pri) && u in s.vps && s.vps[v].state.Ready?
    ensures var t := AddReady(SetVp(RemoveReady(s, v), v, s.vps[v].(priority := pri)), v, pri);
            u in t.vps && Evolves(s.vps[u], t.vps[u])
  {
  }

  /** Every step that is not a tick: no wait is timed out, no timeout is armed except the
      caller's own in WaitOn, and the record of a continuing wait does not change. */
  lemma OtherStepEvolves(s: Sched, idle: VpId, step: Step, u: VpId)
    requires Safe(s, idle) && Enabled(s, idle, step) && !step.TickStep?
    requires u in s.vps && u in Apply(s, idle, step).vps
    requires !(step.WaitStep? && u == s.running)
    ensures Evolves(s.vps[u], Apply(s, idle, step).vps[u])
  {
    hide BitmapOk, ReadyOk, WaitOk, TimeoutOk, FinalOk, Placed;
    hide WakeUpSome, Suspend, Resume, SetPriority, Terminate, WaitOn;
    match step
    case WaitStep(_, _, _, _) => WaitEvolves(s, idle, step, u);
    case WakeStep(q, count, reason, allowSwitch, cooperation) =>
      WakeEvolves(s, q, count, reason, allowSwitch, cooperation, u);
    case SuspendStep(v) => SuspendEvolves(s, idle, v, u);
    case ResumeStep(v, force, cooperation) => ResumeEvolves(s, v, force, cooperation, u);
    case SetPriorityStep(v, pri) => SetPriorityEvolves(s, v, pri, u);
    case CreateStep(v, pri) =>
    case NewQueueStep(_) =>
    case TerminateStep(cooperation) => TerminateEvolves(s, idle, cooperation, u);
    case FinalizeStep =>
  }

  lemma ResumedEvolves(s: Sched, v: VpId, vp: Vp, u: VpId)
    requires Shaped(s) && v in s.vps && s.vps[v].state.Ready? && InRange(s.vps[v].priority) && u in s.vps
    requires vp == s.vps[v].(suspensionCount := vp.suspensionCount)
    ensures var s1 := SetVp(s, v, vp);
            && Shaped(s1) && u in AddReady(s1, v, vp.priority).vps
            && Evolves(s.vps[u], AddReady(s1, v, vp.priority).vps[u])
  {
  }

  lemma ResumeEvolves(s: Sched, v: VpId, force: bool, cooperation: bool, u: VpId)
    requires Inv(s) && v in s.vps && !s.vps[v].terminated && u in s.vps
    ensures u in Resume(s, v, force, cooperation).vps
    ensures Evolves(s.vps[u], Resume(s, v, force, cooperation).vps[u])
  {
    hide BitmapOk, ReadyOk, WaitOk, TimeoutOk, FinalOk, AddReady, Placed, Resume;
    var vp := s.vps[v];
    if v != s.running { ParkedOrWaiting(s, v); }
    ResumeIs(s, v, force, cooperation);
    if vp.suspensionCount > 0 && vp.state.Ready? {
      ResumedEvolves(s, v, vp.(suspensionCount := if force then 0 else vp.suspensionCount - 1), u);
    }
  }

  lemma ResumeIs(s: Sched, v: VpId, force: bool, cooperation: bool)
    requires Shaped(s) && v in s.vps && (s.vps[v].state.Running? ==> s.vps[v].suspensionCount <= 0)
    ensures var count := if force then 0 else s.vps[v].suspensionCount - 1;
            var s1 := SetVp(s, v, s.vps[v].(suspensionCount := count));
            Resume(s, v, force, cooperation)
            == if s.vps[v].suspensionCount <= 0 then s
               else if count != 0 || s.vps[v].state.Waiting? then s1
               else AddReady(s1, v, s.vps[v].priority)
  {
  }

  lemma ParkedOrWaiting(s: Sched, v: VpId)
    requires Inv(s) && v in s.vps && v != s.running
    ensures !s.vps[v].state.Running?
  {
    assert Placed(s, v);
  }

  // ---- Runs ---------------------------------------------------------------------

  lemma TickEffect(s: Sched, u: VpId)
    requires Inv(s) && u in s.vps
    ensures u in Tick(s).vps
    ensures if s.vps[u].timeoutValid && s.vps[u].timeoutDeadline <= s.now + 1
            then !Tick(s).vps[u].state.Waiting? && Tick(s).vps[u].wakeReason.TimedOut?
            else NoWaitChange(s.vps[u], Tick(s).vps[u])
  {
    ExpireEffect(Advance(s), u);
    SliceFrame(Expire(Advance(s)), u);
  }

  /** A step that arms no timeout leaves no timeout due. */
  lemma OtherStepStaysTimely(s: Sched, idle: VpId, step: Step)
    requires Safe(s, idle) && Enabled(s, idle, step) && !step.TickStep?
    requires Timely(s) && Clocked(s, step)
    ensures Timely(Apply(s, idle, step))
  {
    StepKeepsSafe(s, idle, step);
    var t := Apply(s, idle, step);
    TimeStands(s, idle, step);
    forall v | v in t.timeouts && v in t.vps ensures t.vps[v].timeoutDeadline > t.now {
      if step.WaitStep? && v == s.running {
        OwnDeadline(s, idle, step);
      } else if v in s.vps {
        OtherStepEvolves(s, idle, step, v);
        assert v in s.timeouts;
      }
    }
  }

  lemma OwnDeadline(s: Sched, idle: VpId, step: Step)
    requires Safe(s, idle) && Enabled(s, idle, step) && step.WaitStep? && Clocked(s, step)
    ensures var t := Apply(s, idle, step);
            && s.running in t.vps
            && (t.vps[s.running].timeoutValid ==> t.vps[s.running].timeoutDeadline > s.now)
  {
    if WaitOn(s, step.q, step.deadline, step.curTime, step.interruptable).Blocked? {
      WaitFrame(s, idle, step.q, step.deadline, step.curTime, step.interruptable, s.running);
      if step.deadline.Some? {
        DeadlineAhead(s.nsPerQuantum, s.now, step.deadline.value, step.curTime);
      }
    }
  }

  /** A deadline that is not past converts to a quantum that is still to come. */
  lemma DeadlineAhead(nsPerQuantum: int, now: int, deadline: TimeInterval, curTime: int)
    requires nsPerQuantum > 0 && now * nsPerQuantum <= curTime < Nanos(deadline)
    requires IsInt32(FirstQuantumAt(Nanos(deadline), nsPerQuantum))
    ensures ToQuantums(nsPerQuantum, deadline, AwayFromZero) == FirstQuantumAt(Nanos(deadline), nsPerQuantum)
    ensures ToQuantums(nsPerQuantum, deadline, AwayFromZero) > now
  {
    ConversionIsCeiling(nsPerQuantum, deadline);
    var q := ToQuantums(nsPerQuantum, deadline, AwayFromZero);
    CeilingUnique(q, FirstQuantumAt(Nanos(deadline), nsPerQuantum), Nanos(deadline), nsPerQuantum);
    if q <= now { MulMonotone(q, now, nsPerQuantum); }
  }

  lemma TimeStands(s: Sched, idle: VpId, step: Step)
    requires Safe(s, idle) && Enabled(s, idle, step) && !step.TickStep?
    ensures Apply(s, idle, step).now == s.now
    ensures Apply(s, idle, step).nsPerQuantum == s.nsPerQuantum
    ensures forall v | v in Apply(s, idle, step).vps && v !in s.vps ::
              !Apply(s, idle, step).vps[v].timeoutValid
  {
    var t := Apply(s, idle, step);
    assert step.CreateStep? || step.NewQueueStep? || step.FinalizeStep? || Kin(s, t);
  }

  /** On a tick a timed wait ends, with reason TimedOut, exactly if this tick is the first
      one whose clock time is not before the deadline. */
  lemma TimeoutExact(s: Sched, v: VpId, nanos: int)
    requires Inv(s) && v in s.timeouts && s.now < s.vps[v].timeoutDeadline
    requires s.vps[v].timeoutDeadline == FirstQuantumAt(nanos, s.nsPerQuantum)
    ensures v in Tick(s).vps && Tick(s).now == s.now + 1
    ensures s.now * s.nsPerQuantum < nanos
    ensures if nanos <= (s.now + 1) * s.nsPerQuantum
            then !Tick(s).vps[v].state.Waiting? && Tick(s).vps[v].wakeReason.TimedOut?
            else Tick(s).vps[v] == s.vps[v] && Tick(s).vps[v].state.Waiting?
  {
    hide *;
    TickOfWaiter(s, v);
    DeadlineTick(s.now, s.vps[v].timeoutDeadline, nanos, s.nsPerQuantum);
  }

  /** The same, counted in quantums. */
  lemma TickOfWaiter(s: Sched, v: VpId)
    requires Inv(s) && v in s.timeouts
    ensures v in s.vps && s.nsPerQuantum > 0
    ensures v in Tick(s).vps && Tick(s).now == s.now + 1
    ensures if s.vps[v].timeoutDeadline <= s.now + 1
            then !Tick(s).vps[v].state.Waiting? && Tick(s).vps[v].wakeReason.TimedOut?
            else Tick(s).vps[v] == s.vps[v] && Tick(s).vps[v].state.Waiting?
  {
    TimeoutOwner(s, v);
    TickEffect(s, v);
  }

  lemma DeadlineTick(now: int, d: int, nanos: int, nsPerQuantum: int)
    requires nsPerQuantum > 0 && IsCeiling(d, nanos, nsPerQuantum) && now < d
    ensures now * nsPerQuantum < nanos
    ensures nanos <= (now + 1) * nsPerQuantum <==> d <= now + 1
  {
    MulMonotone(now, d - 1, nsPerQuantum);
    if d > now + 1 {
      MulMonotone(now + 1, d - 1, nsPerQuantum);
    }
  }

  /** `v` waits in every state of this run, whatever the other VPs do. */
  ghost predicate SleepsThrough(s: Sched, idle: VpId, steps: seq<Step>, v: VpId)
    requires Safe(s, idle)
    decreases |steps|
  {
    && v in s.vps && s.vps[v].state.Waiting?
    && (steps != [] ==>
          && Enabled(s, idle, steps[0])
          && (StepKeepsSafe(s, idle, steps[0]);
              SleepsThrough(Apply(s, idle, steps[0]), idle, steps[1..], v)))
  }

  /** Only dead VPs are ever destroyed. */
  lemma WaiterStays(s: Sched, idle: VpId, step: Step, v: VpId)
    requires Safe(s, idle) && Enabled(s, idle, step) && v in s.vps && s.vps[v].state.Waiting?
    ensures v != s.running && v in Apply(s, idle, step).vps
  {
    assert v != s.running;
    if step.TickStep? {
      TickEffect(s, v);
    } else if !(step.CreateStep? || step.NewQueueStep? || step.FinalizeStep?) {
      assert Kin(s, Apply(s, idle, step));
    }
  }

  /** A step that leaves `v` asleep leaves its wait as it is; a tick does so only before the
      stored deadline. */
  lemma OneStepOfSleep(s: Sched, idle: VpId, step: Step, v: VpId)
    requires Safe(s, idle) && Enabled(s, idle, step) && v in s.vps && s.vps[v].state.Waiting?
    requires v in Apply(s, idle, step).vps && Apply(s, idle, step).vps[v].state.Waiting?
    ensures var t := Apply(s, idle, step);
            && t.nsPerQuantum == s.nsPerQuantum && SameWait(s.vps[v], t.vps[v])
            && t.now == (if step.TickStep? then s.now + 1 else s.now)
            && (step.TickStep? && s.vps[v].timeoutValid ==> t.now < s.vps[v].timeoutDeadline)
  {
    StepKeepsSafe(s, idle, step);
    assert v != s.running;
    if step.TickStep? {
      TickEffect(s, v);
    } else {
      TimeStands(s, idle, step);
      OtherStepEvolves(s, idle, step, v);
    }
  }

  lemma {:induction false} SleepEndsAtStoredDeadline(s: Sched, idle: VpId, steps: seq<Step>, v: VpId)
    requires Safe(s, idle) && SleepsThrough(s, idle, steps, v) && s.vps[v].timeoutValid
    ensures Exec(s, idle, steps).Some?
    ensures var t := Exec(s, idle, steps).value;
            && Safe(t, idle) && t.nsPerQuantum == s.nsPerQuantum && v in t.vps && SameWait(s.vps[v], t.vps[v])
            && t.now == s.now + Ticks(steps)
            && (Ticks(steps) > 0 ==> t.now < s.vps[v].timeoutDeadline)
    decreases |steps|
  {
    if steps != [] {
      StepKeepsSafe(s, idle, steps[0]);
      OneStepOfSleep(s, idle, steps[0], v);
      SleepEndsAtStoredDeadline(Apply(s, idle, steps[0]), idle, steps[1..], v);
    }
  }

  /** A timeout is armed for `v` that stands for the given time and is still to come. */
  ghost predicate ArmedFor(s: Sched, v: VpId, nanos: int) {
    && v in s.vps && s.vps[v].state.Waiting? && s.vps[v].timeoutValid && s.nsPerQuantum > 0
    && s.vps[v].timeoutDeadline == FirstQuantumAt(nanos, s.nsPerQuantum)
    && s.now < s.vps[v].timeoutDeadline
  }

  /** As long as a timed wait lasts, the clock has not reached its deadline. */
  lemma WaitEndsInTime(s: Sched, idle: VpId, steps: seq<Step>, v: VpId, nanos: int)
    requires Safe(s, idle) && SleepsThrough(s, idle, steps, v) && ArmedFor(s, v, nanos)
    ensures Exec(s, idle, steps).Some?
    ensures var t := Exec(s, idle, steps).value;
            && Safe(t, idle) && ArmedFor(t, v, nanos) && SameWait(s.vps[v], t.vps[v])
            && t.nsPerQuantum == s.nsPerQuantum && t.now * t.nsPerQuantum < nanos
  {
    SleepEndsAtStoredDeadline(s, idle, steps, v);
    DeadlineTick(Exec(s, idle, steps).value.now, s.vps[v].timeoutDeadline, nanos, s.nsPerQuantum);
  }

  /** A wait that times out does so on a tick, and on no other tick than the first one at
      or after its deadline: never before the deadline and never a tick late. */
  lemma TimedOutOnTime(s: Sched, idle: VpId, steps: seq<Step>, t: Sched, last: Step, v: VpId, nanos: int)
    requires Safe(s, idle) && SleepsThrough(s, idle, steps, v) && ArmedFor(s, v, nanos)
    requires !s.vps[v].wakeReason.TimedOut?
    requires Exec(s, idle, steps) == Some(t) && Safe(t, idle) && Enabled(t, idle, last)
    ensures v in Apply(t, idle, last).vps
    ensures t.now * t.nsPerQuantum < nanos
    ensures Apply(t, idle, last).vps[v].wakeReason.TimedOut? <==>
            last.TickStep? && nanos <= (t.now + 1) * t.nsPerQuantum
  {
    WaitEndsInTime(s, idle, steps, v, nanos);
    LastStep(t, idle, last, v, nanos);
  }

  lemma LastStep(t: Sched, idle: VpId, last: Step, v: VpId, nanos: int)
    requires Safe(t, idle) && ArmedFor(t, v, nanos) && !t.vps[v].wakeReason.TimedOut?
    requires Enabled(t, idle, last)
    ensures v in Apply(t, idle, last).vps
    ensures Apply(t, idle, last).vps[v].wakeReason.TimedOut? <==>
            last.TickStep? && nanos <= (t.now + 1) * t.nsPerQuantum
  {
    WaiterStays(t, idle, last, v);
    if last.TickStep? {
      TimeoutExact(t, v, nanos);
    } else {
      OtherStepEvolves(t, idle, last, v);
    }
  }

  // ---- Wake-ups -----------------------------------------------------------------

  /** The waiters among `vs` that this wake-up leaves alone. */
  function Ignored(s: Sched, vs: seq<VpId>, reason: WakeReason): seq<VpId>
    requires Known(s.vps, vs)
  {
    if vs == [] then []
    else (if WakeIgnored(s.vps[vs[0]], reason) then [vs[0]] else []) + Ignored(s, vs[1..], reason)
  }

  lemma IgnoredSame(s: Sched, t: Sched, vs: seq<VpId>, reason: WakeReason)
    requires Known(s.vps, vs) && Known(t.vps, vs)
    requires forall v | v in vs :: t.vps[v] == s.vps[v]
    ensures Ignored(s, vs, reason) == Ignored(t, vs, reason)
  {
  }

  /** Between `s` and `t` the waiters `vs` have been woken and nobody else was touched:
      every woken VP is able to run or parked, with an effective priority that the wait
      has not lowered and that is at most the highest. */
  ghost predicate WokenAll(s: Sched, t: Sched, vs: seq<VpId>, reason: WakeReason)
    requires Shaped(s) && FieldsOk(s) && Known(s.vps, vs)
  {
    && (forall v | v in s.vps && (v !in vs || WakeIgnored(s.vps[v], reason)) ::
          v in t.vps && t.vps[v] == s.vps[v])
    && (forall v | v in vs && !WakeIgnored(s.vps[v], reason) ::
          v in t.vps && Lifted(s, v, t.vps[v], reason))
  }

  ghost predicate Lifted(s: Sched, v: VpId, vp: Vp, reason: WakeReason)
    requires Shaped(s) && v in s.vps && s.vps[v].waitStart <= s.now
  {
    Woken(s, v, vp, reason) && s.vps[v].effectivePriority <= vp.effectivePriority <= PRIORITY_HIGHEST
  }

  /** Waking others first makes no difference to `v`. */
  lemma LiftedLater(s: Sched, t: Sched, v: VpId, vp: Vp, reason: WakeReason)
    requires Shaped(s) && v in s.vps && s.vps[v].waitStart <= s.now
    requires Shaped(t) && Kin(s, t) && t.vps[v] == s.vps[v]
    requires Lifted(t, v, vp, reason)
    ensures Lifted(s, v, vp, reason)
  {
  }

  lemma WokenAllCons(s: Sched, t: Sched, r: Sched, vs: seq<VpId>, reason: WakeReason)
    requires Shaped(s) && FieldsOk(s) && Known(s.vps, vs) && vs != [] && Distinct(vs)
    requires Shaped(t) && FieldsOk(t) && Kin(s, t)
    requires vs[0] in t.vps && t.vps == s.vps[vs[0] := t.vps[vs[0]]]
    requires if WakeIgnored(s.vps[vs[0]], reason) then t.vps[vs[0]] == s.vps[vs[0]]
             else Woken(s, vs[0], t.vps[vs[0]], reason)
    requires Known(t.vps, vs[1..]) && WokenAll(t, r, vs[1..], reason)
    ensures WokenAll(s, r, vs, reason)
  {
    var first := vs[0];
    assert first !in vs[1..];
    assert first in r.vps && r.vps[first] == t.vps[first];
    forall v | v in vs && !WakeIgnored(s.vps[v], reason) ensures v in r.vps && Lifted(s, v, r.vps[v], reason) {
      if v != first {
        assert v in vs[1..];
        LiftedLater(s, t, v, r.vps[v], reason);
      }
    }
  }

  /** The first pass of WakeUpSome over `vs` takes off the queue exactly the waiters it may
      wake and keeps all others in order. */
  lemma {:induction false} WakeEachTakes(s: Sched, q: QueueId, front: seq<VpId>, vs: seq<VpId>, rest: seq<VpId>,
                                         reason: WakeReason, found: Option<VpId>)
    requires Inv(s) && OnQueue(s, q, vs) && (found.Some? ==> found.value in s.vps)
    requires s.queues[q] == front + vs + rest
    ensures Known(s.vps, vs)
    ensures var t := WakeEach(s, q, vs, reason, found).0;
            && q in t.queues && t.queues[q] == front + Ignored(s, vs, reason) + rest
            && WokenAll(s, t, vs, reason)
    decreases |vs|
  {
    hide BitmapOk, ReadyOk, WaitOk, TimeoutOk, FinalOk, Placed, SchedulerState.WakeUpOne, Woken;
    if vs != [] {
      var v := vs[0];
      WakeEachStep(s, q, vs, reason);
      var t := WakeUpOne(s, q, v, reason, false, false);
      WakeOneTakes(s, q, front, vs, rest, reason);
      var candidate :=
        if found.None? && t.vps[v].state.Ready? && t.vps[v].suspensionCount == 0 then Some(v) else found;
      var front' := if WakeIgnored(s.vps[v], reason) then front + [v] else front;
      WakeEachTakes(t, q, front', vs[1..], rest, reason, candidate);
      var r := WakeEach(t, q, vs[1..], reason, candidate).0;
      assert WakeEach(s, q, vs, reason, found).0 == r;
      assert WokenAll(s, r, vs, reason) by { WokenAllCons(s, t, r, vs, reason); }
      assert front' + Ignored(t, vs[1..], reason) == front + Ignored(s, vs, reason) by {
        IgnoredCons(s, t, front, vs, reason);
      }
    }
  }

  lemma IgnoredCons(s: Sched, t: Sched, front: seq<VpId>, vs: seq<VpId>, reason: WakeReason)
    requires vs != [] && Distinct(vs) && Known(s.vps, vs) && Known(t.vps, vs[1..])
    requires vs[0] in t.vps && t.vps == s.vps[vs[0] := t.vps[vs[0]]]
    ensures (if WakeIgnored(s.vps[vs[0]], reason) then front + [vs[0]] else front) + Ignored(t, vs[1..], reason)
            == front + Ignored(s, vs, reason)
  {
    RestSame(s, t, vs);
    IgnoredSame(s, t, vs[1..], reason);
    var rest := Ignored(s, vs[1..], reason);
    if WakeIgnored(s.vps[vs[0]], reason) {
      assert (front + [vs[0]]) + rest == front + ([vs[0]] + rest);
    } else {
      assert [] + rest == rest;
    }
  }

  lemma RestSame(s: Sched, t: Sched, vs: seq<VpId>)
    requires vs != [] && Distinct(vs) && Known(s.vps, vs)
    requires vs[0] in t.vps && t.vps == s.vps[vs[0] := t.vps[vs[0]]]
    ensures Known(s.vps, vs[1..]) && forall u | u in vs[1..] :: u in t.vps && t.vps[u] == s.vps[u]
  {
    assert vs[0] !in vs[1..];
    assert forall u | u in vs[1..] :: u in vs;
  }

  lemma WakeOneTakes(s: Sched, q: QueueId, front: seq<VpId>, vs: seq<VpId>, rest: seq<VpId>, reason: WakeReason)
    requires Inv(s) && OnQueue(s, q, vs) && vs != [] && s.queues[q] == front + vs + rest
    ensures Known(s.vps, vs) && s.vps[vs[0]].waitStart <= s.now
    ensures var t := WakeUpOne(s, q, vs[0], reason, false, false);
            var front' := if WakeIgnored(s.vps[vs[0]], reason) then front + [vs[0]] else front;
            && t.queues[q] == front' + vs[1..] + rest
            && vs[0] in t.vps && t.vps == s.vps[vs[0] := t.vps[vs[0]]]
            && (if WakeIgnored(s.vps[vs[0]], reason) then t.vps[vs[0]] == s.vps[vs[0]]
                else Woken(s, vs[0], t.vps[vs[0]], reason))
  {
    var v := vs[0];
    assert v in vs;
    WakeUpOneFrame(s, q, v, reason);
    HeadOfMiddle(s.queues[q], front, vs, rest);
  }

  lemma HeadOfMiddle(all: seq<VpId>, front: seq<VpId>, vs: seq<VpId>, rest: seq<VpId>)
    requires Distinct(all) && all == front + vs + rest && vs != []
    ensures all == front + [vs[0]] + vs[1..] + rest
    ensures Without(all, vs[0]) == front + vs[1..] + rest
  {
    var v := vs[0];
    assert vs == [v] + vs[1..];
    assert all == front + [v] + (vs[1..] + rest);
    assert all[|front|] == v;
    assert forall k | 0 <= k < |front| :: all[k] == front[k];
    WithoutMiddle(front, v, vs[1..] + rest);
    assert front + (vs[1..] + rest) == front + vs[1..] + rest;
  }

  /** The first pass over the first `n` waiters: those it may wake leave the queue, with
      reason Finished all of them; the others stay, in order and untouched. */
  lemma FirstPassTakes(s: Sched, q: QueueId, n: nat, reason: WakeReason)
    requires Inv(s) && q in s.queues && n <= |s.queues[q]|
    ensures Known(s.vps, s.queues[q][..n])
    ensures var t := FirstPass(s, q, n, reason).0;
            && q in t.queues
            && t.queues[q] == Ignored(s, s.queues[q][..n], reason) + s.queues[q][n..]
            && (reason.Finished? ==> t.queues[q] == s.queues[q][n..])
            && WokenAll(s, t, s.queues[q][..n], reason)
  {
    PrefixOnQueue(s, q, n);
    assert s.queues[q] == s.queues[q][..n] + s.queues[q][n..];
    PassTakes(s, q, s.queues[q][..n], s.queues[q][n..], reason);
  }

  lemma PassTakes(s: Sched, q: QueueId, vs: seq<VpId>, rest: seq<VpId>, reason: WakeReason)
    requires Inv(s) && OnQueue(s, q, vs) && s.queues[q] == vs + rest
    ensures Known(s.vps, vs)
    ensures var t := WakeEach(s, q, vs, reason, None).0;
            && q in t.queues && t.queues[q] == Ignored(s, vs, reason) + rest
            && (reason.Finished? ==> t.queues[q] == rest)
            && WokenAll(s, t, vs, reason)
  {
    assert [] + vs == vs;
    WakeEachTakes(s, q, [], vs, rest, reason, None);
    assert [] + Ignored(s, vs, reason) == Ignored(s, vs, reason);
    if reason.Finished? {
      NoneIgnored(s, vs, reason);
      assert [] + rest == rest;
    }
  }

  /** WakeUpSome with a count: a Finished wake-up takes exactly the first
      `min(count, length)` waiters and leaves the rest in order and untouched. */
  lemma WakeTakesPrefix(s: Sched, q: QueueId, count: int, allowSwitch: bool, cooperation: bool)
    requires Inv(s) && q in s.queues
    ensures var n := if count <= 0 then 0 else if count < |s.queues[q]| then count else |s.queues[q]|;
            var t := WakeUpSome(s, q, count, Finished, allowSwitch, cooperation);
            && q in t.queues && t.queues[q] == s.queues[q][n..]
            && (forall v | v in s.queues[q][n..] :: v in s.vps && v in t.vps && t.vps[v] == s.vps[v])
  {
    var n := WakeCount(count, |s.queues[q]|);
    FirstPassTakes(s, q, n, Finished);
    var (t, candidate) := FirstPass(s, q, n, Finished);
    RestUntouched(s, t, q, n, Finished);
    if candidate.Some? {
      MaybeSwitchRest(t, candidate.value, cooperation, s.queues[q][n..]);
    }
  }

  lemma RestUntouched(s: Sched, t: Sched, q: QueueId, n: nat, reason: WakeReason)
    requires Inv(s) && q in s.queues && n <= |s.queues[q]|
    requires Known(s.vps, s.queues[q][..n]) && WokenAll(s, t, s.queues[q][..n], reason)
    ensures forall v | v in s.queues[q][n..] ::
              v in s.vps && v in t.vps && t.vps[v] == s.vps[v] && s.vps[v].state.Waiting?
  {
    var all := s.queues[q];
    forall v | v in all[n..] ensures v in s.vps && v !in all[..n] && s.vps[v].state.Waiting? {
      var k :| n <= k < |all| && all[k] == v;
      assert v in all;
    }
  }

  lemma MaybeSwitchRest(s: Sched, v: VpId, cooperation: bool, rest: seq<VpId>)
    requires Inv(s) && v in s.vps
    requires forall u | u in rest :: u in s.vps && s.vps[u].state.Waiting?
    ensures MaybeSwitchTo(s, v, cooperation).queues == s.queues
    ensures forall u | u in rest ::
              u in MaybeSwitchTo(s, v, cooperation).vps && MaybeSwitchTo(s, v, cooperation).vps[u] == s.vps[u]
  {
    MaybeSwitchQueues(s, v, cooperation);
    forall u | u in rest
      ensures u in MaybeSwitchTo(s, v, cooperation).vps && MaybeSwitchTo(s, v, cooperation).vps[u] == s.vps[u]
    {
      MaybeSwitchLeaves(s, v, cooperation, u);
    }
  }

  lemma NoneIgnored(s: Sched, vs: seq<VpId>, reason: WakeReason)
    requires Known(s.vps, vs) && reason.Finished?
    requires forall v | v in vs :: s.vps[v].state.Waiting?
    ensures Ignored(s, vs, reason) == []
  {
  }

  lemma MaybeSwitchQueues(s: Sched, v: VpId, cooperation: bool)
    requires Shaped(s) && v in s.vps
    ensures MaybeSwitchTo(s, v, cooperation).queues == s.queues
  {
  }

  lemma MaybeSwitchLeaves(s: Sched, v: VpId, cooperation: bool, u: VpId)
    requires Inv(s) && v in s.vps && u in s.vps && s.vps[u].state.Waiting?
    ensures u in MaybeSwitchTo(s, v, cooperation).vps
    ensures MaybeSwitchTo(s, v, cooperation).vps[u] == s.vps[u]
  {
  }
}
