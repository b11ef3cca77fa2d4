/** What each scheduler operation does to the fields of the state
    (Kernel/Sources/dispatcher/VirtualProcessorScheduler.c:177-334, 461-512,
    Kernel/Sources/dispatcher/VirtualProcessor.c:99-129, 385-495). */
module SchedulerEffects {
  import opened Sequences
  import opened PriorityBitmap
  import opened MonotonicClocks
  import opened SchedulerState
  import opened SchedulerInvariant
  import opened SchedulerSteps
  import opened SchedulerRuns
  import opened SchedulerProgress
  import opened SchedulerWaits
  import opened SchedulerWakes

  /** The time slice of a priority, in quantums. */
  function SliceOf(pri: int): int { (63 - pri) / 8 + 1 }

  // ---- Giving up the CPU -------------------------------------------------------------

  /** The CPU goes to the head of the highest list that is not empty, which leaves its list;
      the records are those of `vps` otherwise. */
  ghost predicate GoesToNext(ready: seq<seq<VpId>>, vps: map<VpId, Vp>, t: Sched) {
    && t.running in vps
    && var p := vps[t.running].effectivePriority;
       && HeadsAll(ready, t.running, p)
       && t.ready == ready[p := ready[p][1..]]
       && t.vps == vps[t.running := vps[t.running].(state := Running)]
  }

  lemma SwitchAwayTakes(s: Sched)
    requires Core(s, {}) && !s.vps[s.running].state.Running? && Best(s).Some?
    ensures var t := SwitchAway(s);
            && GoesToNext(s.ready, s.vps, t)
            && t == s.(running := t.running, vps := t.vps, ready := t.ready, populated := t.populated)
  {
    hide BitmapOk, ReadyOk, WaitOk, TimeoutOk, FinalOk, Placed, ClearBit, BestFrom;
    BestIsHighest(s, {});
    SwitchAwayInv(s);
    var v := Best(s).value;
    HeadGoes(s.ready[s.vps[v].effectivePriority], v);
  }

  /** A wait: its caller is asleep on the queue with everything recorded, unless the deadline has
      passed, and the CPU goes to the next VP. */
  lemma WaitEffect(s: Sched, idle: VpId, wait: Step)
    requires Safe(s, idle) && Enabled(s, idle, wait) && wait.WaitStep?
    ensures var t, r := Apply(s, idle, wait), s.running;
            if wait.deadline.Some? && Nanos(wait.deadline.value) <= wait.curTime then t == s
            else
              var vp := s.vps[r].(state := Waiting, waitingOn := Some(wait.q), waitStart := s.now,
                                  wakeReason := NoReason, interruptable := wait.interruptable,
                                  timeoutValid := wait.deadline.Some?,
                                  timeoutDeadline := if wait.deadline.Some?
                                                     then ToQuantums(s.nsPerQuantum, wait.deadline.value, AwayFromZero)
                                                     else s.vps[r].timeoutDeadline);
              && GoesToNext(s.ready, s.vps[r := vp], t)
              && t.finalizer == s.finalizer && t.now == s.now
  {
    hide BitmapOk, ReadyOk, WaitOk, TimeoutOk, FinalOk, Placed, SwitchAway, ArmTimeout, SchedulerState.Enqueue,
      ToQuantums;
    match wait.deadline
    case None => EnqueueTakes(s, idle, wait.q, wait.interruptable);
    case Some(d) => if Nanos(d) > wait.curTime { TimedTakes(s, idle, wait.q, d, wait.interruptable); }
  }

  lemma TimedTakes(s: Sched, idle: VpId, q: QueueId, d: TimeInterval, interruptable: bool)
    requires Safe(s, idle) && q in s.queues && s.running != idle
    ensures var t, r := SwitchAway(Enqueue(ArmTimeout(s, s.running, d), q, interruptable)), s.running;
            var vp := s.vps[r].(state := Waiting, waitingOn := Some(q), waitStart := s.now, wakeReason := NoReason,
                                interruptable := interruptable, timeoutValid := true,
                                timeoutDeadline := ToQuantums(s.nsPerQuantum, d, AwayFromZero));
            && GoesToNext(s.ready, s.vps[r := vp], t)
            && t.finalizer == s.finalizer && t.now == s.now
  {
    hide BitmapOk, ReadyOk, WaitOk, FinalOk, Placed, SwitchAway, SchedulerState.Enqueue, ToQuantums, TimeoutPos,
      GoesToNext;
    ArmSafe(s, idle, d);
    var armed, r := ArmTimeout(s, s.running, d), s.running;
    EnqueueTakes(armed, idle, q, interruptable);
    assert armed.vps[r := armed.vps[r].(state := Waiting, waitingOn := Some(q), waitStart := s.now,
                                        wakeReason := NoReason, interruptable := interruptable)]
           == s.vps[r := s.vps[r].(state := Waiting, waitingOn := Some(q), waitStart := s.now, wakeReason := NoReason,
                                   interruptable := interruptable, timeoutValid := true,
                                   timeoutDeadline := ToQuantums(s.nsPerQuantum, d, AwayFromZero))];
  }

  lemma EnqueueTakes(s: Sched, idle: VpId, q: QueueId, interruptable: bool)
    requires Core(s, {s.running}) && IdleOk(s, idle) && s.now >= 0
    requires !s.vps[s.running].terminated && q in s.queues && s.running != idle
    ensures var t, r := SwitchAway(Enqueue(s, q, interruptable)), s.running;
            && GoesToNext(s.ready, s.vps[r := s.vps[r].(state := Waiting, waitingOn := Some(q), waitStart := s.now,
                                                        wakeReason := NoReason, interruptable := interruptable)], t)
            && t.finalizer == s.finalizer && t.now == s.now
  {
    hide BitmapOk, ReadyOk, TimeoutOk, FinalOk, Placed, SwitchAway;
    EnqueueCore(s, q, interruptable, {s.running});
    assert {s.running} - {s.running} == {};
    var e := Enqueue(s, q, interruptable);
    BlockingFindsSuccessor(e, {}, idle);
    SwitchAwayTakes(e);
  }

  /** A termination: the runner is dead and waits to be destroyed, behind those that do so
      already, and the CPU goes to the next VP. */
  lemma TerminateEffect(s: Sched, idle: VpId, cooperation: bool)
    requires Safe(s, idle) && Enabled(s, idle, TerminateStep(cooperation))
    ensures var t, r := Apply(s, idle, TerminateStep(cooperation)), s.running;
            && GoesToNext(s.ready, s.vps[r := s.vps[r].(terminated := true, state := Ready)], t)
            && t.finalizer == s.finalizer + [r] && t.queues == s.queues && t.timeouts == s.timeouts && t.now == s.now
  {
    hide BitmapOk, ReadyOk, WaitOk, TimeoutOk, FinalOk, Placed, SwitchAway;
    var v := s.running;
    var s1 := Dead(s);
    var s2 := SetVp(s1, v, s1.vps[v].(state := Ready));
    assert s2.vps == s.vps[v := s.vps[v].(terminated := true, state := Ready)];
    TerminatedCore(s, s2);
    BlockingFindsSuccessor(s2, {}, idle);
    SwitchAwayTakes(s2);
    SwitchAwayParks(s1, s2, v);
  }

  lemma Finalized(s: Sched, v: VpId)
    requires Inv(s) && v in s.vps
    ensures v in s.finalizer <==> s.vps[v].terminated
  {
    if v != s.running { assert Placed(s, v); }
  }

  /** Finalizing destroys the dead VPs, all of them and no others. */
  lemma FinalizeEffect(s: Sched, idle: VpId)
    requires Safe(s, idle)
    ensures var t := Apply(s, idle, FinalizeStep);
            && (forall v :: v in t.vps <==> v in s.vps && !s.vps[v].terminated)
            && (forall v | v in t.vps :: t.vps[v] == s.vps[v])
            && t == s.(vps := t.vps, finalizer := [])
  {
    hide BitmapOk, ReadyOk, WaitOk, TimeoutOk, FinalOk, Placed;
    forall v ensures v in Finalize(s).vps <==> v in s.vps && !s.vps[v].terminated {
      if v in s.vps { Finalized(s, v); }
    }
  }

  // ---- Suspending, resuming, priorities -----------------------------------------------

  /** A suspension counts, up to 127, and takes the VP off the CPU or its ready list; a waiter
      goes on waiting. */
  lemma SuspendEffect(s: Sched, idle: VpId, v: VpId)
    requires Safe(s, idle) && Enabled(s, idle, SuspendStep(v))
    ensures var t, vp := Apply(s, idle, SuspendStep(v)), s.vps[v];
            var up := vp.(suspensionCount := vp.suspensionCount + 1);
            if vp.suspensionCount == 127 then t == s
            else if v == s.running then
              && GoesToNext(s.ready, s.vps[v := up.(state := Ready)], t)
              && t == s.(running := t.running, vps := t.vps, ready := t.ready, populated := t.populated)
            else
              && t == s.(vps := s.vps[v := up], ready := t.ready, populated := t.populated) && |t.ready| == |s.ready|
              && forall p: nat | p < |s.ready| ::
                   t.ready[p] == if vp.state.Ready? && p == vp.effectivePriority then Without(s.ready[p], v)
                                 else s.ready[p]
  {
    hide BitmapOk, ReadyOk, WaitOk, TimeoutOk, FinalOk, Placed, SwitchAway, ClearBit;
    var vp := s.vps[v];
    if v == s.running {
      SuspendRunningTakes(s, idle);
    } else if vp.suspensionCount < SUSPENSION_MAX {
      ParkedOrWaiting(s, v);
      SuspendOtherIs(s, v);
    }
  }

  lemma SuspendRunningTakes(s: Sched, idle: VpId)
    requires Safe(s, idle) && s.running != idle
    ensures var t, v := Suspend(s, s.running), s.running;
            && GoesToNext(s.ready, s.vps[v := s.vps[v].(suspensionCount := 1, state := Ready)], t)
            && t == s.(running := t.running, vps := t.vps, ready := t.ready, populated := t.populated)
  {
    hide BitmapOk, ReadyOk, WaitOk, TimeoutOk, FinalOk, FieldsOk, Placed, SwitchAway, GoesToNext, BestFrom;
    var v := s.running;
    var up := s.vps[v].(suspensionCount := 1);
    SuspendRunningIs(s);
    ParkedCore(s, up);
    var s2 := SetVp(s, v, up.(state := Ready));
    assert s2 == SetVp(SetVp(s, v, up), v, up.(state := Ready));
    BlockingFindsSuccessor(s2, {}, idle);
    SwitchAwayTakes(s2);
    SwitchAwayParks(SetVp(s, v, up), s2, v);
  }

  /** The VP has been put at the end of the list of a priority, with a full slice. */
  ghost predicate Requeued(s: Sched, ready: seq<seq<VpId>>, t: Sched, v: VpId, vp: Vp, pri: int) {
    && 0 <= pri < |ready| && t.ready == ready[pri := ready[pri] + [v]]
    && t.vps == s.vps[v := vp.(state := Ready, effectivePriority := pri, quantumAllowance := SliceOf(pri),
                               waitStart := s.now)]
    && t == s.(vps := t.vps, ready := t.ready, populated := t.populated)
  }

  /** A resumption counts back by one, or to none if it is forced; at none, a VP that does not
      wait becomes ready at its base priority. */
  lemma ResumeEffect(s: Sched, idle: VpId, v: VpId, force: bool, cooperation: bool)
    requires Safe(s, idle) && Enabled(s, idle, ResumeStep(v, force, cooperation))
    ensures var t, vp := Apply(s, idle, ResumeStep(v, force, cooperation)), s.vps[v];
            var left := if force then 0 else vp.suspensionCount - 1;
            if vp.suspensionCount == 0 then t == s
            else if left > 0 || vp.state.Waiting? then t == s.(vps := s.vps[v := vp.(suspensionCount := left)])
            else Requeued(s, s.ready, t, v, vp.(suspensionCount := 0), vp.priority)
  {
    hide BitmapOk, ReadyOk, WaitOk, TimeoutOk, FinalOk, Placed, SetBit, Resume;
    if v != s.running { ParkedOrWaiting(s, v); }
    ResumeIs(s, v, force, cooperation);
  }

  /** A new base priority takes effect at once for the runner and for whoever is on a ready list,
      and later for whoever waits or is suspended. */
  lemma SetPriorityEffect(s: Sched, idle: VpId, v: VpId, pri: int)
    requires Safe(s, idle) && Enabled(s, idle, SetPriorityStep(v, pri))
    ensures var t, vp := Apply(s, idle, SetPriorityStep(v, pri)), s.vps[v];
            if vp.priority == pri then t == s
            else if v == s.running then
              t == s.(vps := s.vps[v := vp.(priority := pri, effectivePriority := pri,
                                            quantumAllowance := SliceOf(pri))])
            else if vp.state.Waiting? || vp.suspensionCount > 0 then t == s.(vps := s.vps[v := vp.(priority := pri)])
            else
              var e := vp.effectivePriority;
              && 0 <= e < |s.ready|
              && Requeued(s, s.ready[e := Without(s.ready[e], v)], t, v, vp.(priority := pri), pri)
  {
    hide BitmapOk, ReadyOk, WaitOk, TimeoutOk, FinalOk, Placed, SetBit, ClearBit;
    if v != s.running { ParkedOrWaiting(s, v); }
  }

  /** A new VP is suspended once and on no list. */
  lemma CreateEffect(s: Sched, idle: VpId, v: VpId, pri: int)
    requires Safe(s, idle) && Enabled(s, idle, CreateStep(v, pri))
    ensures var t := Apply(s, idle, CreateStep(v, pri));
            && t == s.(vps := t.vps) && t.vps == s.vps[v := t.vps[v]]
            && t.vps[v].state.Ready? && t.vps[v].suspensionCount == 1 && t.vps[v].priority == pri
            && !t.vps[v].timeoutValid && !t.vps[v].terminated && t.vps[v].waitingOn.None?
            && forall p: nat | p < |t.ready| :: v !in t.ready[p]
  {
  }

  // ---- The end of a quantum -------------------------------------------------------------

  /** The running VP has used up a quantum.  Within its slice it goes on.  At the end of the slice
      its priority falls by one; if somebody ready is then above it, that VP runs and the old
      runner is put at the end of the list of its base priority, otherwise it gets the slice of
      the lower priority. */
  lemma SliceEffect(s: Sched)
    requires Inv(s)
    ensures var t, r, vp := EndSlice(s), s.running, s.vps[s.running];
            var lower := if vp.effectivePriority >= 1 then vp.effectivePriority - 1 else 0;
            if vp.quantumAllowance > 1 then
              t == s.(vps := s.vps[r := vp.(quantumAllowance := vp.quantumAllowance - 1)])
            else if forall k: nat | lower < k < |s.ready| :: s.ready[k] == [] then
              t == s.(vps := s.vps[r := vp.(effectivePriority := lower, quantumAllowance := SliceOf(lower))])
            else
              && t.running in s.vps && t.running != r
              && var p, base := s.vps[t.running].effectivePriority, vp.priority;
                 && p > lower && HeadsAll(s.ready, t.running, p) && ListsSwitched(s.ready, t.ready, p, r, base)
                 && t.vps == s.vps[r := vp.(state := Ready, effectivePriority := base,
                                            quantumAllowance := SliceOf(base), waitStart := s.now)]
                                  [t.running := s.vps[t.running].(state := Running)]
                 && t == s.(running := t.running, vps := t.vps, ready := t.ready, populated := t.populated)
  {
    hide BitmapOk, ReadyOk, WaitOk, TimeoutOk, FinalOk, FieldsOk, Placed, EndSlice, HeadsAll, ListsSwitched,
      SwitchContext, AddReady, RemoveReady, Best;
    var r, vp := s.running, s.vps[s.running];
    SliceIs(s);
    if vp.quantumAllowance <= 1 {
      var lower := Max(vp.effectivePriority - 1, PRIORITY_LOWEST);
      SetRunningInv(s, vp.priority, lower, Allowance(lower));
      SliceOverTakes(s, SetVp(s, r, vp.(effectivePriority := lower, quantumAllowance := Allowance(lower))), lower);
    }
  }

  /** The three ways a slice can go on. */
  lemma SliceIs(s: Sched)
    requires Inv(s)
    ensures var vp := s.vps[s.running];
            var lower := Max(vp.effectivePriority - 1, PRIORITY_LOWEST);
            var s1 := SetVp(s, s.running, vp.(effectivePriority := lower, quantumAllowance := Allowance(lower)));
            && InRange(vp.effectivePriority) && InRange(vp.priority) && |s.ready| == PRIORITY_COUNT && Inv(s1)
            && EndSlice(s) ==
               if vp.quantumAllowance > 1 then SetVp(s, s.running, vp.(quantumAllowance := vp.quantumAllowance - 1))
               else if Best(s1).None? || Best(s1).value !in s1.vps || s1.vps[Best(s1).value].effectivePriority <= lower
               then s1
               else SwitchContext(AddReady(RemoveReady(s1, Best(s1).value), s.running, vp.priority), Best(s1).value)
  {
    hide BitmapOk, ReadyOk, WaitOk, TimeoutOk, FinalOk, Placed, AddReady, RemoveReady, SwitchContext, BestFrom;
    var vp := s.vps[s.running];
    var lower := Max(vp.effectivePriority - 1, PRIORITY_LOWEST);
    SetRunningInv(s, vp.priority, lower, Allowance(lower));
  }

  lemma SliceOverTakes(s: Sched, s1: Sched, lower: int)
    requires Inv(s) && Inv(s1) && InRange(lower)
    requires s1 == SetVp(s, s.running, s.vps[s.running].(effectivePriority := lower,
                                                         quantumAllowance := Allowance(lower)))
    ensures if forall k: nat | lower < k < |s.ready| :: s.ready[k] == [] then
              Best(s1).None? || (Best(s1).value in s1.vps && s1.vps[Best(s1).value].effectivePriority <= lower)
            else
              && Best(s1).Some? && Best(s1).value in s.vps && Best(s1).value != s.running
              && var b, r, base := Best(s1).value, s.running, s.vps[s.running].priority;
                 var t, p := SwitchContext(AddReady(RemoveReady(s1, b), r, base), b), s.vps[b].effectivePriority;
                 && p > lower && s1.vps[b] == s.vps[b]
                 && t.running == b && HeadsAll(s.ready, b, p) && ListsSwitched(s.ready, t.ready, p, r, base)
                 && t.vps == s.vps[r := s.vps[r].(state := Ready, effectivePriority := base,
                                                  quantumAllowance := SliceOf(base), waitStart := s.now)]
                                  [b := s.vps[b].(state := Running)]
                 && t == s.(running := b, vps := t.vps, ready := t.ready, populated := t.populated)
  {
    hide BitmapOk, ReadyOk, WaitOk, TimeoutOk, FinalOk, FieldsOk, Placed, BestFrom, AddReady, RemoveReady,
      SwitchContext, HeadsAll, ListsSwitched;
    NobodyAbove(s1, lower);
    if Best(s1).Some? && s1.vps[Best(s1).value].effectivePriority > lower {
      RotateTakes(s1, Best(s1).value, s.vps[s.running].priority);
    }
  }

  /** The scan finds somebody above a priority exactly if a higher list is not empty. */
  lemma NobodyAbove(s: Sched, lower: int)
    requires Inv(s) && InRange(lower)
    ensures Best(s).Some? ==>
              && Best(s).value in s.vps && s.vps[Best(s).value].state.Ready? && Best(s).value != s.running
              && HeadsAll(s.ready, Best(s).value, s.vps[Best(s).value].effectivePriority)
    ensures (Best(s).Some? && s.vps[Best(s).value].effectivePriority > lower)
            <==> !(forall k: nat | lower < k < |s.ready| :: s.ready[k] == [])
  {
    BestIsHighest(s, {s.running});
    if Best(s).Some? { NotTheRunner(s, Best(s).value); }
  }

  lemma RotateTakes(s: Sched, b: VpId, base: int)
    requires Inv(s) && b in s.vps && b != s.running && InRange(base)
    requires HeadsAll(s.ready, b, s.vps[b].effectivePriority)
    ensures var t, p, r := SwitchContext(AddReady(RemoveReady(s, b), s.running, base), b),
                           s.vps[b].effectivePriority, s.running;
            && t.running == b && ListsSwitched(s.ready, t.ready, p, r, base)
            && t.vps == s.vps[r := s.vps[r].(state := Ready, effectivePriority := base,
                                             quantumAllowance := SliceOf(base), waitStart := s.now)]
                             [b := s.vps[b].(state := Running)]
            && t == s.(running := b, vps := t.vps, ready := t.ready, populated := t.populated)
  {
    hide BitmapOk, ReadyOk, WaitOk, TimeoutOk, FinalOk, Placed, SetBit, ClearBit;
    HeadGoes(s.ready[s.vps[b].effectivePriority], b);
  }

  /** Whoever is timed out by the expiry loop gets the priority that its sleep has earned. */
  lemma {:induction false} ExpireFrees(s: Sched, u: VpId)
    requires Inv(s) && u in s.vps && s.vps[u].timeoutValid && s.vps[u].timeoutDeadline <= s.now
    ensures u in Expire(s).vps && Freed(s, u, Expire(s).vps[u], TimedOut, false)
    decreases |s.timeouts|
  {
    hide BitmapOk, ReadyOk, WaitOk, TimeoutOk, FinalOk, Placed, SchedulerState.WakeUpOne, Expire;
    DueIsQueued(s, u);
    var v := s.timeouts[0];
    TimeoutOwner(s, v);
    FirstIsEarliest(s, u);
    ExpireFirst(s);
    var q := s.vps[v].waitingOn.value;
    var t := WakeUpOne(s, q, v, TimedOut, false, false);
    WakeUpOneFrame(s, q, v, TimedOut);
    if u == v {
      ExpireEffect(t, u);
      FirstFreed(s, t, u);
    } else {
      ExpireFrees(t, u);
    }
  }

  lemma DueIsQueued(s: Sched, u: VpId)
    requires Inv(s) && u in s.vps && s.vps[u].timeoutValid
    ensures s.timeouts != [] && s.timeouts[0] in s.timeouts
  {
    assert u in s.timeouts;
  }

  lemma FirstFreed(s: Sched, t: Sched, u: VpId)
    requires Inv(s) && u in s.vps && u in t.vps && u != s.running && Woken(s, u, t.vps[u], TimedOut)
    ensures Freed(s, u, t.vps[u], TimedOut, false)
  {
    assert Boosted(s, u) == AfterSleep(s, u);
  }
}
