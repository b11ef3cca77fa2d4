/** What the operations mean for one virtual processor over a whole run: suspensions count, the
    dead do not come back, and sleep is paid for in priority
    (Kernel/Sources/dispatcher/VirtualProcessorScheduler.c:299-512,
    Kernel/Sources/dispatcher/VirtualProcessor.c:385-495). */
module SchedulerLives {
  import opened Arithmetic
  import opened Sequences
  import opened MonotonicClocks
  import opened SchedulerState
  import opened SchedulerInvariant
  import opened SchedulerSteps
  import opened SchedulerRuns
  import opened SchedulerProgress
  import opened SchedulerReachable
  import opened SchedulerWaits
  import opened SchedulerArrivals
  import opened SchedulerWakes
  import opened SchedulerEffects

  // ---- Records across a step ----------------------------------------------------------

  /** The fields that only the operations named after them change. */
  ghost predicate Steady(a: Vp, b: Vp) {
    b.suspensionCount == a.suspensionCount && b.terminated == a.terminated && b.priority == a.priority
  }

  lemma TickIsSteady(s: Sched, v: VpId)
    requires Inv(s) && v in s.vps
    ensures v in Tick(s).vps && Steady(s.vps[v], Tick(s).vps[v])
  {
    hide BitmapOk, ReadyOk, WaitOk, TimeoutOk, FinalOk, Placed, EndSlice, Expire, HeadsAll, ListsSwitched;
    var a := Advance(s);
    ExpireEffect(a, v);
    if a.vps[v].timeoutValid && a.vps[v].timeoutDeadline <= a.now {
      ExpireFrees(a, v);
      FreedIsSteady(a, v);
    }
    SliceEffect(Expire(a));
  }

  /** A wait that times out leaves the VP as alive as it was. */
  lemma FreedIsSteady(s: Sched, v: VpId)
    requires Inv(s) && v in s.vps && s.vps[v].timeoutValid && v in Expire(s).vps
    requires Freed(s, v, Expire(s).vps[v], TimedOut, false)
    ensures Steady(s.vps[v], Expire(s).vps[v])
  {
    assert v in s.timeouts;
    TimeoutOwner(s, v);
    assert Placed(s, v) && Placed(Expire(s), v);
    ExpireFinals(s);
    Finalized(s, v);
    Finalized(Expire(s), v);
  }

  lemma {:induction false} ExpireFinals(s: Sched)
    requires Inv(s)
    ensures Expire(s).finalizer == s.finalizer
    decreases |s.timeouts|
  {
    if s.timeouts != [] {
      var v := s.timeouts[0];
      TimeoutOwner(s, v);
      if s.vps[v].timeoutDeadline <= s.now {
        ExpireFirst(s);
        WakeUpOneFrame(s, s.vps[v].waitingOn.value, v, TimedOut);
        ExpireFinals(WakeUpOne(s, s.vps[v].waitingOn.value, v, TimedOut, false, false));
      }
    }
  }

  lemma WakeIsSteady(s: Sched, q: QueueId, count: int, reason: WakeReason, allowSwitch: bool, cooperation: bool,
                     v: VpId)
    requires Inv(s) && q in s.queues && (reason.Finished? || reason.Interrupted?) && v in s.vps
    ensures v in WakeUpSome(s, q, count, reason, allowSwitch, cooperation).vps
    ensures Steady(s.vps[v], WakeUpSome(s, q, count, reason, allowSwitch, cooperation).vps[v])
  {
    hide BitmapOk, ReadyOk, TimeoutOk, FinalOk, Placed, FirstPass, SchedulerState.MaybeSwitchTo;
    PassLeaves(s, q, count, reason);
    var (t, candidate) := FirstPass(s, q, WakeCount(count, |s.queues[q]|), reason);
    if candidate.Some? { SwitchDecides(t, candidate.value, cooperation); }
  }

  /** How a step changes the suspension count of `v`. */
  function CountAfter(count: int, step: Step, v: VpId): int {
    match step
    case SuspendStep(u) => if u == v && count < 127 then count + 1 else count
    case ResumeStep(u, force, _) => if u != v then count else if force || count <= 1 then 0 else count - 1
    case _ => count
  }

  /** Suspensions and resumptions of `v` count, other steps leave its count alone; it is dead from
      its termination on. */
  lemma StepCounts(s: Sched, idle: VpId, step: Step, v: VpId)
    requires Safe(s, idle) && Enabled(s, idle, step) && v in s.vps && v in Apply(s, idle, step).vps
    ensures Apply(s, idle, step).vps[v].suspensionCount == CountAfter(s.vps[v].suspensionCount, step, v)
    ensures Apply(s, idle, step).vps[v].terminated <==>
            s.vps[v].terminated || (step.TerminateStep? && v == s.running)
  {
    hide BitmapOk, ReadyOk, WaitOk, TimeoutOk, FinalOk, Placed, Apply, GoesToNext;
    match step
    case TickStep => TickApplies(s, idle); TickIsSteady(s, v);
    case WaitStep(_, _, _, _) => WaitIsSteady(s, idle, step, v);
    case WakeStep(q, count, reason, allowSwitch, cooperation) =>
      WakeApplies(s, idle, step);
      WakeIsSteady(s, q, count, reason, allowSwitch, cooperation, v);
    case SuspendStep(u) => SuspendCounts(s, idle, u, v);
    case ResumeStep(u, force, cooperation) => ResumeEffect(s, idle, u, force, cooperation);
    case SetPriorityStep(u, pri) => SetPriorityEffect(s, idle, u, pri);
    case CreateStep(u, pri) => CreateEffect(s, idle, u, pri);
    case NewQueueStep(q) => NewQueueApplies(s, idle, q);
    case TerminateStep(cooperation) => TerminateCounts(s, idle, cooperation, v);
    case FinalizeStep => FinalizeEffect(s, idle);
  }

  lemma WaitIsSteady(s: Sched, idle: VpId, wait: Step, v: VpId)
    requires Safe(s, idle) && Enabled(s, idle, wait) && wait.WaitStep? && v in s.vps
    ensures v in Apply(s, idle, wait).vps && Steady(s.vps[v], Apply(s, idle, wait).vps[v])
  {
    hide BitmapOk, ReadyOk, WaitOk, TimeoutOk, FinalOk, Placed, Apply, HeadsAll;
    WaitEffect(s, idle, wait);
  }

  lemma SuspendCounts(s: Sched, idle: VpId, u: VpId, v: VpId)
    requires Safe(s, idle) && Enabled(s, idle, SuspendStep(u)) && v in s.vps
    ensures var t := Apply(s, idle, SuspendStep(u));
            && v in t.vps && t.vps[v].terminated == s.vps[v].terminated
            && t.vps[v].suspensionCount == CountAfter(s.vps[v].suspensionCount, SuspendStep(u), v)
  {
    hide BitmapOk, ReadyOk, WaitOk, TimeoutOk, FinalOk, Placed, Apply, HeadsAll;
    SuspendEffect(s, idle, u);
  }

  lemma TerminateCounts(s: Sched, idle: VpId, cooperation: bool, v: VpId)
    requires Safe(s, idle) && Enabled(s, idle, TerminateStep(cooperation)) && v in s.vps
    ensures var t := Apply(s, idle, TerminateStep(cooperation));
            && v in t.vps && t.vps[v].suspensionCount == s.vps[v].suspensionCount
            && (t.vps[v].terminated <==> s.vps[v].terminated || v == s.running)
  {
    hide BitmapOk, ReadyOk, WaitOk, TimeoutOk, FinalOk, Placed, Apply, HeadsAll;
    TerminateEffect(s, idle, cooperation);
  }

  lemma TickApplies(s: Sched, idle: VpId)
    requires Safe(s, idle)
    ensures Apply(s, idle, TickStep) == Tick(s)
  {
  }

  lemma WakeApplies(s: Sched, idle: VpId, step: Step)
    requires Safe(s, idle) && step.WakeStep? && Enabled(s, idle, step)
    ensures Apply(s, idle, step) == WakeUpSome(s, step.q, step.count, step.reason, step.allowSwitch, step.cooperation)
  {
  }

  lemma NewQueueApplies(s: Sched, idle: VpId, q: QueueId)
    requires Safe(s, idle) && q !in s.queues
    ensures Apply(s, idle, NewQueueStep(q)) == s.(queues := s.queues[q := []])
  {
  }

  // ---- Suspension -----------------------------------------------------------------------

  /** `v` exists in every state of this run. */
  ghost predicate Exists(s: Sched, idle: VpId, steps: seq<Step>, v: VpId)
    requires Safe(s, idle)
    decreases |steps|
  {
    && v in s.vps
    && (steps != [] ==>
          && Enabled(s, idle, steps[0])
          && (StepKeepsSafe(s, idle, steps[0]);
              Exists(Apply(s, idle, steps[0]), idle, steps[1..], v)))
  }

  function CountAfterAll(count: int, steps: seq<Step>, v: VpId): int
    decreases |steps|
  {
    if steps == [] then count else CountAfterAll(CountAfter(count, steps[0], v), steps[1..], v)
  }

  /** Over any run the suspension count is what the suspensions and resumptions make of it. */
  lemma {:induction false} SuspensionsCount(s: Sched, idle: VpId, steps: seq<Step>, v: VpId)
    requires Safe(s, idle) && Exists(s, idle, steps, v)
    ensures Exec(s, idle, steps).Some?
    ensures var t := Exec(s, idle, steps).value;
            && v in t.vps && t.vps[v].suspensionCount == CountAfterAll(s.vps[v].suspensionCount, steps, v)
    decreases |steps|
  {
    hide Inv, Apply;
    if steps != [] {
      StepKeepsSafe(s, idle, steps[0]);
      StepCounts(s, idle, steps[0], v);
      SuspensionsCount(Apply(s, idle, steps[0]), idle, steps[1..], v);
    }
  }

  /** A VP that has been suspended more often than resumed neither runs nor is ready, over any
      run, whatever else happens to it. */
  lemma SuspendedStaysOff(s: Sched, idle: VpId, steps: seq<Step>, v: VpId, t: Sched)
    requires Safe(s, idle) && Exists(s, idle, steps, v) && Exec(s, idle, steps) == Some(t)
    requires CountAfterAll(s.vps[v].suspensionCount, steps, v) > 0
    ensures Safe(t, idle) && t.running != v && forall p: nat | p < |t.ready| :: v !in t.ready[p]
  {
    SuspensionsCount(s, idle, steps, v);
  }

  // ---- Death ------------------------------------------------------------------------------

  /** A VP that is dead stays dead until it is destroyed, and never runs or becomes ready. */
  lemma {:induction false} DeadStaysDead(s: Sched, idle: VpId, steps: seq<Step>, v: VpId)
    requires Safe(s, idle) && Exists(s, idle, steps, v) && s.vps[v].terminated
    ensures Exec(s, idle, steps).Some?
    ensures var t := Exec(s, idle, steps).value;
            && v in t.vps && t.vps[v].terminated && t.running != v && v in t.finalizer
            && forall p: nat | p < |t.ready| :: v !in t.ready[p]
    decreases |steps|
  {
    hide Apply;
    if steps == [] {
      Finalized(s, v);
    } else {
      StepKeepsSafe(s, idle, steps[0]);
      StepCounts(s, idle, steps[0], v);
      DeadStaysDead(Apply(s, idle, steps[0]), idle, steps[1..], v);
    }
  }

  // ---- Sleep --------------------------------------------------------------------------------

  lemma QuarterStays(s: Sched, idle: VpId, step: Step)
    requires Safe(s, idle) && Enabled(s, idle, step)
    ensures Apply(s, idle, step).quantumsPerQuarter == s.quantumsPerQuarter
  {
    if step.TickStep? {
      assert Kin(Advance(s), Expire(Advance(s)));
    } else {
      assert step.CreateStep? || step.NewQueueStep? || step.FinalizeStep? || Kin(s, Apply(s, idle, step));
    }
  }

  /** While a VP sleeps its record stays and the clock ticks. */
  lemma {:induction false} SleepKeepsRecord(s: Sched, idle: VpId, steps: seq<Step>, v: VpId)
    requires Safe(s, idle) && SleepsThrough(s, idle, steps, v)
    ensures Exec(s, idle, steps).Some?
    ensures var t := Exec(s, idle, steps).value;
            && v in t.vps && SameWait(s.vps[v], t.vps[v]) && t.now == s.now + Ticks(steps)
            && t.quantumsPerQuarter == s.quantumsPerQuarter
    decreases |steps|
  {
    hide Inv, Apply;
    if steps != [] {
      StepKeepsSafe(s, idle, steps[0]);
      WaiterStays(s, idle, steps[0], v);
      OneStepOfSleep(s, idle, steps[0], v);
      QuarterStays(s, idle, steps[0]);
      SleepKeepsRecord(Apply(s, idle, steps[0]), idle, steps[1..], v);
    }
  }

  /** The wake-up considers `v`, and may wake it. */
  predicate WakesUp(t: Sched, wake: Step, v: VpId) {
    && wake.WakeStep? && wake.q in t.queues && v in t.vps && Wakes(t, v, wake.reason)
    && v in t.queues[wake.q][..Considered(wake.count, |t.queues[wake.q]|)]
  }

  /** The priority after a sleep: one more for each quarter of a second, up to the highest. */
  function Paid(before: int, ticks: int, quarter: int): int
    requires quarter > 0
  {
    if before + ticks / quarter > 63 then 63 else before + ticks / quarter
  }

  /** From the wait to the wake-up: whoever has slept for a number of ticks and is woken able to
      run has gained one priority for each quarter of a second of them, up to the highest. */
  lemma SleepIsPaid(s: Sched, idle: VpId, wait: Step, t0: Sched, steps: seq<Step>, t: Sched, wake: Step)
    requires Safe(s, idle) && Enabled(s, idle, wait) && wait.WaitStep? && Joins(s, wait, wait.q)
    requires t0 == Apply(s, idle, wait) && Safe(t0, idle) && SleepsThrough(t0, idle, steps, s.running)
    requires Exec(t0, idle, steps) == Some(t) && Safe(t, idle)
    requires Enabled(t, idle, wake) && WakesUp(t, wake, s.running)
    ensures s.quantumsPerQuarter > 0 && s.running in s.vps && s.running in Apply(t, idle, wake).vps
    ensures var vp := Apply(t, idle, wake).vps[s.running];
            && vp.wakeReason == wake.reason && !vp.state.Waiting?
            && (vp.suspensionCount == 0 ==>
                  vp.effectivePriority == Paid(s.vps[s.running].effectivePriority, Ticks(steps), s.quantumsPerQuarter))
  {
    hide Inv, Apply, SleepsThrough, Exec, WakesUp;
    SleeperKnows(s, idle, wait, t0);
    SleepKeepsRecord(t0, idle, steps, s.running);
    WakePays(t, idle, wake, s.running);
  }

  lemma WakePays(t: Sched, idle: VpId, wake: Step, v: VpId)
    requires Safe(t, idle) && Enabled(t, idle, wake) && WakesUp(t, wake, v)
    ensures t.quantumsPerQuarter > 0 && v in t.vps && v in Apply(t, idle, wake).vps
    ensures var vp := Apply(t, idle, wake).vps[v];
            && vp.wakeReason == wake.reason && !vp.state.Waiting?
            && (vp.suspensionCount == 0 ==>
                  vp.effectivePriority
                  == Paid(t.vps[v].effectivePriority, t.now - t.vps[v].waitStart, t.quantumsPerQuarter))
  {
    hide BitmapOk, ReadyOk, WaitOk, TimeoutOk, FinalOk, FieldsOk, Placed, Apply, WakeUpSome;
    WakeApplies(t, idle, wake);
    WakeFreesExactly(t, wake.q, wake.count, wake.reason, wake.allowSwitch, wake.cooperation);
  }

  lemma SleeperKnows(s: Sched, idle: VpId, wait: Step, t0: Sched)
    requires Safe(s, idle) && Enabled(s, idle, wait) && wait.WaitStep? && Joins(s, wait, wait.q)
    requires t0 == Apply(s, idle, wait)
    ensures s.quantumsPerQuarter > 0 && s.running in s.vps
    ensures s.running in t0.vps && t0.vps[s.running].waitStart == s.now == t0.now
    ensures t0.vps[s.running].effectivePriority == s.vps[s.running].effectivePriority
    ensures t0.quantumsPerQuarter == s.quantumsPerQuarter
  {
    hide BitmapOk, ReadyOk, WaitOk, TimeoutOk, FinalOk, Placed, Apply, HeadsAll;
    WaitEffect(s, idle, wait);
    QuarterStays(s, idle, wait);
  }

  // ---- Boot -----------------------------------------------------------------------------------

  /** After booting the boot VP runs at the highest priority, the idle VP is ready at the lowest,
      nobody else exists, and a quarter of a second is as many quantums as it takes to cover it. */
  lemma BootEffect(boot: VpId, idle: VpId, nsPerQuantum: int, cooperation: bool)
    requires boot != idle && 0 < nsPerQuantum <= ONE_SECOND_IN_NANOS
    ensures var s := FinishBoot(boot, idle, nsPerQuantum, cooperation);
            && s.running == s.boot == boot && s.vps.Keys == {boot, idle} && s.now == 0
            && s.vps[boot].state.Running? && s.vps[boot].priority == s.vps[boot].effectivePriority == 63
            && s.vps[idle].state.Ready? && s.vps[idle].priority == s.vps[idle].effectivePriority == 0
            && s.vps[boot].suspensionCount == s.vps[idle].suspensionCount == 0
            && |s.ready| == 64 && (forall p: nat | p < 64 :: s.ready[p] == if p == 0 then [idle] else [])
            && s.timeouts == [] && s.finalizer == [] && s.queues == map[SLEEP_QUEUE := [], SCHEDULER_WAIT_QUEUE := []]
            && s.nsPerQuantum == nsPerQuantum
            && (s.quantumsPerQuarter - 1) * nsPerQuantum < 250_000_000 <= s.quantumsPerQuarter * nsPerQuantum
  {
    hide Booted, Safe, Inv;
    BootedFields(boot, idle, nsPerQuantum);
  }

  lemma BootedFields(boot: VpId, idle: VpId, nsPerQuantum: int)
    requires boot != idle && 0 < nsPerQuantum <= ONE_SECOND_IN_NANOS
    ensures var s := Booted(boot, idle, nsPerQuantum);
            && s.running == s.boot == boot && s.vps.Keys == {boot, idle} && s.now == 0
            && s.vps[boot].state.Running? && s.vps[boot].priority == s.vps[boot].effectivePriority == 63
            && s.vps[boot].suspensionCount == 0 && s.vps[idle] == NewVp(0)
            && |s.ready| == 64 && (forall p: nat | p < 64 :: s.ready[p] == [])
            && s.timeouts == [] && s.finalizer == [] && s.queues == map[SLEEP_QUEUE := [], SCHEDULER_WAIT_QUEUE := []]
            && s.nsPerQuantum == nsPerQuantum
            && (s.quantumsPerQuarter - 1) * nsPerQuantum < 250_000_000 <= s.quantumsPerQuarter * nsPerQuantum
  {
    QuarterFits(nsPerQuantum);
  }

  lemma QuarterFits(nsPerQuantum: int)
    requires 0 < nsPerQuantum <= ONE_SECOND_IN_NANOS
    ensures var q := ToQuantums(nsPerQuantum, TimeInterval(0, 250_000_000), AwayFromZero);
            q > 0 && (q - 1) * nsPerQuantum < 250_000_000 <= q * nsPerQuantum
  {
    QuarterPositive(nsPerQuantum);
    var t := TimeInterval(0, 250_000_000);
    var c := FirstQuantumAt(Nanos(t), nsPerQuantum);
    if c <= 0 { MulMonotone(c, 0, nsPerQuantum); }
    if c - 1 > 250_000_000 {
      MulMonotone(250_000_000, c - 1, nsPerQuantum);
      MulMonotone(1, nsPerQuantum, 250_000_000);
    }
    ConversionIsCeiling(nsPerQuantum, t);
    CeilingUnique(ToQuantums(nsPerQuantum, t, AwayFromZero), c, Nanos(t), nsPerQuantum);
  }
}
