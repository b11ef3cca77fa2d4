/** Runs of the scheduler: every operation as a step, and what holds in every state a
    run can reach. */
module SchedulerRuns {
  import opened Sequences
  import opened PriorityBitmap
  import opened MonotonicClocks
  import opened SchedulerState
  import opened SchedulerInvariant
  import opened SchedulerSteps

  // ---- WakeUpSome ---------------------------------------------------------------

  /** The waiters `vs` are still on queue `q`, in this order of the pass. */
  ghost predicate OnQueue(s: Sched, q: QueueId, vs: seq<VpId>) {
    q in s.queues && Distinct(vs) && forall v | v in vs :: v in s.queues[q]
  }

  /** First pass of WakeUpSome over the waiters `vs`: wakes each one and picks the first
      that became able to run, unless `found` has picked one already. */
  function WakeEach(s: Sched, q: QueueId, vs: seq<VpId>, reason: WakeReason,
                    found: Option<VpId>): (r: (Sched, Option<VpId>))
    requires Inv(s) && OnQueue(s, q, vs) && (found.Some? ==> found.value in s.vps)
    ensures Inv(r.0) && Kin(s, r.0) && r.0.running == s.running
    ensures r.1.Some? ==> r.1.value in r.0.vps
    decreases |vs|
  {
    if vs == [] then (s, found)
    else
      var v := vs[0];
      var t := WakeUpOne(s, q, v, reason, false, false);
      WakeEachStep(s, q, vs, reason);
      var candidate :=
        if found.None? && t.vps[v].state.Ready? && t.vps[v].suspensionCount == 0 then Some(v) else found;
      WakeEach(t, q, vs[1..], reason, candidate)
  }

  lemma WakeEachStep(s: Sched, q: QueueId, vs: seq<VpId>, reason: WakeReason)
    requires Inv(s) && OnQueue(s, q, vs) && vs != []
    ensures vs[0] in s.vps && vs[0] != s.running && s.vps[vs[0]].waitStart <= s.now
    ensures var t := WakeUpOne(s, q, vs[0], reason, false, false);
            Inv(t) && OnQueue(t, q, vs[1..]) && Kin(s, t) && t.running == s.running
  {
    var v := vs[0];
    assert v in vs;
    WakeUpOneInv(s, q, v, reason);
    WakeUpOneFrame(s, q, v, reason);
    WithoutMembers(s.queues[q], v);
    forall u | u in vs[1..] ensures u in s.queues[q] && u != v {
      assert u in vs;
    }
  }

  /** How many waiters WakeUpSome considers. */
  function WakeCount(count: int, waiters: nat): (n: nat)
    ensures n <= waiters
  {
    Max(0, Min(count, waiters))
  }

  function FirstPass(s: Sched, q: QueueId, n: nat, reason: WakeReason): (r: (Sched, Option<VpId>))
    requires Inv(s) && q in s.queues && n <= |s.queues[q]|
    ensures Inv(r.0) && Kin(s, r.0) && r.0.running == s.running
    ensures r.1.Some? ==> r.1.value in r.0.vps
  {
    PrefixOnQueue(s, q, n);
    WakeEach(s, q, s.queues[q][..n], reason, None)
  }

  /** WakeUpSome. */
  function WakeUpSome(s: Sched, q: QueueId, count: int, reason: WakeReason,
                      allowSwitch: bool, cooperation: bool): (r: Sched)
    requires Inv(s) && q in s.queues
    ensures Inv(r) && Kin(s, r)
  {
    var (t, candidate) := FirstPass(s, q, WakeCount(count, |s.queues[q]|), reason);
    if allowSwitch && candidate.Some? then
      MaybeSwitchToInv(t, candidate.value, cooperation);
      MaybeSwitchTo(t, candidate.value, cooperation)
    else t
  }

  lemma PrefixOnQueue(s: Sched, q: QueueId, n: nat)
    requires Inv(s) && q in s.queues && n <= |s.queues[q]|
    ensures OnQueue(s, q, s.queues[q][..n])
  {
  }

  // ---- Suspension, priorities, life cycle ---------------------------------------

  /** VirtualProcessor_Suspend; suspending 127 times in a row is refused. */
  function Suspend(s: Sched, v: VpId): (r: Sched)
    requires Shaped(s) && v in s.vps
    ensures Shaped(r) && Kin(s, r)
  {
    var vp := s.vps[v];
    if vp.suspensionCount == SUSPENSION_MAX then s
    else
      var s1 := SetVp(s, v, vp.(suspensionCount := vp.suspensionCount + 1));
      match vp.state
      case Ready => RemoveReady(s1, v)
      case Running => SwitchAway(s1)
      case Waiting => s1
  }

  /** VirtualProcessor_Resume. */
  function Resume(s: Sched, v: VpId, force: bool, cooperation: bool): (r: Sched)
    requires Shaped(s) && v in s.vps
    ensures Shaped(r) && Kin(s, r)
  {
    var vp := s.vps[v];
    if vp.suspensionCount <= 0 then s
    else
      var count := if force then 0 else vp.suspensionCount - 1;
      var s1 := SetVp(s, v, vp.(suspensionCount := count));
      if count != 0 then s1
      else
        match vp.state
        case Ready => AddReady(s1, v, vp.priority)
        case Running => MaybeSwitchTo(AddReady(s1, v, vp.priority), v, cooperation)
        case Waiting => s1
  }

  /** VirtualProcessor_SetPriority. */
  function SetPriority(s: Sched, v: VpId, pri: int): (r: Sched)
    requires Shaped(s) && v in s.vps && InRange(pri)
    ensures Shaped(r) && Kin(s, r)
  {
    var vp := s.vps[v];
    if vp.priority == pri then s
    else
      match vp.state
      case Ready =>
        var s1 := if vp.suspensionCount == 0 then RemoveReady(s, v) else s;
        var s2 := SetVp(s1, v, vp.(priority := pri));
        if vp.suspensionCount == 0 then AddReady(s2, v, pri) else s2
      case Waiting => SetVp(s, v, vp.(priority := pri))
      case Running =>
        SetVp(s, v, vp.(priority := pri, effectivePriority := pri, quantumAllowance := Allowance(pri)))
  }

  /** The scheduling fields VirtualProcessor_CommonInit gives a cleared record. */
  function NewVp(pri: int): Vp {
    Vp(Ready, pri, 0, 0, 1, false, INT32_MAX, None, 0, NoReason, false, false)
  }

  const FINALIZE_NOW_THRESHOLD := 4

  /** The running VP is marked dead and goes to the finalizer queue. */
  function Dead(s: Sched): (r: Sched)
    requires Shaped(s)
    ensures Shaped(r) && Kin(s, r)
  {
    s.(vps := s.vps[s.running := s.vps[s.running].(terminated := true)], finalizer := s.finalizer + [s.running])
  }

  /** The finalizer queue is long and the scheduler's own VP sleeps. */
  predicate FinalizesNow(s: Sched) {
    && |s.finalizer| + 1 >= FINALIZE_NOW_THRESHOLD && s.boot in s.vps
    && SCHEDULER_WAIT_QUEUE in s.queues && s.queues[SCHEDULER_WAIT_QUEUE] != []
  }

  /** TerminateVirtualProcessor. */
  function Terminate(s: Sched, cooperation: bool): (r: Sched)
    requires Shaped(s) && FieldsOk(s)
    ensures Shaped(r) && Kin(s, r)
  {
    if FinalizesNow(s) then WakeUpOne(Dead(s), SCHEDULER_WAIT_QUEUE, s.boot, Interrupted, true, cooperation)
    else SwitchAway(Dead(s))
  }

  /** The scheduler VP destroys every VP on the finalizer queue. */
  function Finalize(s: Sched): Sched {
    s.(vps := s.vps - (set v | v in s.finalizer), finalizer := [])
  }

  datatype Step =
    | TickStep
    | WaitStep(q: QueueId, deadline: Option<TimeInterval>, curTime: int, interruptable: bool)
    | WakeStep(q: QueueId, count: int, reason: WakeReason, allowSwitch: bool, cooperation: bool)
    | SuspendStep(v: VpId)
    | ResumeStep(v: VpId, force: bool, cooperation: bool)
    | SetPriorityStep(v: VpId, pri: int)
    | CreateStep(v: VpId, pri: int)
    | NewQueueStep(q: QueueId)
    | TerminateStep(cooperation: bool)
    | FinalizeStep

  /** The idle VP never blocks, exits or gets suspended, and no VP exits while `FinalizesNow`
      (SchedulerExits says why); the other conditions are the assertions the code makes
      about its arguments. */
  predicate Enabled(s: Sched, idle: VpId, step: Step) {
    match step
    case TickStep => true
    case WaitStep(q, _, _, _) => q in s.queues && s.running != idle
    case WakeStep(q, _, reason, _, _) => q in s.queues && (reason.Finished? || reason.Interrupted?)
    case SuspendStep(v) => v in s.vps && !s.vps[v].terminated && v != idle
    case ResumeStep(v, _, _) => v in s.vps && !s.vps[v].terminated
    case SetPriorityStep(v, pri) => v in s.vps && !s.vps[v].terminated && InRange(pri)
    case CreateStep(v, pri) => v !in s.vps && InRange(pri) && s.now >= 0
    case NewQueueStep(q) => q !in s.queues
    case TerminateStep(_) => s.running != idle && !FinalizesNow(s)
    case FinalizeStep => true
  }

  function Apply(s: Sched, idle: VpId, step: Step): (r: Sched)
    requires Inv(s) && Enabled(s, idle, step)
  {
    match step
    case TickStep => Tick(s)
    case WaitStep(q, deadline, curTime, interruptable) =>
      (match WaitOn(s, q, deadline, curTime, interruptable)
       case Blocked(next) => next
       case AlreadyTimedOut => s)
    case WakeStep(q, count, reason, allowSwitch, cooperation) =>
      WakeUpSome(s, q, count, reason, allowSwitch, cooperation)
    case SuspendStep(v) => Suspend(s, v)
    case ResumeStep(v, force, cooperation) => Resume(s, v, force, cooperation)
    case SetPriorityStep(v, pri) => SetPriority(s, v, pri)
    case CreateStep(v, pri) => SetVp(s, v, NewVp(pri))
    case NewQueueStep(q) => s.(queues := s.queues[q := []])
    case TerminateStep(cooperation) => Terminate(s, cooperation)
    case FinalizeStep => Finalize(s)
  }

  /** The idle VP is able to run: it runs or it sits on a ready list. */
  ghost predicate IdleOk(s: Sched, idle: VpId) {
    && idle in s.vps && !s.vps[idle].terminated && s.vps[idle].suspensionCount == 0
    && !s.vps[idle].state.Waiting?
  }

  ghost predicate Safe(s: Sched, idle: VpId) {
    Inv(s) && IdleOk(s, idle) && s.now >= 0
  }

  // ---- Every step keeps the invariant -------------------------------------------

  /** Whenever the running VP gives up the CPU and is not the idle VP, the scan finds a
      successor: the null result never reaches the context switch. */
  lemma BlockingFindsSuccessor(s: Sched, loose: set<VpId>, idle: VpId)
    requires Core(s, loose) && IdleOk(s, idle) && idle !in loose
    ensures Best(s).Some?
  {
    assert Placed(s, idle);
    BestBeatsReady(s, idle, loose);
  }

  /** Once the running VP has been put somewhere, switching away restores the invariant. */
  lemma SwitchAwaySafe(s: Sched, idle: VpId)
    requires Core(s, {}) && !s.vps[s.running].state.Running? && IdleOk(s, idle) && s.now >= 0
    ensures Safe(SwitchAway(s), idle)
    ensures Best(s).Some? && SwitchAway(s).running == Best(s).value
  {
    BlockingFindsSuccessor(s, {}, idle);
    SwitchAwayInv(s);
  }

  lemma EnqueueSafe(s: Sched, idle: VpId, q: QueueId, interruptable: bool)
    requires Core(s, {s.running}) && IdleOk(s, idle) && s.now >= 0
    requires !s.vps[s.running].terminated && q in s.queues && s.running != idle
    ensures Safe(SwitchAway(Enqueue(s, q, interruptable)), idle)
  {
    EnqueueCore(s, q, interruptable, {s.running});
    assert {s.running} - {s.running} == {};
    SwitchAwaySafe(Enqueue(s, q, interruptable), idle);
  }

  lemma ArmSafe(s: Sched, idle: VpId, t: TimeInterval)
    requires Safe(s, idle) && s.running != idle
    ensures var r := ArmTimeout(s, s.running, t);
            && Core(r, {r.running}) && IdleOk(r, idle) && r.now >= 0 && !r.vps[r.running].terminated
            && r.queues == s.queues && r.running == s.running
  {
    ArmTimeoutCore(s, s.running, t, {s.running});
  }

  lemma WaitUntilSafe(s: Sched, idle: VpId, q: QueueId, t: TimeInterval, interruptable: bool)
    requires Safe(s, idle) && q in s.queues && s.running != idle
    ensures Safe(SwitchAway(Enqueue(ArmTimeout(s, s.running, t), q, interruptable)), idle)
  {
    ArmSafe(s, idle, t);
    EnqueueSafe(ArmTimeout(s, s.running, t), idle, q, interruptable);
  }

  lemma WaitKeepsSafe(s: Sched, idle: VpId, q: QueueId, deadline: Option<TimeInterval>, curTime: int,
                      interruptable: bool)
    requires Safe(s, idle) && q in s.queues && s.running != idle
    ensures var r := WaitOn(s, q, deadline, curTime, interruptable);
            r.Blocked? ==> Safe(r.next, idle)
  {
    hide BitmapOk, ReadyOk, FinalOk, Placed;
    match deadline
    case None => EnqueueSafe(s, idle, q, interruptable);
    case Some(t) => WaitUntilSafe(s, idle, q, t, interruptable);
  }

  lemma WakeKeepsIdle(s: Sched, idle: VpId, q: QueueId, vs: seq<VpId>, reason: WakeReason, found: Option<VpId>)
    requires Inv(s) && OnQueue(s, q, vs) && (found.Some? ==> found.value in s.vps) && IdleOk(s, idle)
    ensures IdleOk(WakeEach(s, q, vs, reason, found).0, idle)
    decreases |vs|
  {
    if vs != [] {
      var v := vs[0];
      var t := WakeUpOne(s, q, v, reason, false, false);
      WakeEachStep(s, q, vs, reason);
      WakeUpOneFrame(s, q, v, reason);
      assert v in vs;
      var candidate :=
        if found.None? && t.vps[v].state.Ready? && t.vps[v].suspensionCount == 0 then Some(v) else found;
      WakeKeepsIdle(t, idle, q, vs[1..], reason, candidate);
    }
  }

  lemma MaybeSwitchKeepsIdle(s: Sched, v: VpId, cooperation: bool, idle: VpId)
    requires Inv(s) && v in s.vps && IdleOk(s, idle)
    ensures IdleOk(MaybeSwitchTo(s, v, cooperation), idle)
  {
  }

  lemma WakeKeepsSafe(s: Sched, idle: VpId, q: QueueId, count: int, reason: WakeReason,
                      allowSwitch: bool, cooperation: bool)
    requires Safe(s, idle) && q in s.queues
    ensures Safe(WakeUpSome(s, q, count, reason, allowSwitch, cooperation), idle)
  {
    var n := WakeCount(count, |s.queues[q]|);
    PrefixOnQueue(s, q, n);
    WakeKeepsIdle(s, idle, q, s.queues[q][..n], reason, None);
    var (t, candidate) := FirstPass(s, q, n, reason);
    if candidate.Some? {
      MaybeSwitchKeepsIdle(t, candidate.value, cooperation, idle);
    }
  }

  lemma ExpireKeepsIdle(s: Sched, idle: VpId)
    requires Inv(s) && IdleOk(s, idle)
    ensures IdleOk(Expire(s), idle)
    decreases |s.timeouts|
  {
    if s.timeouts != [] {
      var v := s.timeouts[0];
      TimeoutOwner(s, v);
      if s.vps[v].timeoutDeadline <= s.now {
        var q := s.vps[v].waitingOn.value;
        WakeUpOneInv(s, q, v, TimedOut);
        WakeUpOneFrame(s, q, v, TimedOut);
        WithoutMembers(s.timeouts, v);
        ExpireKeepsIdle(WakeUpOne(s, q, v, TimedOut, false, false), idle);
      }
    }
  }

  lemma EndSliceKeepsIdle(s: Sched, idle: VpId)
    requires Inv(s) && IdleOk(s, idle)
    ensures IdleOk(EndSlice(s), idle)
  {
    hide BitmapOk, WaitOk, TimeoutOk, FinalOk;
  }

  lemma TickKeepsSafe(s: Sched, idle: VpId)
    requires Safe(s, idle)
    ensures Safe(Tick(s), idle)
  {
    var t := Advance(s);
    ExpireKeepsIdle(t, idle);
    var e := Expire(t);
    SliceKeepsSafe(e, idle);
  }

  lemma SliceKeepsSafe(s: Sched, idle: VpId)
    requires Safe(s, idle)
    ensures Safe(EndSlice(s), idle)
  {
    EndSliceInv(s);
    EndSliceKeepsIdle(s, idle);
  }

  lemma SuspendRunning(s: Sched, idle: VpId, up: Vp)
    requires Safe(s, idle) && s.running != idle && s.vps[s.running].suspensionCount < SUSPENSION_MAX
    requires up == s.vps[s.running].(suspensionCount := s.vps[s.running].suspensionCount + 1)
    ensures Shaped(SetVp(s, s.running, up)) && Safe(SwitchAway(SetVp(s, s.running, up)), idle)
  {
    hide BitmapOk, ReadyOk, WaitOk, TimeoutOk, FinalOk, Placed;
    var v := s.running;
    var s2 := SetVp(s, v, up.(state := Ready));
    assert Core(s2, {}) by {
      SetLooseCore(s, v, up.(state := Ready), {v});
      SettleCore(s2, v, {v});
      assert {v} - {v} == {};
    }
    assert s2 == SetVp(SetVp(s, v, up), v, up.(state := Ready));
    SwitchAwaySafe(s2, idle);
    SwitchAwayParks(SetVp(s, v, up), s2, v);
  }

  lemma SuspendRunningIs(s: Sched)
    requires Shaped(s) && s.vps[s.running].state.Running? && s.vps[s.running].suspensionCount == 0
    ensures Suspend(s, s.running) ==
            SwitchAway(SetVp(s, s.running, s.vps[s.running].(suspensionCount := 1)))
  {
  }

  lemma SuspendOtherIs(s: Sched, v: VpId)
    requires Shaped(s) && v in s.vps && !s.vps[v].state.Running?
    requires s.vps[v].suspensionCount < SUSPENSION_MAX
    ensures var up := s.vps[v].(suspensionCount := s.vps[v].suspensionCount + 1);
            Suspend(s, v) == if s.vps[v].state.Ready? then RemoveReady(SetVp(s, v, up), v) else SetVp(s, v, up)
  {
  }

  lemma SuspendOtherInv(s: Sched, v: VpId)
    requires Inv(s) && v in s.vps && !s.vps[v].terminated && v != s.running
    ensures Inv(Suspend(s, v))
    ensures forall u | u in s.vps && u != v :: Suspend(s, v).vps[u] == s.vps[u]
  {
    if s.vps[v].suspensionCount < SUSPENSION_MAX {
      assert !s.vps[v].state.Running? by { assert Placed(s, v); }
      var up := s.vps[v].(suspensionCount := s.vps[v].suspensionCount + 1);
      SuspendOtherIs(s, v);
      if s.vps[v].state.Waiting? {
        assert Inv(SetVp(s, v, up)) by { SuspendWaiting(s, v, up); }
      } else {
        assert Inv(RemoveReady(SetVp(s, v, up), v)) by { SuspendReady(s, v, up); }
      }
    }
  }

  lemma SuspendKeepsSafe(s: Sched, idle: VpId, v: VpId)
    requires Safe(s, idle) && v in s.vps && !s.vps[v].terminated && v != idle
    ensures Safe(Suspend(s, v), idle)
  {
    hide BitmapOk, ReadyOk, WaitOk, TimeoutOk, FinalOk, Placed;
    if v == s.running {
      var t := SwitchAway(SetVp(s, s.running, s.vps[s.running].(suspensionCount := 1)));
      SuspendRunningIs(s);
      assert Safe(t, idle) by {
        SuspendRunning(s, idle, s.vps[v].(suspensionCount := 1));
      }
    } else {
      SuspendOtherInv(s, v);
    }
  }

  /** Switching away from a VP that is still marked Running gives the same result as
      switching away after it has been marked Ready. */
  lemma SwitchAwayParks(s1: Sched, s2: Sched, v: VpId)
    requires Shaped(s1) && v == s1.running && s1.vps[v].state.Running?
    requires s2 == SetVp(s1, v, s1.vps[v].(state := Ready))
    requires Core(s2, {}) && Best(s2).Some?
    ensures Shaped(s2) && SwitchAway(s1) == SwitchAway(s2)
  {
    BestSame(s1, s2, PRIORITY_HIGHEST);
    BestIsHighest(s2, {});
    var b := Best(s2).value;
    assert RemoveReady(s2, b) == RemoveReady(s1, b).(vps := s2.vps);
  }

  lemma BestSame(s: Sched, t: Sched, p: int)
    requires Shaped(s) && Shaped(t) && -1 <= p < PRIORITY_COUNT
    requires s.ready == t.ready && s.populated == t.populated
    ensures BestFrom(s, p) == BestFrom(t, p)
    decreases p + 1
  {
    if p >= 0 && !IsSet(s.populated, p) { BestSame(s, t, p - 1); }
  }

  lemma SuspendWaiting(s: Sched, v: VpId, up: Vp)
    requires Inv(s) && v in s.vps && v != s.running && s.vps[v].state.Waiting?
    requires s.vps[v].suspensionCount < SUSPENSION_MAX
    requires up == s.vps[v].(suspensionCount := s.vps[v].suspensionCount + 1)
    ensures Inv(SetVp(s, v, up))
  {
    RefitWaiting(s, v, up, {s.running});
  }

  /** A waiting VP may change its base priority and suspension count. */
  lemma RefitWaiting(s: Sched, v: VpId, vp: Vp, loose: set<VpId>)
    requires Core(s, loose) && v in s.vps && v !in loose && s.vps[v].state.Waiting?
    requires vp == s.vps[v].(suspensionCount := vp.suspensionCount, priority := vp.priority)
    requires InRange(vp.priority) && 0 <= vp.suspensionCount <= SUSPENSION_MAX
    ensures Core(SetVp(s, v, vp), loose)
  {
    hide Placed, IsSet;
    var r := SetVp(s, v, vp);
    forall q | q in r.queues ensures Ordered(r.vps, r.queues[q]) {
      assert Ordered(s.vps, s.queues[q]);
    }
    forall u | u in r.vps && u !in loose ensures Placed(r, u) {
      RefitPlaced(s, v, vp, u);
    }
  }

  lemma RefitPlaced(s: Sched, v: VpId, vp: Vp, u: VpId)
    requires Shaped(s) && v in s.vps && s.vps[v].state.Waiting? && InRange(vp.priority)
    requires vp == s.vps[v].(suspensionCount := vp.suspensionCount, priority := vp.priority)
    requires u in s.vps && Placed(s, u)
    ensures Placed(SetVp(s, v, vp), u)
  {
  }

  /** Suspending a ready VP takes it off its list; for one that is suspended already it
      only raises the count. */
  lemma SuspendReady(s: Sched, v: VpId, up: Vp)
    requires Inv(s) && v in s.vps && v != s.running && s.vps[v].state.Ready? && !s.vps[v].terminated
    requires s.vps[v].suspensionCount < SUSPENSION_MAX
    requires up == s.vps[v].(suspensionCount := s.vps[v].suspensionCount + 1)
    ensures Inv(RemoveReady(SetVp(s, v, up), v))
  {
    var pri := s.vps[v].effectivePriority;
    var s1 := SetVp(s, v, up);
    var r := RemoveReady(s, v);
    assert RemoveReady(s1, v) == SetVp(r, v, up);
    if v in s.ready[pri] {
      RemoveReadyCore(s, v, {s.running});
    } else {
      RemoveAbsent(s, v, {s.running});
      LoosenParked(s, v, {s.running});
    }
    SetLooseCore(r, v, up, {s.running} + {v});
    SettleCore(SetVp(r, v, up), v, {s.running} + {v});
    assert {s.running} + {v} - {v} == {s.running};
  }

  /** A parked VP is on no list, so it may be treated as loose. */
  lemma LoosenParked(s: Sched, v: VpId, loose: set<VpId>)
    requires Core(s, loose) && v in s.vps && v !in loose
    requires s.vps[v].state.Ready? && s.vps[v].suspensionCount > 0 && !s.vps[v].terminated
    ensures Core(s, loose + {v}) && !s.vps[v].timeoutValid
  {
  }

  lemma ResumeKeepsSafe(s: Sched, idle: VpId, v: VpId, force: bool, cooperation: bool)
    requires Safe(s, idle) && v in s.vps && !s.vps[v].terminated
    ensures Safe(Resume(s, v, force, cooperation), idle)
  {
    var vp := s.vps[v];
    if vp.suspensionCount > 0 {
      assert Placed(s, v);
      var count := if force then 0 else vp.suspensionCount - 1;
      var down := vp.(suspensionCount := count);
      var s1 := SetVp(s, v, down);
      if vp.state.Waiting? {
        RefitWaiting(s, v, down, {s.running});
      } else {
        LoosenParked(s, v, {s.running});
        SetLooseCore(s, v, down, {s.running} + {v});
        assert {s.running} + {v} - {v} == {s.running};
        if count == 0 {
          AddReadyCore(s1, v, vp.priority, {s.running} + {v});
        } else {
          SettleCore(s1, v, {s.running} + {v});
        }
      }
    }
  }

  lemma SetPriorityKeepsSafe(s: Sched, idle: VpId, v: VpId, pri: int)
    requires Safe(s, idle) && v in s.vps && !s.vps[v].terminated && InRange(pri)
    ensures Safe(SetPriority(s, v, pri), idle)
  {
    var vp := s.vps[v];
    if vp.priority != pri {
      if v == s.running {
        SetRunningInv(s, pri, pri, Allowance(pri));
      } else if vp.state.Waiting? {
        RefitWaiting(s, v, vp.(priority := pri), {s.running});
      } else {
        assert Placed(s, v);
        var loose := {s.running} + {v};
        assert loose - {v} == {s.running};
        if vp.suspensionCount == 0 {
          ReadyHasNoTimeout(s, v, {s.running});
          RemoveReadyCore(s, v, {s.running});
          var r := RemoveReady(s, v);
          SetLooseCore(r, v, vp.(priority := pri), loose);
          AddReadyCore(SetVp(r, v, vp.(priority := pri)), v, pri, loose);
        } else {
          LoosenParked(s, v, {s.running});
          SetLooseCore(s, v, vp.(priority := pri), loose);
          SettleCore(SetVp(s, v, vp.(priority := pri)), v, loose);
        }
      }
    }
  }

  lemma CreateKeepsSafe(s: Sched, idle: VpId, v: VpId, pri: int)
    requires Safe(s, idle) && v !in s.vps && InRange(pri)
    ensures Safe(SetVp(s, v, NewVp(pri)), idle)
  {
    hide Placed, IsSet;
    var r := SetVp(s, v, NewVp(pri));
    forall q | q in r.queues ensures Ordered(r.vps, r.queues[q]) {
      assert Ordered(s.vps, s.queues[q]);
    }
    forall u | u in r.vps && u != r.running ensures Placed(r, u) {
      CreatedPlaced(s, v, pri, u);
    }
  }

  lemma CreatedPlaced(s: Sched, v: VpId, pri: int, u: VpId)
    requires Shaped(s) && v !in s.vps && InRange(pri) && (u == v || (u in s.vps && Placed(s, u)))
    ensures Shaped(SetVp(s, v, NewVp(pri))) && Placed(SetVp(s, v, NewVp(pri)), u)
  {
  }

  lemma NewQueueKeepsSafe(s: Sched, idle: VpId, q: QueueId)
    requires Safe(s, idle) && q !in s.queues
    ensures Safe(s.(queues := s.queues[q := []]), idle)
  {
    var r := s.(queues := s.queues[q := []]);
    forall u | u in r.vps && u != r.running ensures Placed(r, u) {
      assert Placed(s, u);
    }
  }

  lemma DeadCore(s: Sched, v: VpId)
    requires Core(s, {v}) && v in s.vps && !s.vps[v].timeoutValid
    requires s.vps[v].terminated && s.vps[v].state.Ready?
    ensures Core(s.(finalizer := s.finalizer + [v]), {})
  {
    var r := s.(finalizer := s.finalizer + [v]);
    forall u | u in r.vps ensures Placed(r, u) {
      if u != v { assert Placed(s, u); } else { assert r.finalizer[|s.finalizer|] == v; }
    }
  }

  lemma TerminatedCore(s: Sched, t: Sched)
    requires Inv(s)
    requires t == s.(vps := s.vps[s.running := s.vps[s.running].(terminated := true, state := Ready)],
                     finalizer := s.finalizer + [s.running])
    ensures Core(t, {})
  {
    var v := s.running;
    var dead := s.vps[v].(terminated := true, state := Ready);
    SetLooseCore(s, v, dead, {v});
    DeadCore(SetVp(s, v, dead), v);
  }

  lemma TerminateKeepsSafe(s: Sched, idle: VpId, cooperation: bool)
    requires Safe(s, idle) && s.running != idle && !FinalizesNow(s)
    ensures Safe(Terminate(s, cooperation), idle)
  {
    hide BitmapOk, ReadyOk, WaitOk, TimeoutOk, FinalOk, Placed;
    var v := s.running;
    var dead := s.vps[v].(terminated := true);
    var s1 := s.(vps := s.vps[v := dead], finalizer := s.finalizer + [v]);
    var s2 := SetVp(s1, v, dead.(state := Ready));
    assert s2.vps == s.vps[v := dead.(state := Ready)];
    TerminatedCore(s, s2);
    SwitchAwaySafe(s2, idle);
    SwitchAwayParks(s1, s2, v);
  }

  lemma FinalizeKeepsSafe(s: Sched, idle: VpId)
    requires Safe(s, idle)
    ensures Safe(Finalize(s), idle)
  {
    var r := Finalize(s);
    forall q | q in r.queues ensures Ordered(r.vps, r.queues[q]) {
      assert Ordered(s.vps, s.queues[q]);
    }
    forall u | u in r.vps && u != r.running ensures Placed(r, u) {
      assert Placed(s, u);
    }
  }

  lemma StepKeepsSafe(s: Sched, idle: VpId, step: Step)
    requires Safe(s, idle) && Enabled(s, idle, step)
    ensures Safe(Apply(s, idle, step), idle)
  {
    match step
    case TickStep => TickKeepsSafe(s, idle);
    case WaitStep(q, deadline, curTime, interruptable) =>
      WaitKeepsSafe(s, idle, q, deadline, curTime, interruptable);
    case WakeStep(q, count, reason, allowSwitch, cooperation) =>
      WakeKeepsSafe(s, idle, q, count, reason, allowSwitch, cooperation);
    case SuspendStep(v) => SuspendKeepsSafe(s, idle, v);
    case ResumeStep(v, force, cooperation) => ResumeKeepsSafe(s, idle, v, force, cooperation);
    case SetPriorityStep(v, pri) => SetPriorityKeepsSafe(s, idle, v, pri);
    case CreateStep(v, pri) => CreateKeepsSafe(s, idle, v, pri);
    case NewQueueStep(q) => NewQueueKeepsSafe(s, idle, q);
    case TerminateStep(cooperation) => TerminateKeepsSafe(s, idle, cooperation);
    case FinalizeStep => FinalizeKeepsSafe(s, idle);
  }
}
