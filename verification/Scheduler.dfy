/** The scheduler as the object the kernel keeps: ready lists and population bytes are
    fixed arrays, the timeout queue, the wait queues and the VP records change in place.
    Each method is proved to compute the operation of the transition system. */
module Scheduler {
  import opened Sequences
  import opened PriorityBitmap
  import opened MonotonicClocks
  import opened SchedulerState
  import opened SchedulerInvariant
  import opened SchedulerSteps
  import opened SchedulerRuns

  lemma UnsetBitSkips(s: Sched, p: nat)
    requires Shaped(s) && p < PRIORITY_COUNT && !IsSet(s.populated, p)
    ensures BestFrom(s, p) == BestFrom(s, p - 1)
  {
  }

  lemma ZeroByteSkips(s: Sched, i: nat)
    requires Shaped(s) && i < POP_BYTE_COUNT && s.populated[i] == 0
    ensures BestFrom(s, 8 * i + 7) == BestFrom(s, 8 * i - 1)
  {
    UnsetBitsSkip(s, i, 7);
  }

  lemma BitOfByte(i: nat, b: nat)
    requires b < 8
    ensures (8 * i + b) / 8 == i && (8 * i + b) % 8 == b
  {
  }

  lemma UnsetBitsSkip(s: Sched, i: nat, b: nat)
    requires Shaped(s) && i < POP_BYTE_COUNT && b < 8
    requires forall k: nat | k <= b :: s.populated[i] & Mask(k) == 0
    ensures BestFrom(s, 8 * i + b) == BestFrom(s, 8 * i - 1)
  {
    BitOfByte(i, b);
    UnsetBitSkips(s, 8 * i + b);
    if b > 0 { UnsetBitsSkip(s, i, b - 1); }
  }

  /** Bit `b` is the highest set bit of byte `i`. */
  lemma HighestBitWins(s: Sched, i: nat, b: nat, top: nat)
    requires Shaped(s) && i < POP_BYTE_COUNT && b <= top < 8
    requires s.populated[i] & Mask(b) != 0
    requires forall k: nat | b < k <= top :: s.populated[i] & Mask(k) == 0
    ensures BestFrom(s, 8 * i + top) == Head(s.ready[8 * i + b])
    decreases top
  {
    hide Mask;
    BitOfByte(i, top);
    if b < top {
      UnsetBitSkips(s, 8 * i + top);
      HighestBitWins(s, i, b, top - 1);
    }
  }

  /** The tests of the eight bits of a population byte, from the top. */
  function TopBit(popByte: bv8): (b: nat)
    requires popByte != 0
    ensures b < 8
  {
    if popByte & 0x80 != 0 then 7
    else if popByte & 0x40 != 0 then 6
    else if popByte & 0x20 != 0 then 5
    else if popByte & 0x10 != 0 then 4
    else if popByte & 0x08 != 0 then 3
    else if popByte & 0x04 != 0 then 2
    else if popByte & 0x02 != 0 then 1
    else 0
  }

  lemma TopBitIsHighest(x: bv8, k: nat)
    requires x != 0 && k < 8
    ensures k == TopBit(x) ==> x & Mask(k) != 0
    ensures k > TopBit(x) ==> x & Mask(k) == 0
  {
  }

  class VirtualProcessorScheduler {
    var vps: map<VpId, Vp>
    var running: VpId
    const ready: array<seq<VpId>>
    const populated: array<bv8>
    var timeouts: seq<VpId>
    var queues: map<QueueId, seq<VpId>>
    var finalizer: seq<VpId>
    var now: int
    const quantumsPerQuarter: int
    const nsPerQuantum: int
    const boot: VpId

    ghost function State(): Sched
      reads this, ready, populated
    {
      Sched(vps, running, ready[..], populated[..], timeouts, queues, finalizer, now,
            quantumsPerQuarter, nsPerQuantum, boot)
    }

    /** Shaped(State()) without slices of the arrays. */
    ghost predicate Formed()
      reads this, ready, populated
    {
      Shaped(State())
    }

    /** Starts in any state that keeps the invariant, such as the one after booting. */
    constructor (s: Sched)
      requires Shaped(s)
      ensures State() == s && Formed()
    {
      vps, running, timeouts, queues := s.vps, s.running, s.timeouts, s.queues;
      finalizer, now := s.finalizer, s.now;
      quantumsPerQuarter, nsPerQuantum, boot := s.quantumsPerQuarter, s.nsPerQuantum, s.boot;
      ready := new seq<VpId>[|s.ready|](i requires 0 <= i < |s.ready| => s.ready[i]);
      populated := new bv8[|s.populated|](i requires 0 <= i < |s.populated| => s.populated[i]);
      new;
      assert ready[..] == s.ready;
      assert populated[..] == s.populated;
    }

    method AddVirtualProcessorLocked(v: VpId, effectivePriority: int)
      requires Formed() && v in vps && InRange(effectivePriority)
      modifies this, ready, populated
      ensures Formed() && State() == AddReady(old(State()), v, effectivePriority)
    {
      vps := vps[v := vps[v].(state := Ready, effectivePriority := effectivePriority,
                              quantumAllowance := Allowance(effectivePriority), waitStart := now)];
      ready[effectivePriority] := ready[effectivePriority] + [v];
      var popByteIdx := effectivePriority / 8;
      var popBitIdx := effectivePriority - popByteIdx * 8;
      populated[popByteIdx] := populated[popByteIdx] | Mask(popBitIdx);
    }

    method RemoveVirtualProcessorLocked(v: VpId)
      requires Formed() && v in vps
      modifies ready, populated
      ensures Formed() && State() == RemoveReady(old(State()), v)
    {
      var pri := vps[v].effectivePriority;
      ready[pri] := Without(ready[pri], v);
      if ready[pri] == [] {
        var popByteIdx := pri / 8;
        var popBitIdx := pri - popByteIdx * 8;
        populated[popByteIdx] := populated[popByteIdx] & !Mask(popBitIdx);
      }
    }

    method GetHighestPriorityReady() returns (r: Option<VpId>)
      requires Formed()
      ensures r == Best(State())
    {
      ghost var s := State();
      var popByteIdx := POP_BYTE_COUNT - 1;
      while popByteIdx >= 0
        invariant -1 <= popByteIdx < POP_BYTE_COUNT
        invariant Best(s) == BestFrom(s, 8 * popByteIdx + 7)
      {
        var popByte := populated[popByteIdx];
        if popByte != 0 {
          var bit := TopBit(popByte);
          forall k: nat | k < 8
            ensures k == bit ==> popByte & Mask(k) != 0
            ensures k > bit ==> popByte & Mask(k) == 0
          {
            TopBitIsHighest(popByte, k);
          }
          HighestBitWins(s, popByteIdx, bit, 7);
          return Head(ready[8 * popByteIdx + bit]);
        }
        ZeroByteSkips(s, popByteIdx);
        popByteIdx := popByteIdx - 1;
      }
      return None;
    }

    /** The context switcher. */
    method SwitchContext(scheduled: VpId)
      requires Formed() && scheduled in vps
      modifies this
      ensures Formed() && State() == SchedulerState.SwitchContext(old(State()), scheduled)
    {
      if vps[running].state.Running? {
        vps := vps[running := vps[running].(state := Ready)];
      }
      running := scheduled;
      vps := vps[scheduled := vps[scheduled].(state := Running)];
    }

    method SwitchTo(v: VpId)
      requires Formed() && v in vps
      modifies this, ready, populated
      ensures Formed() && State() == SchedulerState.SwitchTo(old(State()), v)
    {
      RemoveVirtualProcessorLocked(v);
      SwitchContext(v);
    }

    method MaybeSwitchTo(v: VpId, cooperationEnabled: bool)
      requires Formed() && v in vps
      modifies this, ready, populated
      ensures Formed() && State() == SchedulerState.MaybeSwitchTo(old(State()), v, cooperationEnabled)
    {
      if vps[v].state.Ready? && vps[v].suspensionCount == 0 && cooperationEnabled {
        var best := GetHighestPriorityReady();
        if best == Some(v) && vps[v].effectivePriority >= vps[running].effectivePriority {
          AddVirtualProcessorLocked(running, vps[running].priority);
          SwitchTo(v);
        }
      }
    }

    /** Switches to whoever is the best choice, as every blocking operation does. */
    method SwitchAway()
      requires Formed() && Best(State()).Some? && Best(State()).value in vps
      modifies this, ready, populated
      ensures Formed() && State() == SchedulerState.SwitchAway(old(State()))
    {
      var best := GetHighestPriorityReady();
      SwitchTo(best.value);
    }

    method ArmTimeout(v: VpId, deadline: TimeInterval)
      requires Formed() && v in vps && Known(vps, timeouts)
      modifies this
      ensures Formed() && State() == SchedulerState.ArmTimeout(old(State()), v, deadline)
    {
      var quantum := ToQuantums(nsPerQuantum, deadline, AwayFromZero);
      var i := 0;
      while i < |timeouts| && vps[timeouts[i]].timeoutDeadline <= quantum
        invariant 0 <= i <= |timeouts|
        invariant forall k | 0 <= k < i :: vps[timeouts[k]].timeoutDeadline <= quantum
      {
        i := i + 1;
      }
      timeouts := InsertAt(timeouts, i, v);
      vps := vps[v := vps[v].(timeoutDeadline := quantum, timeoutValid := true)];
    }

    method CancelTimeout(v: VpId)
      requires Formed() && v in vps
      modifies this
      ensures Formed() && State() == SchedulerState.CancelTimeout(old(State()), v)
    {
      if vps[v].timeoutValid {
        timeouts := Without(timeouts, v);
        vps := vps[v := vps[v].(timeoutDeadline := INT32_MAX, timeoutValid := false)];
      }
    }

    /** The part of WaitOn that puts the running VP on the wait queue. */
    method Enqueue(q: QueueId, interruptable: bool)
      requires Formed() && q in queues && Known(vps, queues[q])
      modifies this
      ensures Formed() && State() == SchedulerState.Enqueue(old(State()), q, interruptable)
    {
      var vp := vps[running];
      var waiters := queues[q];
      var i := 0;
      while i < |waiters| && vps[waiters[i]].effectivePriority >= vp.effectivePriority
        invariant 0 <= i <= |waiters|
        invariant forall k | 0 <= k < i :: vps[waiters[k]].effectivePriority >= vp.effectivePriority
      {
        i := i + 1;
      }
      queues := queues[q := InsertAt(waiters, i, running)];
      vps := vps[running := vp.(state := Waiting, waitingOn := Some(q), waitStart := now,
                                wakeReason := NoReason, interruptable := interruptable)];
    }

    /** WaitOn up to the return from the context switch; `blocked` is false when the
        deadline had passed already. */
    /** `aborted` says that a call-as-user of the running VP is being aborted: EINTR. */
    method WaitOn(q: QueueId, deadline: Option<TimeInterval>, curTime: int, interruptable: bool,
                  aborted: bool, ghost idle: VpId) returns (blocked: bool)
      requires Formed() && Safe(State(), idle) && q in queues && running != idle
      modifies this, ready, populated
      ensures Formed() && Safe(State(), idle)
      ensures var r := SchedulerState.WaitOn(old(State()), q, deadline, curTime, interruptable);
              && blocked == (!aborted && r.Blocked?)
              && State() == if blocked then r.next else old(State())
    {
      hide BitmapOk, ReadyOk, FinalOk, Placed, SchedulerState.SwitchAway;
      ghost var s := State();
      WaitKeepsSafe(s, idle, q, deadline, curTime, interruptable);
      if aborted { return false; }
      if deadline.Some? {
        if Nanos(deadline.value) <= curTime { return false; }
        ArmTimeoutCore(s, running, deadline.value, {running});
        ArmTimeout(running, deadline.value);
      }
      ghost var armed := State();
      EnqueueFindsSuccessor(armed, idle, q, interruptable);
      Enqueue(q, interruptable);
      SwitchAway();
      return true;
    }

    method Detach(q: QueueId, v: VpId, reason: WakeReason)
      requires Formed() && v in vps && q in queues
      modifies this
      ensures Formed() && State() == SchedulerState.Detach(old(State()), q, v, reason)
    {
      queues := queues[q := Without(queues[q], v)];
      CancelTimeout(v);
      vps := vps[v := vps[v].(waitingOn := None, wakeReason := reason, interruptable := false)];
    }

    method WakeUpOne(q: QueueId, v: VpId, reason: WakeReason, allowContextSwitch: bool,
                     cooperationEnabled: bool)
      requires Formed() && v in vps && q in queues && vps[v].waitStart <= now
      modifies this, ready, populated
      ensures Formed()
      ensures State() == SchedulerState.WakeUpOne(old(State()), q, v, reason, allowContextSwitch,
                                                  cooperationEnabled)
    {
      hide SchedulerState.AddReady, SchedulerState.MaybeSwitchTo;
      if !vps[v].state.Waiting? { return; }
      if reason.Interrupted? && !vps[v].interruptable { return; }
      ghost var s := State();
      var vp := vps[v];
      Detach(q, v, reason);
      if vp.suspensionCount == 0 {
        assert Boosted(State(), v) == Boosted(s, v);
        AddBoosted(v);
        if allowContextSwitch {
          MaybeSwitchTo(v, cooperationEnabled);
        }
      } else {
        vps := vps[v := vps[v].(state := Ready)];
      }
    }

    /** A VP that has waited becomes ready, with a priority boosted by the time it slept. */
    method AddBoosted(v: VpId)
      requires Formed() && v in vps && vps[v].waitStart <= now
      modifies this, ready, populated
      ensures Formed() && State() == AddReady(old(State()), v, Boosted(old(State()), v))
    {
      var vp := vps[v];
      var quartersSlept := (now - vp.waitStart) / quantumsPerQuarter;
      var boosted := Min(vp.effectivePriority + Min(quartersSlept, PRIORITY_HIGHEST), PRIORITY_HIGHEST);
      assert boosted == Boosted(State(), v);
      AddVirtualProcessorLocked(v, boosted);
    }

    /** One round of the first pass of WakeUpSome. */
    method WakeNext(q: QueueId, ghost rest: seq<VpId>, v: VpId, reason: WakeReason, found: Option<VpId>)
      returns (candidate: Option<VpId>)
      requires Formed() && Inv(State()) && OnQueue(State(), q, rest) && rest != [] && v == rest[0]
      requires found.Some? ==> found.value in vps
      modifies this, ready, populated
      ensures Formed() && Inv(State()) && OnQueue(State(), q, rest[1..])
      ensures candidate.Some? ==> candidate.value in vps
      ensures WakeEach(State(), q, rest[1..], reason, candidate) == WakeEach(old(State()), q, rest, reason, found)
    {
      WakeEachStep(State(), q, rest, reason);
      WakeUpOne(q, v, reason, false, false);
      candidate := found;
      if candidate.None? && vps[v].state.Ready? && vps[v].suspensionCount == 0 {
        candidate := Some(v);
      }
    }

    /** The first pass of WakeUpSome over the first `count` waiters. */
    method WakePass(q: QueueId, waiters: seq<VpId>, count: int, reason: WakeReason)
      returns (candidate: Option<VpId>)
      requires Formed() && Inv(State()) && OnQueue(State(), q, waiters) && count <= |waiters|
      modifies this, ready, populated
      ensures Formed() && Inv(State())
      ensures (State(), candidate) == WakeEach(old(State()), q, waiters[..Max(0, count)], reason, None)
    {
      hide BitmapOk, ReadyOk, WaitOk, TimeoutOk, FinalOk, Placed;
      ghost var n := Max(0, count);
      ghost var rest := waiters[..n];
      ghost var goal := WakeEach(State(), q, rest, reason, None);
      candidate := None;
      var i := 0;
      while i < |waiters| && i < count
        invariant 0 <= i <= n && rest == waiters[i..n]
        invariant Formed() && Inv(State()) && OnQueue(State(), q, rest)
        invariant candidate.Some? ==> candidate.value in vps
        invariant WakeEach(State(), q, rest, reason, candidate) == goal
      {
        candidate := WakeNext(q, rest, waiters[i], reason, candidate);
        rest := rest[1..];
        i := i + 1;
      }
      assert rest == [];
    }

    method WakeUpSome(q: QueueId, count: int, reason: WakeReason, allowContextSwitch: bool,
                      cooperationEnabled: bool)
      requires Formed() && Inv(State()) && q in queues
      modifies this, ready, populated
      ensures Formed() && Inv(State())
      ensures State() == SchedulerRuns.WakeUpSome(old(State()), q, count, reason, allowContextSwitch,
                                                  cooperationEnabled)
    {
      var waiters := queues[q];
      PrefixOnQueue(State(), q, |waiters|);
      assert waiters[..|waiters|] == waiters;
      var candidate := WakePass(q, waiters, Min(count, |waiters|), reason);
      MaybeInv(State(), candidate, cooperationEnabled);
      if allowContextSwitch && candidate.Some? {
        MaybeSwitchTo(candidate.value, cooperationEnabled);
      }
    }

    /** The quantum interrupt: the clock's handler runs first, then the scheduler's. */
    method OnEndOfQuantum()
      requires Formed() && Inv(State())
      modifies this, ready, populated
      ensures Formed() && Inv(State()) && State() == Tick(old(State()))
    {
      hide BitmapOk, ReadyOk, WaitOk, FinalOk, Placed, EndSlice;
      ghost var s := Advance(State());
      now := now + 1;
      while timeouts != []
        invariant Formed() && Inv(State()) && Expire(State()) == Expire(s)
        decreases |timeouts|
      {
        var v := timeouts[0];
        ghost var t := State();
        TimeoutOwner(t, v);
        if vps[v].timeoutDeadline > now { break; }
        var q := vps[v].waitingOn.value;
        WakeUpOneInv(t, q, v, TimedOut);
        WakeUpOneFrame(t, q, v, TimedOut);
        WithoutMembers(timeouts, v);
        WakeUpOne(q, v, TimedOut, false, false);
      }
      EndSliceInv(State());
      ChargeQuantum();
    }

    method ChargeQuantum()
      requires Formed() && Inv(State())
      modifies this, ready, populated
      ensures Formed() && State() == EndSlice(old(State()))
    {
      ghost var s := State();
      var vp := vps[running];
      if vp.quantumAllowance - 1 > 0 {
        vps := vps[running := vp.(quantumAllowance := vp.quantumAllowance - 1)];
        return;
      }
      var lower := Max(vp.effectivePriority - 1, PRIORITY_LOWEST);
      SetRunningInv(s, vp.priority, lower, Allowance(lower));
      vps := vps[running := vp.(effectivePriority := lower, quantumAllowance := Allowance(lower))];
      var best := GetHighestPriorityReady();
      BestIsHighest(State(), {running});
      if best.None? || vps[best.value].effectivePriority <= lower { return; }
      RemoveVirtualProcessorLocked(best.value);
      AddVirtualProcessorLocked(running, vp.priority);
      SwitchContext(best.value);
    }

    method Suspend(v: VpId, ghost idle: VpId) returns (ok: bool)
      requires Formed() && Safe(State(), idle) && v in vps && !vps[v].terminated && v != idle
      modifies this, ready, populated
      ensures Formed() && Safe(State(), idle)
      ensures State() == SchedulerRuns.Suspend(old(State()), v)
      ensures ok == (old(vps[v].suspensionCount) < SUSPENSION_MAX)
    {
      hide Safe, SchedulerState.SwitchAway, SchedulerState.RemoveReady;
      ghost var s := State();
      CountInRange(s, idle, v);
      if vps[v].suspensionCount == SUSPENSION_MAX { return false; }
      vps := vps[v := vps[v].(suspensionCount := vps[v].suspensionCount + 1)];
      match vps[v].state {
        case Ready =>
          RemoveVirtualProcessorLocked(v);
        case Running =>
          OnlyRunner(s, idle, v);
          RunningSuspendFindsSuccessor(s, State(), idle, v);
          SwitchAway();
        case Waiting =>
      }
      SuspendKeepsSafe(s, idle, v);
      return true;
    }

    method Resume(v: VpId, force: bool, cooperationEnabled: bool)
      requires Formed() && v in vps
      modifies this, ready, populated
      ensures Formed()
      ensures State() == SchedulerRuns.Resume(old(State()), v, force, cooperationEnabled)
    {
      hide SchedulerState.MaybeSwitchTo;
      if vps[v].suspensionCount > 0 {
        vps := vps[v := vps[v].(suspensionCount := if force then 0 else vps[v].suspensionCount - 1)];
        if vps[v].suspensionCount == 0 {
          match vps[v].state {
            case Ready => AddVirtualProcessorLocked(v, vps[v].priority);
            case Running =>
              AddVirtualProcessorLocked(v, vps[v].priority);
              MaybeSwitchTo(v, cooperationEnabled);
            case Waiting =>
          }
        }
      }
    }

    method SetPriority(v: VpId, pri: int)
      requires Formed() && v in vps && InRange(pri)
      modifies this, ready, populated
      ensures Formed() && State() == SchedulerRuns.SetPriority(old(State()), v, pri)
    {
      if vps[v].priority != pri {
        match vps[v].state {
          case Ready =>
            if vps[v].suspensionCount == 0 { RemoveVirtualProcessorLocked(v); }
            vps := vps[v := vps[v].(priority := pri)];
            if vps[v].suspensionCount == 0 { AddVirtualProcessorLocked(v, pri); }
          case Waiting =>
            vps := vps[v := vps[v].(priority := pri)];
          case Running =>
            vps := vps[v := vps[v].(priority := pri, effectivePriority := pri,
                                    quantumAllowance := Allowance(pri))];
        }
      }
    }

    /** Ends the running VP; what it does while the scheduler's own VP sleeps beside a long
        finalizer queue is the subject of SchedulerExits. */
    method Terminate(cooperationEnabled: bool, ghost idle: VpId)
      requires Formed() && Safe(State(), idle) && running != idle
      modifies this, ready, populated
      ensures Formed() && State() == SchedulerRuns.Terminate(old(State()), cooperationEnabled)
      ensures !FinalizesNow(old(State())) ==> Safe(State(), idle)
    {
      hide BitmapOk, ReadyOk, WaitOk, TimeoutOk, FinalOk, Placed, SchedulerState.SwitchAway,
        SchedulerState.WakeUpOne;
      ghost var s := State();
      if !FinalizesNow(s) { TerminateKeepsSafe(s, idle, cooperationEnabled); }
      vps := vps[running := vps[running].(terminated := true)];
      finalizer := finalizer + [running];
      var deadVpsCount := 0;
      while deadVpsCount < |finalizer| && deadVpsCount < FINALIZE_NOW_THRESHOLD
        invariant 0 <= deadVpsCount <= |finalizer| && deadVpsCount <= FINALIZE_NOW_THRESHOLD
      {
        deadVpsCount := deadVpsCount + 1;
      }
      if deadVpsCount >= FINALIZE_NOW_THRESHOLD && boot in vps && SCHEDULER_WAIT_QUEUE in queues
         && queues[SCHEDULER_WAIT_QUEUE] != [] {
        WakeUpOne(SCHEDULER_WAIT_QUEUE, boot, Interrupted, true, cooperationEnabled);
      } else {
        ExitFindsSuccessor(s, State(), idle);
        SwitchAway();
      }
    }
  }

  lemma EnqueueFindsSuccessor(s: Sched, idle: VpId, q: QueueId, interruptable: bool)
    requires Core(s, {s.running}) && IdleOk(s, idle) && s.now >= 0
    requires !s.vps[s.running].terminated && q in s.queues && s.running != idle
    ensures var t := SchedulerState.Enqueue(s, q, interruptable);
            Best(t).Some? && Best(t).value in t.vps
  {
    EnqueueCore(s, q, interruptable, {s.running});
    var t := SchedulerState.Enqueue(s, q, interruptable);
    BlockingFindsSuccessor(t, {s.running} - {s.running}, idle);
    BestIsHighest(t, {s.running} - {s.running});
  }

  lemma MaybeInv(s: Sched, candidate: Option<VpId>, cooperation: bool)
    requires Inv(s) && (candidate.Some? ==> candidate.value in s.vps)
    ensures candidate.Some? ==> Inv(SchedulerState.MaybeSwitchTo(s, candidate.value, cooperation))
  {
    if candidate.Some? { MaybeSwitchToInv(s, candidate.value, cooperation); }
  }

  lemma OnlyRunner(s: Sched, idle: VpId, v: VpId)
    requires Safe(s, idle) && v in s.vps && s.vps[v].state.Running?
    ensures v == s.running
  {
    NotPlaced(s, v);
  }

  /** A running VP is on no list. */
  lemma NotPlaced(s: Sched, v: VpId)
    requires Shaped(s) && v in s.vps && s.vps[v].state.Running?
    ensures !Placed(s, v)
  {
  }

  lemma CountInRange(s: Sched, idle: VpId, v: VpId)
    requires Safe(s, idle) && v in s.vps
    ensures s.vps[v].suspensionCount <= SUSPENSION_MAX
  {
  }

  lemma RunningSuspendFindsSuccessor(s: Sched, t: Sched, idle: VpId, v: VpId)
    requires Safe(s, idle) && v == s.running && v != idle
    requires t == SetVp(s, v, s.vps[v].(suspensionCount := s.vps[v].suspensionCount + 1))
    ensures Shaped(t) && Best(t).Some? && Best(t).value in t.vps
  {
    BlockingFindsSuccessor(s, {v}, idle);
    BestIsHighest(s, {v});
    BestSame(s, t, PRIORITY_HIGHEST);
  }

  lemma ExitFindsSuccessor(s: Sched, t: Sched, idle: VpId)
    requires Safe(s, idle) && s.running != idle && Shaped(t)
    requires t.ready == s.ready && t.populated == s.populated && t.vps.Keys == s.vps.Keys
    ensures Best(t).Some? && Best(t).value in t.vps
  {
    BlockingFindsSuccessor(s, {s.running}, idle);
    BestIsHighest(s, {s.running});
    BestSame(s, t, PRIORITY_HIGHEST);
  }
}
