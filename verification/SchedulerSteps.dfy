/** The scheduler as a transition system: the compound operations, the steps a run is
    made of, and the proof that every step keeps the invariant. */
module SchedulerSteps {
  import opened Sequences
  import opened PriorityBitmap
  import opened MonotonicClocks
  import opened SchedulerState
  import opened SchedulerInvariant

  // ---- The bitmap scan ----------------------------------------------------------

  lemma BestFromScans(s: Sched, p: int, loose: set<VpId>)
    requires Core(s, loose) && -1 <= p < PRIORITY_COUNT
    ensures match BestFrom(s, p)
            case None => forall k: nat | k <= p :: s.ready[k] == []
            case Some(v) =>
              && v in s.vps
              && var e := s.vps[v].effectivePriority;
                 && 0 <= e <= p && s.ready[e] != [] && s.ready[e][0] == v
                 && forall k: nat | e < k <= p :: s.ready[k] == []
    decreases p + 1
  {
    if p >= 0 {
      if IsSet(s.populated, p) {
        assert s.ready[p] != [];
        assert s.ready[p][0] in s.ready[p];
      } else {
        BestFromScans(s, p - 1, loose);
      }
    }
  }

  /** The bitmap scan returns the head of the highest non-empty ready list, and nothing
      only when every list is empty. */
  lemma BestIsHighest(s: Sched, loose: set<VpId>)
    requires Core(s, loose)
    ensures match Best(s)
            case None => forall k: nat | k < PRIORITY_COUNT :: s.ready[k] == []
            case Some(v) =>
              && v in s.vps && v !in loose && ReadyVp(s.vps[v], s.vps[v].effectivePriority)
              && var e := s.vps[v].effectivePriority;
                 && s.ready[e] != [] && s.ready[e][0] == v && v in s.ready[e]
                 && forall k: nat | e < k < PRIORITY_COUNT :: s.ready[k] == []
  {
    BestFromScans(s, PRIORITY_HIGHEST, loose);
    match Best(s) {
      case None =>
      case Some(v) => assert s.ready[s.vps[v].effectivePriority][0] in s.ready[s.vps[v].effectivePriority];
    }
  }

  /** No ready VP has a higher effective priority than the one the scan returns. */
  lemma BestBeatsReady(s: Sched, u: VpId, loose: set<VpId>)
    requires Core(s, loose) && u in s.vps
    requires 0 <= s.vps[u].effectivePriority < PRIORITY_COUNT && u in s.ready[s.vps[u].effectivePriority]
    ensures Best(s).Some? && Best(s).value in s.vps
    ensures s.vps[Best(s).value].effectivePriority >= s.vps[u].effectivePriority
  {
    BestIsHighest(s, loose);
  }

  // ---- Switching ----------------------------------------------------------------

  /** The incoming half of the context switch. */
  lemma IncomingInv(s: Sched, v: VpId)
    requires Core(s, {v}) && v in s.vps && !s.vps[s.running].state.Running?
    requires Executable(s.vps[v])
    ensures Inv(SwitchContext(s, v))
  {
    var vp := s.vps[v].(state := Running);
    SetLooseCore(s, v, vp, {v});
    var r := SetVp(s, v, vp);
    var t := SwitchContext(s, v);
    assert t == r.(running := v);
    forall u | u in t.vps && u !in {v} ensures Placed(t, u) {
      assert Placed(r, u);
    }
  }

  /** Switching to a ready VP once the running one has been put somewhere. */
  lemma SwitchToInv(s: Sched, v: VpId)
    requires Core(s, {}) && v in s.vps && v in s.ready[s.vps[v].effectivePriority]
    requires !s.vps[s.running].state.Running?
    ensures Inv(SwitchTo(s, v)) && SwitchTo(s, v).running == v
    ensures SwitchTo(s, v).vps == s.vps[v := s.vps[v].(state := Running)]
  {
    ReadyHasNoTimeout(s, v, {});
    RemoveReadyCore(s, v, {});
    assert {} + {v} == {v};
    IncomingInv(RemoveReady(s, v), v);
  }

  lemma ReadyHasNoTimeout(s: Sched, v: VpId, loose: set<VpId>)
    requires Core(s, loose) && v in s.vps && v !in loose && s.vps[v].state.Ready?
    ensures !s.vps[v].timeoutValid
  {
  }

  lemma SwitchAwayInv(s: Sched)
    requires Core(s, {}) && !s.vps[s.running].state.Running? && Best(s).Some?
    ensures Best(s).value in s.vps && SwitchAway(s) == SwitchTo(s, Best(s).value)
    ensures Inv(SwitchAway(s)) && SwitchAway(s).running == Best(s).value
    ensures SwitchAway(s).vps == s.vps[Best(s).value := s.vps[Best(s).value].(state := Running)]
  {
    BestIsHighest(s, {});
    SwitchToInv(s, Best(s).value);
  }

  /** The running VP is preempted: it goes to the end of the list of its base priority. */
  lemma PreemptInv(s: Sched, v: VpId)
    requires Inv(s) && v in s.vps && v in s.ready[s.vps[v].effectivePriority]
    ensures var t := AddReady(s, s.running, s.vps[s.running].priority);
            && Core(t, {}) && t.vps[v] == s.vps[v]
            && v in t.ready[t.vps[v].effectivePriority] && t.vps[s.running].state.Ready?
  {
    AddReadyCore(s, s.running, s.vps[s.running].priority, {s.running});
    assert {s.running} - {s.running} == {};
    assert v in s.ready[s.vps[v].effectivePriority];
  }

  lemma MaybeSwitchToInv(s: Sched, v: VpId, cooperation: bool)
    requires Inv(s) && v in s.vps
    ensures Inv(MaybeSwitchTo(s, v, cooperation))
    ensures MaybeSwitchTo(s, v, cooperation) == s || MaybeSwitchTo(s, v, cooperation).running == v
  {
    if MaybeSwitchTo(s, v, cooperation) != s {
      BestIsHighest(s, {s.running});
      PreemptInv(s, v);
      SwitchToInv(AddReady(s, s.running, s.vps[s.running].priority), v);
    }
  }

  // ---- Waking -------------------------------------------------------------------

  lemma WakeUpOneCore(s: Sched, q: QueueId, v: VpId, reason: WakeReason, loose: set<VpId>)
    requires Core(s, loose) && q in s.queues && v in s.queues[q]
    ensures Core(WakeUpOne(s, q, v, reason, false, false), loose)
  {
    if !WakeIgnored(s.vps[v], reason) {
      DetachCore(s, q, v, reason, loose);
      var s1 := Detach(s, q, v, reason);
      assert loose + {v} - {v} == loose;
      assert Placed(s, v);
      if s.vps[v].suspensionCount == 0 {
        AddReadyCore(s1, v, Boosted(s, v), loose + {v});
      } else {
        SetLooseCore(s1, v, s1.vps[v].(state := Ready), loose + {v});
        SettleCore(SetVp(s1, v, s1.vps[v].(state := Ready)), v, loose + {v});
      }
    }
  }

  lemma DetachFrame(s: Sched, q: QueueId, v: VpId, reason: WakeReason)
    requires Shaped(s) && q in s.queues && v in s.vps
    ensures var vp := s.vps[v];
            var deadline := if vp.timeoutValid then INT32_MAX else vp.timeoutDeadline;
            Detach(s, q, v, reason) ==
            s.(vps := s.vps[v := vp.(timeoutValid := false, timeoutDeadline := deadline, waitingOn := None,
                                     wakeReason := reason, interruptable := false)],
               queues := s.queues[q := Without(s.queues[q], v)],
               timeouts := if vp.timeoutValid then Without(s.timeouts, v) else s.timeouts)
  {
  }

  lemma WakeUpOneTaken(s: Sched, q: QueueId, v: VpId, reason: WakeReason)
    requires Shaped(s) && q in s.queues && v in s.vps && s.vps[v].waitStart <= s.now
    requires !WakeIgnored(s.vps[v], reason)
    ensures var t := WakeUpOne(s, q, v, reason, false, false);
            && t == s.(vps := t.vps, ready := t.ready, populated := t.populated, queues := t.queues,
                       timeouts := t.timeouts)
            && v in t.vps && t.vps == s.vps[v := t.vps[v]]
            && t.queues == s.queues[q := Without(s.queues[q], v)]
            && t.timeouts == (if s.vps[v].timeoutValid then Without(s.timeouts, v) else s.timeouts)
            && Woken(s, v, t.vps[v], reason)
  {
    DetachFrame(s, q, v, reason);
  }

  /** What one wake-up without a context switch changes. */
  lemma WakeUpOneFrame(s: Sched, q: QueueId, v: VpId, reason: WakeReason)
    requires Shaped(s) && q in s.queues && v in s.vps && s.vps[v].waitStart <= s.now
    ensures var t := WakeUpOne(s, q, v, reason, false, false);
            && t.running == s.running && t.now == s.now
            && t.quantumsPerQuarter == s.quantumsPerQuarter && t.nsPerQuantum == s.nsPerQuantum
            && t.finalizer == s.finalizer
            && v in t.vps && t.vps == s.vps[v := t.vps[v]]
            && (WakeIgnored(s.vps[v], reason) ==> t == s)
            && (!WakeIgnored(s.vps[v], reason) ==>
                 && t.queues == s.queues[q := Without(s.queues[q], v)]
                 && t.timeouts == (if s.vps[v].timeoutValid then Without(s.timeouts, v) else s.timeouts)
                 && Woken(s, v, t.vps[v], reason))
  {
    if WakeIgnored(s.vps[v], reason) {
      assert WakeUpOne(s, q, v, reason, false, false) == s;
    } else {
      WakeUpOneTaken(s, q, v, reason);
    }
  }

  /** The fields of a VP that a wake-up has taken off its wait queue. */
  ghost predicate Woken(s: Sched, v: VpId, vp: Vp, reason: WakeReason)
    requires Shaped(s) && v in s.vps && s.vps[v].waitStart <= s.now
  {
    && vp.state.Ready? && vp.wakeReason == reason && !vp.timeoutValid && vp.waitingOn.None?
    && vp.suspensionCount == s.vps[v].suspensionCount
    && vp.priority == s.vps[v].priority && vp.terminated == s.vps[v].terminated
    && vp.effectivePriority ==
       if vp.suspensionCount == 0 then Boosted(s, v) else s.vps[v].effectivePriority
  }

  lemma WakeUpOneInv(s: Sched, q: QueueId, v: VpId, reason: WakeReason)
    requires Inv(s) && q in s.queues && v in s.queues[q]
    ensures Inv(WakeUpOne(s, q, v, reason, false, false))
  {
    WakeUpOneCore(s, q, v, reason, {s.running});
    WakeUpOneFrame(s, q, v, reason);
  }

  /** The queue of a VP that has an armed timeout. */
  lemma TimeoutOwner(s: Sched, v: VpId)
    requires Inv(s) && v in s.timeouts
    ensures v in s.vps && v != s.running && s.vps[v].state.Waiting? && s.vps[v].timeoutValid
    ensures s.vps[v].waitingOn.Some? && s.vps[v].waitingOn.value in s.queues
    ensures v in s.queues[s.vps[v].waitingOn.value]
  {
    assert Placed(s, v);
  }

  /** OnEndOfQuantum, first part: wake every VP whose timeout has expired. */
  function Expire(s: Sched): (r: Sched)
    requires Inv(s)
    ensures Inv(r) && r.running == s.running && Kin(s, r)
    decreases |s.timeouts|
  {
    if s.timeouts == [] then s
    else
      var v := s.timeouts[0];
      TimeoutOwner(s, v);
      if s.vps[v].timeoutDeadline > s.now then s
      else
        var q := s.vps[v].waitingOn.value;
        WakeUpOneInv(s, q, v, TimedOut);
        WakeUpOneFrame(s, q, v, TimedOut);
        WithoutMembers(s.timeouts, v);
        Expire(WakeUpOne(s, q, v, TimedOut, false, false))
  }

  // ---- End of quantum -----------------------------------------------------------

  /** OnEndOfQuantum, second part: account for the quantum the running VP has used. */
  function EndSlice(s: Sched): (r: Sched)
    requires Shaped(s)
    ensures Shaped(r) && Kin(s, r)
  {
    var vp := s.vps[s.running];
    if vp.quantumAllowance - 1 > 0 then
      SetVp(s, s.running, vp.(quantumAllowance := vp.quantumAllowance - 1))
    else
      var lower := Max(vp.effectivePriority - 1, PRIORITY_LOWEST);
      var s1 := SetVp(s, s.running, vp.(effectivePriority := lower, quantumAllowance := Allowance(lower)));
      match Best(s1)
      case None => s1
      case Some(b) =>
        if b !in s1.vps || s1.vps[b].effectivePriority <= lower then s1
        else SwitchContext(AddReady(RemoveReady(s1, b), s1.running, vp.priority), b)
  }

  lemma SetRunningInv(s: Sched, pri: int, eff: int, allowance: int)
    requires Inv(s) && InRange(pri) && InRange(eff) && 1 <= allowance <= Allowance(eff)
    ensures Inv(SetVp(s, s.running, s.vps[s.running].(priority := pri, effectivePriority := eff,
                                                      quantumAllowance := allowance)))
  {
    SetLooseCore(s, s.running, s.vps[s.running].(priority := pri, effectivePriority := eff,
                                                 quantumAllowance := allowance), {s.running});
  }

  lemma EndSliceInv(s: Sched)
    requires Inv(s)
    ensures Inv(EndSlice(s))
  {
    hide BitmapOk, ReadyOk, WaitOk, TimeoutOk, FinalOk, Placed;
    var vp := s.vps[s.running];
    if vp.quantumAllowance - 1 > 0 {
      SetRunningInv(s, vp.priority, vp.effectivePriority, vp.quantumAllowance - 1);
    } else {
      var lower := Max(vp.effectivePriority - 1, PRIORITY_LOWEST);
      SetRunningInv(s, vp.priority, lower, Allowance(lower));
      var s1 := SetVp(s, s.running, vp.(effectivePriority := lower, quantumAllowance := Allowance(lower)));
      BestIsHighest(s1, {s1.running});
      match Best(s1) {
        case None =>
        case Some(b) =>
          if s1.vps[b].effectivePriority > lower {
            RotateInv(s1, b);
          }
      }
    }
  }

  lemma RotateInv(s: Sched, b: VpId)
    requires Inv(s) && b in s.vps && b in s.ready[s.vps[b].effectivePriority]
    ensures var t := SwitchContext(AddReady(RemoveReady(s, b), s.running, s.vps[s.running].priority), b);
            Inv(t) && t.running == b
            && t.vps[b] == s.vps[b].(state := Running)
  {
    RemoveReadyCore(s, b, {s.running});
    ReadyHasNoTimeout(s, b, {s.running});
    var s1 := RemoveReady(s, b);
    AddReadyCore(s1, s.running, s.vps[s.running].priority, {s.running} + {b});
    assert {s.running} + {b} - {s.running} == {b};
    IncomingInv(AddReady(s1, s.running, s.vps[s.running].priority), b);
  }

  /** The clock interrupt that precedes the scheduler's own handler. */
  function Advance(s: Sched): (r: Sched)
    requires Inv(s)
    ensures Inv(r)
  {
    ClockInv(s);
    s.(now := s.now + 1)
  }

  /** The quantum interrupt: the clock advances, expired waits end, the slice is charged. */
  function Tick(s: Sched): (r: Sched)
    requires Inv(s)
  {
    EndSlice(Expire(Advance(s)))
  }

  lemma ClockInv(s: Sched)
    requires Inv(s)
    ensures Inv(s.(now := s.now + 1))
  {
    var t := s.(now := s.now + 1);
    forall u | u in t.vps && u != t.running ensures Placed(t, u) {
      assert Placed(s, u);
    }
  }
}
