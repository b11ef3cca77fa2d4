/** Boot, reachable states, and the place every virtual processor has in them. */
module SchedulerReachable {
  import opened Arithmetic
  import opened Sequences
  import opened PriorityBitmap
  import opened MonotonicClocks
  import opened SchedulerState
  import opened SchedulerInvariant
  import opened SchedulerSteps
  import opened SchedulerRuns

  /** CreateForLocalCPU before the boot VP is added: all lists empty, all bits clear. */
  function Cold(boot: VpId, idle: VpId, nsPerQuantum: int): (s: Sched)
    requires boot != idle && 0 < nsPerQuantum <= ONE_SECOND_IN_NANOS
    ensures Shaped(s)
  {
    var quarter := ToQuantums(nsPerQuantum, TimeInterval(0, 250_000_000), AwayFromZero);
    QuarterPositive(nsPerQuantum);
    Sched(map[boot := NewVp(PRIORITY_HIGHEST).(suspensionCount := 0), idle := NewVp(PRIORITY_LOWEST)],
          boot,
          seq(PRIORITY_COUNT, (i: nat) => []),
          seq(POP_BYTE_COUNT, (i: nat) => 0 as bv8),
          [],
          map[SLEEP_QUEUE := [], SCHEDULER_WAIT_QUEUE := []],
          [], 0, quarter, nsPerQuantum, boot)
  }

  lemma QuarterPositive(nsPerQuantum: int)
    requires 0 < nsPerQuantum <= ONE_SECOND_IN_NANOS
    ensures ToQuantums(nsPerQuantum, TimeInterval(0, 250_000_000), AwayFromZero) > 0
  {
    var t := TimeInterval(0, 250_000_000);
    var c := FirstQuantumAt(Nanos(t), nsPerQuantum);
    if c <= 0 { MulMonotone(c, 0, nsPerQuantum); }
    if c - 1 > 250_000_000 { MulMonotone(250_000_000, c - 1, nsPerQuantum); MulMonotone(1, nsPerQuantum, 250_000_000); }
    ConversionIsCeiling(nsPerQuantum, t);
    CeilingUnique(ToQuantums(nsPerQuantum, t, AwayFromZero), c, Nanos(t), nsPerQuantum);
  }

  /** The state after CreateForLocalCPU and the incipient switch to the boot VP. */
  function Booted(boot: VpId, idle: VpId, nsPerQuantum: int): (s: Sched)
    requires boot != idle && 0 < nsPerQuantum <= ONE_SECOND_IN_NANOS
    ensures Shaped(s)
  {
    SwitchTo(AddReady(Cold(boot, idle, nsPerQuantum), boot, PRIORITY_HIGHEST), boot)
  }

  lemma ColdCore(boot: VpId, idle: VpId, nsPerQuantum: int)
    requires boot != idle && 0 < nsPerQuantum <= ONE_SECOND_IN_NANOS
    ensures Core(Cold(boot, idle, nsPerQuantum), {boot})
  {
    assert forall b: nat | b < 8 :: (0 as bv8) & Mask(b) == 0;
  }

  lemma BootedInv(boot: VpId, idle: VpId, nsPerQuantum: int)
    requires boot != idle && 0 < nsPerQuantum <= ONE_SECOND_IN_NANOS
    ensures Inv(Booted(boot, idle, nsPerQuantum))
  {
    var s := Cold(boot, idle, nsPerQuantum);
    ColdCore(boot, idle, nsPerQuantum);
    AddReadyCore(s, boot, PRIORITY_HIGHEST, {boot});
    assert {boot} - {boot} == {};
    var t := AddReady(s, boot, PRIORITY_HIGHEST);
    assert t.ready[PRIORITY_HIGHEST][|s.ready[PRIORITY_HIGHEST]|] == boot;
    SwitchToInv(t, boot);
  }

  lemma FinishBootSafe(boot: VpId, idle: VpId, nsPerQuantum: int, cooperation: bool)
    requires boot != idle && 0 < nsPerQuantum <= ONE_SECOND_IN_NANOS
    ensures Safe(Resume(Booted(boot, idle, nsPerQuantum), idle, false, cooperation), idle)
  {
    hide BitmapOk, ReadyOk, WaitOk, TimeoutOk, FinalOk, Placed;
    BootedInv(boot, idle, nsPerQuantum);
    var s := Booted(boot, idle, nsPerQuantum);
    var loose := {s.running} + {idle};
    LoosenParked(s, idle, {s.running});
    var up := s.vps[idle].(suspensionCount := 0);
    SetLooseCore(s, idle, up, loose);
    AddReadyCore(SetVp(s, idle, up), idle, PRIORITY_LOWEST, loose);
    assert loose - {idle} == {s.running};
  }

  /** FinishBoot: the idle VP is resumed. */
  function FinishBoot(boot: VpId, idle: VpId, nsPerQuantum: int, cooperation: bool): (s: Sched)
    requires boot != idle && 0 < nsPerQuantum <= ONE_SECOND_IN_NANOS
    ensures Safe(s, idle)
  {
    FinishBootSafe(boot, idle, nsPerQuantum, cooperation);
    Resume(Booted(boot, idle, nsPerQuantum), idle, false, cooperation)
  }

  /** The state after a list of steps, if each of them is enabled when it is taken. */
  function Exec(s: Sched, idle: VpId, steps: seq<Step>): (r: Option<Sched>)
    requires Safe(s, idle)
    ensures r.Some? ==> Safe(r.value, idle)
    decreases |steps|
  {
    if steps == [] then Some(s)
    else if !Enabled(s, idle, steps[0]) then None
    else
      StepKeepsSafe(s, idle, steps[0]);
      Exec(Apply(s, idle, steps[0]), idle, steps[1..])
  }

  /** The steps lead from `start` to `s`. */
  ghost predicate LeadTo(start: Sched, idle: VpId, steps: seq<Step>, s: Sched)
    requires Safe(start, idle)
  {
    Exec(start, idle, steps) == Some(s)
  }

  ghost predicate Reachable(s: Sched, boot: VpId, idle: VpId, nsPerQuantum: int) {
    && boot != idle && 0 < nsPerQuantum <= ONE_SECOND_IN_NANOS
    && exists cooperation, steps :: LeadTo(FinishBoot(boot, idle, nsPerQuantum, cooperation), idle, steps, s)
  }

  lemma ExecFirst(s: Sched, idle: VpId, first: Step, rest: seq<Step>)
    requires Safe(s, idle) && Enabled(s, idle, first)
    ensures Safe(Apply(s, idle, first), idle)
    ensures Exec(s, idle, [first] + rest) == Exec(Apply(s, idle, first), idle, rest)
  {
    StepKeepsSafe(s, idle, first);
    assert ([first] + rest)[1..] == rest;
  }

  lemma {:induction false} ExecOneMore(s: Sched, idle: VpId, steps: seq<Step>, t: Sched, last: Step)
    requires Safe(s, idle) && LeadTo(s, idle, steps, t) && Enabled(t, idle, last)
    ensures LeadTo(s, idle, steps + [last], Apply(t, idle, last))
    decreases |steps|
  {
    if steps == [] {
      ExecFirst(s, idle, last, []);
      assert [] + [last] == [last] + [];
    } else {
      var first, rest := steps[0], steps[1..];
      assert steps == [first] + rest && steps + [last] == [first] + (rest + [last]);
      ExecFirst(s, idle, first, rest);
      ExecFirst(s, idle, first, rest + [last]);
      ExecOneMore(Apply(s, idle, first), idle, rest, t, last);
    }
  }

  lemma LedToIsReachable(boot: VpId, idle: VpId, nsPerQuantum: int, cooperation: bool, steps: seq<Step>, t: Sched)
    requires boot != idle && 0 < nsPerQuantum <= ONE_SECOND_IN_NANOS
    requires LeadTo(FinishBoot(boot, idle, nsPerQuantum, cooperation), idle, steps, t)
    ensures Reachable(t, boot, idle, nsPerQuantum)
  {
  }

  /** The state that booting ends in is reachable, and every step from a reachable state
      leads to a reachable one. */
  lemma BootIsReachable(boot: VpId, idle: VpId, nsPerQuantum: int, cooperation: bool)
    requires boot != idle && 0 < nsPerQuantum <= ONE_SECOND_IN_NANOS
    ensures Reachable(FinishBoot(boot, idle, nsPerQuantum, cooperation), boot, idle, nsPerQuantum)
  {
    assert LeadTo(FinishBoot(boot, idle, nsPerQuantum, cooperation), idle, [],
                  FinishBoot(boot, idle, nsPerQuantum, cooperation));
  }

  lemma StepsStayReachable(s: Sched, boot: VpId, idle: VpId, nsPerQuantum: int, step: Step)
    requires Reachable(s, boot, idle, nsPerQuantum) && Enabled(s, idle, step)
    ensures Reachable(Apply(s, idle, step), boot, idle, nsPerQuantum)
  {
    var c, steps :| LeadTo(FinishBoot(boot, idle, nsPerQuantum, c), idle, steps, s);
    ExecOneMore(FinishBoot(boot, idle, nsPerQuantum, c), idle, steps, s, step);
    LedToIsReachable(boot, idle, nsPerQuantum, c, steps + [step], Apply(s, idle, step));
  }

  datatype Place =
    | OnCpu
    | OnReadyList(p: int)
    | OnWaitQueue(q: QueueId)
    | ParkedSuspended
    | OnFinalizerQueue

  ghost predicate At(s: Sched, v: VpId, place: Place)
    requires Shaped(s) && v in s.vps
  {
    match place
    case OnCpu => v == s.running
    case OnReadyList(p) => InRange(p) && v in s.ready[p]
    case OnWaitQueue(q) => q in s.queues && v in s.queues[q]
    case ParkedSuspended => s.vps[v].state.Ready? && s.vps[v].suspensionCount > 0 && !s.vps[v].terminated
    case OnFinalizerQueue => v in s.finalizer
  }

  /** The place the fields of a VP name. */
  function PlaceOf(s: Sched, v: VpId): Place
    requires Shaped(s) && v in s.vps
  {
    var vp := s.vps[v];
    if v == s.running then OnCpu
    else if vp.waitingOn.Some? && vp.state.Waiting? then OnWaitQueue(vp.waitingOn.value)
    else if vp.terminated then OnFinalizerQueue
    else if vp.suspensionCount > 0 then ParkedSuspended
    else OnReadyList(vp.effectivePriority)
  }

  /** In every reachable state every VP is in exactly one place, the one its fields name,
      and on one position of its list; a ready list holds exactly the unsuspended Ready
      VPs of its priority, a bit is set iff its list is not empty, and the idle VP runs
      or is ready, so that the scan finds a successor for any other running VP. */
  lemma ReachableIsSafe(s: Sched, boot: VpId, idle: VpId, nsPerQuantum: int)
    requires Reachable(s, boot, idle, nsPerQuantum)
    ensures Safe(s, idle)
    ensures forall v, place | v in s.vps :: At(s, v, place) <==> place == PlaceOf(s, v)
    ensures forall p: nat | p < PRIORITY_COUNT :: Distinct(s.ready[p])
    ensures forall q | q in s.queues :: Distinct(s.queues[q])
    ensures forall p: nat, v | p < PRIORITY_COUNT && v in s.vps && v != s.running ::
              v in s.ready[p] <==> OnItsList(s.vps[v], p)
    ensures forall p: nat | p < PRIORITY_COUNT :: IsSet(s.populated, p) <==> s.ready[p] != []
    ensures forall v | v in s.vps :: s.vps[v].state.Running? <==> v == s.running
    ensures s.running != idle ==> Best(s).Some?
  {
    hide Placed, TimeoutOk, FinalOk;
    SafeNow(s, idle, boot, nsPerQuantum);
    forall v, place | v in s.vps ensures At(s, v, place) <==> place == PlaceOf(s, v) {
      OnePlace(s, v, place);
    }
    forall v | v in s.vps ensures s.vps[v].state.Running? <==> v == s.running {
      OneRunning(s, v);
    }
    forall p: nat, v | p < PRIORITY_COUNT && v in s.vps && v != s.running
      ensures v in s.ready[p] <==> OnItsList(s.vps[v], p)
    {
      ListMembership(s, p, v);
    }
    if s.running != idle {
      BlockingFindsSuccessor(s, {s.running}, idle);
    }
  }

  ghost predicate OnItsList(vp: Vp, p: int) {
    vp.state.Ready? && vp.suspensionCount == 0 && !vp.terminated && vp.effectivePriority == p
  }

  lemma OneRunning(s: Sched, v: VpId)
    requires Inv(s) && v in s.vps
    ensures s.vps[v].state.Running? <==> v == s.running
  {
    if v != s.running { assert Placed(s, v); }
  }

  lemma ListMembership(s: Sched, p: nat, v: VpId)
    requires Inv(s) && p < PRIORITY_COUNT && v in s.vps && v != s.running
    ensures v in s.ready[p] <==> OnItsList(s.vps[v], p)
  {
    assert Placed(s, v);
  }

  lemma SafeNow(s: Sched, idle: VpId, boot: VpId, nsPerQuantum: int)
    requires Reachable(s, boot, idle, nsPerQuantum)
    ensures Safe(s, idle)
  {
  }

  lemma OnePlace(s: Sched, v: VpId, place: Place)
    requires Inv(s) && v in s.vps
    ensures At(s, v, place) <==> place == PlaceOf(s, v)
  {
    if v != s.running {
      assert Placed(s, v);
    }
  }
}
