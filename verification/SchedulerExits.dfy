/** Terminating a VP while the finalizer queue is long and the scheduler's own VP sleeps: the
    code then asks for a voluntary switch to that VP, which is not made for a VP that must
    never run again (Kernel/Sources/dispatcher/VirtualProcessorScheduler.c:391-455, 471-512). */
module SchedulerExits {
  import opened Sequences
  import opened PriorityBitmap
  import opened MonotonicClocks
  import opened SchedulerState
  import opened SchedulerInvariant
  import opened SchedulerSteps
  import opened SchedulerRuns
  import opened SchedulerReachable

  // ---- What goes wrong ------------------------------------------------------------

  /** The dead VP goes on running, or it sits on a ready list and the finalizer queue at once. */
  ghost predicate Undead(s: Sched, t: Sched)
    requires Shaped(s) && Shaped(t)
  {
    && s.running in t.vps && t.vps[s.running].terminated && s.running in t.finalizer
    && (|| t.running == s.running
        || s.running in t.ready[t.vps[s.running].effectivePriority])
  }

  lemma WithoutKeeps(q: seq<VpId>, v: VpId, u: VpId)
    requires u in q && u != v
    ensures u in Without(q, v)
  {
    var i := IndexOf(q, v);
    var k :| 0 <= k < |q| && q[k] == u;
    if i < |q| { assert Without(q, v)[if k < i then k else k - 1] == u; }
  }

  /** The switch puts the VP that runs at the end of a ready list, dead or alive. */
  lemma SwitchRevives(s: Sched, v: VpId, cooperation: bool)
    requires Shaped(s) && v in s.vps && v != s.running
    ensures var t := MaybeSwitchTo(s, v, cooperation);
            && t.finalizer == s.finalizer && s.running in t.vps
            && t.vps[s.running].terminated == s.vps[s.running].terminated
            && (t.running == s.running || s.running in t.ready[t.vps[s.running].effectivePriority])
  {
    hide SetBit, ClearBit, IsSet, BestFrom, Without;
    var t := MaybeSwitchTo(s, v, cooperation);
    if t.running != s.running {
      var pri := s.vps[s.running].priority;
      var a := AddReady(s, s.running, pri);
      assert t == SwitchTo(a, v);
      assert a.ready[pri][|s.ready[pri]|] == s.running;
      WithoutKeeps(a.ready[pri], v, s.running);
    }
  }

  lemma DetachSleeper(s: Sched, q: QueueId, v: VpId, u: VpId)
    requires Shaped(s) && v in s.vps && q in s.queues && u in s.vps && u != v
    ensures var t := Detach(s, q, v, Interrupted);
            && t.running == s.running && t.finalizer == s.finalizer && t.vps.Keys == s.vps.Keys && t.now == s.now
            && t.vps[u] == s.vps[u]
  {
  }

  lemma WakeRevives(s: Sched, q: QueueId, v: VpId, cooperation: bool)
    requires Shaped(s) && v in s.vps && q in s.queues && s.vps[v].waitStart <= s.now
    requires s.vps[s.running].terminated && s.running in s.finalizer
    requires v == s.running ==> !s.vps[v].state.Waiting?
    ensures Undead(s, WakeUpOne(s, q, v, Interrupted, true, cooperation))
  {
    hide SchedulerState.MaybeSwitchTo, SetBit;
    if !WakeIgnored(s.vps[v], Interrupted) {
      var s1 := Detach(s, q, v, Interrupted);
      DetachSleeper(s, q, v, s.running);
      if s.vps[v].suspensionCount == 0 {
        SwitchRevives(AddReady(s1, v, Boosted(s, v)), v, cooperation);
      }
    }
  }

  lemma UndeadIsUnsafe(s: Sched, t: Sched, idle: VpId)
    requires Shaped(s) && Shaped(t) && Undead(s, t)
    ensures !Safe(t, idle)
  {
    hide BitmapOk, WaitOk, TimeoutOk, FinalOk, Placed;
  }

  /** In that case the VP does not go away: it goes on running, or it is made ready again
      while it waits to be destroyed. */
  lemma FinalizeNowRevives(s: Sched, idle: VpId, cooperation: bool)
    requires Safe(s, idle) && FinalizesNow(s)
    ensures Undead(s, Terminate(s, cooperation)) && !Safe(Terminate(s, cooperation), idle)
  {
    hide BitmapOk, ReadyOk, WaitOk, TimeoutOk, FinalOk, Placed, SchedulerState.WakeUpOne;
    WakeRevives(Dead(s), SCHEDULER_WAIT_QUEUE, s.boot, cooperation);
    UndeadIsUnsafe(s, Terminate(s, cooperation), idle);
  }

  /** Terminating a VP keeps the scheduler's invariant exactly if it does not find three dead
      VPs on the finalizer queue and the scheduler's own VP asleep. */
  lemma TerminateIsSafeExactly(s: Sched, idle: VpId, cooperation: bool)
    requires Safe(s, idle) && s.running != idle
    ensures Safe(Terminate(s, cooperation), idle) <==> !FinalizesNow(s)
  {
    if FinalizesNow(s) {
      FinalizeNowRevives(s, idle, cooperation);
    } else {
      TerminateKeepsSafe(s, idle, cooperation);
    }
  }

  // ---- A run that leads there --------------------------------------------------------

  const PRIORITY_NORMAL := 32

  /** The VPs `able` are ready at one priority, nobody above it is, and `dead` are dead. */
  ghost predicate Lined(s: Sched, boot: VpId, idle: VpId, nsPerQuantum: int, able: seq<VpId>, dead: nat,
                        asleep: seq<VpId>)
  {
    && Reachable(s, boot, idle, nsPerQuantum) && s.boot == boot && boot in s.vps
    && s.ready[PRIORITY_NORMAL] == able && (forall p: nat | PRIORITY_NORMAL < p < PRIORITY_COUNT :: s.ready[p] == [])
    && |s.finalizer| == dead
    && SCHEDULER_WAIT_QUEUE in s.queues && s.queues[SCHEDULER_WAIT_QUEUE] == asleep
  }

  lemma BootIsLined(boot: VpId, idle: VpId, nsPerQuantum: int, cooperation: bool)
    requires boot != idle && 0 < nsPerQuantum <= ONE_SECOND_IN_NANOS
    ensures Lined(FinishBoot(boot, idle, nsPerQuantum, cooperation), boot, idle, nsPerQuantum, [], 0, [])
    ensures FinishBoot(boot, idle, nsPerQuantum, cooperation).running == boot
    ensures FinishBoot(boot, idle, nsPerQuantum, cooperation).vps.Keys == {boot, idle}
  {
    hide SetBit, ClearBit, Reachable, Safe, Booted;
    BootIsReachable(boot, idle, nsPerQuantum, cooperation);
    BootedLists(boot, idle, nsPerQuantum);
  }

  lemma BootedLists(boot: VpId, idle: VpId, nsPerQuantum: int)
    requires boot != idle && 0 < nsPerQuantum <= ONE_SECOND_IN_NANOS
    ensures var s := Booted(boot, idle, nsPerQuantum);
            && s.running == boot && s.boot == boot && s.vps.Keys == {boot, idle} && s.finalizer == []
            && s.vps[idle] == NewVp(PRIORITY_LOWEST)
            && (forall p: nat | p < PRIORITY_COUNT :: s.ready[p] == [])
            && s.queues == map[SLEEP_QUEUE := [], SCHEDULER_WAIT_QUEUE := []]
  {
    hide SetBit, ClearBit;
  }

  /** A new VP is created and resumed. */
  lemma OneMoreReady(s: Sched, boot: VpId, idle: VpId, nsPerQuantum: int, able: seq<VpId>, v: VpId) returns (t: Sched)
    requires Lined(s, boot, idle, nsPerQuantum, able, 0, []) && s.running == boot && v !in s.vps
    ensures Lined(t, boot, idle, nsPerQuantum, able + [v], 0, []) && t.running == boot
    ensures t.vps.Keys == s.vps.Keys + {v}
  {
    hide Reachable, SetBit, BitmapOk, ReadyOk, WaitOk, TimeoutOk, FinalOk, Placed;
    SafeNow(s, idle, boot, nsPerQuantum);
    var c := Apply(s, idle, CreateStep(v, PRIORITY_NORMAL));
    StepsStayReachable(s, boot, idle, nsPerQuantum, CreateStep(v, PRIORITY_NORMAL));
    SafeNow(c, idle, boot, nsPerQuantum);
    t := Apply(c, idle, ResumeStep(v, false, false));
    StepsStayReachable(c, boot, idle, nsPerQuantum, ResumeStep(v, false, false));
  }

  /** Who stands at the head of the line is the best choice. */
  lemma HeadIsBest(s: Sched, loose: set<VpId>, able: seq<VpId>)
    requires Core(s, loose) && able != [] && s.ready[PRIORITY_NORMAL] == able
    requires forall p: nat | PRIORITY_NORMAL < p < PRIORITY_COUNT :: s.ready[p] == []
    ensures Best(s) == Some(able[0]) && able[0] in s.vps
    ensures s.vps[able[0]].effectivePriority == PRIORITY_NORMAL
  {
    assert able[0] in s.ready[PRIORITY_NORMAL];
    BestBeatsReady(s, able[0], loose);
    BestIsHighest(s, loose);
  }

  lemma SwitchToHead(s: Sched, able: seq<VpId>)
    requires Shaped(s) && able != [] && s.ready[PRIORITY_NORMAL] == able && Best(s) == Some(able[0])
    requires able[0] in s.vps && s.vps[able[0]].effectivePriority == PRIORITY_NORMAL
    ensures var t := SwitchAway(s);
            && t.running == able[0] && t.ready == s.ready[PRIORITY_NORMAL := able[1..]]
            && t.finalizer == s.finalizer && t.queues == s.queues && t.vps.Keys == s.vps.Keys && t.boot == s.boot
  {
    hide ClearBit, BestFrom;
    assert IndexOf(able, able[0]) == 0;
    assert Without(able, able[0]) == able[..0] + able[1..] == able[1..];
  }

  /** What VirtualProcessorScheduler_Run does when there is nothing to finalize. */
  const WAIT_FOR_WORK := WaitStep(SCHEDULER_WAIT_QUEUE, Some(TimeInterval(1, 0)), 0, true)

  lemma BootEnqueued(s: Sched, idle: VpId) returns (e: Sched)
    requires Safe(s, idle) && s.running == s.boot != idle
    requires SCHEDULER_WAIT_QUEUE in s.queues && s.queues[SCHEDULER_WAIT_QUEUE] == []
    ensures Core(e, {}) && e.ready == s.ready && e.finalizer == s.finalizer && e.boot == s.boot
    ensures e.queues == s.queues[SCHEDULER_WAIT_QUEUE := [s.boot]] && e.vps.Keys == s.vps.Keys
    ensures Apply(s, idle, WAIT_FOR_WORK) == SwitchAway(e)
  {
    hide BitmapOk, ReadyOk, WaitOk, FinalOk, Placed, SwitchAway, TimeoutPos, InsertAt;
    ArmSafe(s, idle, TimeInterval(1, 0));
    var armed := ArmTimeout(s, s.boot, TimeInterval(1, 0));
    EnqueueCore(armed, SCHEDULER_WAIT_QUEUE, true, {s.boot});
    assert {s.boot} - {s.boot} == {};
    e := Enqueue(armed, SCHEDULER_WAIT_QUEUE, true);
    assert InsertAt([], 0, s.boot) == [s.boot] by { InsertAtMembers([], 0, s.boot); InsertAtInserts([], 0, s.boot); }
  }

  /** The scheduler's own VP goes to sleep for a second. */
  lemma BootSleeps(s: Sched, boot: VpId, idle: VpId, nsPerQuantum: int, able: seq<VpId>) returns (t: Sched)
    requires Lined(s, boot, idle, nsPerQuantum, able, 0, []) && s.running == boot && boot != idle && able != []
    ensures Lined(t, boot, idle, nsPerQuantum, able[1..], 0, [boot]) && t.running == able[0]
  {
    hide Reachable, Apply, SwitchAway, BestFrom, BitmapOk, ReadyOk, WaitOk, TimeoutOk, FinalOk, Placed;
    SafeNow(s, idle, boot, nsPerQuantum);
    var e := BootEnqueued(s, idle);
    HeadIsBest(e, {}, able);
    SwitchToHead(e, able);
    t := Apply(s, idle, WAIT_FOR_WORK);
    StepsStayReachable(s, boot, idle, nsPerQuantum, WAIT_FOR_WORK);
  }

  /** The running VP exits, and the next one in the line runs. */
  lemma OneMoreDead(s: Sched, boot: VpId, idle: VpId, nsPerQuantum: int, able: seq<VpId>, dead: nat) returns (t: Sched)
    requires Lined(s, boot, idle, nsPerQuantum, able, dead, [boot]) && s.running != idle && able != [] && dead < 3
    ensures Lined(t, boot, idle, nsPerQuantum, able[1..], dead + 1, [boot]) && t.running == able[0]
  {
    hide Reachable, ClearBit, SwitchAway, BestFrom, BitmapOk, WaitOk, TimeoutOk, FinalOk, Placed;
    SafeNow(s, idle, boot, nsPerQuantum);
    HeadIsBest(s, {s.running}, able);
    BestSame(s, Dead(s), PRIORITY_HIGHEST);
    NotRunning(s, able[0]);
    SwitchToHead(Dead(s), able);
    t := Apply(s, idle, TerminateStep(true));
    assert t == SwitchAway(Dead(s));
    StepsStayReachable(s, boot, idle, nsPerQuantum, TerminateStep(true));
  }

  lemma NotRunning(s: Sched, v: VpId)
    requires Inv(s) && v in s.ready[PRIORITY_NORMAL]
    ensures v != s.running
  {
  }

  lemma FourReady(boot: VpId, idle: VpId, nsPerQuantum: int, a: VpId) returns (s: Sched)
    requires boot != idle && 0 < nsPerQuantum <= ONE_SECOND_IN_NANOS && boot < a && idle < a
    ensures Lined(s, boot, idle, nsPerQuantum, [a, a + 1, a + 2, a + 3], 0, []) && s.running == boot
  {
    hide Lined, Reachable, FinishBoot;
    s := FinishBoot(boot, idle, nsPerQuantum, true);
    BootIsLined(boot, idle, nsPerQuantum, true);
    s := OneMoreReady(s, boot, idle, nsPerQuantum, [], a);
    s := OneMoreReady(s, boot, idle, nsPerQuantum, [] + [a], a + 1);
    s := OneMoreReady(s, boot, idle, nsPerQuantum, [] + [a] + [a + 1], a + 2);
    s := OneMoreReady(s, boot, idle, nsPerQuantum, [] + [a] + [a + 1] + [a + 2], a + 3);
    assert [] + [a] + [a + 1] + [a + 2] + [a + 3] == [a, a + 1, a + 2, a + 3];
  }

  lemma ThreeExit(s: Sched, boot: VpId, idle: VpId, nsPerQuantum: int, able: seq<VpId>) returns (t: Sched)
    requires Lined(s, boot, idle, nsPerQuantum, able, 0, []) && s.running == boot && boot != idle
    requires |able| == 4 && idle !in able
    ensures Lined(t, boot, idle, nsPerQuantum, [], 3, [boot]) && t.running == able[3]
  {
    hide Lined, Reachable;
    t := BootSleeps(s, boot, idle, nsPerQuantum, able);
    t := OneMoreDead(t, boot, idle, nsPerQuantum, able[1..], 0);
    t := OneMoreDead(t, boot, idle, nsPerQuantum, able[1..][1..], 1);
    t := OneMoreDead(t, boot, idle, nsPerQuantum, able[1..][1..][1..], 2);
    assert able[1..][1..][1..] == [able[3]] && able[1..][1..][1..][1..] == [];
  }

  /** Four VPs are created and resumed, the scheduler's own VP goes to sleep, and three of the
      four exit: the exit of the fourth one goes wrong. */
  lemma FourthExitGoesWrong(boot: VpId, idle: VpId, nsPerQuantum: int) returns (s: Sched)
    requires boot != idle && 0 < nsPerQuantum <= ONE_SECOND_IN_NANOS
    ensures Reachable(s, boot, idle, nsPerQuantum) && Safe(s, idle) && s.running != idle && FinalizesNow(s)
    ensures !Safe(Terminate(s, true), idle)
  {
    hide Lined, Reachable, Safe, FinalizesNow;
    var a := boot + idle + 1;
    s := FourReady(boot, idle, nsPerQuantum, a);
    s := ThreeExit(s, boot, idle, nsPerQuantum, [a, a + 1, a + 2, a + 3]);
    LastExit(s, boot, idle, nsPerQuantum);
  }

  lemma LastExit(s: Sched, boot: VpId, idle: VpId, nsPerQuantum: int)
    requires Lined(s, boot, idle, nsPerQuantum, [], 3, [boot])
    ensures Reachable(s, boot, idle, nsPerQuantum) && Safe(s, idle) && FinalizesNow(s)
    ensures !Safe(Terminate(s, true), idle)
  {
    SafeNow(s, idle, boot, nsPerQuantum);
    FinalizeNowRevives(s, idle, true);
  }
}
