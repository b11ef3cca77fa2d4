/** What a wake-up does, spelled out in the fields of the state before it: who is woken, with
    which priority, who runs afterwards, and where everybody stands
    (Kernel/Sources/dispatcher/VirtualProcessorScheduler.c:355-455). */
module SchedulerWakes {
  import opened Sequences
  import opened PriorityBitmap
  import opened SchedulerState
  import opened SchedulerInvariant
  import opened SchedulerSteps
  import opened SchedulerRuns
  import opened SchedulerWaits

  /** How many waiters a wake-up looks at. */
  function Considered(count: int, waiters: nat): nat {
    if count <= 0 then 0 else if count < waiters then count else waiters
  }

  /** A wake-up ends the wait of `v`: always, except that an interruption leaves those alone
      that must not be interrupted. */
  predicate Wakes(s: Sched, v: VpId, reason: WakeReason)
    requires v in s.vps
  {
    reason.Finished? || s.vps[v].interruptable
  }

  /** The waiters that keep sleeping, in order. */
  function Sleepers(s: Sched, vs: seq<VpId>, reason: WakeReason): seq<VpId>
    requires Known(s.vps, vs)
  {
    if vs == [] then []
    else if Wakes(s, vs[0], reason) then Sleepers(s, vs[1..], reason)
    else [vs[0]] + Sleepers(s, vs[1..], reason)
  }

  /** The effective priority after the wait: one more for each quarter of a second that it has
      lasted, up to the highest. */
  function AfterSleep(s: Sched, v: VpId): int
    requires v in s.vps && s.quantumsPerQuarter > 0
  {
    var higher := s.vps[v].effectivePriority + (s.now - s.vps[v].waitStart) / s.quantumsPerQuarter;
    if higher > 63 then 63 else higher
  }

  /** `v` is woken and able to run. */
  predicate Able(s: Sched, v: VpId, reason: WakeReason)
    requires v in s.vps
  {
    Wakes(s, v, reason) && s.vps[v].suspensionCount == 0
  }

  /** Those of `vs` that become ready with priority `p`, in order. */
  function Arriving(s: Sched, vs: seq<VpId>, reason: WakeReason, p: int): seq<VpId>
    requires Known(s.vps, vs) && s.quantumsPerQuarter > 0
  {
    if vs == [] then []
    else if Able(s, vs[0], reason) && AfterSleep(s, vs[0]) == p then [vs[0]] + Arriving(s, vs[1..], reason, p)
    else Arriving(s, vs[1..], reason, p)
  }

  function FirstAble(s: Sched, vs: seq<VpId>, reason: WakeReason): Option<VpId>
    requires Known(s.vps, vs)
  {
    if vs == [] then None
    else if Able(s, vs[0], reason) then Some(vs[0])
    else FirstAble(s, vs[1..], reason)
  }

  // ---- The first pass ---------------------------------------------------------------

  /** Nothing that decides about the waiters `vs` differs between the two states. */
  ghost predicate SameFor(s: Sched, t: Sched, vs: seq<VpId>) {
    && Known(s.vps, vs) && Known(t.vps, vs) && s.quantumsPerQuarter > 0
    && t.now == s.now && t.quantumsPerQuarter == s.quantumsPerQuarter
    && forall v | v in vs :: t.vps[v] == s.vps[v]
  }

  lemma {:induction false} SameForSame(s: Sched, t: Sched, vs: seq<VpId>, reason: WakeReason, p: int)
    requires SameFor(s, t, vs)
    ensures Arriving(t, vs, reason, p) == Arriving(s, vs, reason, p)
    ensures FirstAble(t, vs, reason) == FirstAble(s, vs, reason)
  {
    if vs != [] {
      assert vs[0] in vs && forall v | v in vs[1..] :: v in vs;
      SameForSame(s, t, vs[1..], reason, p);
    }
  }

  /** One wake-up: who it wakes goes to the end of the list of its priority. */
  lemma WakeOneLists(s: Sched, q: QueueId, v: VpId, reason: WakeReason)
    requires Inv(s) && q in s.queues && v in s.queues[q] && (reason.Finished? || reason.Interrupted?)
    ensures v in s.vps && s.vps[v].state.Waiting? && v != s.running
    ensures var t := WakeUpOne(s, q, v, reason, false, false);
            && |t.ready| == PRIORITY_COUNT
            && (forall p: nat | p < PRIORITY_COUNT ::
                  t.ready[p] == s.ready[p] + (if Able(s, v, reason) && AfterSleep(s, v) == p then [v] else []))
            && v in t.vps
            && (Able(s, v, reason) <==> t.vps[v].state.Ready? && t.vps[v].suspensionCount == 0)
            && (Able(s, v, reason) ==> ReadyVp(t.vps[v], AfterSleep(s, v)))
  {
    hide SetBit, BitmapOk, ReadyOk, TimeoutOk, FinalOk;
    assert Placed(s, v);
    var t := WakeUpOne(s, q, v, reason, false, false);
    if Able(s, v, reason) {
      assert Boosted(s, v) == AfterSleep(s, v);
    }
  }

  lemma {:induction false} PassLists(s: Sched, q: QueueId, vs: seq<VpId>, reason: WakeReason, found: Option<VpId>)
    requires Inv(s) && OnQueue(s, q, vs) && (found.Some? ==> found.value in s.vps)
    requires reason.Finished? || reason.Interrupted?
    ensures Known(s.vps, vs)
    ensures var r := WakeEach(s, q, vs, reason, found);
            && |r.0.ready| == PRIORITY_COUNT
            && (forall p: nat | p < PRIORITY_COUNT :: r.0.ready[p] == s.ready[p] + Arriving(s, vs, reason, p))
            && r.1 == (if found.Some? then found else FirstAble(s, vs, reason))
    decreases |vs|
  {
    hide BitmapOk, ReadyOk, WaitOk, TimeoutOk, FinalOk, Placed, SchedulerState.WakeUpOne, AfterSleep, Able;
    if vs != [] {
      var v := vs[0];
      WakeEachStep(s, q, vs, reason);
      assert v in vs;
      WakeOneLists(s, q, v, reason);
      WakeUpOneFrame(s, q, v, reason);
      var t := WakeUpOne(s, q, v, reason, false, false);
      var candidate :=
        if found.None? && t.vps[v].state.Ready? && t.vps[v].suspensionCount == 0 then Some(v) else found;
      PassLists(t, q, vs[1..], reason, candidate);
      RestIsSame(s, t, vs);
      forall p: nat | p < PRIORITY_COUNT
        ensures WakeEach(t, q, vs[1..], reason, candidate).0.ready[p] == s.ready[p] + Arriving(s, vs, reason, p)
      {
        SameForSame(s, t, vs[1..], reason, p);
        ListGrows(s, t, vs, reason, p);
      }
      SameForSame(s, t, vs[1..], reason, 0);
    }
  }

  lemma RestIsSame(s: Sched, t: Sched, vs: seq<VpId>)
    requires vs != [] && Distinct(vs) && Known(s.vps, vs[1..]) && s.quantumsPerQuarter > 0
    requires vs[0] in t.vps && t.vps == s.vps[vs[0] := t.vps[vs[0]]]
    requires t.now == s.now && t.quantumsPerQuarter == s.quantumsPerQuarter
    ensures SameFor(s, t, vs[1..])
  {
    assert vs[0] !in vs[1..];
  }

  lemma ListGrows(s: Sched, t: Sched, vs: seq<VpId>, reason: WakeReason, p: nat)
    requires vs != [] && Known(s.vps, vs) && s.quantumsPerQuarter > 0 && p < |s.ready| == |t.ready|
    requires t.ready[p] == s.ready[p] + (if Able(s, vs[0], reason) && AfterSleep(s, vs[0]) == p then [vs[0]] else [])
    ensures Known(s.vps, vs[1..])
    ensures t.ready[p] + Arriving(s, vs[1..], reason, p) == s.ready[p] + Arriving(s, vs, reason, p)
  {
    assert forall v | v in vs[1..] :: v in vs;
    var rest := Arriving(s, vs[1..], reason, p);
    assert (s.ready[p] + [vs[0]]) + rest == s.ready[p] + ([vs[0]] + rest);
  }

  // ---- The second pass --------------------------------------------------------------

  /** `v` stands at the head of the highest list that is not empty. */
  ghost predicate HeadsAll(ready: seq<seq<VpId>>, v: VpId, p: int) {
    && 0 <= p < |ready| && ready[p] != [] && ready[p][0] == v
    && forall k: nat | p < k < |ready| :: ready[k] == []
  }

  /** The lists after the switch from `running` to the head of list `p`. */
  ghost predicate ListsSwitched(ready: seq<seq<VpId>>, ready': seq<seq<VpId>>, p: int, running: VpId, base: int) {
    && |ready'| == |ready| && 0 <= p < |ready| && ready[p] != []
    && forall k: nat | k < |ready| ::
         ready'[k] == (if k == p then ready[k][1..] else ready[k]) + (if k == base then [running] else [])
  }

  /** A voluntary switch to a VP that is ready, decided and done. */
  lemma SwitchDecides(s: Sched, v: VpId, cooperation: bool)
    requires Inv(s) && v in s.vps && ReadyVp(s.vps[v], s.vps[v].effectivePriority)
    ensures var t, p, r := MaybeSwitchTo(s, v, cooperation), s.vps[v].effectivePriority, s.running;
            if cooperation && HeadsAll(s.ready, v, p) && p >= s.vps[r].effectivePriority then
              var base := s.vps[r].priority;
              && t.running == v && v != r && r in t.vps && v in t.vps
              && ListsSwitched(s.ready, t.ready, p, r, base)
              && t.vps == s.vps[r := s.vps[r].(state := Ready, effectivePriority := base,
                                               quantumAllowance := (63 - base) / 8 + 1, waitStart := s.now)]
                               [v := s.vps[v].(state := Running)]
              && t.queues == s.queues && t.timeouts == s.timeouts
            else t == s
  {
    hide SetBit, ClearBit, BitmapOk, TimeoutOk, FinalOk, WaitOk, BestFrom;
    var p, r := s.vps[v].effectivePriority, s.running;
    BestHeads(s, v);
    if cooperation && HeadsAll(s.ready, v, p) && p >= s.vps[r].effectivePriority {
      var base := s.vps[r].priority;
      var a := AddReady(s, r, base);
      NotTheRunner(s, v);
      HeadGoes(a.ready[p], v);
      assert a.ready[p][0] == s.ready[p][0];
    }
  }

  lemma NotTheRunner(s: Sched, v: VpId)
    requires Inv(s) && v in s.vps && s.vps[v].state.Ready?
    ensures v != s.running
  {
  }

  lemma HeadGoes(list: seq<VpId>, v: VpId)
    requires list != [] && list[0] == v
    ensures Without(list, v) == list[1..]
  {
    assert list[..0] + list[1..] == list[1..];
  }

  /** Who the scan finds is who heads the highest list. */
  lemma BestHeads(s: Sched, v: VpId)
    requires Inv(s) && v in s.vps && ReadyVp(s.vps[v], s.vps[v].effectivePriority)
    ensures Best(s) == Some(v) <==> HeadsAll(s.ready, v, s.vps[v].effectivePriority)
  {
    BestIsHighest(s, {s.running});
  }

  // ---- The wake-up --------------------------------------------------------------------

  /** The lists with everybody who becomes ready at the end of the list of the new priority. */
  ghost predicate ListsGrown(s: Sched, ready: seq<seq<VpId>>, vs: seq<VpId>, reason: WakeReason)
    requires Known(s.vps, vs) && s.quantumsPerQuarter > 0
  {
    |ready| == |s.ready| && forall p: nat | p < |ready| :: ready[p] == s.ready[p] + Arriving(s, vs, reason, p)
  }

  /** The first of those woken that can run takes the CPU: switching is allowed, nobody ready is
      above it, nobody else is ready at its priority before it, and it is not below the runner. */
  ghost predicate Preempts(s: Sched, vs: seq<VpId>, reason: WakeReason, v: VpId)
    requires Known(s.vps, vs) && s.quantumsPerQuarter > 0 && v in s.vps && s.running in s.vps
  {
    var p := AfterSleep(s, v);
    && 0 <= p < |s.ready| && s.ready[p] == []
    && (forall k: nat | p < k < |s.ready| :: s.ready[k] == [] && Arriving(s, vs, reason, k) == [])
    && p >= s.vps[s.running].effectivePriority
  }

  lemma {:induction false} FirstArrives(s: Sched, vs: seq<VpId>, reason: WakeReason)
    requires Known(s.vps, vs) && s.quantumsPerQuarter > 0 && FirstAble(s, vs, reason).Some?
    ensures var v := FirstAble(s, vs, reason).value;
            && v in vs && Able(s, v, reason)
            && Arriving(s, vs, reason, AfterSleep(s, v)) != []
            && Arriving(s, vs, reason, AfterSleep(s, v))[0] == v
  {
    if !Able(s, vs[0], reason) {
      assert vs[1..][..] == vs[1..];
      FirstArrives(s, vs[1..], reason);
    }
  }

  lemma GrownHeads(s: Sched, ready: seq<seq<VpId>>, vs: seq<VpId>, reason: WakeReason, v: VpId, p: int)
    requires Known(s.vps, vs) && s.quantumsPerQuarter > 0 && ListsGrown(s, ready, vs, reason)
    requires 0 <= p < |ready| && Arriving(s, vs, reason, p) != [] && Arriving(s, vs, reason, p)[0] == v
    requires v !in s.ready[p]
    ensures HeadsAll(ready, v, p) <==>
            && s.ready[p] == []
            && forall k: nat | p < k < |s.ready| :: s.ready[k] == [] && Arriving(s, vs, reason, k) == []
  {
    assert s.ready[p] != [] ==> ready[p][0] == s.ready[p][0];
    if HeadsAll(ready, v, p) {
      forall k: nat | p < k < |s.ready| ensures s.ready[k] == [] && Arriving(s, vs, reason, k) == [] {
        assert ready[k] == s.ready[k] + Arriving(s, vs, reason, k);
      }
    } else if s.ready[p] == [] {
      assert ready[p] == [] + Arriving(s, vs, reason, p);
    }
  }

  /** A waiter is on no ready list. */
  lemma WaiterOnNoList(s: Sched, v: VpId, p: nat)
    requires Inv(s) && v in s.vps && s.vps[v].state.Waiting? && p < PRIORITY_COUNT
    ensures v !in s.ready[p]
  {
  }

  /** What the first pass leaves for the second. */
  lemma PassLeaves(s: Sched, q: QueueId, count: int, reason: WakeReason)
    requires Inv(s) && q in s.queues && (reason.Finished? || reason.Interrupted?)
    ensures var vs := s.queues[q][..Considered(count, |s.queues[q]|)];
            && Known(s.vps, vs)
            && var (t, candidate) := FirstPass(s, q, WakeCount(count, |s.queues[q]|), reason);
               && ListsGrown(s, t.ready, vs, reason) && candidate == FirstAble(s, vs, reason)
               && WokenAll(s, t, vs, reason) && t.vps[s.running] == s.vps[s.running]
               && (candidate.Some? ==>
                     var v := candidate.value;
                     && v in s.queues[q] && v in t.vps && s.vps[v].state.Waiting?
                     && ReadyVp(t.vps[v], AfterSleep(s, v)))
  {
    hide BitmapOk, ReadyOk, TimeoutOk, FinalOk, Placed, Woken, WakeEach;
    var n := WakeCount(count, |s.queues[q]|);
    var vs := s.queues[q][..n];
    assert n == Considered(count, |s.queues[q]|);
    FirstPassTakes(s, q, n, reason);
    PrefixOnQueue(s, q, n);
    PassLists(s, q, vs, reason, None);
    RunnerNotWoken(s, q, vs);
    if FirstAble(s, vs, reason).Some? {
      FirstArrives(s, vs, reason);
      FirstIsReady(s, FirstPass(s, q, n, reason).0, vs, reason, FirstAble(s, vs, reason).value);
    }
  }

  lemma RunnerNotWoken(s: Sched, q: QueueId, vs: seq<VpId>)
    requires Inv(s) && OnQueue(s, q, vs)
    ensures s.running !in vs && Known(s.vps, vs) && forall v | v in vs :: s.vps[v].state.Waiting?
  {
  }

  lemma FirstIsReady(s: Sched, t: Sched, vs: seq<VpId>, reason: WakeReason, v: VpId)
    requires Inv(s) && Inv(t) && Known(s.vps, vs) && WokenAll(s, t, vs, reason) && v in vs && Able(s, v, reason)
    requires s.vps[v].state.Waiting? && (reason.Finished? || reason.Interrupted?)
    requires t.running == s.running && v != s.running
    ensures v in t.vps && ReadyVp(t.vps[v], AfterSleep(s, v))
  {
    assert Boosted(s, v) == AfterSleep(s, v);
    assert Placed(s, v) && Placed(t, v);
  }

  /** Who runs after a wake-up: the first woken VP that can run, exactly if switching is allowed,
      it heads the highest ready list that is not empty, and its priority after the wait is
      not below the runner's; otherwise whoever ran before. */
  lemma WakeSwitchesExactly(s: Sched, q: QueueId, count: int, reason: WakeReason, allowSwitch: bool, cooperation: bool)
    requires Inv(s) && q in s.queues && (reason.Finished? || reason.Interrupted?)
    ensures var vs := s.queues[q][..Considered(count, |s.queues[q]|)];
            && Known(s.vps, vs)
            && var t, first := WakeUpSome(s, q, count, reason, allowSwitch, cooperation), FirstAble(s, vs, reason);
               && (first.Some? ==>
                     && first.value in s.vps && first.value != s.running
                     && (t.running == first.value <==>
                         allowSwitch && cooperation && Preempts(s, vs, reason, first.value))
                     && (t.running != first.value ==> t.running == s.running))
               && (first.None? ==> t.running == s.running)
               && t.vps[t.running].effectivePriority >= s.vps[s.running].effectivePriority
  {
    hide BitmapOk, ReadyOk, WaitOk, TimeoutOk, FinalOk, Placed, FirstPass, WokenAll, SchedulerState.MaybeSwitchTo;
    var vs := s.queues[q][..Considered(count, |s.queues[q]|)];
    PassLeaves(s, q, count, reason);
    var (t, candidate) := FirstPass(s, q, WakeCount(count, |s.queues[q]|), reason);
    if candidate.Some? {
      var v := candidate.value;
      FirstArrives(s, vs, reason);
      WaiterOnNoList(s, v, AfterSleep(s, v));
      GrownHeads(s, t.ready, vs, reason, v, AfterSleep(s, v));
      SwitchDecides(t, v, cooperation);
      NotTheRunner(t, v);
    }
  }

  /** Where everybody stands after a wake-up: those who became ready are at the ends of the lists
      of their priorities; if the first of them took the CPU, it is on no list, and the runner it
      has replaced is ready at the end of the list of its base priority, with a full slice. */
  lemma WakeListsExactly(s: Sched, q: QueueId, count: int, reason: WakeReason, allowSwitch: bool, cooperation: bool)
    requires Inv(s) && q in s.queues && (reason.Finished? || reason.Interrupted?)
    ensures var vs := s.queues[q][..Considered(count, |s.queues[q]|)];
            && Known(s.vps, vs)
            && var t := WakeUpSome(s, q, count, reason, allowSwitch, cooperation);
               && (t.running == s.running ==>
                     ListsGrown(s, t.ready, vs, reason) && t.vps[s.running] == s.vps[s.running])
               && (t.running != s.running ==>
                     var r, base := s.running, s.vps[s.running].priority;
                     && r in t.vps && t.running in s.vps
                     && t.vps[r] == s.vps[r].(state := Ready, effectivePriority := base,
                                              quantumAllowance := (63 - base) / 8 + 1, waitStart := s.now)
                     && t.vps[t.running].state.Running?
                     && t.vps[t.running].effectivePriority == AfterSleep(s, t.running)
                     && t.vps[t.running].quantumAllowance == (63 - AfterSleep(s, t.running)) / 8 + 1
                     && exists grown :: ListsGrown(s, grown, vs, reason)
                                        && ListsSwitched(grown, t.ready, AfterSleep(s, t.running), r, base))
  {
    hide BitmapOk, ReadyOk, WaitOk, TimeoutOk, FinalOk, Placed, FirstPass, WokenAll, SchedulerState.MaybeSwitchTo,
      ListsGrown, ListsSwitched;
    PassLeaves(s, q, count, reason);
    var (t, candidate) := FirstPass(s, q, WakeCount(count, |s.queues[q]|), reason);
    if candidate.Some? {
      SwitchDecides(t, candidate.value, cooperation);
      NotTheRunner(t, candidate.value);
    }
  }

  lemma {:induction false} SleepersAreIgnored(s: Sched, vs: seq<VpId>, reason: WakeReason)
    requires Known(s.vps, vs) && (reason.Finished? || reason.Interrupted?)
    requires forall v | v in vs :: s.vps[v].state.Waiting?
    ensures Sleepers(s, vs, reason) == Ignored(s, vs, reason)
  {
    if vs != [] {
      assert vs[0] in vs && forall v | v in vs[1..] :: v in vs;
      SleepersAreIgnored(s, vs[1..], reason);
    }
  }

  /** The record of a VP whose wait has been ended with the given reason. */
  ghost predicate Freed(s: Sched, v: VpId, vp: Vp, reason: WakeReason, runs: bool)
    requires v in s.vps && s.quantumsPerQuarter > 0
  {
    && (if runs then vp.state.Running? else vp.state.Ready?)
    && vp.wakeReason == reason && vp.waitingOn.None? && !vp.timeoutValid
    && vp.priority == s.vps[v].priority && vp.suspensionCount == s.vps[v].suspensionCount
    && vp.effectivePriority == if vp.suspensionCount == 0 then AfterSleep(s, v) else s.vps[v].effectivePriority
  }

  /** Whose records a wake-up changes: those of the waiters it wakes and of a runner that it
      replaces; the queue keeps the others in order. */
  lemma WakeFreesExactly(s: Sched, q: QueueId, count: int, reason: WakeReason, allowSwitch: bool, cooperation: bool)
    requires Inv(s) && q in s.queues && (reason.Finished? || reason.Interrupted?)
    ensures var n := Considered(count, |s.queues[q]|);
            var vs := s.queues[q][..n];
            && Known(s.vps, vs)
            && var t := WakeUpSome(s, q, count, reason, allowSwitch, cooperation);
               && t.vps.Keys == s.vps.Keys
               && q in t.queues && t.queues[q] == Sleepers(s, vs, reason) + s.queues[q][n..]
               && (forall v | v in s.vps ::
                     if v in vs && Wakes(s, v, reason) then Freed(s, v, t.vps[v], reason, v == t.running)
                     else v == s.running || t.vps[v] == s.vps[v])
  {
    hide BitmapOk, ReadyOk, TimeoutOk, FinalOk, Placed, FirstPass, SchedulerState.MaybeSwitchTo;
    var n := Considered(count, |s.queues[q]|);
    var vs := s.queues[q][..n];
    assert n == WakeCount(count, |s.queues[q]|);
    PassLeaves(s, q, count, reason);
    FirstPassTakes(s, q, n, reason);
    var (t, candidate) := FirstPass(s, q, n, reason);
    PrefixOnQueue(s, q, n);
    RunnerNotWoken(s, q, vs);
    SleepersAreIgnored(s, vs, reason);
    var r := WakeUpSome(s, q, count, reason, allowSwitch, cooperation);
    if candidate.Some? {
      SwitchDecides(t, candidate.value, cooperation);
      FirstArrives(s, vs, reason);
    }
    forall v | v in s.vps
      ensures if v in vs && Wakes(s, v, reason) then Freed(s, v, r.vps[v], reason, v == r.running)
              else v == s.running || r.vps[v] == s.vps[v]
    {
      FreedOne(s, t, r, vs, reason, v);
    }
  }

  lemma FreedOne(s: Sched, t: Sched, r: Sched, vs: seq<VpId>, reason: WakeReason, v: VpId)
    requires Inv(s) && Known(s.vps, vs) && WokenAll(s, t, vs, reason) && v in s.vps
    requires forall u | u in vs :: s.vps[u].state.Waiting?
    requires reason.Finished? || reason.Interrupted?
    requires t.running == s.running && v in t.vps && v in r.vps
    requires r.running != s.running ==> r.running in vs && Wakes(s, r.running, reason)
    requires v != s.running ==> r.vps[v] == if v == r.running then t.vps[v].(state := Running) else t.vps[v]
    ensures if v in vs && Wakes(s, v, reason) then Freed(s, v, r.vps[v], reason, v == r.running)
            else v == s.running || r.vps[v] == s.vps[v]
  {
    hide BitmapOk, ReadyOk, WaitOk, TimeoutOk, FinalOk, Placed;
    if v in vs && Wakes(s, v, reason) {
      assert Boosted(s, v) == (if AfterSleep(s, v) > 63 then 63 else AfterSleep(s, v));
    }
  }
}
