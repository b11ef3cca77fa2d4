/** Who comes first is served first: the order of a wait queue over whole runs
    (Kernel/Sources/dispatcher/VirtualProcessorScheduler.c:177-192, 299-323, 355-434).
    The invariant compares arrivals by the quantum in which they happened; here they are
    compared by the steps in which they happened, so that arrivals within one quantum
    are told apart. */
module SchedulerArrivals {
  import opened Sequences
  import opened MonotonicClocks
  import opened SchedulerState
  import opened SchedulerInvariant
  import opened SchedulerSteps
  import opened SchedulerRuns
  import opened SchedulerReachable
  import opened SchedulerWaits

  // ---- Order in a list ----------------------------------------------------------

  ghost predicate Before(q: seq<VpId>, a: VpId, b: VpId) {
    exists i, j :: 0 <= i < j < |q| && q[i] == a && q[j] == b
  }

  lemma BeforeIsAntisymmetric(q: seq<VpId>, a: VpId, b: VpId)
    requires Distinct(q) && Before(q, a, b)
    ensures !Before(q, b, a) && a in q && b in q && a != b
  {
  }

  /** `r` is what is left of `q`: nobody has joined and nobody has been overtaken. */
  ghost predicate Thinned(q: seq<VpId>, r: seq<VpId>) {
    && (forall a | a in r :: a in q)
    && (forall a, b | a in r && b in r && Before(q, a, b) :: Before(r, a, b))
  }

  lemma ThinnedTwice(q: seq<VpId>, r: seq<VpId>, t: seq<VpId>)
    requires Thinned(q, r) && Thinned(r, t)
    ensures Thinned(q, t)
  {
  }

  lemma WithoutThins(q: seq<VpId>, v: VpId)
    requires Distinct(q)
    ensures Thinned(q, Without(q, v))
  {
    WithoutMembers(q, v);
    var r, at := Without(q, v), IndexOf(q, v);
    forall a, b | a in r && b in r && Before(q, a, b) ensures Before(r, a, b) {
      var i, j :| 0 <= i < j < |q| && q[i] == a && q[j] == b;
      if at < |q| {
        assert r[if i < at then i else i - 1] == a && r[if j < at then j else j - 1] == b;
      }
    }
  }

  /** A newcomer changes the order of nobody else, and stands where it was put. */
  lemma InsertKeepsBefore(q: seq<VpId>, i: nat, v: VpId, a: VpId, b: VpId)
    requires i <= |q| && Before(q, a, b)
    ensures Before(InsertAt(q, i, v), a, b)
  {
    var r := InsertAt(q, i, v);
    var j, k :| 0 <= j < k < |q| && q[j] == a && q[k] == b;
    assert r[if j < i then j else j + 1] == a && r[if k < i then k else k + 1] == b;
  }

  lemma InsertedBetween(q: seq<VpId>, i: nat, v: VpId, k: nat)
    requires i <= |q| && k < |q|
    ensures if k < i then Before(InsertAt(q, i, v), q[k], v) else Before(InsertAt(q, i, v), v, q[k])
  {
    var r := InsertAt(q, i, v);
    assert r[i] == v && r[if k < i then k else k + 1] == q[k];
  }

  // ---- What each operation does to a wait queue -----------------------------------

  lemma WakeUpOneThins(s: Sched, p: QueueId, v: VpId, reason: WakeReason, q: QueueId)
    requires Inv(s) && p in s.queues && v in s.queues[p] && q in s.queues
    ensures var t := WakeUpOne(s, p, v, reason, false, false);
            q in t.queues && Thinned(s.queues[q], t.queues[q])
  {
    hide Without, Thinned;
    WakeUpOneFrame(s, p, v, reason);
    WithoutThins(s.queues[q], v);
    ThinnedSame(s.queues[q]);
  }

  lemma ThinnedSame(q: seq<VpId>)
    ensures Thinned(q, q)
  {
  }

  lemma {:induction false} ExpireThins(s: Sched, q: QueueId)
    requires Inv(s) && q in s.queues
    ensures q in Expire(s).queues && Thinned(s.queues[q], Expire(s).queues[q])
    decreases |s.timeouts|
  {
    hide Thinned, WakeUpOne;
    ThinnedSame(s.queues[q]);
    if s.timeouts != [] {
      var v := s.timeouts[0];
      TimeoutOwner(s, v);
      if s.vps[v].timeoutDeadline <= s.now {
        ExpireFirst(s);
        var t := WakeUpOne(s, s.vps[v].waitingOn.value, v, TimedOut, false, false);
        WakeUpOneThins(s, s.vps[v].waitingOn.value, v, TimedOut, q);
        ExpireThins(t, q);
        ThinnedTwice(s.queues[q], t.queues[q], Expire(s).queues[q]);
      }
    }
  }

  lemma TickThins(s: Sched, q: QueueId)
    requires Inv(s) && q in s.queues
    ensures q in Tick(s).queues && Thinned(s.queues[q], Tick(s).queues[q])
  {
    ExpireThins(Advance(s), q);
    SliceQueues(Expire(Advance(s)));
  }

  lemma SliceQueues(s: Sched)
    requires Shaped(s)
    ensures EndSlice(s).queues == s.queues
  {
  }

  lemma {:induction false} WakeEachThins(s: Sched, p: QueueId, vs: seq<VpId>, reason: WakeReason,
                                         found: Option<VpId>, q: QueueId)
    requires Inv(s) && OnQueue(s, p, vs) && (found.Some? ==> found.value in s.vps) && q in s.queues
    ensures var t := WakeEach(s, p, vs, reason, found).0;
            q in t.queues && Thinned(s.queues[q], t.queues[q])
    decreases |vs|
  {
    hide Thinned, BitmapOk, ReadyOk, WaitOk, TimeoutOk, FinalOk, Placed, SchedulerState.WakeUpOne;
    ThinnedSame(s.queues[q]);
    if vs != [] {
      var v := vs[0];
      WakeEachStep(s, p, vs, reason);
      var t := WakeUpOne(s, p, v, reason, false, false);
      WakeUpOneThins(s, p, v, reason, q);
      var candidate :=
        if found.None? && t.vps[v].state.Ready? && t.vps[v].suspensionCount == 0 then Some(v) else found;
      WakeEachThins(t, p, vs[1..], reason, candidate, q);
      ThinnedTwice(s.queues[q], t.queues[q], WakeEach(t, p, vs[1..], reason, candidate).0.queues[q]);
    }
  }

  lemma WakeThins(s: Sched, p: QueueId, count: int, reason: WakeReason, allowSwitch: bool, cooperation: bool,
                  q: QueueId)
    requires Inv(s) && p in s.queues && q in s.queues
    ensures var t := WakeUpSome(s, p, count, reason, allowSwitch, cooperation);
            q in t.queues && Thinned(s.queues[q], t.queues[q])
  {
    hide Thinned, BitmapOk, ReadyOk, WaitOk, TimeoutOk, FinalOk, Placed, WakeEach, SchedulerState.MaybeSwitchTo;
    var n := WakeCount(count, |s.queues[p]|);
    PrefixOnQueue(s, p, n);
    WakeEachThins(s, p, s.queues[p][..n], reason, None, q);
    var (t, candidate) := FirstPass(s, p, n, reason);
    if allowSwitch && candidate.Some? {
      MaybeSwitchQueues(t, candidate.value, cooperation);
    }
  }

  lemma SwitchAwayQueues(s: Sched)
    requires Shaped(s)
    ensures SwitchAway(s).queues == s.queues
  {
  }

  /** Nobody joins a queue but the running VP, by waiting on it; nobody is overtaken. */
  lemma StepThins(s: Sched, idle: VpId, step: Step, q: QueueId)
    requires Safe(s, idle) && Enabled(s, idle, step) && q in s.queues
    requires !Joins(s, step, q)
    ensures q in Apply(s, idle, step).queues
    ensures Thinned(s.queues[q], Apply(s, idle, step).queues[q])
  {
    hide Thinned, BitmapOk, ReadyOk, TimeoutOk, FinalOk, Placed, WakeUpSome, SwitchAway, AddReady, RemoveReady;
    ThinnedSame(s.queues[q]);
    match step
    case TickStep => TickThins(s, q);
    case WaitStep(p, deadline, curTime, interruptable) => OtherWait(s, step, q);
    case WakeStep(p, count, reason, allowSwitch, cooperation) =>
      WakeThins(s, p, count, reason, allowSwitch, cooperation, q);
    case SuspendStep(v) => SuspendQueues(s, v);
    case ResumeStep(v, force, cooperation) => ResumeQueues(s, v, force, cooperation);
    case SetPriorityStep(v, pri) => SetPriorityQueues(s, v, pri);
    case CreateStep(v, pri) =>
    case NewQueueStep(p) =>
    case TerminateStep(cooperation) => TerminateQueues(s, cooperation);
    case FinalizeStep =>
  }

  lemma SuspendQueues(s: Sched, v: VpId)
    requires Shaped(s) && v in s.vps
    ensures Suspend(s, v).queues == s.queues
  {
  }

  lemma ResumeQueues(s: Sched, v: VpId, force: bool, cooperation: bool)
    requires Shaped(s) && v in s.vps
    ensures Resume(s, v, force, cooperation).queues == s.queues
  {
  }

  lemma SetPriorityQueues(s: Sched, v: VpId, pri: int)
    requires Shaped(s) && v in s.vps && InRange(pri)
    ensures SetPriority(s, v, pri).queues == s.queues
  {
  }

  lemma TerminateQueues(s: Sched, cooperation: bool)
    requires Shaped(s) && FieldsOk(s) && !FinalizesNow(s)
    ensures Terminate(s, cooperation).queues == s.queues
  {
  }

  /** The running VP goes to sleep on `q`. */
  predicate Joins(s: Sched, step: Step, q: QueueId) {
    && step.WaitStep? && step.q == q
    && (step.deadline.Some? ==> step.curTime < Nanos(step.deadline.value))
  }

  lemma OtherWait(s: Sched, wait: Step, q: QueueId)
    requires Inv(s) && wait.WaitStep? && wait.q in s.queues && q in s.queues && !Joins(s, wait, q)
    ensures var r := WaitOn(s, wait.q, wait.deadline, wait.curTime, wait.interruptable);
            r.Blocked? ==> q in r.next.queues && r.next.queues[q] == s.queues[q]
  {
    WaitQueues(s, wait);
  }

  lemma WaitQueues(s: Sched, wait: Step)
    requires Inv(s) && wait.WaitStep? && wait.q in s.queues
    ensures var r := WaitOn(s, wait.q, wait.deadline, wait.curTime, wait.interruptable);
            && (r.Blocked? <==> Joins(s, wait, wait.q))
            && (r.Blocked? ==>
                  r.next.queues == s.queues[wait.q := InsertAt(s.queues[wait.q],
                    WaitPos(s.vps, s.queues[wait.q], s.vps[s.running].effectivePriority), s.running)])
  {
    match wait.deadline
    case None => SwitchAwayQueues(Enqueue(s, wait.q, wait.interruptable));
    case Some(d) =>
      var armed := ArmTimeout(s, s.running, d);
      WaitPosSame(s.vps, armed.vps, s.queues[wait.q], s.vps[s.running].effectivePriority);
      SwitchAwayQueues(Enqueue(armed, wait.q, wait.interruptable));
  }

  lemma WaitPosSame(vps: map<VpId, Vp>, vps': map<VpId, Vp>, q: seq<VpId>, pri: int)
    requires Known(vps, q) && Known(vps', q)
    requires forall v | v in q :: vps'[v].effectivePriority == vps[v].effectivePriority
    ensures WaitPos(vps, q, pri) == WaitPos(vps', q, pri)
  {
  }

  // ---- Whole runs -----------------------------------------------------------------

  /** `a` and `b` wait on `q` in every state of this run. */
  ghost predicate BothWait(s: Sched, idle: VpId, steps: seq<Step>, q: QueueId, a: VpId, b: VpId)
    requires Safe(s, idle)
    decreases |steps|
  {
    && q in s.queues && a in s.queues[q] && b in s.queues[q]
    && (steps != [] ==>
          && Enabled(s, idle, steps[0])
          && (StepKeepsSafe(s, idle, steps[0]);
              BothWait(Apply(s, idle, steps[0]), idle, steps[1..], q, a, b)))
  }

  /** Two waiters that both go on waiting keep their order. */
  lemma StepKeepsOrder(s: Sched, idle: VpId, step: Step, q: QueueId, a: VpId, b: VpId)
    requires Safe(s, idle) && Enabled(s, idle, step) && q in s.queues && Before(s.queues[q], a, b)
    ensures var t := Apply(s, idle, step);
            q in t.queues && (a in t.queues[q] && b in t.queues[q] ==> Before(t.queues[q], a, b))
  {
    hide Before, BitmapOk, ReadyOk, TimeoutOk, FinalOk, Placed;
    if Joins(s, step, q) {
      WaitQueues(s, step);
      InsertKeepsBefore(s.queues[q], WaitPos(s.vps, s.queues[q], s.vps[s.running].effectivePriority), s.running, a, b);
    } else {
      StepThins(s, idle, step, q);
    }
  }

  lemma {:induction false} RunKeepsOrder(s: Sched, idle: VpId, steps: seq<Step>, q: QueueId, a: VpId, b: VpId)
    requires Safe(s, idle) && BothWait(s, idle, steps, q, a, b) && Before(s.queues[q], a, b)
    ensures Exec(s, idle, steps).Some?
    ensures var t := Exec(s, idle, steps).value;
            q in t.queues && Before(t.queues[q], a, b)
    decreases |steps|
  {
    hide Before;
    if steps != [] {
      StepKeepsSafe(s, idle, steps[0]);
      StepKeepsOrder(s, idle, steps[0], q, a, b);
      RunKeepsOrder(Apply(s, idle, steps[0]), idle, steps[1..], q, a, b);
    }
  }

  /** The newcomer stands behind every waiter of at least its effective priority and before
      every other. */
  lemma NewcomerStands(s: Sched, idle: VpId, wait: Step, u: VpId)
    requires Safe(s, idle) && Enabled(s, idle, wait) && wait.WaitStep? && Joins(s, wait, wait.q)
    requires u in s.queues[wait.q] && u in s.vps
    ensures var t := Apply(s, idle, wait);
            && wait.q in t.queues && u in t.queues[wait.q] && s.running in t.queues[wait.q]
            && if s.vps[u].effectivePriority >= s.vps[s.running].effectivePriority
               then Before(t.queues[wait.q], u, s.running)
               else Before(t.queues[wait.q], s.running, u)
  {
    WaitQueues(s, wait);
    var q, pri := s.queues[wait.q], s.vps[s.running].effectivePriority;
    var i := WaitPos(s.vps, q, pri);
    var k :| 0 <= k < |q| && q[k] == u;
    InsertedBetween(q, i, s.running, k);
    InsertAtMembers(q, i, s.running);
    if i <= k { assert Ordered(s.vps, q); }
  }

  /** The order of a wait queue in every run: a waiter is before one that has arrived after it,
      in the same quantum or in a later one, exactly if its effective priority was not lower
      than that of the newcomer. */
  lemma ArrivalDecides(s: Sched, idle: VpId, wait: Step, u: VpId, steps: seq<Step>, t: Sched)
    requires Safe(s, idle) && Enabled(s, idle, wait) && wait.WaitStep? && Joins(s, wait, wait.q)
    requires u in s.queues[wait.q] && u in s.vps && Safe(Apply(s, idle, wait), idle)
    requires BothWait(Apply(s, idle, wait), idle, steps, wait.q, u, s.running)
    requires Exec(Apply(s, idle, wait), idle, steps) == Some(t)
    ensures wait.q in t.queues
    ensures Before(t.queues[wait.q], u, s.running) <==>
            s.vps[u].effectivePriority >= s.vps[s.running].effectivePriority
    ensures Before(t.queues[wait.q], s.running, u) <==>
            s.vps[u].effectivePriority < s.vps[s.running].effectivePriority
  {
    hide Before, BitmapOk, ReadyOk, WaitOk, TimeoutOk, FinalOk, Placed, Apply, WaitOn;
    NewcomerStands(s, idle, wait, u);
    if s.vps[u].effectivePriority >= s.vps[s.running].effectivePriority {
      OrderStays(Apply(s, idle, wait), idle, steps, wait.q, u, s.running);
    } else {
      OrderStays(Apply(s, idle, wait), idle, steps, wait.q, s.running, u);
    }
  }

  lemma OrderStays(s: Sched, idle: VpId, steps: seq<Step>, q: QueueId, a: VpId, b: VpId)
    requires Safe(s, idle) && q in s.queues && Before(s.queues[q], a, b)
    requires BothWait(s, idle, steps, q, a, b) || BothWait(s, idle, steps, q, b, a)
    ensures Exec(s, idle, steps).Some?
    ensures var t := Exec(s, idle, steps).value;
            q in t.queues && Before(t.queues[q], a, b) && !Before(t.queues[q], b, a)
  {
    hide Before, BitmapOk, ReadyOk, TimeoutOk, FinalOk, Placed, Ordered;
    if BothWait(s, idle, steps, q, b, a) { BothWaitSwapped(s, idle, steps, q, b, a); }
    RunKeepsOrder(s, idle, steps, q, a, b);
    BeforeIsAntisymmetric(Exec(s, idle, steps).value.queues[q], a, b);
  }

  lemma {:induction false} BothWaitSwapped(s: Sched, idle: VpId, steps: seq<Step>, q: QueueId, a: VpId, b: VpId)
    requires Safe(s, idle) && BothWait(s, idle, steps, q, a, b)
    ensures BothWait(s, idle, steps, q, b, a)
    decreases |steps|
  {
    if steps != [] {
      StepKeepsSafe(s, idle, steps[0]);
      BothWaitSwapped(Apply(s, idle, steps[0]), idle, steps[1..], q, a, b);
    }
  }

  /** Who enters first leaves first: a Finished wake-up that takes the later one of two waiters
      takes the earlier one too, unless the later one had the higher effective priority. */
  lemma FirstComeFirstServed(s: Sched, idle: VpId, wait: Step, u: VpId, steps: seq<Step>, t: Sched, wake: Step)
    requires Safe(s, idle) && Enabled(s, idle, wait) && wait.WaitStep? && Joins(s, wait, wait.q)
    requires u in s.queues[wait.q] && u in s.vps && Safe(Apply(s, idle, wait), idle)
    requires BothWait(Apply(s, idle, wait), idle, steps, wait.q, u, s.running)
    requires Exec(Apply(s, idle, wait), idle, steps) == Some(t) && Safe(t, idle)
    requires wake.WakeStep? && wake.q == wait.q && wake.reason.Finished? && Enabled(t, idle, wake)
    ensures var r := Apply(t, idle, wake);
            && wait.q in r.queues
            && (s.vps[u].effectivePriority >= s.vps[s.running].effectivePriority ==>
                  s.running !in r.queues[wait.q] ==> u !in r.queues[wait.q])
            && (s.vps[u].effectivePriority < s.vps[s.running].effectivePriority ==>
                  u !in r.queues[wait.q] ==> s.running !in r.queues[wait.q])
  {
    hide Before;
    ArrivalDecides(s, idle, wait, u, steps, t);
    WakeTakesPrefix(t, wake.q, wake.count, wake.allowSwitch, wake.cooperation);
    var q, n := t.queues[wait.q], WakeCount(wake.count, |t.queues[wait.q]|);
    assert Apply(t, idle, wake).queues[wait.q] == q[n..];
    if s.vps[u].effectivePriority >= s.vps[s.running].effectivePriority {
      TakenInOrder(q, n, u, s.running);
    } else {
      TakenInOrder(q, n, s.running, u);
    }
  }

  lemma TakenInOrder(q: seq<VpId>, n: nat, a: VpId, b: VpId)
    requires Distinct(q) && Before(q, a, b) && n <= |q|
    ensures b !in q[n..] ==> a !in q[n..]
  {
    var i, j :| 0 <= i < j < |q| && q[i] == a && q[j] == b;
    if a in q[n..] {
      var k :| n <= k < |q| && q[k] == a;
      assert k == i && q[n..][j - n] == b;
    }
  }
}
