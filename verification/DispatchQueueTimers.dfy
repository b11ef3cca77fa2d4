/** The timers of a dispatch queue: which one is taken, when, and when it is due again. */
module DispatchQueueTimers {
  import opened Sequences
  import opened DispatchQueueState
  import opened DispatchQueueInvariant
  import opened DispatchQueueRuns
  import opened DispatchQueueReachable

  /** A timer is taken only once its deadline has passed, and only the first of those that
      are due first; an item is taken only if no timer is due. */
  lemma EarliestTimerFirst(run: Run, now: int)
    requires Valid(run)
    ensures var q := Final(run);
            match Picked(q, now)
            case Some(Fired(t)) =>
              && t in q.timers && t.deadline <= now
              && (forall u | u in q.timers && u != t :: Before(t, u))
            case Some(Immediate(id)) => Head(q.items) == Some(id) && forall u | u in q.timers :: u.deadline > now
            case None => q.items == [] && forall u | u in q.timers :: u.deadline > now
  {
    ReachableInv(run);
    var q := Final(run);
    forall u | u in q.timers && u != q.timers[0] ensures Before(q.timers[0], u) {
      var k :| 0 <= k < |q.timers| && q.timers[k] == u;
    }
  }

  // ---- Re-arming ----------------------------------------------------------------

  /** `k` intervals after `deadline`. */
  function Multiple(deadline: int, interval: int, k: nat): int {
    deadline + k * interval
  }

  /** The new deadline is the first of the old one's later multiples that is not before
      now; in particular it is at least one interval later, and less than one interval
      after now unless the old deadline was later still. */
  lemma {:induction false} NextDeadlineIsLeast(deadline: int, interval: int, now: int) returns (k: nat)
    requires interval > 0
    ensures k >= 1 && NextDeadline(deadline, interval, now) == Multiple(deadline, interval, k)
    ensures NextDeadline(deadline, interval, now) >= now
    ensures forall j: nat | 1 <= j < k :: Multiple(deadline, interval, j) < now
    decreases now - deadline
  {
    var next := deadline + interval;
    if next < now {
      var l := NextDeadlineIsLeast(next, interval, now);
      k := l + 1;
      assert Multiple(next, interval, l) == Multiple(deadline, interval, k);
      forall j: nat | 1 <= j < k ensures Multiple(deadline, interval, j) < now {
        if j > 1 {
          assert Multiple(next, interval, j - 1) == Multiple(deadline, interval, j);
        }
      }
    } else {
      k := 1;
    }
  }

  /** A timer lies on the grid of the timer it was submitted as. */
  ghost predicate InPhase(t: Timer, submitted: map<nat, Timer>) {
    && t.id in submitted && submitted[t.id].interval == t.interval
    && exists k: nat :: t.deadline == Multiple(submitted[t.id].deadline, t.interval, k)
  }

  ghost predicate PhasesOk(q: Queue) {
    && (forall id | id in q.log.submitted :: id < q.log.nextId)
    && (forall t | t in q.timers :: InPhase(t, q.log.submitted))
    && (forall vp | vp in q.workers && q.workers[vp].phase.Executing? && q.workers[vp].phase.work.Fired? ::
          InPhase(q.workers[vp].phase.work.timer, q.log.submitted))
  }

  lemma AddTimerPhases(q: Queue, id: nat, deadline: int, interval: int)
    requires PhasesOk(q) && InPhase(Timer(id, deadline, interval, q.log.nextStamp), q.log.submitted)
    ensures PhasesOk(AddTimer(q, id, deadline, interval))
  {
    InsertAtMembers(q.timers, TimerPos(q.timers, deadline), Timer(id, deadline, interval, q.log.nextStamp));
  }

  lemma EnqueueTimerPhases(q: Queue, deadline: int, interval: int)
    requires PhasesOk(q)
    ensures PhasesOk(EnqueueTimer(q, deadline, interval))
  {
    var r := Announced(q, deadline, interval);
    assert Multiple(deadline, interval, 0) == deadline;
    forall t | t in q.timers ensures InPhase(t, r.log.submitted) {
      assert InPhase(t, q.log.submitted);
    }
    forall vp | vp in q.workers && q.workers[vp].phase.Executing? && q.workers[vp].phase.work.Fired?
      ensures InPhase(q.workers[vp].phase.work.timer, r.log.submitted)
    {
      assert InPhase(q.workers[vp].phase.work.timer, q.log.submitted);
    }
    AddTimerPhases(r, q.log.nextId, deadline, interval);
  }

  lemma LookForWorkPhases(q: Queue, vp: WorkerId, mayRelinquish: bool, now: int)
    requires PhasesOk(q) && vp in q.workers
    ensures PhasesOk(LookForWork(q, vp, mayRelinquish, now))
  {
    assert TimerDue(q, now) ==> q.timers[0] in q.timers;
  }

  lemma RetirePhases(q: Queue, vp: WorkerId, now: int, cancelled: bool)
    requires PhasesOk(q) && vp in q.workers && q.workers[vp].phase.Executing?
    ensures PhasesOk(Retire(q, vp, now, cancelled))
  {
    var w, r := q.workers[vp].phase.work, Ended(q, vp);
    assert PhasesOk(r);
    if Repeating(w) {
      var t := w.timer;
      assert InPhase(t, q.log.submitted);
      var k: nat :| t.deadline == Multiple(q.log.submitted[t.id].deadline, t.interval, k);
      var l := NextDeadlineIsLeast(t.deadline, t.interval, now);
      MultipleAdds(q.log.submitted[t.id].deadline, t.interval, k, l);
      AddTimerPhases(r, t.id, NextDeadline(t.deadline, t.interval, now), t.interval);
    }
  }

  lemma MultipleAdds(deadline: int, interval: int, k: nat, l: nat)
    ensures Multiple(Multiple(deadline, interval, k), interval, l) == Multiple(deadline, interval, k + l)
  {
  }

  lemma StepKeepsPhases(q: Queue, st: Step)
    requires PhasesOk(q) && Enabled(q, st)
    ensures PhasesOk(Apply(q, st))
  {
    match st
    case SDispatchTimer(vp, deadline, interval, woken) => EnqueueTimerPhases(q, deadline, interval);
    case SRemoveTimer(id) => TimersWithoutMembers(q.timers, id);
    case SBegin(vp, now) => LookForWorkPhases(q, vp, false, now);
    case SWakeUp(vp, now) => LookForWorkPhases(q, vp, MayLeave(q, vp), now);
    case SFinish(vp, armTime, cancelled, now) =>
      RetirePhases(q, vp, armTime, cancelled);
      LookForWorkPhases(Retire(q, vp, armTime, cancelled), vp, false, now);
    case _ =>
  }

  lemma {:induction false} CreatedPhases(q: Queue, pool: seq<WorkerId>)
    requires PhasesOk(q)
    ensures PhasesOk(AcquireAll(q, pool))
  {
    if pool != [] { CreatedPhases(q, pool[..|pool| - 1]); }
  }

  /** A repeating timer never drifts: in every reachable state its deadline is a whole
      number of intervals after the one it was submitted with. */
  lemma {:induction false} TimersKeepTheirPhase(run: Run)
    requires Valid(run)
    ensures PhasesOk(Final(run))
  {
    match run
    case Create(minConcurrency, maxConcurrency, pool) =>
      CreatedPhases(Queue([], [], 0, Running, minConcurrency, maxConcurrency, 0,
                          seq(maxConcurrency, (i: nat) => None), map[], History(0, 0, [], [], [], [], map[])), pool);
    case Then(before, step) =>
      TimersKeepTheirPhase(before);
      StepKeepsPhases(Final(before), step);
  }
}
