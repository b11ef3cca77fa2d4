/** What becomes of work: a repeating timer comes back as long as nobody stops it, work that is
    removed never starts, termination can always be completed, and workers are attached exactly
    when they are wanted (Kernel/Sources/dispatchqueue/DispatchQueue.c:62-137, 190-231,
    367-514, 768-900). */
module DispatchQueueOutcomes {
  import opened Sequences
  import opened DispatchQueueState
  import opened DispatchQueueInvariant
  import opened DispatchQueueRuns
  import opened DispatchQueueReachable
  import opened DispatchQueueTimers
  import opened DispatchQueueService

  // ---- After a closure ------------------------------------------------------------

  /** The least `k` for which `k` intervals after the deadline is not before `now`, at least 1. */
  ghost predicate IsNextDue(d: int, t: Timer, now: int, k: nat) {
    && k >= 1 && d == t.deadline + k * t.interval && d >= now
    && forall j: nat | 1 <= j < k :: t.deadline + j * t.interval < now
  }

  /** `t` is armed, or `vp` has it in its hands. */
  predicate ArmedOrFired(q: Queue, vp: WorkerId, t: Timer) {
    t in q.timers || (vp in q.workers && q.workers[vp].phase == Executing(Fired(t)))
  }

  lemma InsertedTimer(timers: seq<Timer>, i: nat, t: Timer)
    requires i <= |timers|
    ensures t in InsertAt(timers, i, t)
  {
    assert InsertAt(timers, i, t)[i] == t;
  }

  /** A look for work takes nothing away but what the worker then has in its hands. */
  lemma LookKeepsTimer(q: Queue, vp: WorkerId, mayRelinquish: bool, now: int, t: Timer)
    requires Inv(q) && vp in q.workers && t in q.timers
    ensures ArmedOrFired(LookForWork(q, vp, mayRelinquish, now), vp, t)
  {
    if TimerDue(q, now) && t != q.timers[0] {
      var k :| 0 <= k < |q.timers| && q.timers[k] == t;
      assert q.timers[1..][k - 1] == t;
    }
  }

  lemma LookKeepsLog(q: Queue, vp: WorkerId, mayRelinquish: bool, now: int)
    requires vp in q.workers
    ensures var r := LookForWork(q, vp, mayRelinquish, now);
            r.log.done == q.log.done && r.log.dropped == q.log.dropped && r.log.ended == q.log.ended
            && r.log.submitted == q.log.submitted && r.log.nextId == q.log.nextId
  {
  }

  /** A repeating timer whose closure has returned on a running queue and that was not cancelled
      is armed again, or is due already and taken at once: for the first of its later times
      that is not before the clock reading. */
  lemma RepeatingComesBack(run: Run, vp: WorkerId, armTime: int, now: int) returns (t: Timer, k: nat)
    requires Valid(run) && Enabled(Final(run), SFinish(vp, armTime, false, now))
    requires Final(run).state.Running? && Repeating(Final(run).workers[vp].phase.work)
    ensures var was := Final(run).workers[vp].phase.work.timer;
            var r := Apply(Final(run), SFinish(vp, armTime, false, now));
            && t.id == was.id && t.interval == was.interval && IsNextDue(t.deadline, was, armTime, k)
            && ArmedOrFired(r, vp, t)
            && TimerCount(r.timers, t.id) + WorkCount(InFlight(r.lanes, r.workers), t.id, true) == 1
            && r.log.done == Final(run).log.done && r.log.dropped == Final(run).log.dropped
            && r.log.ended == Final(run).log.ended + [Fired(was)]
  {
    hide Books, LanesOk, TimersOk, Conserved, LookForWork, Places;
    var q := Final(run);
    ReachableInv(run);
    var was := q.workers[vp].phase.work.timer;
    k := NextDeadlineIsLeast(was.deadline, was.interval, armTime);
    t := Timer(was.id, NextDeadline(was.deadline, was.interval, armTime), was.interval, q.log.nextStamp);
    forall j: nat | 1 <= j < k ensures was.deadline + j * was.interval < armTime {
      assert Multiple(was.deadline, was.interval, j) < armTime;
    }
    var m := Retire(q, vp, armTime, false);
    RetireInv(q, vp, armTime, false);
    InsertedTimer(q.timers, TimerPos(q.timers, t.deadline), t);
    assert t in m.timers;
    LookKeepsTimer(m, vp, false, now, t);
    LookKeepsLog(m, vp, false, now);
    var next := Then(run, SFinish(vp, armTime, false, now));
    OnlyPlace(next, vp, t);
  }

  /** Who is armed or in a worker's hands is so exactly once. */
  lemma OnlyPlace(run: Run, vp: WorkerId, t: Timer)
    requires Valid(run) && ArmedOrFired(Final(run), vp, t)
    ensures var q := Final(run);
            TimerCount(q.timers, t.id) + WorkCount(InFlight(q.lanes, q.workers), t.id, true) == 1
  {
    var q := Final(run);
    ReachableInv(run);
    SubmissionsAreConserved(run, t.id);
    if t in q.timers {
      ArmedCounts(q.timers, t);
    } else {
      HeldCounts(q, vp);
    }
  }

  lemma {:induction false} ArmedCounts(timers: seq<Timer>, t: Timer)
    requires t in timers
    ensures TimerCount(timers, t.id) >= 1
  {
    var n := |timers| - 1;
    if timers[n] != t {
      assert t in timers[..n];
      ArmedCounts(timers[..n], t);
    }
  }

  lemma HeldCounts(q: Queue, vp: WorkerId)
    requires Inv(q) && vp in q.workers && q.workers[vp].phase.Executing?
    ensures WorkCount(InFlight(q.lanes, q.workers), IdOf(q.workers[vp].phase.work), true) >= 1
  {
    var w := q.workers[vp].phase.work;
    var a, b := SetPhaseKeeps(q, vp, q.workers[vp].phase);
    assert SetPhase(q, vp, q.workers[vp].phase) == q by {
      assert q.workers[vp := q.workers[vp]] == q.workers;
    }
    WorkCountMiddle(a, w, b, IdOf(w), true);
  }

  /** Work that does not repeat, and a timer that was cancelled, are over when the closure has
      returned: they are neither queued nor armed nor in anybody's hands. */
  lemma OthersAreOver(run: Run, vp: WorkerId, armTime: int, cancelled: bool, now: int)
    requires Valid(run) && Enabled(Final(run), SFinish(vp, armTime, cancelled, now))
    requires !Repeating(Final(run).workers[vp].phase.work) || cancelled
    ensures var w, r := Final(run).workers[vp].phase.work, Apply(Final(run), SFinish(vp, armTime, cancelled, now));
            && r.log.done == Final(run).log.done + [w] && r.log.ended == Final(run).log.ended + [w]
            && r.log.dropped == Final(run).log.dropped
            && Count(r.items, IdOf(w)) == 0 && TimerCount(r.timers, IdOf(w)) == 0
            && WorkCount(InFlight(r.lanes, r.workers), IdOf(w), true) == 0
  {
    hide LookForWork, Conserved;
    var q := Final(run);
    var w := q.workers[vp].phase.work;
    ReachableInv(run);
    LookKeepsLog(Retire(q, vp, armTime, cancelled), vp, false, now);
    SubmissionsAreConserved(Then(run, SFinish(vp, armTime, cancelled, now)), IdOf(w));
    WorkCountLast(q.log.done, w, IdOf(w), true);
  }

  // ---- Repeating timers over whole runs ---------------------------------------------

  /** Items and timers are not mixed up: only timers have been announced as such. */
  ghost predicate KindsOk(q: Queue) {
    && (forall id | id in q.items :: id !in q.log.submitted && id < q.log.nextId)
    && (forall vp | vp in q.workers && q.workers[vp].phase.Executing? && q.workers[vp].phase.work.Immediate? ::
          q.workers[vp].phase.work.id !in q.log.submitted && q.workers[vp].phase.work.id < q.log.nextId)
  }

  lemma {:induction false} ItemsWithoutMembers(items: seq<nat>, id: nat)
    ensures forall x :: x in ItemsWithout(items, id) <==> x in items && x != id
  {
    if items != [] {
      ItemsWithoutMembers(items[1..], id);
      assert forall x :: x in items <==> x == items[0] || x in items[1..];
    }
  }

  lemma LookKeepsKinds(q: Queue, vp: WorkerId, mayRelinquish: bool, now: int)
    requires KindsOk(q) && vp in q.workers
    ensures KindsOk(LookForWork(q, vp, mayRelinquish, now))
  {
    var r := LookForWork(q, vp, mayRelinquish, now);
    assert q.items != [] ==> q.items[0] in q.items;
    assert r.log.submitted == q.log.submitted && r.log.nextId == q.log.nextId;
    forall id | id in r.items ensures id !in r.log.submitted && id < r.log.nextId {
      assert id in q.items;
    }
    forall u | u in r.workers && r.workers[u].phase.Executing? && r.workers[u].phase.work.Immediate?
      ensures r.workers[u].phase.work.id !in r.log.submitted && r.workers[u].phase.work.id < r.log.nextId
    {
      if u != vp { assert r.workers[u] == q.workers[u]; }
    }
  }

  lemma RetireKeepsKinds(q: Queue, vp: WorkerId, armTime: int, cancelled: bool)
    requires KindsOk(q) && vp in q.workers && q.workers[vp].phase.Executing?
    ensures KindsOk(Retire(q, vp, armTime, cancelled))
  {
  }

  lemma AcquireKeepsKinds(q: Queue, vp: WorkerId, woken: Option<WorkerId>)
    requires KindsOk(q)
    ensures KindsOk(Signal(AcquireWorker(q, vp), woken))
  {
  }

  lemma StepKeepsKinds(q: Queue, st: Step)
    requires KindsOk(q) && PhasesOk(q) && Enabled(q, st)
    ensures KindsOk(Apply(q, st))
  {
    hide LookForWork, Retire, AcquireWorker, InPhase;
    match st
    case SDispatchItem(vp, woken) => if q.state.Running? { AcquireKeepsKinds(EnqueueItem(q), vp, woken); }
    case SDispatchTimer(vp, deadline, interval, woken) =>
      if q.state.Running? { AcquireKeepsKinds(EnqueueTimer(q, deadline, interval), vp, woken); }
    case SRemoveItem(id) => ItemsWithoutMembers(q.items, id);
    case SBegin(vp, now) => LookKeepsKinds(q, vp, false, now);
    case SWakeUp(vp, now) => LookKeepsKinds(q, vp, MayLeave(q, vp), now);
    case SFinish(vp, armTime, cancelled, now) =>
      RetireKeepsKinds(q, vp, armTime, cancelled);
      LookKeepsKinds(Retire(q, vp, armTime, cancelled), vp, false, now);
    case _ =>
  }

  lemma {:induction false} KindsStay(run: Run)
    requires Valid(run)
    ensures KindsOk(Final(run))
  {
    match run
    case Create(minConcurrency, maxConcurrency, pool) => CreatedQueue(minConcurrency, maxConcurrency, pool);
    case Then(before, step) =>
      KindsStay(before);
      TimersKeepTheirPhase(before);
      StepKeepsKinds(Final(before), step);
  }

  /** Nobody removes, flushes, terminates or cancels: `id` is left to repeat. */
  ghost predicate LeftAlone(run: Run, id: nat)
    requires Valid(run)
  {
    run.Then? ==>
      && LeftAlone(run.before, id)
      && !run.step.SFlush? && !run.step.STerminate?
      && run.step != SRemoveTimer(id) && run.step != SRemoveItem(id)
      && (run.step.SFinish? && IdOf(Final(run.before).workers[run.step.vp].phase.work) == id ==> !run.step.cancelled)
  }

  /** The timer is neither done nor dropped. */
  ghost predicate Pending(q: Queue, id: nat) {
    q.state.Running? && WorkCount(q.log.done, id, true) == 0 && Count(q.log.dropped, id) == 0
  }

  lemma OtherCopies(dropped: seq<nat>, other: nat, n: nat, id: nat)
    requires other != id
    ensures Count(dropped + Copies(other, n), id) == Count(dropped, id)
  {
    CountConcat(dropped, Copies(other, n), id);
    CopiesCount(other, n, id);
  }

  lemma FinishKeepsPending(q: Queue, vp: WorkerId, armTime: int, cancelled: bool, now: int, id: nat)
    requires Pending(q, id) && vp in q.workers && q.workers[vp].phase.Executing?
    requires IdOf(q.workers[vp].phase.work) == id ==> !cancelled && Repeating(q.workers[vp].phase.work)
    ensures Pending(Finish(q, vp, armTime, cancelled, now), id)
  {
    hide LookForWork;
    var m := Retire(q, vp, armTime, cancelled);
    LookKeepsLog(m, vp, false, now);
    LookKeepsState(m, vp, false, now);
    WorkCountLast(q.log.done, q.workers[vp].phase.work, id, true);
  }

  lemma LookKeepsState(q: Queue, vp: WorkerId, mayRelinquish: bool, now: int)
    requires vp in q.workers
    ensures LookForWork(q, vp, mayRelinquish, now).state == q.state
  {
  }

  /** A timer that was submitted as a repeating one and is in hand repeats. */
  lemma SubmittedRepeats(q: Queue, vp: WorkerId, id: nat)
    requires PhasesOk(q) && KindsOk(q) && vp in q.workers && q.workers[vp].phase.Executing?
    requires id in q.log.submitted && q.log.submitted[id].interval > 0 && IdOf(q.workers[vp].phase.work) == id
    ensures Repeating(q.workers[vp].phase.work)
  {
    if q.workers[vp].phase.work.Fired? { assert InPhase(q.workers[vp].phase.work.timer, q.log.submitted); }
  }

  lemma StepKeepsPending(q: Queue, st: Step, id: nat)
    requires Enabled(q, st) && Pending(q, id)
    requires !st.SFlush? && !st.STerminate? && st != SRemoveTimer(id) && st != SRemoveItem(id)
    requires st.SFinish? && IdOf(q.workers[st.vp].phase.work) == id ==>
               !st.cancelled && Repeating(q.workers[st.vp].phase.work)
    ensures Pending(Apply(q, st), id)
  {
    hide LookForWork, Retire, AcquireWorker, ItemsWithout, TimersWithout;
    match st
    case SDispatchItem(vp, woken) => AcquireKeepsLog(EnqueueItem(q), vp);
    case SDispatchTimer(vp, deadline, interval, woken) => AcquireKeepsLog(EnqueueTimer(q, deadline, interval), vp);
    case SRemoveItem(other) => OtherCopies(q.log.dropped, other, |q.items| - |RemoveItem(q, other).items|, id);
    case SRemoveTimer(other) => OtherCopies(q.log.dropped, other, |q.timers| - |RemoveTimer(q, other).timers|, id);
    case SBegin(vp, now) => LookKeepsLog(q, vp, false, now); LookKeepsState(q, vp, false, now);
    case SWakeUp(vp, now) => LookKeepsLog(q, vp, MayLeave(q, vp), now); LookKeepsState(q, vp, MayLeave(q, vp), now);
    case SFinish(vp, armTime, cancelled, now) => FinishKeepsPending(q, vp, armTime, cancelled, now, id);
    case _ =>
  }

  lemma AcquireKeepsLog(q: Queue, vp: WorkerId)
    ensures AcquireWorker(q, vp).log == q.log && AcquireWorker(q, vp).state == q.state
  {
  }

  lemma {:induction false} StaysPending(run: Run, id: nat)
    requires Valid(run) && LeftAlone(run, id)
    ensures Final(run).state.Running?
    ensures id in Final(run).log.submitted && Final(run).log.submitted[id].interval > 0 ==> Pending(Final(run), id)
  {
    match run
    case Create(minConcurrency, maxConcurrency, pool) => CreatedSubmits(minConcurrency, maxConcurrency, pool);
    case Then(before, step) =>
      StaysPending(before, id);
      PendingNext(before, step, id);
  }

  lemma StepSubmits(q: Queue, st: Step)
    requires Enabled(q, st) && q.state.Running? && !st.STerminate?
    ensures var r := Apply(q, st);
            && r.state.Running?
            && (forall id | id in q.log.submitted && id != q.log.nextId ::
                  id in r.log.submitted && r.log.submitted[id] == q.log.submitted[id])
            && (forall id | id in r.log.submitted && id !in q.log.submitted :: id == q.log.nextId && st.SDispatchTimer?)
  {
    hide LookForWork, AcquireWorker, ItemsWithout, TimersWithout;
    match st
    case SDispatchItem(vp, woken) => AcquireKeepsLog(EnqueueItem(q), vp);
    case SDispatchTimer(vp, deadline, interval, woken) => AcquireKeepsLog(EnqueueTimer(q, deadline, interval), vp);
    case SBegin(vp, now) => LookKeepsLog(q, vp, false, now); LookKeepsState(q, vp, false, now);
    case SWakeUp(vp, now) => LookKeepsLog(q, vp, MayLeave(q, vp), now); LookKeepsState(q, vp, MayLeave(q, vp), now);
    case SFinish(vp, armTime, cancelled, now) =>
      LookKeepsLog(Retire(q, vp, armTime, cancelled), vp, false, now);
      LookKeepsState(Retire(q, vp, armTime, cancelled), vp, false, now);
    case _ =>
  }

  /** Nothing has become yet of a submission that is to come. */
  lemma NotYetSubmitted(run: Run)
    requires Valid(run) && Final(run).state.Running?
    ensures Pending(Final(run), Final(run).log.nextId)
  {
    SubmissionsAreConserved(run, Final(run).log.nextId);
  }

  lemma PendingNext(before: Run, st: Step, id: nat)
    requires Valid(Then(before, st)) && LeftAlone(Then(before, st), id) && Final(before).state.Running?
    requires id in Final(before).log.submitted && Final(before).log.submitted[id].interval > 0 ==>
               Pending(Final(before), id)
    ensures var r := Final(Then(before, st));
            r.state.Running?
            && (id in r.log.submitted && r.log.submitted[id].interval > 0 ==> Pending(r, id))
  {
    hide Pending, Apply, PhasesOk, KindsOk;
    var q := Final(before);
    StepSubmits(q, st);
    TimersKeepTheirPhase(before);
    KindsStay(before);
    SubmittedBefore(q);
    if id in q.log.submitted && q.log.submitted[id].interval > 0 {
      if st.SFinish? && IdOf(q.workers[st.vp].phase.work) == id { SubmittedRepeats(q, st.vp, id); }
      StepKeepsPending(q, st, id);
    } else if id !in q.log.submitted && id in Apply(q, st).log.submitted {
      NotYetSubmitted(before);
      StepKeepsPending(q, st, id);
    }
  }

  lemma SubmittedBefore(q: Queue)
    requires PhasesOk(q)
    ensures q.log.nextId !in q.log.submitted
  {
  }

  /** In every run: a timer that was submitted to repeat, and that nobody removes, flushes or
      cancels on a queue that nobody terminates, is armed or executing, in exactly one place
      and with its interval. */
  lemma RepeatingTimersLive(run: Run, id: nat)
    requires Valid(run) && LeftAlone(run, id)
    requires id in Final(run).log.submitted && Final(run).log.submitted[id].interval > 0
    ensures var q := Final(run);
            && TimerCount(q.timers, id) + WorkCount(InFlight(q.lanes, q.workers), id, true) == 1
            && (forall t | t in q.timers && t.id == id :: t.interval == q.log.submitted[id].interval)
            && (forall vp | vp in q.workers && q.workers[vp].phase.Executing? && IdOf(q.workers[vp].phase.work) == id ::
                  && q.workers[vp].phase.work.Fired?
                  && q.workers[vp].phase.work.timer.interval == q.log.submitted[id].interval)
  {
    var q := Final(run);
    StaysPending(run, id);
    SubmissionsAreConserved(run, id);
    TimersKeepTheirPhase(run);
    KindsStay(run);
    forall t | t in q.timers && t.id == id ensures t.interval == q.log.submitted[id].interval {
      assert InPhase(t, q.log.submitted);
    }
    NotAnItem(q.items, id, q.log.submitted);
    SubmissionsExist(q, id);
  }

  lemma {:induction false} NotAnItem(items: seq<nat>, id: nat, submitted: map<nat, Timer>)
    requires id in submitted && forall x | x in items :: x !in submitted
    ensures Count(items, id) == 0
  {
    if items != [] {
      var n := |items| - 1;
      assert items[n] in items && forall x | x in items[..n] :: x in items;
      NotAnItem(items[..n], id, submitted);
    }
  }

  lemma SubmissionsExist(q: Queue, id: nat)
    requires PhasesOk(q) && id in q.log.submitted
    ensures id < q.log.nextId
  {
  }

  lemma {:induction false} CreatedSubmits(minConcurrency: nat, maxConcurrency: nat, pool: seq<WorkerId>)
    ensures Created(minConcurrency, maxConcurrency, pool).log.submitted == map[]
    ensures Created(minConcurrency, maxConcurrency, pool).state.Running?
    decreases |pool|
  {
    if pool != [] { CreatedSubmits(minConcurrency, maxConcurrency, pool[..|pool| - 1]); }
  }
}
