/** What each critical section of a dispatch queue does to its fields, and what follows for whole
    runs: removed work never starts, and termination can always be completed
    (Kernel/Sources/dispatchqueue/DispatchQueue.c:62-137, 190-247, 367-514, 573-760, 790-849). */
module DispatchQueueEffects {
  import opened Sequences
  import opened DispatchQueueState
  import opened DispatchQueueInvariant
  import opened DispatchQueueRuns
  import opened DispatchQueueReachable
  import opened DispatchQueueService
  import opened DispatchQueueOutcomes

  // ---- Dispatching ----------------------------------------------------------------

  /** Another worker is wanted: there is none, or less than the minimum, or more than four items
      are queued and less than the maximum of workers is attached. */
  predicate Wanted(q: Queue, itemsQueued: int) {
    || q.availableConcurrency == 0
    || q.availableConcurrency < q.minConcurrency
    || (itemsQueued >= 5 && q.availableConcurrency < q.maxConcurrency)
  }

  /** `vp` has been attached to the first free lane, as a new worker. */
  ghost predicate Attached(q: Queue, r: Queue, vp: WorkerId) {
    exists i: nat ::
      && i < |q.lanes| && q.lanes[i] == None && (forall j: nat | j < i :: q.lanes[j] != None)
      && r.lanes == q.lanes[i := Some(vp)] && vp in r.workers && r.workers[vp] == Worker(i, Starting)
  }

  /** The workers after a dispatch: a new one exactly if it is wanted, and the one that was
      signalled has been woken. */
  ghost predicate WorkersAfter(q: Queue, r: Queue, vp: WorkerId, woken: Option<WorkerId>, wanted: bool) {
    && (if wanted then Attached(q, r, vp) && r.availableConcurrency == q.availableConcurrency + 1
        else r.lanes == q.lanes && r.availableConcurrency == q.availableConcurrency && vp !in r.workers)
    && (forall u | u in q.workers ::
          && u in r.workers
          && r.workers[u] == if woken == Some(u) then q.workers[u].(phase := Woken(false)) else q.workers[u])
    && (forall u | u in r.workers :: u in q.workers || u == vp)
  }

  lemma AcquireAttaches(q: Queue, vp: WorkerId)
    requires LanesOk(q) && vp !in q.workers && NeedsWorker(q)
    ensures Attached(q, AcquireWorker(q, vp), vp)
  {
    FreeLaneExists(q);
    var i := IndexOf(q.lanes, None);
    assert q.lanes[i] == None;
  }

  lemma WorkersChange(q: Queue, e: Queue, vp: WorkerId, woken: Option<WorkerId>)
    requires LanesOk(q) && q.state.Running? && vp !in q.workers && MaySignal(q, woken)
    requires e == q.(items := e.items, timers := e.timers, itemsQueuedCount := e.itemsQueuedCount, log := e.log)
    ensures var r := Signal(AcquireWorker(e, vp), woken);
            && WorkersAfter(q, r, vp, woken, Wanted(q, e.itemsQueuedCount))
            && r.items == e.items && r.timers == e.timers && r.itemsQueuedCount == e.itemsQueuedCount
            && r.log == e.log && r.state == q.state
  {
    AcquireEffect(e, vp);
    assert NeedsWorker(e) <==> Wanted(q, e.itemsQueuedCount);
    if NeedsWorker(e) {
      AcquireAttaches(e, vp);
      var t := AcquireWorker(e, vp);
      assert Attached(e, t, vp) ==> Attached(q, Signal(t, woken), vp);
    }
  }

  /** Dispatching an item to a running queue puts it behind all others; a queue that does not
      run is left as it is. */
  lemma DispatchItemEffect(run: Run, vp: WorkerId, woken: Option<WorkerId>)
    requires Valid(run) && Enabled(Final(run), SDispatchItem(vp, woken))
    ensures var q, r := Final(run), Apply(Final(run), SDispatchItem(vp, woken));
            && (!q.state.Running? ==> r == q)
            && (q.state.Running? ==>
                  && r.items == q.items + [q.log.nextId] && r.timers == q.timers && r.state == q.state
                  && r.itemsQueuedCount == q.itemsQueuedCount + 1
                  && r.log == q.log.(nextId := q.log.nextId + 1)
                  && WorkersAfter(q, r, vp, woken, Wanted(q, q.itemsQueuedCount + 1)))
  {
    hide BooksOk, TimersOk, AcquireWorker, WorkersAfter;
    ReachableInv(run);
    var q := Final(run);
    if q.state.Running? { WorkersChange(q, EnqueueItem(q), vp, woken); }
  }

  /** `r` is `timers` with one more timer somewhere. */
  ghost predicate OneMoreTimer(timers: seq<Timer>, r: seq<Timer>, t: Timer) {
    exists i: nat :: i <= |timers| && r == timers[..i] + [t] + timers[i..]
  }

  /** Dispatching a timer to a running queue arms it for its deadline. */
  lemma DispatchTimerEffect(run: Run, vp: WorkerId, deadline: int, interval: int, woken: Option<WorkerId>)
    requires Valid(run) && Enabled(Final(run), SDispatchTimer(vp, deadline, interval, woken))
    ensures var q, r := Final(run), Apply(Final(run), SDispatchTimer(vp, deadline, interval, woken));
            && (!q.state.Running? ==> r == q)
            && (q.state.Running? ==>
                  && OneMoreTimer(q.timers, r.timers, Timer(q.log.nextId, deadline, interval, q.log.nextStamp))
                  && TimersSorted(r.timers) && r.items == q.items && r.itemsQueuedCount == q.itemsQueuedCount
                  && r.state == q.state && r.log.nextId == q.log.nextId + 1
                  && WorkersAfter(q, r, vp, woken, Wanted(q, q.itemsQueuedCount)))
  {
    hide BooksOk, AcquireWorker, WorkersAfter;
    ReachableInv(run);
    var q := Final(run);
    if q.state.Running? {
      WorkersChange(q, EnqueueTimer(q, deadline, interval), vp, woken);
      var t := Timer(q.log.nextId, deadline, interval, q.log.nextStamp);
      var i := TimerPos(q.timers, deadline);
      assert EnqueueTimer(q, deadline, interval).timers == q.timers[..i] + [t] + q.timers[i..];
      DispatchTimerInv(q, deadline, interval, vp, woken);
    }
  }

  // ---- Removing and flushing --------------------------------------------------------

  /** Removing an item takes it, and nothing else, off the queue. */
  lemma RemoveItemEffect(run: Run, id: nat)
    requires Valid(run)
    ensures var q, r := Final(run), Apply(Final(run), SRemoveItem(id));
            && (forall x :: x in r.items <==> x in q.items && x != id)
            && Ascending(r.items, q.log.nextId) && Ascending(q.items, q.log.nextId)
            && r == q.(items := r.items, itemsQueuedCount := r.itemsQueuedCount, log := r.log)
            && r.itemsQueuedCount - |r.items| == q.itemsQueuedCount - |q.items|
            && (id in q.items ==> id in r.log.dropped)
  {
    ReachableInv(run);
    ReachableInv(Then(run, SRemoveItem(id)));
    var q, r := Final(run), Apply(Final(run), SRemoveItem(id));
    ItemsWithoutMembers(q.items, id);
    AscendingTail(Immediates(q.log.started), q.items, q.log.nextId);
    AscendingTail(Immediates(r.log.started), r.items, r.log.nextId);
    if id in q.items {
      ItemsWithoutCount(q.items, id, id);
      MemberCounts(q.items, id);
      CopiesHave(id, |q.items| - |r.items|);
      assert id in Copies(id, |q.items| - |r.items|);
    }
  }

  lemma AscendingTail(a: seq<nat>, b: seq<nat>, bound: nat)
    requires Ascending(a + b, bound)
    ensures Ascending(b, bound)
  {
    forall i | 0 <= i < |b| ensures b[i] == (a + b)[|a| + i] { }
  }

  lemma {:induction false} MemberCounts(s: seq<nat>, id: nat)
    requires id in s
    ensures Count(s, id) >= 1
  {
    var n := |s| - 1;
    if s[n] != id {
      assert id in s[..n];
      MemberCounts(s[..n], id);
    }
  }

  lemma CopiesHave(id: nat, n: nat)
    requires n >= 1
    ensures id in Copies(id, n)
  {
    assert Copies(id, n)[n - 1] == id;
  }

  lemma {:induction false} TimersWithoutKeep(timers: seq<Timer>, id: nat)
    ensures forall t :: t in TimersWithout(timers, id) <==> t in timers && t.id != id
  {
    if timers != [] {
      TimersWithoutKeep(timers[1..], id);
      assert forall t :: t in timers <==> t == timers[0] || t in timers[1..];
    }
  }

  /** Removing a timer takes it, and nothing else, off the timer queue. */
  lemma RemoveTimerEffect(run: Run, id: nat)
    requires Valid(run)
    ensures var q, r := Final(run), Apply(Final(run), SRemoveTimer(id));
            && (forall t :: t in r.timers <==> t in q.timers && t.id != id)
            && TimersSorted(r.timers)
            && r == q.(timers := r.timers, log := r.log)
  {
    ReachableInv(run);
    ReachableInv(Then(run, SRemoveTimer(id)));
    TimersWithoutKeep(Final(run).timers, id);
  }

  /** Flushing drops everything that is queued or armed, and lets the workers go on. */
  lemma FlushEffect(q: Queue)
    ensures var r := Apply(q, SFlush);
            && r.items == [] && r.timers == [] && r.state == q.state && r.workers == q.workers && r.lanes == q.lanes
            && r.log == q.log.(dropped := r.log.dropped)
            && r.log.dropped == q.log.dropped + q.items
                                + seq(|q.timers|, k requires 0 <= k < |q.timers| => q.timers[k].id)
  {
  }

  // ---- Termination ------------------------------------------------------------------

  /** Terminating a running queue drops everything that is queued or armed and wakes all
      workers; terminating it again does nothing. */
  lemma TerminateEffect(q: Queue)
    ensures var r := Apply(q, STerminate);
            && (!q.state.Running? ==> r == q)
            && (q.state.Running? ==>
                  && r.state.Terminating? && r.items == [] && r.timers == [] && r.lanes == q.lanes
                  && r.log.dropped == q.log.dropped + q.items
                                      + seq(|q.timers|, k requires 0 <= k < |q.timers| => q.timers[k].id)
                  && r.log.started == q.log.started && r.workers.Keys == q.workers.Keys
                  && (forall vp | vp in r.workers ::
                        && !Asleep(r, vp)
                        && r.workers[vp] == if Asleep(q, vp) then q.workers[vp].(phase := Woken(false))
                                            else q.workers[vp]))
  {
  }

  /** Termination completes exactly when the last worker has left. */
  lemma CompletesExactly(run: Run)
    requires Valid(run) && Enabled(Final(run), SCompleteTermination)
    ensures var q, r := Final(run), Apply(Final(run), SCompleteTermination);
            && (r.state.Terminated? <==> q.workers == map[])
            && r == q.(state := r.state)
  {
    ReachableInv(run);
    var q := Final(run);
    if q.workers != map[] {
      var vp :| vp in q.workers;
      WorkerCounts(q, vp);
    } else if q.availableConcurrency >= 1 {
      var i := SomeLane(q.lanes);
    }
  }

  /** The next step of a worker of a terminating queue. */
  function LastStep(q: Queue, vp: WorkerId): Step
    requires vp in q.workers
  {
    match q.workers[vp].phase
    case Starting => SBegin(vp, 0)
    case Waiting(_) => SWaitEnds(vp, false)
    case Woken(_) => SWakeUp(vp, 0)
    case Executing(_) => SFinish(vp, 0, false, 0)
  }

  lemma LastStepLeaves(run: Run, vp: WorkerId)
    requires Valid(run) && !Final(run).state.Running? && vp in Final(run).workers
    ensures var st := LastStep(Final(run), vp);
            && Enabled(Final(run), st)
            && var r := Apply(Final(run), st);
               !r.state.Running? && r.workers.Keys == Final(run).workers.Keys - {vp}
  {
    hide BooksOk, TimersOk, LookForWork;
    var q := Final(run);
    ReachableInv(run);
    TerminationWakesAll(run);
    assert !Asleep(q, vp);
    match q.workers[vp].phase
    case Starting => LookLeaves(q, vp, false, 0);
    case Woken(_) => LookLeaves(q, vp, MayLeave(q, vp), 0);
    case Executing(_) =>
      RetireInv(q, vp, 0, false);
      LookLeaves(Retire(q, vp, 0, false), vp, false, 0);
  }

  lemma LookLeaves(q: Queue, vp: WorkerId, mayRelinquish: bool, now: int)
    requires Inv(q) && vp in q.workers && !q.state.Running?
    ensures var r := LookForWork(q, vp, mayRelinquish, now);
            r.state == q.state && r.workers.Keys == q.workers.Keys - {vp}
  {
  }

  /** `later` goes on from `run` by steps of the queue's own workers alone, and the completion. */
  ghost predicate WorkersFinish(later: Run, run: Run)
    requires Valid(later)
  {
    || later == run
    || (&& later.Then?
        && (later.step.SBegin? || later.step.SWakeUp? || later.step.SFinish? || later.step.SCompleteTermination?)
        && WorkersFinish(later.before, run))
  }

  /** However far termination has got, it can be completed: if each attached worker takes one
      more step the queue is terminated. */
  lemma {:induction false} TerminationCanComplete(run: Run) returns (later: Run)
    requires Valid(run) && !Final(run).state.Running?
    ensures Valid(later) && Continues(later, run) && WorkersFinish(later, run) && Final(later).state.Terminated?
    decreases |Final(run).workers|
  {
    var q := Final(run);
    if q.workers == map[] {
      later := Then(run, SCompleteTermination);
      CompletesExactly(run);
    } else {
      var vp :| vp in q.workers;
      LastStepLeaves(run, vp);
      var next := Then(run, LastStep(q, vp));
      ReachableInv(run);
      TerminationWakesAll(run);
      assert |Final(next).workers.Keys| < |q.workers.Keys|;
      later := TerminationCanComplete(next);
      FinishTransitive(later, next, run);
    }
  }

  lemma {:induction false} FinishTransitive(later: Run, next: Run, run: Run)
    requires Valid(later) && Continues(later, next) && WorkersFinish(later, next)
    requires next.Then? && next.before == run && (next.step.SBegin? || next.step.SWakeUp? || next.step.SFinish?)
    ensures Continues(later, run) && WorkersFinish(later, run)
  {
    if later != next { FinishTransitive(later.before, next, run); }
  }

  // ---- What a worker takes ----------------------------------------------------------

  /** A look for work starts the first due timer, else the first item, and takes it off its
      queue; without either the worker starts nothing. */
  lemma LookStarts(run: Run, vp: WorkerId, now: int)
    requires Valid(run) && Enabled(Final(run), SBegin(vp, now))
    ensures Takes(Final(run), Apply(Final(run), SBegin(vp, now)), vp, now)
  {
    ReachableInv(run);
    LookTakes(Final(run), vp, false, now);
  }

  lemma WakeStarts(run: Run, vp: WorkerId, now: int)
    requires Valid(run) && Enabled(Final(run), SWakeUp(vp, now))
    ensures Takes(Final(run), Apply(Final(run), SWakeUp(vp, now)), vp, now)
    ensures var q, r := Final(run), Apply(Final(run), SWakeUp(vp, now));
            q.state.Running? && r.log.started == q.log.started ==>
              (vp !in r.workers <==> q.workers[vp].phase == Woken(true) && q.availableConcurrency > q.minConcurrency)
  {
    ReachableInv(run);
    LookTakes(Final(run), vp, MayLeave(Final(run), vp), now);
  }

  ghost predicate Takes(q: Queue, r: Queue, vp: WorkerId, now: int) {
    if q.timers != [] && q.timers[0].deadline <= now then
      && r.log.started == q.log.started + [Fired(q.timers[0])]
      && r.timers == q.timers[1..] && r.items == q.items && r.itemsQueuedCount == q.itemsQueuedCount
      && vp in r.workers && r.workers[vp].phase == Executing(Fired(q.timers[0]))
    else if q.items != [] then
      && r.log.started == q.log.started + [Immediate(q.items[0])]
      && r.items == q.items[1..] && r.timers == q.timers && r.itemsQueuedCount == q.itemsQueuedCount - 1
      && vp in r.workers && r.workers[vp].phase == Executing(Immediate(q.items[0]))
    else
      && r.log.started == q.log.started && r.items == [] && r.timers == q.timers
      && r.itemsQueuedCount == q.itemsQueuedCount - 1
      && (vp in r.workers ==>
            r.workers[vp].phase == Waiting(if q.timers == [] then None else Some(q.timers[0].deadline)))
  }

  lemma LookTakes(q: Queue, vp: WorkerId, mayRelinquish: bool, now: int)
    requires Inv(q) && vp in q.workers
    ensures Takes(q, LookForWork(q, vp, mayRelinquish, now), vp, now)
    ensures var r := LookForWork(q, vp, mayRelinquish, now);
            q.state.Running? && r.log.started == q.log.started ==> (vp !in r.workers <==> mayRelinquish)
  {
  }

  // ---- Removed work never starts ------------------------------------------------------

  lemma StepKeepsDropped(q: Queue, st: Step, id: nat)
    requires Enabled(q, st)
    ensures Count(Apply(q, st).log.dropped, id) >= Count(q.log.dropped, id)
  {
    hide LookForWork, AcquireWorker, ItemsWithout, TimersWithout;
    match st
    case SDispatchItem(vp, woken) => AcquireKeepsLog(EnqueueItem(q), vp);
    case SDispatchTimer(vp, deadline, interval, woken) => AcquireKeepsLog(EnqueueTimer(q, deadline, interval), vp);
    case SRemoveItem(other) =>
      CountConcat(q.log.dropped, Copies(other, |q.items| - |RemoveItem(q, other).items|), id);
    case SRemoveTimer(other) =>
      CountConcat(q.log.dropped, Copies(other, |q.timers| - |RemoveTimer(q, other).timers|), id);
    case SFlush => FlushKeepsDropped(q, id);
    case STerminate => FlushKeepsDropped(q, id);
    case SBegin(vp, now) => LookKeepsLog(q, vp, false, now);
    case SWakeUp(vp, now) => LookKeepsLog(q, vp, MayLeave(q, vp), now);
    case SFinish(vp, armTime, cancelled, now) =>
      LookKeepsLog(Retire(q, vp, armTime, cancelled), vp, false, now);
      CountConcat(q.log.dropped, [IdOf(q.workers[vp].phase.work)], id);
    case _ =>
  }

  lemma FlushKeepsDropped(q: Queue, id: nat)
    ensures Count(q.log.dropped + q.items + TimerIds(q.timers), id) >= Count(q.log.dropped, id)
  {
    CountConcat(q.log.dropped + q.items, TimerIds(q.timers), id);
    CountConcat(q.log.dropped, q.items, id);
  }

  lemma {:induction false} DroppedStays(later: Run, run: Run, id: nat)
    requires Valid(later) && Continues(later, run)
    ensures Count(Final(later).log.dropped, id) >= Count(Final(run).log.dropped, id)
  {
    if later != run {
      DroppedStays(later.before, run, id);
      StepKeepsDropped(Final(later.before), later.step, id);
    }
  }

  /** An item that is removed, flushed or dropped by termination while it is queued never starts,
      in any run that follows; no more does a timer that was to fire once. */
  lemma RemovedNeverStarts(run: Run, later: Run, id: nat, k: nat)
    requires Valid(later) && Continues(later, run) && Count(Final(run).log.dropped, id) >= 1
    requires k < |Final(later).log.started| && !Repeating(Final(later).log.started[k])
    ensures IdOf(Final(later).log.started[k]) != id
  {
    var q := Final(later);
    ReachableInv(later);
    DroppedStays(later, run, id);
    SubmissionsAreConserved(later, id);
    var held := InFlight(q.lanes, q.workers);
    FewerWithoutRepeating(held, id);
    FewerWithoutRepeating(q.log.done, id);
    assert WorkCount(q.log.started, id, false) == WorkCount(held, id, false) + WorkCount(q.log.done, id, false);
    if IdOf(q.log.started[k]) == id { CountsOnce(q.log.started, k, id); }
  }
}
