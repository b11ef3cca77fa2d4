/** Whether queued work has a worker that will notice it: what signals, waits with a deadline
    and leaving workers guarantee together, and what they do not
    (Kernel/Sources/dispatchqueue/DispatchQueue.c:91-122, 190-247, 335-351, 474-488, 790-899). */
module DispatchQueueService {
  import opened Sequences
  import opened DispatchQueueState
  import opened DispatchQueueInvariant
  import opened DispatchQueueRuns
  import opened DispatchQueueReachable

  function MinimumOf(run: Run): nat {
    match run
    case Create(minConcurrency, _, _) => minConcurrency
    case Then(before, _) => MinimumOf(before)
  }

  function MaximumOf(run: Run): nat {
    match run
    case Create(_, maxConcurrency, _) => maxConcurrency
    case Then(before, _) => MaximumOf(before)
  }

  /** The two numbers a queue was created with. */
  function Bounds(q: Queue): (nat, nat) { (q.minConcurrency, q.maxConcurrency) }

  lemma PartsKeepBounds(q: Queue, vp: WorkerId, mayRelinquish: bool, now: int, cancelled: bool)
    ensures Bounds(AcquireWorker(q, vp)) == Bounds(q)
    ensures vp in q.workers ==> Bounds(LookForWork(q, vp, mayRelinquish, now)) == Bounds(q)
    ensures vp in q.workers && q.workers[vp].phase.Executing? ==> Bounds(Retire(q, vp, now, cancelled)) == Bounds(q)
  {
  }

  lemma StepKeepsBounds(q: Queue, st: Step)
    requires Enabled(q, st)
    ensures Bounds(Apply(q, st)) == Bounds(q)
  {
    hide AcquireWorker, LookForWork, Retire, InsertAt, ItemsWithout, TimersWithout, Copies, TimerIds, Awoken;
    match st
    case SDispatchItem(vp, woken) => PartsKeepBounds(EnqueueItem(q), vp, false, 0, false);
    case SDispatchTimer(vp, deadline, interval, woken) =>
      PartsKeepBounds(EnqueueTimer(q, deadline, interval), vp, false, 0, false);
    case SBegin(vp, now) => PartsKeepBounds(q, vp, false, now, false);
    case SWakeUp(vp, now) => PartsKeepBounds(q, vp, MayLeave(q, vp), now, false);
    case SFinish(vp, armTime, cancelled, now) =>
      PartsKeepBounds(q, vp, false, armTime, cancelled);
      PartsKeepBounds(Retire(q, vp, armTime, cancelled), vp, false, now, cancelled);
    case _ =>
  }

  lemma {:induction false} BoundsStay(run: Run)
    requires Valid(run)
    ensures Final(run).minConcurrency == MinimumOf(run) && Final(run).maxConcurrency == MaximumOf(run)
  {
    match run
    case Create(minConcurrency, maxConcurrency, pool) => CreatedQueue(minConcurrency, maxConcurrency, pool);
    case Then(before, step) =>
      BoundsStay(before);
      StepKeepsBounds(Final(before), step);
  }

  lemma {:induction false} CreatedQueue(minConcurrency: nat, maxConcurrency: nat, pool: seq<WorkerId>)
    ensures var q := Created(minConcurrency, maxConcurrency, pool);
            && q.minConcurrency == minConcurrency && q.maxConcurrency == maxConcurrency
            && q.items == [] && q.timers == [] && q.state.Running? && q.itemsQueuedCount == 0
            && q.log.nextId == 0
            && forall vp | vp in q.workers :: q.workers[vp].phase.Starting? && vp in pool
    decreases |pool|
  {
    if pool != [] { CreatedQueue(minConcurrency, maxConcurrency, pool[..|pool| - 1]); }
  }

  // ---- Items are noticed --------------------------------------------------------

  ghost predicate SomebodyUp(q: Queue) {
    exists vp :: vp in q.workers && !Asleep(q, vp)
  }

  /** Whenever items are queued there is a worker that does not sleep. */
  ghost predicate ItemsServed(q: Queue) {
    q.items != [] ==> SomebodyUp(q)
  }

  lemma {:induction false} SomeLane(lanes: seq<Option<WorkerId>>) returns (i: nat)
    requires Occupied(lanes) >= 1
    ensures i < |lanes| && lanes[i].Some?
  {
    i := |lanes| - 1;
    if lanes[i].None? { i := SomeLane(lanes[..i]); }
  }

  lemma WorkerCounts(q: Queue, vp: WorkerId)
    requires LanesOk(q) && vp in q.workers
    ensures q.availableConcurrency >= 1
  {
    if q.availableConcurrency <= 0 { NoneOccupied(q.lanes, q.workers[vp].lane); }
  }

  lemma AcquireEffect(q: Queue, vp: WorkerId)
    requires LanesOk(q) && vp !in q.workers
    ensures var r := AcquireWorker(q, vp);
            && LanesOk(r) && (q.state.Running? ==> r.availableConcurrency >= 1)
            && (forall u | u in q.workers :: u in r.workers && r.workers[u] == q.workers[u])
            && (forall u | u in r.workers && u !in q.workers :: u == vp && r.workers[u].phase.Starting?)
            && r.availableConcurrency == q.availableConcurrency + (if NeedsWorker(q) then 1 else 0)
  {
    AcquireKeeps(q, vp);
    if NeedsWorker(q) { FreeLaneExists(q); }
  }

  /** After a signal some worker is up, if the queue has workers at all. */
  lemma SignalWakes(q: Queue, woken: Option<WorkerId>)
    requires LanesOk(q) && q.availableConcurrency >= 1 && MaySignal(q, woken)
    ensures SomebodyUp(Signal(q, woken))
  {
    if woken.Some? {
      assert !Asleep(Signal(q, woken), woken.value);
    } else {
      var i := SomeLane(q.lanes);
      assert !Asleep(q, q.lanes[i].value);
    }
  }

  /** Both kinds of dispatch leave a worker that is up. */
  lemma DispatchWakes(q: Queue, vp: WorkerId, woken: Option<WorkerId>)
    requires LanesOk(q) && q.state.Running? && vp !in q.workers && MaySignal(q, woken)
    ensures SomebodyUp(Signal(AcquireWorker(q, vp), woken))
  {
    AcquireEffect(q, vp);
    SignalWakes(AcquireWorker(q, vp), woken);
  }

  /** What a look for work does with the worker. */
  lemma LookEffect(q: Queue, vp: WorkerId, mayRelinquish: bool, now: int)
    requires Inv(q) && vp in q.workers
    ensures var r := LookForWork(q, vp, mayRelinquish, now);
            && r.state == q.state
            && (forall u | u in q.workers && u != vp :: u in r.workers && r.workers[u] == q.workers[u])
            && (forall u | u in r.workers :: u in q.workers)
            && if Picked(q, now).Some? then vp in r.workers && r.workers[vp].phase.Executing?
               else && r.items == [] && r.timers == q.timers
                    && if q.state.Running? && !mayRelinquish
                       then vp in r.workers && r.workers[vp].phase == Waiting(WaitDeadline(q))
                       else vp !in r.workers
  {
    hide BooksOk, TimersOk, Occupied;
  }

  lemma LookServes(q: Queue, vp: WorkerId, mayRelinquish: bool, now: int)
    requires Inv(q) && vp in q.workers
    ensures ItemsServed(LookForWork(q, vp, mayRelinquish, now))
  {
    LookEffect(q, vp, mayRelinquish, now);
    if Picked(q, now).Some? { assert !Asleep(LookForWork(q, vp, mayRelinquish, now), vp); }
  }

  /** Whoever is up stays up through an acquisition and a signal. */
  lemma UpStaysUp(q: Queue, vp: WorkerId, woken: Option<WorkerId>)
    requires LanesOk(q) && vp !in q.workers && SomebodyUp(q)
    ensures SomebodyUp(Signal(AcquireWorker(q, vp), woken))
  {
    AcquireEffect(q, vp);
    var u :| u in q.workers && !Asleep(q, u);
    assert !Asleep(Signal(AcquireWorker(q, vp), woken), u);
  }

  lemma WaitEndsServes(q: Queue, vp: WorkerId, timedOut: bool)
    requires vp in q.workers
    ensures SomebodyUp(WaitEnds(q, vp, timedOut))
  {
    assert !Asleep(WaitEnds(q, vp, timedOut), vp);
  }

  lemma StepServes(q: Queue, st: Step)
    requires Inv(q) && Enabled(q, st) && ItemsServed(q)
    ensures ItemsServed(Apply(q, st))
  {
    hide BooksOk, LookForWork, TimersOk, AcquireWorker, AddTimer;
    match st
    case SDispatchItem(vp, woken) =>
      if q.state.Running? { DispatchWakes(EnqueueItem(q), vp, woken); }
    case SDispatchTimer(vp, deadline, interval, woken) =>
      if q.state.Running? { TimerServes(q, vp, deadline, interval, woken); }
    case SRemoveItem(id) =>
    case SRemoveTimer(id) =>
    case SFlush =>
    case STerminate =>
    case SCompleteTermination =>
    case SBegin(vp, now) => LookServes(q, vp, false, now);
    case SWaitEnds(vp, timedOut) => WaitEndsServes(q, vp, timedOut);
    case SWakeUp(vp, now) => LookServes(q, vp, MayLeave(q, vp), now);
    case SFinish(vp, armTime, cancelled, now) =>
      RetireInv(q, vp, armTime, cancelled);
      LookServes(Retire(q, vp, armTime, cancelled), vp, false, now);
  }

  lemma TimerServes(q: Queue, vp: WorkerId, deadline: int, interval: int, woken: Option<WorkerId>)
    requires Inv(q) && q.state.Running? && vp !in q.workers && MaySignal(q, woken)
    ensures ItemsServed(DispatchTimer(q, deadline, interval, vp, woken))
    ensures SomebodyUp(DispatchTimer(q, deadline, interval, vp, woken))
  {
    DispatchWakes(EnqueueTimer(q, deadline, interval), vp, woken);
  }

  /** In every run: whenever items are queued the queue has a worker that does not sleep, so
      that no item is left to workers that all sleep without having been signalled. */
  lemma {:induction false} ItemsAlwaysServed(run: Run)
    requires Valid(run)
    ensures ItemsServed(Final(run))
    ensures Final(run).items != [] ==> Final(run).availableConcurrency >= 1
  {
    match run
    case Create(minConcurrency, maxConcurrency, pool) => CreatedQueue(minConcurrency, maxConcurrency, pool);
    case Then(before, step) =>
      ItemsAlwaysServed(before);
      ReachableInv(before);
      StepServes(Final(before), step);
      ReachableInv(run);
      if Final(run).items != [] {
        var vp :| vp in Final(run).workers && !Asleep(Final(run), vp);
        WorkerCounts(Final(run), vp);
      }
  }

  // ---- Termination wakes everybody ----------------------------------------------

  /** Once termination has begun nobody sleeps. */
  ghost predicate NobodySleepsOn(q: Queue) {
    !q.state.Running? ==> forall vp | vp in q.workers :: !Asleep(q, vp)
  }

  lemma StepWakesAll(q: Queue, st: Step)
    requires Inv(q) && Enabled(q, st) && NobodySleepsOn(q)
    ensures NobodySleepsOn(Apply(q, st))
  {
    hide LanesOk, BooksOk, TimersOk, LookForWork, InsertAt, TimerPos, NextDeadline, ItemsWithout, TimersWithout,
      Copies, TimerIds;
    match st
    case SBegin(vp, now) => LookEffect(q, vp, false, now);
    case SWakeUp(vp, now) => LookEffect(q, vp, MayLeave(q, vp), now);
    case SFinish(vp, armTime, cancelled, now) =>
      RetireInv(q, vp, armTime, cancelled);
      LookEffect(Retire(q, vp, armTime, cancelled), vp, false, now);
    case _ =>
  }

  /** In every run: from the step that begins termination on, no worker sleeps, so that each
      worker comes to look at the queue once more and leaves it. */
  lemma {:induction false} TerminationWakesAll(run: Run)
    requires Valid(run)
    ensures NobodySleepsOn(Final(run))
  {
    match run
    case Create(minConcurrency, maxConcurrency, pool) => CreatedQueue(minConcurrency, maxConcurrency, pool);
    case Then(before, step) =>
      TerminationWakesAll(before);
      ReachableInv(before);
      StepWakesAll(Final(before), step);
  }

  /** A worker that looks at a terminating queue leaves it. */
  lemma LookingLeaves(q: Queue, vp: WorkerId, mayRelinquish: bool, now: int)
    requires Inv(q) && vp in q.workers && !q.state.Running?
    ensures vp !in LookForWork(q, vp, mayRelinquish, now).workers
  {
    LookEffect(q, vp, mayRelinquish, now);
  }

  // ---- Timers are attended -------------------------------------------------------

  /** `vp` is up, or its wait ends no later than the given time. */
  predicate Attends(q: Queue, vp: WorkerId, deadline: int)
    requires vp in q.workers
  {
    match q.workers[vp].phase
    case Waiting(timer) => timer.Some? && timer.value <= deadline
    case _ => true
  }

  /** Somebody is up or will be up when the first armed timer is due. */
  ghost predicate Attended(q: Queue) {
    q.timers != [] ==> exists vp :: vp in q.workers && Attends(q, vp, q.timers[0].deadline)
  }

  /** What keeps timers attended: the same workers or more, none of them asleep for longer,
      and no earlier first timer. */
  lemma StaysAttended(q: Queue, r: Queue)
    requires Attended(q)
    requires r.timers != [] ==> q.timers != [] && q.timers[0].deadline <= r.timers[0].deadline
    requires forall u | u in q.workers :: u in r.workers && (r.workers[u] == q.workers[u] || !Asleep(r, u))
    ensures Attended(r)
  {
    if r.timers != [] {
      var u :| u in q.workers && Attends(q, u, q.timers[0].deadline);
      assert Attends(r, u, r.timers[0].deadline);
    }
  }

  lemma UpAttends(q: Queue)
    requires SomebodyUp(q)
    ensures Attended(q)
  {
    if q.timers != [] {
      var u :| u in q.workers && !Asleep(q, u);
      assert Attends(q, u, q.timers[0].deadline);
    }
  }

  lemma LaterFirst(timers: seq<Timer>, id: nat)
    requires TimersSorted(timers) && TimersWithout(timers, id) != []
    ensures timers != [] && timers[0].deadline <= TimersWithout(timers, id)[0].deadline
  {
    TimersWithoutMembers(timers, id);
    var t := TimersWithout(timers, id)[0];
    assert t in timers;
    var k :| 0 <= k < |timers| && timers[k] == t;
    if k > 0 { assert Before(timers[0], timers[k]); }
  }

  /** A worker that looks for work and stays attends to the timers itself. */
  lemma LookAttends(q: Queue, vp: WorkerId, mayRelinquish: bool, now: int)
    requires Inv(q) && vp in q.workers && vp in LookForWork(q, vp, mayRelinquish, now).workers
    ensures Attended(LookForWork(q, vp, mayRelinquish, now))
  {
    LookEffect(q, vp, mayRelinquish, now);
    var r := LookForWork(q, vp, mayRelinquish, now);
    if r.timers != [] { assert Attends(r, vp, r.timers[0].deadline); }
  }

  /** A worker that goes without being allowed to leaves a queue with no timers. */
  lemma GoneAttended(q: Queue, vp: WorkerId, now: int)
    requires Inv(q) && vp in q.workers
    ensures Attended(LookForWork(q, vp, false, now))
  {
    if vp in LookForWork(q, vp, false, now).workers {
      LookAttends(q, vp, false, now);
    } else {
      LookEffect(q, vp, false, now);
    }
  }

  /** No worker leaves a queue that has as few workers as it may have. */
  lemma NobodyMayLeave(q: Queue, vp: WorkerId)
    requires Inv(q) && vp in q.workers && q.minConcurrency == q.maxConcurrency
    ensures !MayLeave(q, vp)
  {
  }

  lemma StepAttends(q: Queue, st: Step)
    requires Inv(q) && Enabled(q, st) && Attended(q) && q.minConcurrency == q.maxConcurrency
    ensures Attended(Apply(q, st))
  {
    hide BooksOk, LookForWork, TimersSorted, AcquireWorker, AddTimer;
    match st
    case SDispatchItem(vp, woken) => ItemAttends(q, vp, woken);
    case SDispatchTimer(vp, deadline, interval, woken) =>
      if q.state.Running? {
        TimerServes(q, vp, deadline, interval, woken);
        UpAttends(DispatchTimer(q, deadline, interval, vp, woken));
      }
    case SRemoveItem(id) => StaysAttended(q, RemoveItem(q, id));
    case SRemoveTimer(id) =>
      if TimersWithout(q.timers, id) != [] { LaterFirst(q.timers, id); }
      StaysAttended(q, RemoveTimer(q, id));
    case SFlush =>
    case STerminate =>
    case SCompleteTermination => StaysAttended(q, CompleteTermination(q));
    case SBegin(vp, now) => GoneAttended(q, vp, now);
    case SWaitEnds(vp, timedOut) =>
      WaitEndsServes(q, vp, timedOut);
      UpAttends(WaitEnds(q, vp, timedOut));
    case SWakeUp(vp, now) =>
      NobodyMayLeave(q, vp);
      GoneAttended(q, vp, now);
    case SFinish(vp, armTime, cancelled, now) =>
      RetireInv(q, vp, armTime, cancelled);
      GoneAttended(Retire(q, vp, armTime, cancelled), vp, now);
  }

  lemma ItemAttends(q: Queue, vp: WorkerId, woken: Option<WorkerId>)
    requires Inv(q) && vp !in q.workers && Attended(q)
    ensures Attended(DispatchItem(q, vp, woken))
  {
    if q.state.Running? {
      AcquireEffect(EnqueueItem(q), vp);
      StaysAttended(q, DispatchItem(q, vp, woken));
    }
  }

  lemma {:induction false} FixedWorkersAttend(run: Run)
    requires Valid(run) && MinimumOf(run) == MaximumOf(run)
    ensures Attended(Final(run))
  {
    match run
    case Create(minConcurrency, maxConcurrency, pool) => CreatedQueue(minConcurrency, maxConcurrency, pool);
    case Then(before, step) =>
      FixedWorkersAttend(before);
      ReachableInv(before);
      BoundsStay(before);
      StepAttends(Final(before), step);
  }

  // ---- The count of queued items --------------------------------------------------

  /** How many items the queue has forgotten to count when it was flushed. */
  function Flushed(run: Run): nat {
    match run
    case Create(_, _, _) => 0
    case Then(before, step) =>
      Flushed(before)
      + (if step.SFlush? || (step.STerminate? && Final(before).state.Running?) then |Final(before).items| else 0)
  }

  /** The worker that this step makes look for work finds none. */
  ghost predicate LooksInVain(q: Queue, st: Step)
    requires Enabled(q, st)
  {
    match st
    case SBegin(vp, now) => Picked(q, now).None?
    case SWakeUp(vp, now) => Picked(q, now).None?
    case SFinish(vp, armTime, cancelled, now) => Picked(Retire(q, vp, armTime, cancelled), now).None?
    case _ => false
  }

  ghost function VainLooks(run: Run): nat
    requires Valid(run)
  {
    match run
    case Create(_, _, _) => 0
    case Then(before, step) => VainLooks(before) + (if LooksInVain(Final(before), step) then 1 else 0)
  }

  lemma LookCounts(q: Queue, vp: WorkerId, mayRelinquish: bool, now: int)
    requires Inv(q) && vp in q.workers
    ensures var r := LookForWork(q, vp, mayRelinquish, now);
            r.itemsQueuedCount - |r.items|
            == q.itemsQueuedCount - |q.items| - (if Picked(q, now).None? then 1 else 0)
  {
  }

  lemma StepCounts(q: Queue, st: Step)
    requires Inv(q) && Enabled(q, st)
    ensures var r := Apply(q, st);
            r.itemsQueuedCount - |r.items|
            == q.itemsQueuedCount - |q.items| - (if LooksInVain(q, st) then 1 else 0)
               + (if st.SFlush? || (st.STerminate? && q.state.Running?) then |q.items| else 0)
  {
    hide BooksOk, LookForWork, TimersOk, Picked;
    match st
    case SBegin(vp, now) => LookCounts(q, vp, false, now);
    case SWakeUp(vp, now) => LookCounts(q, vp, MayLeave(q, vp), now);
    case SFinish(vp, armTime, cancelled, now) =>
      RetireInv(q, vp, armTime, cancelled);
      LookCounts(Retire(q, vp, armTime, cancelled), vp, false, now);
    case _ =>
  }

  /** The count of queued items, which decides whether another worker is attached, exceeds the
      number of queued items by the items that were flushed and falls behind it by the looks
      for work that were in vain: in every run it is right exactly if these two are equal. */
  lemma {:induction false} ItemCountDrifts(run: Run)
    requires Valid(run)
    ensures Final(run).itemsQueuedCount == |Final(run).items| + Flushed(run) - VainLooks(run)
    ensures Final(run).itemsQueuedCount == |Final(run).items| <==> Flushed(run) == VainLooks(run)
  {
    match run
    case Create(minConcurrency, maxConcurrency, pool) => CreatedQueue(minConcurrency, maxConcurrency, pool);
    case Then(before, step) =>
      ItemCountDrifts(before);
      ReachableInv(before);
      StepCounts(Final(before), step);
  }

  /** The only worker of a new queue looks for work once, and the count is wrong. */
  lemma IdleLookMiscounts()
    ensures var run := Then(Create(1, 1, [0]), SBegin(0, 0));
            Valid(run) && Final(run).items == [] && Final(run).itemsQueuedCount == -1
  {
    var created, run := Create(1, 1, [0]), Then(Create(1, 1, [0]), SBegin(0, 0));
    CreatedQueue(1, 1, [0]);
    CreatedInv(1, 1, [0]);
    var i := SomeLane(Final(created).lanes);
    assert Final(created).lanes[i].value == 0;
    assert Valid(run) && LooksInVain(Final(created), SBegin(0, 0));
    ItemCountDrifts(run);
  }
}
