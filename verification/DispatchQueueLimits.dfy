/** Where the service of a dispatch queue ends: exactly which queues can leave an armed timer
    unattended, an armed timer without any worker, or an item beside a sleeping worker
    (Kernel/Sources/dispatchqueue/DispatchQueue.c:190-223, 480-488, 790-899). */
module DispatchQueueLimits {
  import opened Sequences
  import opened DispatchQueueState
  import opened DispatchQueueInvariant
  import opened DispatchQueueRuns
  import opened DispatchQueueReachable
  import opened DispatchQueueService

  // ---- A queue at rest ------------------------------------------------------------

  /** Nothing is queued, and every worker is new or sleeps without a timer. */
  ghost predicate Calm(q: Queue, bound: nat) {
    && q.state.Running? && q.items == [] && q.timers == []
    && forall vp | vp in q.workers ::
         vp < bound && (q.workers[vp].phase.Starting? || q.workers[vp].phase == Waiting(None))
  }

  /** A run of the given queue that ends with all workers asleep and nothing queued. */
  ghost predicate AtRest(run: Run, minConcurrency: nat, maxConcurrency: nat, bound: nat) {
    && Valid(run) && MinimumOf(run) == minConcurrency && MaximumOf(run) == maxConcurrency
    && Calm(Final(run), bound) && Final(run).itemsQueuedCount <= 4
    && (forall vp | vp in Final(run).workers :: Asleep(Final(run), vp))
  }

  ghost function Newcomers(q: Queue): set<WorkerId> {
    set vp | vp in q.workers && q.workers[vp].phase.Starting?
  }

  /** The new workers look for work one after the other, and go to sleep. */
  lemma {:induction false} Settle(run: Run, bound: nat) returns (r: Run)
    requires Valid(run) && Calm(Final(run), bound)
    requires Final(run).itemsQueuedCount <= 4 || (Final(run).itemsQueuedCount <= 5 && Newcomers(Final(run)) != {})
    ensures AtRest(r, MinimumOf(run), MaximumOf(run), bound)
    ensures Final(r).availableConcurrency == Final(run).availableConcurrency
    ensures Final(r).workers.Keys == Final(run).workers.Keys && Final(r).log == Final(run).log
    decreases |Newcomers(Final(run))|
  {
    var q := Final(run);
    if Newcomers(q) == {} {
      r := run;
      forall vp | vp in q.workers ensures Asleep(q, vp) {
        assert vp !in Newcomers(q);
      }
    } else {
      var vp :| vp in Newcomers(q);
      var next := Then(run, SBegin(vp, 0));
      assert Newcomers(Final(next)) == Newcomers(q) - {vp};
      r := Settle(next, bound);
    }
  }

  /** A queue on which items have been dispatched and no worker has run yet. */
  ghost predicate Busy(run: Run, minConcurrency: nat, maxConcurrency: nat, bound: nat, count: nat) {
    && Valid(run) && MinimumOf(run) == minConcurrency && MaximumOf(run) == maxConcurrency
    && var q := Final(run);
       && q.state.Running? && q.timers == [] && q.itemsQueuedCount == count
       && q.minConcurrency == minConcurrency && q.maxConcurrency == maxConcurrency
       && (forall vp | vp in q.workers :: vp < bound && q.workers[vp].phase.Starting?)
       && (count >= 1 ==> q.availableConcurrency >= 1)
       && q.availableConcurrency >= minConcurrency
       && (count >= 5 ==> q.availableConcurrency >= 2 || maxConcurrency == 1)
       && (count >= 5 ==> q.availableConcurrency > minConcurrency || minConcurrency == maxConcurrency)
  }

  lemma CreatedBusy(minConcurrency: nat, maxConcurrency: nat) returns (run: Run)
    requires 1 <= maxConcurrency && minConcurrency <= maxConcurrency
    ensures Busy(run, minConcurrency, maxConcurrency, minConcurrency, 0)
  {
    var pool := seq(minConcurrency, (i: nat) => i);
    run := Create(minConcurrency, maxConcurrency, pool);
    CreatedQueue(minConcurrency, maxConcurrency, pool);
    ReachableInv(run);
  }

  /** Another item; the fifth one brings another worker. */
  lemma OneMoreItem(run: Run, minConcurrency: nat, maxConcurrency: nat, bound: nat, count: nat) returns (r: Run)
    requires Busy(run, minConcurrency, maxConcurrency, bound, count) && count < 5
    ensures Busy(r, minConcurrency, maxConcurrency, bound + 1, count + 1)
  {
    hide AcquireWorker, BooksOk, TimersOk, Occupied;
    var q := Final(run);
    r := Then(run, SDispatchItem(bound, None));
    ReachableInv(run);
    AcquireEffect(EnqueueItem(q), bound);
    AcquireFrame(EnqueueItem(q), bound);
    NotTooMany(q);
  }

  lemma NotTooMany(q: Queue)
    requires Inv(q)
    ensures LanesOk(EnqueueItem(q)) && q.availableConcurrency <= q.maxConcurrency
  {
  }

  lemma AcquireFrame(q: Queue, vp: WorkerId)
    ensures var r := AcquireWorker(q, vp);
            r == q.(lanes := r.lanes, workers := r.workers, availableConcurrency := r.availableConcurrency)
  {
  }

  /** Every queue can come to rest, with two workers or more if it may have two, and with
      more than its minimum of workers if it may have more. */
  lemma ComesToRest(minConcurrency: nat, maxConcurrency: nat) returns (run: Run, bound: nat)
    requires 1 <= maxConcurrency && minConcurrency <= maxConcurrency
    ensures AtRest(run, minConcurrency, maxConcurrency, bound)
    ensures Final(run).availableConcurrency >= 1
    ensures maxConcurrency >= 2 ==> Final(run).availableConcurrency >= 2
    ensures minConcurrency < maxConcurrency ==> Final(run).availableConcurrency > minConcurrency
  {
    hide Valid, Calm;
    run := CreatedBusy(minConcurrency, maxConcurrency);
    run := OneMoreItem(run, minConcurrency, maxConcurrency, minConcurrency, 0);
    run := OneMoreItem(run, minConcurrency, maxConcurrency, minConcurrency + 1, 1);
    run := OneMoreItem(run, minConcurrency, maxConcurrency, minConcurrency + 2, 2);
    run := OneMoreItem(run, minConcurrency, maxConcurrency, minConcurrency + 3, 3);
    run := OneMoreItem(run, minConcurrency, maxConcurrency, minConcurrency + 4, 4);
    bound := minConcurrency + 5;
    run := FlushAndSettle(run, minConcurrency, maxConcurrency, bound);
  }

  lemma FlushAndSettle(run: Run, minConcurrency: nat, maxConcurrency: nat, bound: nat) returns (r: Run)
    requires Busy(run, minConcurrency, maxConcurrency, bound, 5)
    ensures AtRest(r, minConcurrency, maxConcurrency, bound)
    ensures Final(r).availableConcurrency == Final(run).availableConcurrency
  {
    var flushed := Then(run, SFlush);
    ReachableInv(run);
    var i := SomeLane(Final(run).lanes);
    assert Final(run).lanes[i].value in Newcomers(Final(flushed));
    r := Settle(flushed, bound);
  }

  // ---- A worker at work, all others asleep ------------------------------------------

  /** Everybody but `a` sleeps without a timer. */
  ghost predicate Others(run: Run, rest: Run, a: WorkerId, phase: Phase, bound: nat) {
    && Valid(run) && MinimumOf(run) == MinimumOf(rest) && MaximumOf(run) == MaximumOf(rest)
    && var q, q0 := Final(run), Final(rest);
       && q.state.Running? && q.itemsQueuedCount <= 4 && q.availableConcurrency == q0.availableConcurrency
       && q.workers.Keys == q0.workers.Keys && a in q.workers && q.workers[a].phase == phase
       && (forall vp | vp in q.workers :: vp < bound && (vp != a ==> q.workers[vp].phase == Waiting(None)))
  }

  /** A timer is dispatched to sleepers: one is signalled, nobody new is needed. */
  lemma TimerSignals(run: Run, rest: Run, a: WorkerId, phase: Phase, bound: nat, deadline: int) returns (r: Run)
    requires Others(run, rest, a, phase, bound) && phase.Waiting?
    requires forall t | t in Final(run).timers :: t.deadline <= deadline
    ensures r == Then(run, SDispatchTimer(bound, deadline, 0, Some(a)))
    ensures Others(r, rest, a, Woken(false), bound)
    ensures var q := Final(run);
            Final(r).timers == q.timers + [Timer(q.log.nextId, deadline, 0, q.log.nextStamp)]
    ensures Final(r).items == Final(run).items
    ensures Final(r).log.nextId == Final(run).log.nextId + 1
  {
    hide Inv, AcquireWorker, NeedsWorker;
    var q := Final(run);
    r := Then(run, SDispatchTimer(bound, deadline, 0, Some(a)));
    ReachableInv(run);
    NobodyNeeded(q, a, deadline, bound);
    LastTimer(q.timers, deadline);
    assert Final(r) == Signal(EnqueueTimer(q, deadline, 0), Some(a));
  }

  lemma NobodyNeeded(q: Queue, a: WorkerId, deadline: int, newcomer: WorkerId)
    requires Inv(q) && q.state.Running? && a in q.workers && q.itemsQueuedCount <= 4
    ensures AcquireWorker(EnqueueTimer(q, deadline, 0), newcomer) == EnqueueTimer(q, deadline, 0)
    ensures q.itemsQueuedCount <= 3 ==> AcquireWorker(EnqueueItem(q), newcomer) == EnqueueItem(q)
  {
    WorkerCounts(q, a);
  }

  lemma {:induction false} LastTimer(timers: seq<Timer>, deadline: int)
    requires forall t | t in timers :: t.deadline <= deadline
    ensures TimerPos(timers, deadline) == |timers|
  {
    if timers != [] {
      assert timers[0] in timers;
      LastTimer(timers[1..], deadline);
    }
  }

  /** The signalled worker finds nothing due and sleeps until the first timer. */
  lemma SleepsAgain(run: Run, rest: Run, a: WorkerId, bound: nat, now: int) returns (r: Run)
    requires Others(run, rest, a, Woken(false), bound)
    requires Final(run).timers != [] && Final(run).timers[0].deadline > now && Final(run).items == []
    ensures r == Then(run, SWakeUp(a, now))
    ensures Others(r, rest, a, Waiting(Some(Final(run).timers[0].deadline)), bound)
    ensures Final(r).timers == Final(run).timers && Final(r).items == [] && Final(r).log == Final(run).log
    ensures Final(r).itemsQueuedCount == Final(run).itemsQueuedCount - 1
  {
    hide LookForWork;
    var q := Final(run);
    r := Then(run, SWakeUp(a, now));
    LooksInto(q, a, now);
    assert Final(r) == LookForWork(q, a, false, now);
  }

  lemma LooksInto(q: Queue, a: WorkerId, now: int)
    requires a in q.workers && q.state.Running? && q.items == []
    requires q.timers != [] && q.timers[0].deadline > now
    ensures LookForWork(q, a, false, now)
            == SetPhase(q, a, Waiting(Some(q.timers[0].deadline))).(itemsQueuedCount := q.itemsQueuedCount - 1)
  {
  }

  /** Two timers are armed, both wake the same worker; the first one is removed; the wait ends
      at its time, and the worker leaves the second one behind. */
  function LeftBehind(rest: Run, a: WorkerId, newcomer: WorkerId, first: nat): Run {
    Then(Then(Then(Then(Then(Then(Then(rest,
      SDispatchTimer(newcomer, 1, 0, Some(a))), SWakeUp(a, 0)),
      SDispatchTimer(newcomer, 2, 0, Some(a))), SWakeUp(a, 0)),
      SRemoveTimer(first)), SWaitEnds(a, true)), SWakeUp(a, 1))
  }

  lemma LeavesTimer(rest: Run, minConcurrency: nat, maxConcurrency: nat, bound: nat, a: WorkerId)
    requires AtRest(rest, minConcurrency, maxConcurrency, bound) && a in Final(rest).workers
    requires Final(rest).availableConcurrency > minConcurrency
    ensures var run := LeftBehind(rest, a, bound, Final(rest).log.nextId);
            && Valid(run) && MinimumOf(run) == minConcurrency && MaximumOf(run) == maxConcurrency
            && Final(run).state.Running? && |Final(run).timers| == 1 && Final(run).timers[0].deadline == 2
            && Final(run).workers.Keys == Final(rest).workers.Keys - {a}
            && (forall vp | vp in Final(run).workers :: Final(run).workers[vp].phase == Waiting(None))
  {
    var q0 := Final(rest);
    assert Others(rest, rest, a, Waiting(None), bound);
    var r1 := TimerSignals(rest, rest, a, Waiting(None), bound, 1);
    assert Final(r1).timers == [Timer(q0.log.nextId, 1, 0, q0.log.nextStamp)];
    var r2 := SleepsAgain(r1, rest, a, bound, 0);
    var r3 := TimerSignals(r2, rest, a, Waiting(Some(1)), bound, 2);
    var r4 := SleepsAgain(r3, rest, a, bound, 0);
    assert Final(r4).timers[0].id == q0.log.nextId && Final(r4).timers[1].id == q0.log.nextId + 1;
    assert Final(r4).timers[1].deadline == 2;
    var r6 := WaitRunsOut(r4, rest, a, bound, q0.log.nextId);
    var r7 := LeavesNow(r6, rest, a, bound);
  }

  lemma TwoTimers(timers: seq<Timer>, first: nat)
    requires |timers| == 2 && timers[0].id == first != timers[1].id
    ensures TimersWithout(timers, first) == [timers[1]]
  {
    assert timers[1..] == [timers[1]] && timers[1..][1..] == [];
    assert TimersWithout(timers[1..], first) == [timers[1]] + TimersWithout([], first);
  }

  /** The first timer is removed, which nobody is told, and the wait ends at its time. */
  lemma WaitRunsOut(run: Run, rest: Run, a: WorkerId, bound: nat, first: nat) returns (r: Run)
    requires Others(run, rest, a, Waiting(Some(1)), bound) && Final(run).items == []
    requires |Final(run).timers| == 2 && Final(run).timers[0].id == first
    requires Final(run).timers[1].id == first + 1 && Final(run).timers[1].deadline == 2
    ensures r == Then(Then(run, SRemoveTimer(first)), SWaitEnds(a, true))
    ensures Others(r, rest, a, Woken(true), bound)
    ensures Final(r).items == [] && |Final(r).timers| == 1 && Final(r).timers[0].deadline == 2
  {
    var removed := Then(run, SRemoveTimer(first));
    assert Others(removed, rest, a, Waiting(Some(1)), bound);
    TwoTimers(Final(run).timers, first);
    r := Then(removed, SWaitEnds(a, true));
    assert Final(r) == WaitEnds(Final(removed), a, true);
  }

  lemma LeavesNow(run: Run, rest: Run, a: WorkerId, bound: nat) returns (r: Run)
    requires Others(run, rest, a, Woken(true), bound) && Final(rest).availableConcurrency > MinimumOf(rest)
    requires Final(run).items == [] && |Final(run).timers| == 1 && Final(run).timers[0].deadline == 2
    ensures r == Then(run, SWakeUp(a, 1))
    ensures Valid(r) && MinimumOf(r) == MinimumOf(rest) && MaximumOf(r) == MaximumOf(rest)
    ensures Final(r).state.Running? && Final(r).timers == Final(run).timers
    ensures Final(r).workers.Keys == Final(rest).workers.Keys - {a}
    ensures forall vp | vp in Final(r).workers :: Final(r).workers[vp].phase == Waiting(None)
  {
    hide Inv, LookForWork;
    r := Then(run, SWakeUp(a, 1));
    BoundsStay(run);
    ReachableInv(run);
    LookEffect(Final(run), a, true, 1);
    assert MayLeave(Final(run), a) && Final(r) == LookForWork(Final(run), a, true, 1);
  }

  // ---- Armed timers -----------------------------------------------------------------

  /** In every run of a queue the first armed timer is attended, exactly if the queue was
      created with as many workers as it may have. */
  lemma TimersAttendedExactly(minConcurrency: nat, maxConcurrency: nat)
    requires 1 <= maxConcurrency && minConcurrency <= maxConcurrency
    ensures (forall run | Valid(run) && MinimumOf(run) == minConcurrency && MaximumOf(run) == maxConcurrency ::
               Attended(Final(run)))
            <==> minConcurrency == maxConcurrency
  {
    if minConcurrency == maxConcurrency {
      forall run | Valid(run) && MinimumOf(run) == minConcurrency && MaximumOf(run) == maxConcurrency
        ensures Attended(Final(run))
      {
        FixedWorkersAttend(run);
      }
    } else {
      var run := Unattended(minConcurrency, maxConcurrency);
      assert !Attended(Final(run));
    }
  }

  lemma Unattended(minConcurrency: nat, maxConcurrency: nat) returns (run: Run)
    requires minConcurrency < maxConcurrency
    ensures Valid(run) && MinimumOf(run) == minConcurrency && MaximumOf(run) == maxConcurrency
    ensures !Attended(Final(run))
  {
    var rest, bound := ComesToRest(minConcurrency, maxConcurrency);
    ReachableInv(rest);
    var i := SomeLane(Final(rest).lanes);
    var a := Final(rest).lanes[i].value;
    LeavesTimer(rest, minConcurrency, maxConcurrency, bound, a);
    run := LeftBehind(rest, a, bound, Final(rest).log.nextId);
  }

  /** Armed timers have a worker at all. */
  ghost predicate TimersServed(q: Queue) {
    q.timers != [] ==> q.availableConcurrency >= 1
  }

  /** The only worker of a queue without a minimum sleeps. */
  function Sole(maxConcurrency: nat): Run {
    Then(Then(Then(Create(0, maxConcurrency, []), SDispatchItem(1, None)), SFlush), SBegin(1, 0))
  }

  lemma SoleRests(maxConcurrency: nat)
    requires maxConcurrency >= 1
    ensures AtRest(Sole(maxConcurrency), 0, maxConcurrency, 2)
    ensures Final(Sole(maxConcurrency)).workers.Keys == {1} && Final(Sole(maxConcurrency)).availableConcurrency == 1
    ensures Final(Sole(maxConcurrency)).log.nextId == 1
  {
    var q := SoleArrives(maxConcurrency);
    var flushed := Then(Then(Create(0, maxConcurrency, []), SDispatchItem(1, None)), SFlush);
    assert Valid(flushed) && MinimumOf(flushed) == 0 && MaximumOf(flushed) == maxConcurrency;
    assert Final(flushed) == q.(items := [], log := q.log.(dropped := q.log.dropped + q.items + TimerIds(q.timers)));
    assert Valid(Sole(maxConcurrency)) && MinimumOf(Sole(maxConcurrency)) == 0;
  }

  lemma SoleArrives(maxConcurrency: nat) returns (q: Queue)
    requires maxConcurrency >= 1
    ensures var run := Then(Create(0, maxConcurrency, []), SDispatchItem(1, None));
            && Valid(run) && MinimumOf(run) == 0 && MaximumOf(run) == maxConcurrency && q == Final(run)
    ensures q.workers == map[1 := Worker(0, Starting)] && q.availableConcurrency == 1 && q.state.Running?
    ensures q.timers == [] && q.itemsQueuedCount == 1 && q.log.nextId == 1
  {
    var c := Created(0, maxConcurrency, []);
    assert c.lanes[0] == None;
    assert IndexOf(c.lanes, None) == 0;
    q := AcquireWorker(EnqueueItem(c), 1);
  }

  /** Its wait ends although its timer is gone, and it leaves a later timer without a worker. */
  function Stranded(maxConcurrency: nat): Run {
    LeftBehind(Sole(maxConcurrency), 1, 2, 1)
  }

  lemma TimerIsStranded(maxConcurrency: nat)
    requires maxConcurrency >= 1
    ensures Valid(Stranded(maxConcurrency)) && MinimumOf(Stranded(maxConcurrency)) == 0
    ensures MaximumOf(Stranded(maxConcurrency)) == maxConcurrency
    ensures var q := Final(Stranded(maxConcurrency));
            q.state.Running? && |q.timers| == 1 && q.availableConcurrency == 0 && q.workers == map[]
  {
    SoleRests(maxConcurrency);
    LeavesTimer(Sole(maxConcurrency), 0, maxConcurrency, 2, 1);
    var run := Stranded(maxConcurrency);
    assert Final(run).workers.Keys == {};
    ReachableInv(run);
    if Final(run).availableConcurrency >= 1 { var i := SomeLane(Final(run).lanes); }
  }

  /** Armed timers have a worker in every run of a queue exactly if the queue was created
      with a minimum of at least one worker. */
  lemma TimersServedExactly(minConcurrency: nat, maxConcurrency: nat)
    requires 1 <= maxConcurrency && minConcurrency <= maxConcurrency
    ensures (forall run | Valid(run) && MinimumOf(run) == minConcurrency && MaximumOf(run) == maxConcurrency ::
               TimersServed(Final(run)))
            <==> minConcurrency >= 1
  {
    forall run | Valid(run) && MinimumOf(run) == minConcurrency >= 1 ensures TimersServed(Final(run)) {
      ReachableInv(run);
      BoundsStay(run);
    }
    if minConcurrency == 0 {
      TimerIsStranded(maxConcurrency);
      var run := Stranded(maxConcurrency);
      assert !TimersServed(Final(run));
    }
  }

  // ---- Items beside sleeping workers --------------------------------------------------

  /** The workers that will look for work without having to be woken. */
  ghost function OnTheWay(q: Queue): set<WorkerId> {
    set vp | vp in q.workers && (q.workers[vp].phase.Starting? || q.workers[vp].phase.Woken?)
  }

  /** While anybody sleeps, there is a worker on the way for each queued item. */
  ghost predicate Conserving(q: Queue) {
    (exists vp :: Asleep(q, vp)) ==> |q.items| <= |OnTheWay(q)|
  }

  /** Only items: no timer is armed, and none is executing. */
  ghost predicate OnlyItems(q: Queue) {
    && q.timers == []
    && forall vp | vp in q.workers && q.workers[vp].phase.Executing? :: q.workers[vp].phase.work.Immediate?
  }

  lemma OneMoreOnTheWay(q: Queue, r: Queue, vp: WorkerId)
    requires vp in r.workers && (r.workers[vp].phase.Starting? || r.workers[vp].phase.Woken?)
    requires forall u | u in q.workers && u != vp :: u in r.workers && r.workers[u] == q.workers[u]
    requires vp !in OnTheWay(q)
    ensures |OnTheWay(r)| >= |OnTheWay(q)| + 1
  {
    SubsetSize(OnTheWay(q) + {vp}, OnTheWay(r));
  }

  lemma {:induction false} SubsetSize(a: set<WorkerId>, b: set<WorkerId>)
    requires a <= b
    ensures |a| <= |b|
  {
    assert b == a + (b - a);
  }

  lemma OneLessOnTheWay(q: Queue, r: Queue, vp: WorkerId)
    requires vp in OnTheWay(q)
    requires forall u | u in q.workers && u != vp :: u in r.workers && r.workers[u] == q.workers[u]
    ensures |OnTheWay(r)| >= |OnTheWay(q)| - 1
  {
    SubsetSize(OnTheWay(q) - {vp}, OnTheWay(r));
  }

  /** A dispatched item brings a worker onto the way, if anybody sleeps. */
  lemma DispatchConserves(q: Queue, vp: WorkerId, woken: Option<WorkerId>)
    requires Inv(q) && q.state.Running? && vp !in q.workers && MaySignal(q, woken) && Conserving(q)
    ensures Conserving(DispatchItem(q, vp, woken))
  {
    hide AcquireWorker, BooksOk, TimersOk, Occupied;
    var t := AcquireWorker(EnqueueItem(q), vp);
    var r := Signal(t, woken);
    AcquireEffect(EnqueueItem(q), vp);
    AcquireFrame(EnqueueItem(q), vp);
    if u :| Asleep(r, u) {
      assert Asleep(q, u) && Asleep(q, woken.value);
      WokenOnTheWay(q, t, woken.value);
    }
  }

  lemma WokenOnTheWay(q: Queue, t: Queue, woken: WorkerId)
    requires Asleep(q, woken) && forall u | u in q.workers :: u in t.workers && t.workers[u] == q.workers[u]
    ensures |OnTheWay(Signal(t, Some(woken)))| >= |OnTheWay(q)| + 1
  {
    OneMoreOnTheWay(q, Signal(t, Some(woken)), woken);
  }

  lemma LookConserves(q: Queue, vp: WorkerId, mayRelinquish: bool, now: int)
    requires Inv(q) && vp in OnTheWay(q) && Conserving(q) && OnlyItems(q)
    ensures Conserving(LookForWork(q, vp, mayRelinquish, now)) && OnlyItems(LookForWork(q, vp, mayRelinquish, now))
  {
    var r := LookForWork(q, vp, mayRelinquish, now);
    LookEffect(q, vp, mayRelinquish, now);
    if q.items != [] {
      assert r.items == q.items[1..];
      if u :| Asleep(r, u) {
        assert Asleep(q, u);
        OneLessOnTheWay(q, r, vp);
      }
    }
  }

  lemma RetireConserves(q: Queue, vp: WorkerId, armTime: int, cancelled: bool)
    requires Inv(q) && vp in q.workers && q.workers[vp].phase.Executing? && Conserving(q) && OnlyItems(q)
    ensures var r := Retire(q, vp, armTime, cancelled);
            Conserving(r) && OnlyItems(r) && vp in OnTheWay(r)
  {
    var r := Retire(q, vp, armTime, cancelled);
    if u :| Asleep(r, u) {
      assert Asleep(q, u);
      OneMoreOnTheWay(q, r, vp);
    }
  }

  lemma WaitEndsConserves(q: Queue, vp: WorkerId, timedOut: bool)
    requires Asleep(q, vp) && Conserving(q) && OnlyItems(q)
    ensures Conserving(WaitEnds(q, vp, timedOut)) && OnlyItems(WaitEnds(q, vp, timedOut))
  {
    OneMoreOnTheWay(q, WaitEnds(q, vp, timedOut), vp);
  }

  lemma FewerItems(q: Queue, r: Queue)
    requires Conserving(q) && r.workers == q.workers && |r.items| <= |q.items|
    ensures Conserving(r)
  {
    assert OnTheWay(r) == OnTheWay(q);
    if u :| Asleep(r, u) { assert Asleep(q, u); }
  }

  lemma StepConserves(q: Queue, st: Step)
    requires Inv(q) && Enabled(q, st) && Conserving(q) && OnlyItems(q) && !st.SDispatchTimer?
    ensures Conserving(Apply(q, st)) && OnlyItems(Apply(q, st))
  {
    hide BooksOk, LookForWork, TimersOk, Retire, AcquireWorker, Conserving, OnTheWay, TimersWithout;
    match st
    case SDispatchItem(vp, woken) =>
      if q.state.Running? {
        DispatchConserves(q, vp, woken);
        AcquireEffect(EnqueueItem(q), vp);
        AcquireFrame(EnqueueItem(q), vp);
      }
    case SRemoveItem(id) =>
      ItemsWithoutLength(q.items, id);
      FewerItems(q, RemoveItem(q, id));
    case SRemoveTimer(id) =>
      assert TimersWithout([], id) == [] by { TimersWithoutLength([], id); }
      FewerItems(q, RemoveTimer(q, id));
    case SFlush => FewerItems(q, Flush(q));
    case STerminate => TerminateConserves(q);
    case SCompleteTermination => FewerItems(q, CompleteTermination(q));
    case SBegin(vp, now) =>
      StartingOnTheWay(q, vp);
      LookConserves(q, vp, false, now);
    case SWaitEnds(vp, timedOut) => WaitEndsConserves(q, vp, timedOut);
    case SWakeUp(vp, now) =>
      StartingOnTheWay(q, vp);
      LookConserves(q, vp, MayLeave(q, vp), now);
    case SFinish(vp, armTime, cancelled, now) =>
      RetireInv(q, vp, armTime, cancelled);
      RetireConserves(q, vp, armTime, cancelled);
      LookConserves(Retire(q, vp, armTime, cancelled), vp, false, now);
  }

  lemma StartingOnTheWay(q: Queue, vp: WorkerId)
    requires vp in q.workers && (q.workers[vp].phase.Starting? || q.workers[vp].phase.Woken?)
    ensures vp in OnTheWay(q)
  {
  }

  lemma TerminateConserves(q: Queue)
    requires Conserving(q) && OnlyItems(q)
    ensures Conserving(Terminate(q)) && OnlyItems(Terminate(q))
  {
  }

  predicate Timerless(run: Run) {
    run.Then? ==> !run.step.SDispatchTimer? && Timerless(run.before)
  }

  /** In every run without timers: while anybody sleeps, there is a worker on the way for each
      queued item. */
  lemma {:induction false} ItemsHaveWorkersOnTheWay(run: Run)
    requires Valid(run) && Timerless(run)
    ensures Conserving(Final(run)) && OnlyItems(Final(run))
  {
    match run
    case Create(minConcurrency, maxConcurrency, pool) => CreatedQueue(minConcurrency, maxConcurrency, pool);
    case Then(before, step) =>
      ItemsHaveWorkersOnTheWay(before);
      ReachableInv(before);
      StepConserves(Final(before), step);
  }

  /** Nobody is on the way, nobody but sleepers is free, and yet an item is queued. */
  ghost predicate Neglected(q: Queue) {
    q.items != [] && OnTheWay(q) == {} && exists vp :: Asleep(q, vp)
  }

  lemma {:induction false} TwoLanes(lanes: seq<Option<WorkerId>>) returns (i: nat, j: nat)
    requires Occupied(lanes) >= 2
    ensures i < j < |lanes| && lanes[i].Some? && lanes[j].Some?
  {
    j := |lanes| - 1;
    if lanes[j].Some? {
      i := SomeLane(lanes[..j]);
    } else {
      i, j := TwoLanes(lanes[..j]);
    }
  }

  /** The worker that was woken for an item takes a due timer instead. */
  function Distracted(rest: Run, a: WorkerId, newcomer: WorkerId): Run {
    Then(Then(Then(Then(rest,
      SDispatchTimer(newcomer, 1, 0, Some(a))), SWakeUp(a, 0)),
      SDispatchItem(newcomer, Some(a))), SWakeUp(a, 1))
  }

  lemma ItemSignals(run: Run, rest: Run, a: WorkerId, bound: nat) returns (r: Run)
    requires Others(run, rest, a, Waiting(Some(1)), bound) && Final(run).items == []
    requires Final(run).itemsQueuedCount <= 3
    ensures r == Then(run, SDispatchItem(bound, Some(a)))
    ensures Others(r, rest, a, Woken(false), bound)
    ensures Final(r).timers == Final(run).timers && Final(r).items == [Final(run).log.nextId]
  {
    hide Inv, AcquireWorker, NeedsWorker;
    var q := Final(run);
    r := Then(run, SDispatchItem(bound, Some(a)));
    ReachableInv(run);
    NobodyNeeded(q, a, 0, bound);
    assert Final(r) == Signal(EnqueueItem(q), Some(a));
  }

  lemma ItemIsNeglected(rest: Run, minConcurrency: nat, maxConcurrency: nat, bound: nat, a: WorkerId, b: WorkerId)
    requires AtRest(rest, minConcurrency, maxConcurrency, bound)
    requires a in Final(rest).workers && b in Final(rest).workers && a != b
    ensures var run := Distracted(rest, a, bound);
            && Valid(run) && MinimumOf(run) == minConcurrency && MaximumOf(run) == maxConcurrency
            && Neglected(Final(run))
  {
    var q0 := Final(rest);
    assert Others(rest, rest, a, Waiting(None), bound);
    var r1 := TimerSignals(rest, rest, a, Waiting(None), bound, 1);
    assert Final(r1).timers == [Timer(q0.log.nextId, 1, 0, q0.log.nextStamp)];
    var r2 := SleepsAgain(r1, rest, a, bound, 0);
    var r3 := ItemSignals(r2, rest, a, bound);
    TakesTimer(r3, rest, a, b, bound);
  }

  lemma TakesTimer(run: Run, rest: Run, a: WorkerId, b: WorkerId, bound: nat)
    requires Others(run, rest, a, Woken(false), bound) && b in Final(rest).workers && a != b
    requires Final(run).timers != [] && Final(run).timers[0].deadline == 1 && Final(run).items != []
    ensures var r := Then(run, SWakeUp(a, 1));
            Valid(r) && MinimumOf(r) == MinimumOf(rest) && MaximumOf(r) == MaximumOf(rest) && Neglected(Final(r))
  {
    ReachableInv(run);
    var r := Then(run, SWakeUp(a, 1));
    LookEffect(Final(run), a, false, 1);
    assert Asleep(Final(r), b);
  }

  lemma NeglectedIsWaste(q: Queue)
    requires Neglected(q)
    ensures !Conserving(q)
  {
  }

  /** In every run of a queue each queued item has a worker on the way while anybody sleeps,
      exactly if the queue may have only one worker: with more than one, a worker that was
      woken for an item can take a timer that has come due, and nobody wakes another one. */
  lemma ItemsAreNeglectedExactly(minConcurrency: nat, maxConcurrency: nat)
    requires 1 <= maxConcurrency && minConcurrency <= maxConcurrency
    ensures (forall run | Valid(run) && MinimumOf(run) == minConcurrency && MaximumOf(run) == maxConcurrency ::
               Conserving(Final(run)))
            <==> maxConcurrency == 1
  {
    if maxConcurrency == 1 {
      forall run | Valid(run) && MinimumOf(run) == minConcurrency && MaximumOf(run) == maxConcurrency
        ensures Conserving(Final(run))
      {
        SoleIsEnough(run);
      }
    } else {
      var rest, bound := ComesToRest(minConcurrency, maxConcurrency);
      ReachableInv(rest);
      var i, j := TwoLanes(Final(rest).lanes);
      var a, b := Final(rest).lanes[i].value, Final(rest).lanes[j].value;
      ItemIsNeglected(rest, minConcurrency, maxConcurrency, bound, a, b);
      NeglectedIsWaste(Final(Distracted(rest, a, bound)));
    }
  }

  /** Of one lane there is one worker at most. */
  lemma SoleIsEnough(run: Run)
    requires Valid(run) && MaximumOf(run) == 1
    ensures Conserving(Final(run))
  {
    var q := Final(run);
    BoundsStay(run);
    ReachableInv(run);
    ItemsAlwaysServed(run);
    if u :| Asleep(q, u) && q.items != [] {
      var vp :| vp in q.workers && !Asleep(q, vp);
      OneWorker(q, u, vp);
    }
  }

  lemma OneWorker(q: Queue, u: WorkerId, vp: WorkerId)
    requires LanesOk(q) && q.maxConcurrency == 1 && u in q.workers && vp in q.workers
    ensures u == vp
  {
    assert q.workers[u].lane == q.workers[vp].lane == 0;
  }
}
