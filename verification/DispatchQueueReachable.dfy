/** What the invariant of the dispatch queue means for whole runs. */
module DispatchQueueReachable {
  import opened Sequences
  import opened DispatchQueueState
  import opened DispatchQueueInvariant
  import opened DispatchQueueRuns

  /** A run: the creation of a queue and critical sections of any users and workers. */
  datatype Run = Create(minConcurrency: nat, maxConcurrency: nat, pool: seq<WorkerId>) | Then(before: Run, step: Step)

  function Final(run: Run): Queue {
    match run
    case Create(minConcurrency, maxConcurrency, pool) => Created(minConcurrency, maxConcurrency, pool)
    case Then(before, step) => if Enabled(Final(before), step) then Apply(Final(before), step) else Final(before)
  }

  /** DispatchQueue_Create's own checks, with enough processors in the pool. */
  ghost predicate Valid(run: Run) {
    match run
    case Create(minConcurrency, maxConcurrency, pool) =>
      1 <= maxConcurrency && minConcurrency == |pool| <= maxConcurrency && Distinct(pool)
    case Then(before, step) => Valid(before) && Enabled(Final(before), step)
  }

  lemma {:induction false} ReachableInv(run: Run)
    requires Valid(run)
    ensures Inv(Final(run))
  {
    match run
    case Create(minConcurrency, maxConcurrency, pool) => CreatedInv(minConcurrency, maxConcurrency, pool);
    case Then(before, step) =>
      ReachableInv(before);
      StepKeepsInv(Final(before), step);
  }

  // ---- Mutual exclusion ---------------------------------------------------------

  /** The count of workers is the number of occupied lanes, every worker sits in exactly
      the lane whose index it stores, a lane is free whenever one is looked for, and no
      more closures run than the queue has lanes. */
  lemma LanesAreExact(run: Run)
    requires Valid(run)
    ensures var q := Final(run);
            && q.availableConcurrency == Occupied(q.lanes) <= q.maxConcurrency
            && (forall vp: WorkerId, i: int | 0 <= i < |q.lanes| ::
                  q.lanes[i] == Some(vp) <==> vp in q.workers && q.workers[vp].lane == i)
            && (NeedsWorker(q) ==> None in q.lanes)
            && |InFlight(q.lanes, q.workers)| <= q.maxConcurrency
  {
    ReachableInv(run);
    var q := Final(run);
    if NeedsWorker(q) {
      FreeLaneExists(q);
      assert q.lanes[IndexOf(q.lanes, None)] == None;
    }
  }

  /** On a serial queue the closures started so far are the closures ended so far, in the
      same order, and at most one more: no two of them overlap. */
  lemma SerialQueuesDoNotOverlap(run: Run)
    requires Valid(run) && Final(run).maxConcurrency == 1
    ensures var q := Final(run);
            q.log.ended == q.log.started
            || exists w :: InFlight(q.lanes, q.workers) == [w] && q.log.started == q.log.ended + [w]
  {
    ReachableInv(run);
    var q := Final(run);
    NoOverlap(q.log.started, q.log.ended, InFlight(q.lanes, q.workers));
  }

  lemma NoOverlap(started: seq<Work>, ended: seq<Work>, held: seq<Work>)
    requires started == ended + held && |held| <= 1
    ensures ended == started || exists w :: held == [w] && started == ended + [w]
  {
    if held != [] { assert held == [held[0]]; }
  }

  lemma {:induction false} ImmediatesAt(s: seq<Work>, i: nat) returns (k: nat)
    requires i < |s| && s[i].Immediate?
    ensures k <= i && k < |Immediates(s)| && Immediates(s)[k] == s[i].id
    ensures k == |Immediates(s[..i])|
  {
    var n := |s| - 1;
    if i == n {
      k := |Immediates(s[..n])|;
      ImmediatesLength(s[..n]);
    } else {
      k := ImmediatesAt(s[..n], i);
      assert s[..n][..i] == s[..i];
    }
  }

  lemma ImmediatesLength(s: seq<Work>)
    ensures |Immediates(s)| <= |s|
  {
  }

  lemma {:induction false} ImmediatesGrow(s: seq<Work>, i: nat, j: nat)
    requires i < j <= |s| && s[i].Immediate?
    ensures |Immediates(s[..i])| < |Immediates(s[..j])|
  {
    if i == j - 1 {
      assert s[..j][..i] == s[..i];
    } else {
      ImmediatesGrow(s, i, j - 1);
      assert s[..j][..j - 1] == s[..j - 1];
    }
  }

  /** On every queue immediate items start in the order in which they were submitted. */
  lemma ItemsStartInOrder(run: Run, i: nat, j: nat)
    requires Valid(run) && i < j < |Final(run).log.started|
    requires Final(run).log.started[i].Immediate? && Final(run).log.started[j].Immediate?
    ensures Final(run).log.started[i].id < Final(run).log.started[j].id < Final(run).log.nextId
  {
    ReachableInv(run);
    var q := Final(run);
    var s := Immediates(q.log.started);
    var k := ImmediatesAt(q.log.started, i);
    var l := ImmediatesAt(q.log.started, j);
    ImmediatesGrow(q.log.started, i, j);
    assert s[k] == (s + q.items)[k] && s[l] == (s + q.items)[l];
  }

  // ---- Conservation -------------------------------------------------------------

  /** Every submission is in exactly one of the places where it can be. */
  lemma SubmissionsAreConserved(run: Run, id: nat)
    requires Valid(run)
    ensures var q := Final(run);
            Places(q.items, q.timers, InFlight(q.lanes, q.workers), q.log, id) == if id < q.log.nextId then 1 else 0
  {
    ReachableInv(run);
  }

  lemma {:induction false} CountsTwice(s: seq<Work>, i: nat, j: nat, id: nat)
    requires i < j < |s| && IdOf(s[i]) == id == IdOf(s[j]) && !Repeating(s[i]) && !Repeating(s[j])
    ensures WorkCount(s, id, false) >= 2
  {
    var n := |s| - 1;
    if j == n { CountsOnce(s[..n], i, id); } else { CountsTwice(s[..n], i, j, id); }
  }

  lemma {:induction false} CountsOnce(s: seq<Work>, i: nat, id: nat)
    requires i < |s| && IdOf(s[i]) == id && !Repeating(s[i])
    ensures WorkCount(s, id, false) >= 1
  {
    if i < |s| - 1 { CountsOnce(s[..|s| - 1], i, id); }
  }

  lemma {:induction false} FewerWithoutRepeating(s: seq<Work>, id: nat)
    ensures WorkCount(s, id, false) <= WorkCount(s, id, true)
  {
    if s != [] { FewerWithoutRepeating(s[..|s| - 1], id); }
  }

  /** Work that is not a repeating timer is taken by a worker at most once. */
  lemma NothingRunsTwice(run: Run, i: nat, j: nat)
    requires Valid(run) && i < j < |Final(run).log.started|
    requires !Repeating(Final(run).log.started[i]) && !Repeating(Final(run).log.started[j])
    ensures IdOf(Final(run).log.started[i]) != IdOf(Final(run).log.started[j])
  {
    ReachableInv(run);
    var q := Final(run);
    var id := IdOf(q.log.started[i]);
    var held := InFlight(q.lanes, q.workers);
    assert Places(q.items, q.timers, held, q.log, id) <= 1;
    FewerWithoutRepeating(held, id);
    FewerWithoutRepeating(q.log.done, id);
    assert WorkCount(q.log.started, id, false) == WorkCount(held, id, false) + WorkCount(q.log.done, id, false);
    if id == IdOf(q.log.started[j]) {
      CountsTwice(q.log.started, i, j, id);
    }
  }

  // ---- Shutdown -----------------------------------------------------------------

  lemma LookWithoutWork(q: Queue, vp: WorkerId, mayRelinquish: bool, now: int)
    requires vp in q.workers && !q.state.Running? && q.items == [] && q.timers == []
    ensures var r := LookForWork(q, vp, mayRelinquish, now);
            !r.state.Running? && r.items == [] && r.timers == [] && r.log == q.log
  {
  }

  /** Once termination has begun it is not undone, both queues stay empty and no worker
      takes another item. */
  lemma TerminationIsFinal(q: Queue, st: Step)
    requires Inv(q) && !q.state.Running? && Enabled(q, st)
    ensures var r := Apply(q, st);
            !r.state.Running? && r.items == [] && r.timers == [] && r.log.started == q.log.started
  {
    StepKeepsInv(q, st);
    match st
    case SFinish(vp, armTime, cancelled, now) =>
      RetireInv(q, vp, armTime, cancelled);
      LookWithoutWork(Retire(q, vp, armTime, cancelled), vp, false, now);
    case SBegin(vp, now) => LookWithoutWork(q, vp, false, now);
    case SWakeUp(vp, now) => LookWithoutWork(q, vp, MayLeave(q, vp), now);
    case _ =>
  }

  /** The same for all that follows: `later` continues a run in which termination has begun. */
  ghost predicate Continues(later: Run, run: Run) {
    later == run || (later.Then? && Continues(later.before, run))
  }

  lemma {:induction false} NothingStartsAfterTermination(run: Run, later: Run)
    requires Valid(later) && Continues(later, run) && !Final(run).state.Running?
    ensures var q := Final(later);
            && !q.state.Running? && q.items == [] && q.timers == []
            && q.log.started == Final(run).log.started
  {
    ReachableInv(later);
    if later != run {
      NothingStartsAfterTermination(run, later.before);
      ReachableInv(later.before);
      TerminationIsFinal(Final(later.before), later.step);
    }
  }

  /** When termination is complete no worker is attached, nothing runs, and every
      submission is done or dropped. */
  lemma TerminatedIsDrained(run: Run, id: nat)
    requires Valid(run) && Final(run).state.Terminated?
    ensures var q := Final(run);
            && q.workers == map[] && InFlight(q.lanes, q.workers) == []
            && (id < q.log.nextId ==> WorkCount(q.log.done, id, true) + Count(q.log.dropped, id) == 1)
  {
    ReachableInv(run);
    var q := Final(run);
    forall vp ensures vp !in q.workers {
      if vp in q.workers { NoneOccupied(q.lanes, q.workers[vp].lane); }
    }
    assert q.workers == map[];
    var held := InFlight(q.lanes, q.workers);
    assert Places(q.items, q.timers, held, q.log, id) == if id < q.log.nextId then 1 else 0;
  }

  /** As long as the queue runs it keeps its minimum of workers. */
  lemma MinimumIsKept(run: Run)
    requires Valid(run) && Final(run).state.Running?
    ensures Final(run).minConcurrency <= Final(run).availableConcurrency
  {
    ReachableInv(run);
  }
}
