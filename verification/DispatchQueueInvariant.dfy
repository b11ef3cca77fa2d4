/** What holds of a dispatch queue whenever its lock is free, and how the lanes, the work
    in the workers' hands and the queued ids change. */
module DispatchQueueInvariant {
  import opened Sequences
  import opened DispatchQueueState

  // ---- Lanes and workers --------------------------------------------------------

  function Occupied(lanes: seq<Option<WorkerId>>): (n: nat)
    ensures n <= |lanes|
  {
    if lanes == [] then 0
    else Occupied(lanes[..|lanes| - 1]) + (if lanes[|lanes| - 1].Some? then 1 else 0)
  }

  ghost predicate LanesOk(q: Queue) {
    && 1 <= q.maxConcurrency == |q.lanes| && q.minConcurrency <= q.maxConcurrency
    && q.availableConcurrency == Occupied(q.lanes)
    && (forall vp | vp in q.workers ::
          0 <= q.workers[vp].lane < |q.lanes| && q.lanes[q.workers[vp].lane] == Some(vp))
    && (forall i | 0 <= i < |q.lanes| && q.lanes[i].Some? ::
          q.lanes[i].value in q.workers && q.workers[q.lanes[i].value].lane == i)
  }

  lemma {:induction false} OccupiedUpdate(lanes: seq<Option<WorkerId>>, i: nat, x: Option<WorkerId>)
    requires i < |lanes|
    ensures Occupied(lanes[i := x]) + (if lanes[i].Some? then 1 else 0) == Occupied(lanes) + (if x.Some? then 1 else 0)
  {
    var n := |lanes| - 1;
    if i < n {
      OccupiedUpdate(lanes[..n], i, x);
      assert lanes[i := x][..n] == lanes[..n][i := x];
    } else {
      assert lanes[i := x][..n] == lanes[..n];
    }
  }

  /** All lanes are occupied exactly if none of them is free. */
  lemma {:induction false} FullLanes(lanes: seq<Option<WorkerId>>)
    ensures Occupied(lanes) == |lanes| <==> None !in lanes
  {
    if lanes != [] {
      var n := |lanes| - 1;
      FullLanes(lanes[..n]);
      assert lanes == lanes[..n] + [lanes[n]];
      assert Occupied(lanes[..n]) <= n;
    }
  }

  lemma {:induction false} NoneOccupied(lanes: seq<Option<WorkerId>>, i: nat)
    requires i < |lanes| && lanes[i].Some?
    ensures Occupied(lanes) > 0
  {
    if i < |lanes| - 1 { NoneOccupied(lanes[..|lanes| - 1], i); }
  }

  // ---- Work in the workers' hands -----------------------------------------------

  function Holding(lane: Option<WorkerId>, workers: map<WorkerId, Worker>): seq<Work> {
    if lane.Some? && lane.value in workers && workers[lane.value].phase.Executing?
    then [workers[lane.value].phase.work] else []
  }

  /** The closures being executed, in lane order. */
  function InFlight(lanes: seq<Option<WorkerId>>, workers: map<WorkerId, Worker>): (r: seq<Work>)
    ensures |r| <= Occupied(lanes)
  {
    if lanes == [] then []
    else InFlight(lanes[..|lanes| - 1], workers) + Holding(lanes[|lanes| - 1], workers)
  }

  /** Changing one lane, or what its worker does, changes the work in flight by just that. */
  lemma {:induction false} InFlightSplit(
      lanes: seq<Option<WorkerId>>, workers: map<WorkerId, Worker>,
      lanes': seq<Option<WorkerId>>, workers': map<WorkerId, Worker>, i: nat)
      returns (a: seq<Work>, b: seq<Work>)
    requires i < |lanes| == |lanes'|
    requires forall j | 0 <= j < |lanes| && j != i :: Holding(lanes[j], workers) == Holding(lanes'[j], workers')
    ensures InFlight(lanes, workers) == a + Holding(lanes[i], workers) + b
    ensures InFlight(lanes', workers') == a + Holding(lanes'[i], workers') + b
  {
    hide Holding;
    var n := |lanes| - 1;
    if i < n {
      a, b := InFlightSplit(lanes[..n], workers, lanes'[..n], workers', i);
      b := b + Holding(lanes[n], workers);
    } else {
      InFlightSame(lanes[..n], workers, lanes'[..n], workers');
      a, b := InFlight(lanes[..n], workers), [];
    }
  }

  lemma {:induction false} InFlightSame(
      lanes: seq<Option<WorkerId>>, workers: map<WorkerId, Worker>,
      lanes': seq<Option<WorkerId>>, workers': map<WorkerId, Worker>)
    requires |lanes| == |lanes'|
    requires forall j | 0 <= j < |lanes| :: Holding(lanes[j], workers) == Holding(lanes'[j], workers')
    ensures InFlight(lanes, workers) == InFlight(lanes', workers')
  {
    if lanes != [] {
      InFlightSame(lanes[..|lanes| - 1], workers, lanes'[..|lanes| - 1], workers');
    }
  }

  // ---- The invariant ------------------------------------------------------------

  /** Due earlier, or due at the same time and armed earlier. */
  predicate Before(t: Timer, u: Timer) {
    t.deadline < u.deadline || (t.deadline == u.deadline && t.stamp < u.stamp)
  }

  ghost predicate TimersSorted(timers: seq<Timer>) {
    forall i, j | 0 <= i < j < |timers| :: Before(timers[i], timers[j])
  }

  ghost predicate TimersOk(q: Queue) {
    TimersSorted(q.timers) && forall t | t in q.timers :: t.stamp < q.log.nextStamp
  }

  /** Nothing is queued once termination has begun, and no worker is left at its end;
      before, the queue has at least its minimum of workers. */
  ghost predicate StateOk(q: Queue) {
    && (!q.state.Running? ==> q.items == [] && q.timers == [])
    && (q.state.Running? ==> q.minConcurrency <= q.availableConcurrency)
    && (q.state.Terminated? ==> q.availableConcurrency == 0)
  }

  function Count(ids: seq<nat>, id: nat): nat {
    if ids == [] then 0 else Count(ids[..|ids| - 1], id) + (if ids[|ids| - 1] == id then 1 else 0)
  }

  function TimerCount(timers: seq<Timer>, id: nat): nat {
    if timers == [] then 0
    else TimerCount(timers[..|timers| - 1], id) + (if timers[|timers| - 1].id == id then 1 else 0)
  }

  /** How often `s` contains work with the given id, apart from repeating timers unless
      `all` is set. */
  function WorkCount(s: seq<Work>, id: nat, all: bool): nat {
    if s == [] then 0
    else WorkCount(s[..|s| - 1], id, all)
         + (if IdOf(s[|s| - 1]) == id && (all || !Repeating(s[|s| - 1])) then 1 else 0)
  }

  /** In how many places a submission is: queued, armed, in a worker's hands, done, dropped. */
  function Places(items: seq<nat>, timers: seq<Timer>, held: seq<Work>, log: History, id: nat): nat {
    Count(items, id) + TimerCount(timers, id) + WorkCount(held, id, true) + WorkCount(log.done, id, true)
    + Count(log.dropped, id)
  }

  /** Every submission is in exactly one place; nothing else is anywhere. */
  ghost predicate Conserved(items: seq<nat>, timers: seq<Timer>, held: seq<Work>, log: History) {
    forall id: nat :: Places(items, timers, held, log, id) == if id < log.nextId then 1 else 0
  }

  /** Each start of work that runs only once is in progress or done. */
  ghost predicate RunsOnce(held: seq<Work>, log: History) {
    forall id: nat :: WorkCount(log.started, id, false) == WorkCount(held, id, false) + WorkCount(log.done, id, false)
  }

  function Immediates(s: seq<Work>): seq<nat> {
    if s == [] then []
    else Immediates(s[..|s| - 1]) + (if s[|s| - 1].Immediate? then [s[|s| - 1].id] else [])
  }

  ghost predicate Ascending(s: seq<nat>, bound: nat) {
    && (forall i | 0 <= i < |s| :: s[i] < bound)
    && (forall i, j | 0 <= i < j < |s| :: s[i] < s[j])
  }

  /** Items start in the order of their submission. */
  ghost predicate Fifo(items: seq<nat>, log: History) {
    Ascending(Immediates(log.started) + items, log.nextId)
  }

  /** On a queue with a single lane closures run one after the other. */
  ghost predicate Serial(held: seq<Work>, log: History, maxConcurrency: nat) {
    maxConcurrency == 1 ==> log.started == log.ended + held
  }

  ghost predicate Books(items: seq<nat>, timers: seq<Timer>, held: seq<Work>, log: History, maxConcurrency: nat) {
    Conserved(items, timers, held, log) && RunsOnce(held, log) && Fifo(items, log) && Serial(held, log, maxConcurrency)
  }

  ghost predicate BooksOk(q: Queue) {
    Books(q.items, q.timers, InFlight(q.lanes, q.workers), q.log, q.maxConcurrency)
  }

  ghost predicate Inv(q: Queue) {
    LanesOk(q) && TimersOk(q) && StateOk(q) && BooksOk(q)
  }

  // ---- Acquiring and relinquishing ----------------------------------------------

  /** The assertion in AcquireVirtualProcessor_Locked: whenever another worker is wanted
      there is a free lane for it. */
  lemma FreeLaneExists(q: Queue)
    requires LanesOk(q) && NeedsWorker(q)
    ensures IndexOf(q.lanes, None) < |q.lanes|
  {
    FullLanes(q.lanes);
    var j :| 0 <= j < |q.lanes| && q.lanes[j] == None;
  }

  lemma AcquireKeeps(q: Queue, vp: WorkerId)
    requires LanesOk(q) && vp !in q.workers
    ensures var r := AcquireWorker(q, vp);
            && LanesOk(r) && InFlight(r.lanes, r.workers) == InFlight(q.lanes, q.workers)
            && r.availableConcurrency >= q.availableConcurrency
  {
    hide InFlight, Occupied;
    var r := AcquireWorker(q, vp);
    if NeedsWorker(q) {
      FreeLaneExists(q);
      var lane := IndexOf(q.lanes, None);
      OccupiedUpdate(q.lanes, lane, Some(vp));
      forall j | 0 <= j < |q.lanes|
        ensures Holding(q.lanes[j], q.workers) == Holding(r.lanes[j], r.workers)
      {
      }
      InFlightSame(q.lanes, q.workers, r.lanes, r.workers);
    }
  }

  /** A worker that leaves frees the lane whose index it stores, which is its own. */
  lemma RelinquishKeeps(q: Queue, vp: WorkerId)
    requires LanesOk(q) && vp in q.workers && !q.workers[vp].phase.Executing?
    ensures var r := RelinquishWorker(q, vp);
            && LanesOk(r) && InFlight(r.lanes, r.workers) == InFlight(q.lanes, q.workers)
            && r.availableConcurrency == q.availableConcurrency - 1
  {
    var r := RelinquishWorker(q, vp);
    OccupiedUpdate(q.lanes, q.workers[vp].lane, None);
    forall j | 0 <= j < |q.lanes|
      ensures Holding(q.lanes[j], q.workers) == Holding(r.lanes[j], r.workers)
    {
    }
    InFlightSame(q.lanes, q.workers, r.lanes, r.workers);
  }

  function InHand(phase: Phase): seq<Work> {
    if phase.Executing? then [phase.work] else []
  }

  /** What a worker does next changes the work in flight by its own work. */
  lemma SetPhaseKeeps(q: Queue, vp: WorkerId, phase: Phase) returns (a: seq<Work>, b: seq<Work>)
    requires LanesOk(q) && vp in q.workers
    ensures var r := SetPhase(q, vp, phase);
            && LanesOk(r)
            && InFlight(q.lanes, q.workers) == a + InHand(q.workers[vp].phase) + b
            && InFlight(r.lanes, r.workers) == a + InHand(phase) + b
    ensures |a| + |b| < q.maxConcurrency
  {
    var r := SetPhase(q, vp, phase);
    var i := q.workers[vp].lane;
    forall j | 0 <= j < |q.lanes| && j != i
      ensures Holding(q.lanes[j], q.workers) == Holding(r.lanes[j], r.workers)
    {
    }
    a, b := InFlightSplit(q.lanes, q.workers, r.lanes, r.workers, i);
    LaneSpare(q, vp, a, b);
  }

  /** The worker's own lane is not among those that account for the rest of the work. */
  lemma LaneSpare(q: Queue, vp: WorkerId, a: seq<Work>, b: seq<Work>)
    requires LanesOk(q) && vp in q.workers
    requires InFlight(q.lanes, q.workers) == a + InHand(q.workers[vp].phase) + b
    ensures |a| + |b| < q.maxConcurrency
  {
    if !q.workers[vp].phase.Executing? {
      var i := q.workers[vp].lane;
      OccupiedUpdate(q.lanes, i, None);
      var freed := q.lanes[i := None];
      forall j | 0 <= j < |q.lanes| ensures Holding(q.lanes[j], q.workers) == Holding(freed[j], q.workers) {
      }
      InFlightSame(q.lanes, q.workers, freed, q.workers);
    }
  }
}
