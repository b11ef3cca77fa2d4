/** The state of a dispatch queue and what each critical section under its lock does to it
    (Kernel/Sources/dispatchqueue/DispatchQueue.c). */
module DispatchQueueState {
  import opened Sequences

  type WorkerId = nat

  /** `stamp` counts how often a timer has been put on a timer queue; times are nanoseconds. */
  datatype Timer = Timer(id: nat, deadline: int, interval: int, stamp: nat)

  /** What a worker can have in hand: an immediate item or a timer that has fired. */
  datatype Work = Immediate(id: nat) | Fired(timer: Timer)

  predicate Repeating(w: Work) { w.Fired? && w.timer.interval > 0 }

  function IdOf(w: Work): nat {
    if w.Immediate? then w.id else w.timer.id
  }

  /** Where a worker is in DispatchQueue_Run whenever the lock is free: before its first
      critical section; asleep in the wait for work, until the deadline of a timer or, without
      one, for two seconds; on its way back from the wait, which has timed out or not; or
      running a closure. */
  datatype Phase = Starting | Waiting(timer: Option<int>) | Woken(timedOut: bool) | Executing(work: Work)

  /** A virtual processor attached to the queue, with the lane index it stores. */
  datatype Worker = Worker(lane: int, phase: Phase)

  datatype QueueState = Running | Terminating | Terminated

  /** What has happened so far: the closures started and ended, in order; the work that is
      over; the submissions that were removed without being run again; the timers as they
      were submitted. */
  datatype History = History(nextId: nat, nextStamp: nat, started: seq<Work>, ended: seq<Work>,
                             done: seq<Work>, dropped: seq<nat>, submitted: map<nat, Timer>)

  datatype Queue = Queue(
    items: seq<nat>,
    timers: seq<Timer>,
    itemsQueuedCount: int,
    state: QueueState,
    minConcurrency: nat,
    maxConcurrency: nat,
    availableConcurrency: int,
    lanes: seq<Option<WorkerId>>,
    workers: map<WorkerId, Worker>,
    log: History)

  // ---- Lanes --------------------------------------------------------------------

  predicate NeedsWorker(q: Queue) {
    && q.state.Running?
    && (|| q.availableConcurrency == 0
        || q.availableConcurrency < q.minConcurrency
        || (q.itemsQueuedCount > 4 && q.availableConcurrency < q.maxConcurrency))
  }

  /** AcquireVirtualProcessor_Locked, with `vp` as the processor that the pool hands out.
      Without a free lane the source's assertion fails; the state is then left alone. */
  function AcquireWorker(q: Queue, vp: WorkerId): Queue {
    var lane := IndexOf(q.lanes, None);
    if !NeedsWorker(q) || lane >= |q.lanes| then q
    else q.(lanes := q.lanes[lane := Some(vp)],
            workers := q.workers[vp := Worker(lane, Starting)],
            availableConcurrency := q.availableConcurrency + 1)
  }

  /** RelinquishVirtualProcessor_Locked. */
  function RelinquishWorker(q: Queue, vp: WorkerId): Queue
    requires vp in q.workers
  {
    var lane := q.workers[vp].lane;
    if 0 <= lane < |q.lanes| then
      q.(lanes := q.lanes[lane := None],
         workers := q.workers - {vp},
         availableConcurrency := q.availableConcurrency - 1)
    else q
  }

  function SetPhase(q: Queue, vp: WorkerId, phase: Phase): Queue
    requires vp in q.workers
  {
    q.(workers := q.workers[vp := q.workers[vp].(phase := phase)])
  }

  // ---- The condition variable for work --------------------------------------------

  predicate Asleep(q: Queue, vp: WorkerId) {
    vp in q.workers && q.workers[vp].phase.Waiting?
  }

  /** A signal wakes one of the sleeping workers, if there is one. */
  predicate MaySignal(q: Queue, woken: Option<WorkerId>) {
    if woken.Some? then Asleep(q, woken.value) else forall vp | vp in q.workers :: !Asleep(q, vp)
  }

  function Signal(q: Queue, woken: Option<WorkerId>): Queue {
    if woken.Some? && Asleep(q, woken.value) then SetPhase(q, woken.value, Woken(false)) else q
  }

  function Awoken(w: Worker): Worker {
    if w.phase.Waiting? then w.(phase := Woken(false)) else w
  }

  function Broadcast(q: Queue): Queue {
    q.(workers := map vp | vp in q.workers :: Awoken(q.workers[vp]))
  }

  /** The wait ends without a signal: its deadline has passed, or it is interrupted. */
  function WaitEnds(q: Queue, vp: WorkerId, timedOut: bool): Queue
    requires vp in q.workers
  {
    SetPhase(q, vp, Woken(timedOut))
  }

  // ---- Timers -------------------------------------------------------------------

  /** Where AddTimer_Locked puts a timer: behind all timers that are not due later. */
  function TimerPos(timers: seq<Timer>, deadline: int): (i: nat)
    ensures i <= |timers|
    ensures forall k | 0 <= k < i :: timers[k].deadline <= deadline
    ensures i < |timers| ==> timers[i].deadline > deadline
  {
    if timers == [] || timers[0].deadline > deadline then 0
    else 1 + TimerPos(timers[1..], deadline)
  }

  function AddTimer(q: Queue, id: nat, deadline: int, interval: int): Queue {
    var t := Timer(id, deadline, interval, q.log.nextStamp);
    q.(timers := InsertAt(q.timers, TimerPos(q.timers, deadline), t),
       log := q.log.(nextStamp := q.log.nextStamp + 1))
  }

  /** The deadline a repeating timer is given once it has fired: RearmTimer_Locked. */
  function NextDeadline(deadline: int, interval: int, now: int): int
    requires interval > 0
    decreases now - deadline
  {
    var next := deadline + interval;
    if next < now then NextDeadline(next, interval, now) else next
  }

  // ---- Critical sections of the queue's users -----------------------------------

  function EnqueueItem(q: Queue): Queue {
    q.(items := q.items + [q.log.nextId],
       itemsQueuedCount := q.itemsQueuedCount + 1,
       log := q.log.(nextId := q.log.nextId + 1))
  }

  /** The next id goes to a timer. */
  function Announced(q: Queue, deadline: int, interval: int): Queue {
    var t := Timer(q.log.nextId, deadline, interval, q.log.nextStamp);
    q.(log := q.log.(nextId := q.log.nextId + 1, submitted := q.log.submitted[q.log.nextId := t]))
  }

  function EnqueueTimer(q: Queue, deadline: int, interval: int): Queue {
    AddTimer(Announced(q, deadline, interval), q.log.nextId, deadline, interval)
  }

  function DispatchItem(q: Queue, vp: WorkerId, woken: Option<WorkerId>): Queue {
    if !q.state.Running? then q else Signal(AcquireWorker(EnqueueItem(q), vp), woken)
  }

  function DispatchTimer(q: Queue, deadline: int, interval: int, vp: WorkerId, woken: Option<WorkerId>): Queue {
    if !q.state.Running? then q else Signal(AcquireWorker(EnqueueTimer(q, deadline, interval), vp), woken)
  }

  /** The items left after every entry for `id` has been unlinked. */
  function ItemsWithout(items: seq<nat>, id: nat): seq<nat> {
    if items == [] then []
    else if items[0] == id then ItemsWithout(items[1..], id)
    else [items[0]] + ItemsWithout(items[1..], id)
  }

  function TimersWithout(timers: seq<Timer>, id: nat): seq<Timer> {
    if timers == [] then []
    else if timers[0].id == id then TimersWithout(timers[1..], id)
    else [timers[0]] + TimersWithout(timers[1..], id)
  }

  function Copies(id: nat, n: nat): (r: seq<nat>)
    ensures |r| == n
  {
    if n == 0 then [] else Copies(id, n - 1) + [id]
  }

  function RemoveItem(q: Queue, id: nat): Queue {
    var items := ItemsWithout(q.items, id);
    ItemsWithoutLength(q.items, id);
    q.(items := items,
       itemsQueuedCount := q.itemsQueuedCount - (|q.items| - |items|),
       log := q.log.(dropped := q.log.dropped + Copies(id, |q.items| - |items|)))
  }

  function RemoveTimer(q: Queue, id: nat): Queue {
    var timers := TimersWithout(q.timers, id);
    TimersWithoutLength(q.timers, id);
    q.(timers := timers,
       log := q.log.(dropped := q.log.dropped + Copies(id, |q.timers| - |timers|)))
  }

  lemma ItemsWithoutLength(items: seq<nat>, id: nat)
    ensures |ItemsWithout(items, id)| <= |items|
  {
  }

  lemma TimersWithoutLength(timers: seq<Timer>, id: nat)
    ensures |TimersWithout(timers, id)| <= |timers|
  {
  }

  function TimerIds(timers: seq<Timer>): (r: seq<nat>)
    ensures |r| == |timers|
    ensures forall k | 0 <= k < |timers| :: r[k] == timers[k].id
  {
    seq(|timers|, k requires 0 <= k < |timers| => timers[k].id)
  }

  function Flush(q: Queue): Queue {
    q.(items := [], timers := [],
       log := q.log.(dropped := q.log.dropped + q.items + TimerIds(q.timers)))
  }

  function Terminate(q: Queue): Queue {
    if !q.state.Running? then q else Broadcast(Flush(q.(state := Terminating)))
  }

  /** The end of WaitForTerminationCompleted, which waits for all lanes to be free. */
  function CompleteTermination(q: Queue): Queue {
    if q.availableConcurrency > 0 then q else q.(state := Terminated)
  }

  // ---- Critical sections of the workers -----------------------------------------

  predicate TimerDue(q: Queue, now: int) {
    q.timers != [] && q.timers[0].deadline <= now
  }

  /** The work that DispatchQueue_Run picks: a due timer before the first item. */
  function Picked(q: Queue, now: int): Option<Work> {
    if TimerDue(q, now) then Some(Fired(q.timers[0]))
    else if q.items != [] then Some(Immediate(q.items[0]))
    else None
  }

  function WithoutPicked(q: Queue, now: int): Queue {
    if TimerDue(q, now) then q.(timers := q.timers[1..])
    else q.(items := if q.items == [] then [] else q.items[1..], itemsQueuedCount := q.itemsQueuedCount - 1)
  }

  function Started(q: Queue, vp: WorkerId, w: Work): Queue
    requires vp in q.workers
  {
    SetPhase(q, vp, Executing(w)).(log := q.log.(started := q.log.started + [w]))
  }

  /** Until when the wait for work lasts. */
  function WaitDeadline(q: Queue): Option<int> {
    if q.timers == [] then None else Some(q.timers[0].deadline)
  }

  /** The inner loop of DispatchQueue_Run up to the point where the lock is released: the
      worker starts a closure, goes to sleep, or leaves the queue. */
  function LookForWork(q: Queue, vp: WorkerId, mayRelinquish: bool, now: int): Queue
    requires vp in q.workers
  {
    var work, r := Picked(q, now), WithoutPicked(q, now);
    if work.None? && r.state.Running? && !mayRelinquish then SetPhase(r, vp, Waiting(WaitDeadline(r)))
    else if work.None? || !r.state.Running? then RelinquishWorker(r, vp)
    else Started(r, vp, work.value)
  }

  /** A worker whose wait has ended may leave the queue if it is not needed. */
  predicate MayLeave(q: Queue, vp: WorkerId)
    requires vp in q.workers
  {
    q.workers[vp].phase == Woken(true) && q.availableConcurrency > q.minConcurrency
  }

  /** The wait for work has ended and the lock is held again. */
  function WakeUp(q: Queue, vp: WorkerId, now: int): Queue
    requires vp in q.workers
  {
    LookForWork(q, vp, MayLeave(q, vp), now)
  }

  /** The closure has returned and the lock is held again. */
  function Ended(q: Queue, vp: WorkerId): (r: Queue)
    requires vp in q.workers && q.workers[vp].phase.Executing?
  {
    SetPhase(q, vp, Starting).(log := q.log.(ended := q.log.ended + [q.workers[vp].phase.work]))
  }

  /** What becomes of the work: it is over, or armed again, or lost to termination. */
  function Retire(q: Queue, vp: WorkerId, now: int, cancelled: bool): (r: Queue)
    requires vp in q.workers && q.workers[vp].phase.Executing?
    ensures vp in r.workers
  {
    var w, r := q.workers[vp].phase.work, Ended(q, vp);
    if !Repeating(w) || cancelled then r.(log := r.log.(done := r.log.done + [w]))
    else if r.state.Running? then
      AddTimer(r, w.timer.id, NextDeadline(w.timer.deadline, w.timer.interval, now), w.timer.interval)
    else r.(log := r.log.(dropped := r.log.dropped + [w.timer.id]))
  }

  /** The critical section between two closures; the clock is read again for the timers. */
  function Finish(q: Queue, vp: WorkerId, armTime: int, cancelled: bool, now: int): Queue
    requires vp in q.workers && q.workers[vp].phase.Executing?
  {
    LookForWork(Retire(q, vp, armTime, cancelled), vp, false, now)
  }

  // ---- Creation -----------------------------------------------------------------

  /** DispatchQueue_Create: the initial workers come from the pool as `pool[..minConcurrency]`. */
  function Created(minConcurrency: nat, maxConcurrency: nat, pool: seq<WorkerId>): Queue
  {
    AcquireAll(Queue([], [], 0, Running, minConcurrency, maxConcurrency, 0,
                     seq(maxConcurrency, (i: nat) => None), map[], History(0, 0, [], [], [], [], map[])),
               pool)
  }

  function AcquireAll(q: Queue, pool: seq<WorkerId>): Queue {
    if pool == [] then q else AcquireWorker(AcquireAll(q, pool[..|pool| - 1]), pool[|pool| - 1])
  }
}
