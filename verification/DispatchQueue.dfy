/** The dispatch queue as the kernel runs it: its fields and loops, proved against the
    critical sections of DispatchQueueState.  Everything here runs with the lock held. */
module DispatchQueues {
  import opened Sequences
  import opened DispatchQueueState
  import opened DispatchQueueInvariant
  import opened DispatchQueueRuns

  const INT8_MAX := 127

  class DispatchQueue {
    var items: seq<nat>
    var timers: seq<Timer>
    var itemsQueuedCount: int
    var state: QueueState
    const minConcurrency: nat
    const maxConcurrency: nat
    var availableConcurrency: int
    const concurrencyLanes: array<Option<WorkerId>>
    var workers: map<WorkerId, Worker>
    /** Identities and history; the source has no such field and no branch reads it. */
    var log: History

    ghost function State(): Queue
      reads this, concurrencyLanes
    {
      Queue(items, timers, itemsQueuedCount, state, minConcurrency, maxConcurrency, availableConcurrency,
            concurrencyLanes[..], workers, log)
    }

    constructor Empty(minConcurrency: nat, maxConcurrency: nat)
      ensures fresh(concurrencyLanes)
      ensures State() == Created(minConcurrency, maxConcurrency, [])
    {
      items, timers, itemsQueuedCount, state, availableConcurrency := [], [], 0, Running, 0;
      this.minConcurrency, this.maxConcurrency := minConcurrency, maxConcurrency;
      concurrencyLanes := new Option<WorkerId>[maxConcurrency](_ => None);
      workers := map[];
      log := History(0, 0, [], [], [], [], map[]);
      new;
      assert concurrencyLanes[..] == seq(maxConcurrency, (i: nat) => None);
    }

    /** DispatchQueue_Create; `None` is EINVAL. */
    static method Create(minConcurrency: int, maxConcurrency: int, pool: seq<WorkerId>)
        returns (r: Option<DispatchQueue>)
      requires |pool| >= minConcurrency && Distinct(pool)
      ensures r.Some? <==> 1 <= maxConcurrency <= INT8_MAX && 0 <= minConcurrency <= maxConcurrency
      ensures r.Some? ==> fresh(r.value) && fresh(r.value.concurrencyLanes)
      ensures r.Some? ==> r.value.State() == Created(minConcurrency, maxConcurrency, pool[..minConcurrency])
      ensures r.Some? ==> Inv(r.value.State())
    {
      if maxConcurrency < 1 || maxConcurrency > INT8_MAX { return None; }
      if minConcurrency < 0 || minConcurrency > maxConcurrency { return None; }
      var queue := new DispatchQueue.Empty(minConcurrency, maxConcurrency);
      queue.AcquireInitial(pool[..minConcurrency]);
      CreatedInv(minConcurrency, maxConcurrency, pool[..minConcurrency]);
      return Some(queue);
    }

    /** The first workers of a new queue. */
    method AcquireInitial(pool: seq<WorkerId>)
      requires 1 <= maxConcurrency && |pool| == minConcurrency <= maxConcurrency && Distinct(pool)
      requires State() == Created(minConcurrency, maxConcurrency, [])
      modifies this`workers, this`availableConcurrency, concurrencyLanes
      ensures State() == Created(minConcurrency, maxConcurrency, pool)
    {
      var i := 0;
      while i < minConcurrency
        invariant 0 <= i <= minConcurrency
        invariant State() == Created(minConcurrency, maxConcurrency, pool[..i])
      {
        InitialLanes(minConcurrency, maxConcurrency, pool, i);
        assert pool[..i + 1][..i] == pool[..i];
        AcquireVirtualProcessor(pool[i]);
        i := i + 1;
      }
      assert pool[..i] == pool;
    }

    /** Attaches `vp` to the first free lane if another worker is wanted. */
    method AcquireVirtualProcessor(vp: WorkerId)
      requires LanesOk(State())
      modifies this`workers, this`availableConcurrency, concurrencyLanes
      ensures State() == AcquireWorker(old(State()), vp)
    {
      if state.Running?
         && (|| availableConcurrency == 0
             || availableConcurrency < minConcurrency
             || (itemsQueuedCount > 4 && availableConcurrency < maxConcurrency)) {
        FreeLaneExists(State());
        var conLaneIdx, i := -1, 0;
        ghost var lanes := concurrencyLanes[..];
        while i < maxConcurrency
          invariant 0 <= i <= maxConcurrency
          invariant conLaneIdx == -1 && forall k | 0 <= k < i :: concurrencyLanes[k] != None
        {
          if concurrencyLanes[i] == None {
            conLaneIdx := i;
            break;
          }
          i := i + 1;
        }
        assert lanes[IndexOf(lanes, None)] == None;
        assert conLaneIdx != -1;
        FirstIndex(lanes, conLaneIdx);
        workers := workers[vp := Worker(conLaneIdx, Starting)];
        concurrencyLanes[conLaneIdx] := Some(vp);
        availableConcurrency := availableConcurrency + 1;
        assert concurrencyLanes[..] == lanes[conLaneIdx := Some(vp)];
      }
    }

    /** Frees the lane whose index the worker stores. */
    method RelinquishVirtualProcessor(vp: WorkerId)
      requires LanesOk(State()) && vp in workers
      modifies this`workers, this`availableConcurrency, concurrencyLanes
      ensures State() == RelinquishWorker(old(State()), vp)
    {
      var conLaneIdx := workers[vp].lane;
      assert conLaneIdx >= 0 && conLaneIdx < maxConcurrency;
      ghost var lanes := concurrencyLanes[..];
      workers := workers - {vp};
      concurrencyLanes[conLaneIdx] := None;
      availableConcurrency := availableConcurrency - 1;
      assert concurrencyLanes[..] == lanes[conLaneIdx := None];
    }

    method AddTimer(id: nat, deadline: int, interval: int)
      modifies this`timers, this`log
      ensures State() == DispatchQueueState.AddTimer(old(State()), id, deadline, interval)
    {
      var cur := 0;
      while cur < |timers| && !(timers[cur].deadline > deadline)
        invariant 0 <= cur <= |timers|
        invariant forall k | 0 <= k < cur :: timers[k].deadline <= deadline
      {
        cur := cur + 1;
      }
      TimerPosFirst(timers, deadline, cur);
      timers := timers[..cur] + [Timer(id, deadline, interval, log.nextStamp)] + timers[cur..];
      log := log.(nextStamp := log.nextStamp + 1);
    }

    /** ConditionVariable_SignalAndUnlock; `woken` is the first worker in the wait queue. */
    method SignalWorkAvailable(woken: Option<WorkerId>)
      modifies this`workers
      ensures State() == Signal(old(State()), woken)
    {
      if woken.Some? && woken.value in workers && workers[woken.value].phase.Waiting? {
        workers := workers[woken.value := workers[woken.value].(phase := Woken(false))];
      }
    }

    /** DispatchAsync and DispatchWorkItemAsync. */
    method DispatchWorkItem(vp: WorkerId, woken: Option<WorkerId>)
      requires LanesOk(State()) && vp !in workers
      modifies this, concurrencyLanes
      ensures State() == DispatchItem(old(State()), vp, woken)
    {
      if state.Running? {
        EnqueueItemLanes(State());
        items := items + [log.nextId];
        itemsQueuedCount := itemsQueuedCount + 1;
        log := log.(nextId := log.nextId + 1);
        AcquireVirtualProcessor(vp);
        SignalWorkAvailable(woken);
      }
    }

    /** DispatchAsyncAfter and DispatchTimer. */
    method DispatchTimer(deadline: int, interval: int, vp: WorkerId, woken: Option<WorkerId>)
      requires LanesOk(State()) && vp !in workers
      modifies this, concurrencyLanes
      ensures State() == DispatchQueueState.DispatchTimer(old(State()), deadline, interval, vp, woken)
    {
      if state.Running? {
        EnqueueTimerLanes(State(), deadline, interval);
        var id := log.nextId;
        log := log.(nextId := id + 1, submitted := log.submitted[id := Timer(id, deadline, interval, log.nextStamp)]);
        AddTimer(id, deadline, interval);
        AcquireVirtualProcessor(vp);
        SignalWorkAvailable(woken);
      }
    }

    method RemoveWorkItem(id: nat)
      modifies this`items, this`itemsQueuedCount, this`log
      ensures State() == RemoveItem(old(State()), id)
    {
      var cur := 0;
      ghost var before, count := items, itemsQueuedCount;
      ghost var dropped := log.dropped;
      while cur < |items|
        invariant 0 <= cur <= |items| <= |before|
        invariant ItemsWithout(before, id) == items[..cur] + ItemsWithout(items[cur..], id)
        invariant itemsQueuedCount == count - (|before| - |items|)
        invariant log == old(log).(dropped := dropped + Copies(id, |before| - |items|))
        decreases |items| - cur
      {
        ItemsWithoutStep(items, cur, id);
        if items[cur] == id {
          items := items[..cur] + items[cur + 1..];
          itemsQueuedCount := itemsQueuedCount - 1;
          log := log.(dropped := log.dropped + [id]);
        } else {
          cur := cur + 1;
        }
      }
      assert items[..cur] + [] == items;
    }

    method RemoveTimer(id: nat)
      modifies this`timers, this`log
      ensures State() == DispatchQueueState.RemoveTimer(old(State()), id)
    {
      var cur := 0;
      ghost var before := timers;
      ghost var dropped := log.dropped;
      while cur < |timers|
        invariant 0 <= cur <= |timers| <= |before|
        invariant TimersWithout(before, id) == timers[..cur] + TimersWithout(timers[cur..], id)
        invariant log == old(log).(dropped := dropped + Copies(id, |before| - |timers|))
        decreases |timers| - cur
      {
        TimersWithoutStep(timers, cur, id);
        if timers[cur].id == id {
          timers := timers[..cur] + timers[cur + 1..];
          log := log.(dropped := log.dropped + [id]);
        } else {
          cur := cur + 1;
        }
      }
      assert timers[..cur] + [] == timers;
    }

    method Flush()
      modifies this`items, this`timers, this`log
      ensures State() == DispatchQueueState.Flush(old(State()))
    {
      ghost var dropped, before, armed := log.dropped, items, timers;
      while items != []
        invariant |items| <= |before| && items == before[|before| - |items|..] && timers == armed
        invariant log == old(log).(dropped := dropped + before[..|before| - |items|])
      {
        log := log.(dropped := log.dropped + [items[0]]);
        items := items[1..];
      }
      assert before[..|before|] == before;
      while timers != []
        invariant |timers| <= |armed| && timers == armed[|armed| - |timers|..] && items == []
        invariant log == old(log).(dropped := dropped + before + TimerIds(armed)[..|armed| - |timers|])
      {
        log := log.(dropped := log.dropped + [timers[0].id]);
        timers := timers[1..];
      }
      assert TimerIds(armed)[..|armed|] == TimerIds(armed);
    }

    method Terminate()
      modifies this`items, this`timers, this`state, this`workers, this`log
      ensures State() == DispatchQueueState.Terminate(old(State()))
    {
      if !state.Running? { return; }
      state := Terminating;
      Flush();
      workers := map vp | vp in workers :: Awoken(workers[vp]);
    }

    /** The check that ends WaitForTerminationCompleted. */
    method CompleteTermination() returns (completed: bool)
      modifies this`state
      ensures State() == DispatchQueueState.CompleteTermination(old(State()))
      ensures completed <==> availableConcurrency <= 0
    {
      if availableConcurrency > 0 { return false; }
      state := Terminated;
      return true;
    }

    method RearmTimer(t: Timer, curTime: int)
      requires t.interval > 0
      modifies this`timers, this`log
      ensures State() == DispatchQueueState.AddTimer(old(State()), t.id,
                                                     NextDeadline(t.deadline, t.interval, curTime), t.interval)
    {
      var deadline := t.deadline + t.interval;
      while deadline < curTime
        invariant NextDeadline(t.deadline, t.interval, curTime)
                  == if deadline < curTime then NextDeadline(deadline, t.interval, curTime) else deadline
        decreases curTime - deadline
      {
        deadline := deadline + t.interval;
      }
      AddTimer(t.id, deadline, t.interval);
    }

    /** One round of the loop that waits for work; the worker then runs `work`, waits, or
        has left the queue. */
    method NextWork(vp: WorkerId, mayRelinquish: bool, now: int) returns (work: Option<Work>)
      requires LanesOk(State()) && vp in workers
      modifies this, concurrencyLanes
      ensures State() == LookForWork(old(State()), vp, mayRelinquish, now)
      ensures work.Some? ==> vp in workers && workers[vp].phase == Executing(work.value)
    {
      hide Occupied;
      work := None;
      if timers != [] && timers[0].deadline <= now {
        work := Some(Fired(timers[0]));
        timers := timers[1..];
      }
      if work == None {
        if items != [] {
          work := Some(Immediate(items[0]));
          items := items[1..];
        }
        itemsQueuedCount := itemsQueuedCount - 1;
      }
      if work.Some? || !state.Running? || mayRelinquish {
        if work == None || !state.Running? {
          RelinquishVirtualProcessor(vp);
          work := None;
        } else {
          workers := workers[vp := workers[vp].(phase := Executing(work.value))];
          log := log.(started := log.started + [work.value]);
        }
      } else {
        var deadline := None;
        if timers != [] { deadline := Some(timers[0].deadline); }
        workers := workers[vp := workers[vp].(phase := Waiting(deadline))];
      }
    }

    /** From the end of the wait for work to the next release of the lock. */
    method OnWakeUp(vp: WorkerId, now: int) returns (work: Option<Work>)
      requires LanesOk(State()) && vp in workers && workers[vp].phase.Woken?
      modifies this, concurrencyLanes
      ensures State() == WakeUp(old(State()), vp, now)
    {
      var mayRelinquish := workers[vp].phase.timedOut && availableConcurrency > minConcurrency;
      work := NextWork(vp, mayRelinquish, now);
    }

    /** From the end of a closure to the next release of the lock. */
    method OnClosureReturned(vp: WorkerId, curTime: int, cancelled: bool, now: int) returns (work: Option<Work>)
      requires LanesOk(State()) && vp in workers && workers[vp].phase.Executing?
      modifies this, concurrencyLanes
      ensures State() == Finish(old(State()), vp, curTime, cancelled, now)
    {
      hide LookForWork, DispatchQueueState.AddTimer, NextDeadline, Occupied;
      RetireLanes(State(), vp, curTime, cancelled);
      var done := workers[vp].phase.work;
      workers := workers[vp := workers[vp].(phase := Starting)];
      log := log.(ended := log.ended + [done]);
      if done.Immediate? || done.timer.interval <= 0 || cancelled {
        log := log.(done := log.done + [done]);
      } else if state.Running? {
        RearmTimer(done.timer, curTime);
      } else {
        log := log.(dropped := log.dropped + [done.timer.id]);
      }
      work := NextWork(vp, false, now);
    }
  }

  lemma FirstIndex(lanes: seq<Option<WorkerId>>, i: nat)
    requires i < |lanes| && lanes[i] == None && forall k | 0 <= k < i :: lanes[k] != None
    ensures IndexOf(lanes, None) == i
  {
  }

  lemma TimerPosFirst(timers: seq<Timer>, deadline: int, i: nat)
    requires i <= |timers| && forall k | 0 <= k < i :: timers[k].deadline <= deadline
    requires i < |timers| ==> timers[i].deadline > deadline
    ensures TimerPos(timers, deadline) == i
  {
  }

  lemma EnqueueItemLanes(q: Queue)
    requires LanesOk(q)
    ensures LanesOk(EnqueueItem(q))
  {
  }

  lemma EnqueueTimerLanes(q: Queue, deadline: int, interval: int)
    requires LanesOk(q)
    ensures LanesOk(EnqueueTimer(q, deadline, interval))
  {
  }

  /** What a look at entry `cur` leaves to be done behind it. */
  lemma ItemsWithoutStep(items: seq<nat>, cur: nat, id: nat)
    requires cur < |items|
    ensures if items[cur] == id then
              var left := items[..cur] + items[cur + 1..];
              items[..cur] + ItemsWithout(items[cur..], id) == left[..cur] + ItemsWithout(left[cur..], id)
            else items[..cur] + ItemsWithout(items[cur..], id) == items[..cur + 1] + ItemsWithout(items[cur + 1..], id)
  {
    assert items[cur..][1..] == items[cur + 1..];
    if items[cur] == id {
      var left := items[..cur] + items[cur + 1..];
      assert left[..cur] == items[..cur] && left[cur..] == items[cur + 1..];
    } else {
      var rest := ItemsWithout(items[cur + 1..], id);
      assert items[..cur + 1] + rest == items[..cur] + ([items[cur]] + rest);
    }
  }

  lemma TimersWithoutStep(timers: seq<Timer>, cur: nat, id: nat)
    requires cur < |timers|
    ensures if timers[cur].id == id then
              var left := timers[..cur] + timers[cur + 1..];
              timers[..cur] + TimersWithout(timers[cur..], id) == left[..cur] + TimersWithout(left[cur..], id)
            else timers[..cur] + TimersWithout(timers[cur..], id)
                 == timers[..cur + 1] + TimersWithout(timers[cur + 1..], id)
  {
    assert timers[cur..][1..] == timers[cur + 1..];
    if timers[cur].id == id {
      var left := timers[..cur] + timers[cur + 1..];
      assert left[..cur] == timers[..cur] && left[cur..] == timers[cur + 1..];
    } else {
      var rest := TimersWithout(timers[cur + 1..], id);
      assert timers[..cur + 1] + rest == timers[..cur] + ([timers[cur]] + rest);
    }
  }

  lemma RetireLanes(q: Queue, vp: WorkerId, now: int, cancelled: bool)
    requires LanesOk(q) && vp in q.workers && q.workers[vp].phase.Executing?
    ensures LanesOk(Retire(q, vp, now, cancelled))
  {
    hide InFlight, Occupied, TimerPos, InsertAt, NextDeadline;
    var _, _ := SetPhaseKeeps(q, vp, Starting);
  }

  lemma InitialLanes(minConcurrency: nat, maxConcurrency: nat, pool: seq<WorkerId>, i: nat)
    requires 1 <= maxConcurrency && i <= |pool| == minConcurrency <= maxConcurrency && Distinct(pool)
    ensures LanesOk(Created(minConcurrency, maxConcurrency, pool[..i]))
  {
    var q := Created(minConcurrency, maxConcurrency, []);
    EmptyLanes(q.lanes);
    AcquireAllInv(q, pool[..i]);
  }
}
