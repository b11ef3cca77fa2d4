/** Every critical section keeps the invariant of the dispatch queue. */
module DispatchQueueRuns {
  import opened Sequences
  import opened DispatchQueueState
  import opened DispatchQueueInvariant

  // ---- Counting -----------------------------------------------------------------

  lemma {:induction false} CountConcat(a: seq<nat>, b: seq<nat>, id: nat)
    ensures Count(a + b, id) == Count(a, id) + Count(b, id)
  {
    if b == [] {
      assert a + b == a;
    } else {
      CountConcat(a, b[..|b| - 1], id);
      assert (a + b)[..|a + b| - 1] == a + b[..|b| - 1];
    }
  }

  lemma CountFirst(s: seq<nat>, id: nat)
    requires s != []
    ensures Count(s, id) == (if s[0] == id then 1 else 0) + Count(s[1..], id)
  {
    CountConcat([s[0]], s[1..], id);
    assert [s[0]] + s[1..] == s;
  }

  lemma {:induction false} TimerCountConcat(a: seq<Timer>, b: seq<Timer>, id: nat)
    ensures TimerCount(a + b, id) == TimerCount(a, id) + TimerCount(b, id)
  {
    if b == [] {
      assert a + b == a;
    } else {
      TimerCountConcat(a, b[..|b| - 1], id);
      assert (a + b)[..|a + b| - 1] == a + b[..|b| - 1];
    }
  }

  lemma TimerCountFirst(s: seq<Timer>, id: nat)
    requires s != []
    ensures TimerCount(s, id) == (if s[0].id == id then 1 else 0) + TimerCount(s[1..], id)
  {
    TimerCountConcat([s[0]], s[1..], id);
    assert [s[0]] + s[1..] == s;
  }

  lemma TimerCountInsert(timers: seq<Timer>, i: nat, t: Timer, id: nat)
    requires i <= |timers|
    ensures TimerCount(InsertAt(timers, i, t), id) == TimerCount(timers, id) + (if t.id == id then 1 else 0)
  {
    TimerCountConcat(timers[..i] + [t], timers[i..], id);
    TimerCountConcat(timers[..i], [t], id);
    TimerCountConcat(timers[..i], timers[i..], id);
    assert timers[..i] + timers[i..] == timers;
  }

  lemma {:induction false} TimerIdsCount(timers: seq<Timer>, id: nat)
    ensures Count(TimerIds(timers), id) == TimerCount(timers, id)
  {
    if timers != [] {
      var n := |timers| - 1;
      TimerIdsCount(timers[..n], id);
      assert TimerIds(timers)[..n] == TimerIds(timers[..n]);
    }
  }

  lemma {:induction false} WorkCountConcat(a: seq<Work>, b: seq<Work>, id: nat, all: bool)
    ensures WorkCount(a + b, id, all) == WorkCount(a, id, all) + WorkCount(b, id, all)
  {
    if b == [] {
      assert a + b == a;
    } else {
      WorkCountConcat(a, b[..|b| - 1], id, all);
      assert (a + b)[..|a + b| - 1] == a + b[..|b| - 1];
    }
  }

  function Counts(w: Work, id: nat, all: bool): nat {
    if IdOf(w) == id && (all || !Repeating(w)) then 1 else 0
  }

  lemma WorkCountMiddle(a: seq<Work>, w: Work, b: seq<Work>, id: nat, all: bool)
    ensures WorkCount(a + [w] + b, id, all) == WorkCount(a + b, id, all) + Counts(w, id, all)
  {
    WorkCountConcat(a + [w], b, id, all);
    WorkCountLast(a, w, id, all);
    WorkCountConcat(a, b, id, all);
  }

  lemma WorkCountLast(a: seq<Work>, w: Work, id: nat, all: bool)
    ensures WorkCount(a + [w], id, all) == WorkCount(a, id, all) + Counts(w, id, all)
  {
    assert (a + [w])[..|a|] == a;
  }

  lemma {:induction false} CopiesCount(id: nat, n: nat, x: nat)
    ensures Count(Copies(id, n), x) == if x == id then n else 0
  {
    if n > 0 {
      CopiesCount(id, n - 1, x);
      assert Copies(id, n)[..n - 1] == Copies(id, n - 1);
    }
  }

  lemma {:induction false} ItemsWithoutCount(items: seq<nat>, id: nat, x: nat)
    ensures |items| - |ItemsWithout(items, id)| == Count(items, id)
    ensures Count(ItemsWithout(items, id), x) == if x == id then 0 else Count(items, x)
  {
    if items != [] {
      ItemsWithoutCount(items[1..], id, x);
      CountFirst(items, x);
      CountFirst(items, id);
      if items[0] != id { CountConcat([items[0]], ItemsWithout(items[1..], id), x); }
    }
  }

  lemma {:induction false} TimersWithoutCount(timers: seq<Timer>, id: nat, x: nat)
    ensures |timers| - |TimersWithout(timers, id)| == TimerCount(timers, id)
    ensures TimerCount(TimersWithout(timers, id), x) == if x == id then 0 else TimerCount(timers, x)
  {
    if timers != [] {
      TimersWithoutCount(timers[1..], id, x);
      TimerCountFirst(timers, x);
      TimerCountFirst(timers, id);
      if timers[0].id != id { TimerCountConcat([timers[0]], TimersWithout(timers[1..], id), x); }
    }
  }

  lemma AscendingWithout(a: seq<nat>, x: nat, b: seq<nat>, bound: nat)
    requires Ascending(a + [x] + b, bound)
    ensures Ascending(a + b, bound)
  {
    forall k | 0 <= k < |a + b| ensures (a + b)[k] == (a + [x] + b)[if k < |a| then k else k + 1] {
    }
  }

  lemma Regroup(s: seq<nat>, x: nat, rest: seq<nat>)
    ensures (s + [x]) + rest == s + ([x] + rest)
  {
  }

  lemma {:induction false} ItemsWithoutAscending(s: seq<nat>, items: seq<nat>, id: nat, bound: nat)
    requires Ascending(s + items, bound)
    ensures Ascending(s + ItemsWithout(items, id), bound)
    decreases |items|
  {
    hide Ascending;
    if items == [] {
    } else {
      var rest := items[1..];
      assert items == [items[0]] + rest;
      Regroup(s, items[0], rest);
      if items[0] == id {
        AscendingWithout(s, id, rest, bound);
        ItemsWithoutAscending(s, rest, id, bound);
      } else {
        ItemsWithoutAscending(s + [items[0]], rest, id, bound);
        Regroup(s, items[0], ItemsWithout(rest, id));
      }
    }
  }

  lemma ImmediatesLast(s: seq<Work>, w: Work)
    ensures Immediates(s + [w]) == Immediates(s) + (if w.Immediate? then [w.id] else [])
  {
    assert (s + [w])[..|s|] == s;
  }

  // ---- The books ----------------------------------------------------------------

  lemma SubmitItem(items: seq<nat>, timers: seq<Timer>, held: seq<Work>, log: History, m: nat)
    requires Books(items, timers, held, log, m)
    ensures Books(items + [log.nextId], timers, held, log.(nextId := log.nextId + 1), m)
  {
    var log' := log.(nextId := log.nextId + 1);
    var s := Immediates(log.started);
    assert s + (items + [log.nextId]) == (s + items) + [log.nextId];
    forall id: nat ensures Places(items + [log.nextId], timers, held, log', id) == if id < log'.nextId then 1 else 0 {
      assert Places(items, timers, held, log, id) == if id < log.nextId then 1 else 0;
      CountConcat(items, [log.nextId], id);
    }
    assert RunsOnce(held, log');
  }

  lemma SubmitTimer(items: seq<nat>, timers: seq<Timer>, held: seq<Work>, log: History, m: nat, i: nat, t: Timer)
    requires Books(items, timers, held, log, m) && i <= |timers| && t.id == log.nextId
    ensures Books(items, InsertAt(timers, i, t), held,
                  log.(nextId := log.nextId + 1, nextStamp := log.nextStamp + 1, submitted := log.submitted[t.id := t]),
                  m)
  {
    var log' := log.(nextId := log.nextId + 1, nextStamp := log.nextStamp + 1, submitted := log.submitted[t.id := t]);
    forall id: nat
      ensures Places(items, InsertAt(timers, i, t), held, log', id) == if id < log'.nextId then 1 else 0
    {
      assert Places(items, timers, held, log, id) == if id < log.nextId then 1 else 0;
      TimerCountInsert(timers, i, t, id);
    }
    assert RunsOnce(held, log');
  }

  lemma DroppedItemPlaces(items: seq<nat>, timers: seq<Timer>, held: seq<Work>, log: History, gone: nat, id: nat)
    ensures var left := ItemsWithout(items, gone);
            && |left| <= |items|
            && Places(left, timers, held, log.(dropped := log.dropped + Copies(gone, |items| - |left|)), id)
               == Places(items, timers, held, log, id)
  {
    ItemsWithoutCount(items, gone, id);
    var n := |items| - |ItemsWithout(items, gone)|;
    CopiesCount(gone, n, id);
    CountConcat(log.dropped, Copies(gone, n), id);
  }

  lemma DropItems(items: seq<nat>, timers: seq<Timer>, held: seq<Work>, log: History, m: nat, gone: nat)
    requires Books(items, timers, held, log, m)
    ensures var left := ItemsWithout(items, gone);
            && |left| <= |items|
            && Books(left, timers, held, log.(dropped := log.dropped + Copies(gone, |items| - |left|)), m)
  {
    DroppedItemPlaces(items, timers, held, log, gone, 0);
    var left := ItemsWithout(items, gone);
    var log' := log.(dropped := log.dropped + Copies(gone, |items| - |left|));
    forall id: nat ensures Places(left, timers, held, log', id) == if id < log.nextId then 1 else 0 {
      DroppedItemPlaces(items, timers, held, log, gone, id);
      assert Places(items, timers, held, log, id) == if id < log.nextId then 1 else 0;
    }
    ItemsWithoutAscending(Immediates(log.started), items, gone, log.nextId);
    assert RunsOnce(held, log');
  }

  lemma DroppedTimerPlaces(items: seq<nat>, timers: seq<Timer>, held: seq<Work>, log: History, gone: nat, id: nat)
    ensures var left := TimersWithout(timers, gone);
            && |left| <= |timers|
            && Places(items, left, held, log.(dropped := log.dropped + Copies(gone, |timers| - |left|)), id)
               == Places(items, timers, held, log, id)
  {
    TimersWithoutCount(timers, gone, id);
    var n := |timers| - |TimersWithout(timers, gone)|;
    CopiesCount(gone, n, id);
    CountConcat(log.dropped, Copies(gone, n), id);
  }

  lemma DropTimers(items: seq<nat>, timers: seq<Timer>, held: seq<Work>, log: History, m: nat, gone: nat)
    requires Books(items, timers, held, log, m)
    ensures var left := TimersWithout(timers, gone);
            && |left| <= |timers|
            && Books(items, left, held, log.(dropped := log.dropped + Copies(gone, |timers| - |left|)), m)
  {
    DroppedTimerPlaces(items, timers, held, log, gone, 0);
    var left := TimersWithout(timers, gone);
    var log' := log.(dropped := log.dropped + Copies(gone, |timers| - |left|));
    forall id: nat ensures Places(items, left, held, log', id) == if id < log.nextId then 1 else 0 {
      DroppedTimerPlaces(items, timers, held, log, gone, id);
      assert Places(items, timers, held, log, id) == if id < log.nextId then 1 else 0;
    }
    assert RunsOnce(held, log');
  }

  lemma DropAll(items: seq<nat>, timers: seq<Timer>, held: seq<Work>, log: History, m: nat)
    requires Books(items, timers, held, log, m)
    ensures Books([], [], held, log.(dropped := log.dropped + items + TimerIds(timers)), m)
  {
    var log' := log.(dropped := log.dropped + items + TimerIds(timers));
    forall id: nat ensures Places([], [], held, log', id) == if id < log.nextId then 1 else 0 {
      assert Places(items, timers, held, log, id) == if id < log.nextId then 1 else 0;
      CountConcat(log.dropped + items, TimerIds(timers), id);
      CountConcat(log.dropped, items, id);
      TimerIdsCount(timers, id);
    }
    var s := Immediates(log.started);
    assert s + [] == s;
    forall k | 0 <= k < |s| ensures s[k] == (s + items)[k] {
    }
    assert RunsOnce(held, log');
  }

  /** Work moves from a queue into a worker's hands. */
  lemma StartRunsOnce(a: seq<Work>, b: seq<Work>, log: History, w: Work)
    requires RunsOnce(a + b, log)
    ensures RunsOnce(a + [w] + b, log.(started := log.started + [w]))
  {
    var log' := log.(started := log.started + [w]);
    forall id: nat
      ensures WorkCount(log'.started, id, false)
              == WorkCount(a + [w] + b, id, false) + WorkCount(log'.done, id, false)
    {
      WorkCountMiddle(a, w, b, id, false);
      WorkCountLast(log.started, w, id, false);
    }
  }

  lemma TakeItem(items: seq<nat>, timers: seq<Timer>, a: seq<Work>, b: seq<Work>, log: History, m: nat)
    requires Books(items, timers, a + b, log, m) && items != [] && |a| + |b| < m
    ensures var w := Immediate(items[0]);
            Books(items[1..], timers, a + [w] + b, log.(started := log.started + [w]), m)
  {
    var w := Immediate(items[0]);
    var log' := log.(started := log.started + [w]);
    StartRunsOnce(a, b, log, w);
    ImmediatesLast(log.started, w);
    assert Immediates(log.started) + items == Immediates(log'.started) + items[1..];
    forall id: nat ensures Places(items[1..], timers, a + [w] + b, log', id) == if id < log.nextId then 1 else 0 {
      assert Places(items, timers, a + b, log, id) == if id < log.nextId then 1 else 0;
      WorkCountMiddle(a, w, b, id, true);
      CountFirst(items, id);
    }
    assert Conserved(items[1..], timers, a + [w] + b, log');
  }

  lemma TakeTimer(items: seq<nat>, timers: seq<Timer>, a: seq<Work>, b: seq<Work>, log: History, m: nat)
    requires Books(items, timers, a + b, log, m) && timers != [] && |a| + |b| < m
    ensures var w := Fired(timers[0]);
            Books(items, timers[1..], a + [w] + b, log.(started := log.started + [w]), m)
  {
    var w := Fired(timers[0]);
    var log' := log.(started := log.started + [w]);
    StartRunsOnce(a, b, log, w);
    ImmediatesLast(log.started, w);
    assert Immediates(log.started) + [] == Immediates(log.started);
    forall id: nat ensures Places(items, timers[1..], a + [w] + b, log', id) == if id < log.nextId then 1 else 0 {
      assert Places(items, timers, a + b, log, id) == if id < log.nextId then 1 else 0;
      WorkCountMiddle(a, w, b, id, true);
      TimerCountFirst(timers, id);
    }
    assert Conserved(items, timers[1..], a + [w] + b, log');
  }

  lemma RetireDone(items: seq<nat>, timers: seq<Timer>, a: seq<Work>, b: seq<Work>, log: History, m: nat, w: Work)
    requires Books(items, timers, a + [w] + b, log, m) && |a| + |b| < m
    ensures Books(items, timers, a + b, log.(ended := log.ended + [w], done := log.done + [w]), m)
  {
    var log' := log.(ended := log.ended + [w], done := log.done + [w]);
    forall id: nat ensures Places(items, timers, a + b, log', id) == if id < log.nextId then 1 else 0 {
      assert Places(items, timers, a + [w] + b, log, id) == if id < log.nextId then 1 else 0;
      WorkCountMiddle(a, w, b, id, true);
      WorkCountLast(log.done, w, id, true);
    }
    forall id: nat
      ensures WorkCount(log.started, id, false) == WorkCount(a + b, id, false) + WorkCount(log'.done, id, false)
    {
      WorkCountMiddle(a, w, b, id, false);
      WorkCountLast(log.done, w, id, false);
    }
    assert Conserved(items, timers, a + b, log');
  }

  lemma RepeatingRunsOnce(a: seq<Work>, b: seq<Work>, log: History, w: Work)
    requires RunsOnce(a + [w] + b, log) && Repeating(w)
    ensures RunsOnce(a + b, log)
  {
    forall id: nat
      ensures WorkCount(log.started, id, false) == WorkCount(a + b, id, false) + WorkCount(log.done, id, false)
    {
      WorkCountMiddle(a, w, b, id, false);
    }
  }

  lemma RetireDropped(items: seq<nat>, timers: seq<Timer>, a: seq<Work>, b: seq<Work>, log: History, m: nat, w: Work)
    requires Books(items, timers, a + [w] + b, log, m) && |a| + |b| < m && Repeating(w)
    ensures Books(items, timers, a + b, log.(ended := log.ended + [w], dropped := log.dropped + [IdOf(w)]), m)
  {
    var log' := log.(ended := log.ended + [w], dropped := log.dropped + [IdOf(w)]);
    forall id: nat ensures Places(items, timers, a + b, log', id) == if id < log.nextId then 1 else 0 {
      assert Places(items, timers, a + [w] + b, log, id) == if id < log.nextId then 1 else 0;
      WorkCountMiddle(a, w, b, id, true);
      CountConcat(log.dropped, [IdOf(w)], id);
    }
    RepeatingRunsOnce(a, b, log, w);
    assert RunsOnce(a + b, log');
    assert Conserved(items, timers, a + b, log');
  }

  lemma RetireArmed(items: seq<nat>, timers: seq<Timer>, a: seq<Work>, b: seq<Work>, log: History, m: nat, w: Work,
                    i: nat, t: Timer)
    requires Books(items, timers, a + [w] + b, log, m) && |a| + |b| < m && Repeating(w)
    requires i <= |timers| && t.id == IdOf(w)
    ensures Books(items, InsertAt(timers, i, t), a + b,
                  log.(ended := log.ended + [w], nextStamp := log.nextStamp + 1), m)
  {
    var log' := log.(ended := log.ended + [w], nextStamp := log.nextStamp + 1);
    forall id: nat
      ensures Places(items, InsertAt(timers, i, t), a + b, log', id) == if id < log.nextId then 1 else 0
    {
      assert Places(items, timers, a + [w] + b, log, id) == if id < log.nextId then 1 else 0;
      WorkCountMiddle(a, w, b, id, true);
      TimerCountInsert(timers, i, t, id);
    }
    RepeatingRunsOnce(a, b, log, w);
    assert RunsOnce(a + b, log');
    assert Conserved(items, InsertAt(timers, i, t), a + b, log');
  }

  // ---- The timer queue ----------------------------------------------------------

  lemma InsertSorted(timers: seq<Timer>, t: Timer, r: seq<Timer>)
    requires TimersSorted(timers) && forall u | u in timers :: u.stamp < t.stamp
    requires IsInsertion(timers, TimerPos(timers, t.deadline), t, r)
    ensures TimersSorted(r)
  {
    var i := TimerPos(timers, t.deadline);
    forall k | 0 <= k < |timers| ensures timers[k].stamp < t.stamp {
      assert timers[k] in timers;
    }
    forall k, l | 0 <= k < l < |r| ensures Before(r[k], r[l]) {
      if l < i {
        assert Before(timers[k], timers[l]);
      } else if k > i {
        assert Before(timers[k - 1], timers[l - 1]);
      } else if k == i && l > i + 1 {
        assert Before(timers[i], timers[l - 1]);
      } else if k < i && l > i {
        assert Before(timers[k], timers[l - 1]);
      }
    }
  }

  lemma AddTimerKeeps(q: Queue, id: nat, deadline: int, interval: int)
    requires TimersOk(q)
    ensures TimersOk(AddTimer(q, id, deadline, interval))
  {
    var i := TimerPos(q.timers, deadline);
    var t := Timer(id, deadline, interval, q.log.nextStamp);
    InsertAtInserts(q.timers, i, t);
    InsertAtMembers(q.timers, i, t);
    InsertSorted(q.timers, t, InsertAt(q.timers, i, t));
  }

  /** What adding a timer does to the invariant, given what it does to the books. */
  lemma AddTimerInv(q: Queue, t: Timer)
    requires LanesOk(q) && TimersOk(q) && StateOk(q) && q.state.Running? && t.stamp == q.log.nextStamp
    requires Books(q.items, InsertAt(q.timers, TimerPos(q.timers, t.deadline), t), InFlight(q.lanes, q.workers),
                   q.log.(nextStamp := q.log.nextStamp + 1), q.maxConcurrency)
    ensures Inv(AddTimer(q, t.id, t.deadline, t.interval))
  {
    AddTimerKeeps(q, t.id, t.deadline, t.interval);
  }

  lemma TimersWithoutMembers(timers: seq<Timer>, id: nat)
    ensures forall t | t in TimersWithout(timers, id) :: t in timers && t.id != id
  {
  }

  lemma {:induction false} TimersWithoutSorted(timers: seq<Timer>, id: nat)
    requires TimersSorted(timers)
    ensures TimersSorted(TimersWithout(timers, id))
  {
    if timers != [] {
      var first, rest := timers[0], timers[1..];
      TimersWithoutSorted(rest, id);
      TimersWithoutMembers(rest, id);
      var r := TimersWithout(rest, id);
      forall j | 0 <= j < |r| ensures Before(first, r[j]) {
        assert r[j] in rest;
        var k :| 0 <= k < |rest| && rest[k] == r[j];
        assert Before(timers[0], timers[k + 1]);
      }
    }
  }

  // ---- Critical sections --------------------------------------------------------

  lemma AcquireParts(q: Queue, vp: WorkerId)
    requires LanesOk(q) && TimersOk(q) && BooksOk(q) && vp !in q.workers
    ensures LanesOk(AcquireWorker(q, vp)) && TimersOk(AcquireWorker(q, vp)) && BooksOk(AcquireWorker(q, vp))
  {
    AcquireKeeps(q, vp);
  }

  lemma AcquireInv(q: Queue, vp: WorkerId)
    requires Inv(q) && vp !in q.workers
    ensures Inv(AcquireWorker(q, vp))
  {
    AcquireParts(q, vp);
    AcquireKeeps(q, vp);
  }

  lemma EnqueueItemInv(q: Queue)
    requires Inv(q) && q.state.Running?
    ensures Inv(EnqueueItem(q))
  {
    SubmitItem(q.items, q.timers, InFlight(q.lanes, q.workers), q.log, q.maxConcurrency);
  }

  lemma EnqueueTimerInv(q: Queue, deadline: int, interval: int)
    requires Inv(q) && q.state.Running?
    ensures Inv(EnqueueTimer(q, deadline, interval))
  {
    var t := Timer(q.log.nextId, deadline, interval, q.log.nextStamp);
    SubmitTimer(q.items, q.timers, InFlight(q.lanes, q.workers), q.log, q.maxConcurrency,
                TimerPos(q.timers, deadline), t);
    AddTimerInv(Announced(q, deadline, interval), t);
  }

  /** A worker that does not execute goes on to something else that is not executing. */
  lemma MoveInv(q: Queue, vp: WorkerId, phase: Phase)
    requires Inv(q) && vp in q.workers && !q.workers[vp].phase.Executing? && !phase.Executing?
    ensures Inv(SetPhase(q, vp, phase))
  {
    hide InFlight, Occupied, Books, TimersSorted;
    var a, b := SetPhaseKeeps(q, vp, phase);
    assert a + [] + b == a + b;
  }

  lemma SignalInv(q: Queue, woken: Option<WorkerId>)
    requires Inv(q)
    ensures Inv(Signal(q, woken))
  {
    if woken.Some? && Asleep(q, woken.value) { MoveInv(q, woken.value, Woken(false)); }
  }

  lemma BroadcastInv(q: Queue)
    requires Inv(q)
    ensures Inv(Broadcast(q))
  {
    hide InFlight, Occupied, Books, TimersSorted;
    var r := Broadcast(q);
    forall j | 0 <= j < |q.lanes| ensures Holding(q.lanes[j], q.workers) == Holding(r.lanes[j], r.workers) {
    }
    InFlightSame(q.lanes, q.workers, r.lanes, r.workers);
  }

  lemma DispatchItemInv(q: Queue, vp: WorkerId, woken: Option<WorkerId>)
    requires Inv(q) && vp !in q.workers
    ensures Inv(DispatchItem(q, vp, woken))
  {
    if q.state.Running? {
      EnqueueItemInv(q);
      AcquireInv(EnqueueItem(q), vp);
      SignalInv(AcquireWorker(EnqueueItem(q), vp), woken);
    }
  }

  lemma DispatchTimerInv(q: Queue, deadline: int, interval: int, vp: WorkerId, woken: Option<WorkerId>)
    requires Inv(q) && vp !in q.workers
    ensures Inv(DispatchTimer(q, deadline, interval, vp, woken))
  {
    if q.state.Running? {
      EnqueueTimerInv(q, deadline, interval);
      AcquireInv(EnqueueTimer(q, deadline, interval), vp);
      SignalInv(AcquireWorker(EnqueueTimer(q, deadline, interval), vp), woken);
    }
  }

  lemma TerminateInv(q: Queue)
    requires Inv(q)
    ensures Inv(Terminate(q))
  {
    if q.state.Running? {
      FlushInv(q, Terminating);
      BroadcastInv(Flush(q.(state := Terminating)));
    }
  }

  lemma RemoveItemInv(q: Queue, id: nat)
    requires Inv(q)
    ensures Inv(RemoveItem(q, id))
  {
    DropItems(q.items, q.timers, InFlight(q.lanes, q.workers), q.log, q.maxConcurrency, id);
  }

  lemma RemoveTimerInv(q: Queue, id: nat)
    requires Inv(q)
    ensures Inv(RemoveTimer(q, id))
  {
    hide Books, InFlight, Occupied, TimersWithout, Copies;
    DropTimers(q.items, q.timers, InFlight(q.lanes, q.workers), q.log, q.maxConcurrency, id);
    TimersWithoutSorted(q.timers, id);
    TimersWithoutMembers(q.timers, id);
  }

  lemma FlushInv(q: Queue, state: QueueState)
    requires Inv(q) && (state.Terminated? ==> q.availableConcurrency == 0)
    requires state.Running? ==> q.state.Running?
    ensures Inv(Flush(q.(state := state)))
  {
    DropAll(q.items, q.timers, InFlight(q.lanes, q.workers), q.log, q.maxConcurrency);
  }

  lemma CompleteTerminationInv(q: Queue)
    requires Inv(q) && !q.state.Running?
    ensures Inv(CompleteTermination(q))
  {
  }

  /** A worker starts work that has been taken off its queue: `a + b` is what the others
      hold. */
  lemma StartedInv(q: Queue, vp: WorkerId, w: Work, a: seq<Work>, b: seq<Work>)
    requires LanesOk(q) && TimersOk(q) && StateOk(q) && vp in q.workers
    requires LanesOk(SetPhase(q, vp, Executing(w)))
    requires InFlight(SetPhase(q, vp, Executing(w)).lanes, SetPhase(q, vp, Executing(w)).workers) == a + [w] + b
    requires Books(q.items, q.timers, a + [w] + b, q.log.(started := q.log.started + [w]), q.maxConcurrency)
    ensures Inv(Started(q, vp, w))
  {
  }

  /** Which items and timers are queued does not matter to the lanes. */
  lemma PickedLanes(q: Queue, r: Queue, vp: WorkerId, w: Work) returns (a: seq<Work>, b: seq<Work>)
    requires LanesOk(q) && vp in q.workers && !q.workers[vp].phase.Executing?
    requires r == q.(items := r.items, timers := r.timers, itemsQueuedCount := r.itemsQueuedCount)
    ensures LanesOk(r) && LanesOk(SetPhase(r, vp, Executing(w)))
    ensures InFlight(q.lanes, q.workers) == a + b && |a| + |b| < q.maxConcurrency
    ensures InFlight(SetPhase(r, vp, Executing(w)).lanes, SetPhase(r, vp, Executing(w)).workers) == a + [w] + b
  {
    hide InFlight, Occupied;
    a, b := SetPhaseKeeps(q, vp, Executing(w));
    assert a + [] + b == a + b;
  }

  lemma PickTimerInv(q: Queue, vp: WorkerId, now: int)
    requires Inv(q) && vp in q.workers && !q.workers[vp].phase.Executing? && TimerDue(q, now)
    ensures q.state.Running? && Inv(Started(q.(timers := q.timers[1..]), vp, Fired(q.timers[0])))
  {
    var w, r := Fired(q.timers[0]), q.(timers := q.timers[1..]);
    var a, b := PickedLanes(q, r, vp, w);
    TakeTimer(q.items, q.timers, a, b, q.log, q.maxConcurrency);
    LaterTimers(q);
    StartedInv(r, vp, w, a, b);
  }

  lemma LaterTimers(q: Queue)
    requires TimersOk(q) && q.timers != []
    ensures TimersOk(q.(timers := q.timers[1..]))
  {
    forall t | t in q.timers[1..] ensures t.stamp < q.log.nextStamp {
      assert t in q.timers;
    }
  }

  lemma PickItemInv(q: Queue, vp: WorkerId, now: int)
    requires Inv(q) && vp in q.workers && !q.workers[vp].phase.Executing? && q.items != []
    ensures q.state.Running?
    ensures Inv(Started(q.(items := q.items[1..], itemsQueuedCount := q.itemsQueuedCount - 1), vp,
                        Immediate(q.items[0])))
  {
    var w, r := Immediate(q.items[0]), q.(items := q.items[1..], itemsQueuedCount := q.itemsQueuedCount - 1);
    var a, b := PickedLanes(q, r, vp, w);
    TakeItem(q.items, q.timers, a, b, q.log, q.maxConcurrency);
    StartedInv(r, vp, w, a, b);
  }

  /** The worker picks up work: what it takes leaves the queue it was on. */
  lemma PickInv(q: Queue, vp: WorkerId, now: int)
    requires Inv(q) && vp in q.workers && !q.workers[vp].phase.Executing? && Picked(q, now).Some?
    ensures q.state.Running?
    ensures Inv(LookForWork(q, vp, false, now)) && Inv(LookForWork(q, vp, true, now))
  {
    if TimerDue(q, now) { PickTimerInv(q, vp, now); } else { PickItemInv(q, vp, now); }
  }

  lemma RelinquishInv(q: Queue, vp: WorkerId)
    requires Inv(q) && vp in q.workers && !q.workers[vp].phase.Executing?
    requires q.state.Running? ==> q.minConcurrency < q.availableConcurrency
    ensures Inv(RelinquishWorker(q, vp))
  {
    RelinquishKeeps(q, vp);
    NoneOccupied(q.lanes, q.workers[vp].lane);
  }

  lemma LookForWorkInv(q: Queue, vp: WorkerId, mayRelinquish: bool, now: int)
    requires Inv(q) && vp in q.workers && !q.workers[vp].phase.Executing?
    requires mayRelinquish && q.state.Running? ==> q.minConcurrency < q.availableConcurrency
    ensures Inv(LookForWork(q, vp, mayRelinquish, now))
  {
    if Picked(q, now).Some? {
      PickInv(q, vp, now);
    } else {
      var r := q.(itemsQueuedCount := q.itemsQueuedCount - 1);
      assert q.items == [] && WithoutPicked(q, now) == r;
      if r.state.Running? && !mayRelinquish { MoveInv(r, vp, Waiting(WaitDeadline(r))); } else { RelinquishInv(r, vp); }
    }
  }

  /** The books of the others once the work of `vp` has ended. */
  lemma EndedSplit(q: Queue, vp: WorkerId) returns (a: seq<Work>, b: seq<Work>)
    requires Inv(q) && vp in q.workers && q.workers[vp].phase.Executing?
    ensures LanesOk(Ended(q, vp)) && TimersOk(Ended(q, vp)) && StateOk(Ended(q, vp))
    ensures var w := q.workers[vp].phase.work;
            && Books(q.items, q.timers, a + [w] + b, q.log, q.maxConcurrency) && |a| + |b| < q.maxConcurrency
            && InFlight(Ended(q, vp).lanes, Ended(q, vp).workers) == a + b
  {
    hide InFlight, Occupied, Books, TimersSorted;
    a, b := SetPhaseKeeps(q, vp, Starting);
    assert a + [] + b == a + b;
  }

  lemma RetireDoneInv(q: Queue, vp: WorkerId, now: int, cancelled: bool)
    requires Inv(q) && vp in q.workers && q.workers[vp].phase.Executing?
    requires !Repeating(q.workers[vp].phase.work) || cancelled
    ensures Inv(Retire(q, vp, now, cancelled))
  {
    var a, b := EndedSplit(q, vp);
    RetireDone(q.items, q.timers, a, b, q.log, q.maxConcurrency, q.workers[vp].phase.work);
  }

  lemma RearmInv(q: Queue, vp: WorkerId, now: int)
    requires Inv(q) && vp in q.workers && q.workers[vp].phase.Executing?
    requires Repeating(q.workers[vp].phase.work) && q.state.Running?
    ensures Inv(Retire(q, vp, now, false))
  {
    hide Books, InFlight, Occupied, NextDeadline, TimersSorted;
    var a, b := EndedSplit(q, vp);
    var w := q.workers[vp].phase.work;
    var next := NextDeadline(w.timer.deadline, w.timer.interval, now);
    var t := Timer(w.timer.id, next, w.timer.interval, q.log.nextStamp);
    RetireArmed(q.items, q.timers, a, b, q.log, q.maxConcurrency, w, TimerPos(q.timers, next), t);
    AddTimerInv(Ended(q, vp), t);
  }

  lemma RetireLostInv(q: Queue, vp: WorkerId, now: int)
    requires Inv(q) && vp in q.workers && q.workers[vp].phase.Executing?
    requires Repeating(q.workers[vp].phase.work) && !q.state.Running?
    ensures Inv(Retire(q, vp, now, false))
  {
    var a, b := EndedSplit(q, vp);
    RetireDropped(q.items, q.timers, a, b, q.log, q.maxConcurrency, q.workers[vp].phase.work);
  }

  lemma RetireInv(q: Queue, vp: WorkerId, now: int, cancelled: bool)
    requires Inv(q) && vp in q.workers && q.workers[vp].phase.Executing?
    ensures Inv(Retire(q, vp, now, cancelled)) && !Retire(q, vp, now, cancelled).workers[vp].phase.Executing?
  {
    if !Repeating(q.workers[vp].phase.work) || cancelled {
      RetireDoneInv(q, vp, now, cancelled);
    } else if q.state.Running? {
      RearmInv(q, vp, now);
    } else {
      RetireLostInv(q, vp, now);
    }
  }

  // ---- Runs ---------------------------------------------------------------------

  /** One critical section, or the end of a wait; `vp` is the worker it concerns, in the case
      of the two dispatch steps the one to be acquired, and `woken` the one that the signal
      wakes.  Clock readings are arbitrary. */
  datatype Step =
    | SDispatchItem(vp: WorkerId, woken: Option<WorkerId>)
    | SDispatchTimer(vp: WorkerId, deadline: int, interval: int, woken: Option<WorkerId>)
    | SRemoveItem(id: nat)
    | SRemoveTimer(id: nat)
    | SFlush
    | STerminate
    | SCompleteTermination
    | SBegin(vp: WorkerId, now: int)
    | SWaitEnds(vp: WorkerId, timedOut: bool)
    | SWakeUp(vp: WorkerId, now: int)
    | SFinish(vp: WorkerId, armTime: int, cancelled: bool, now: int)

  /** The pool hands out processors that are not attached to the queue; termination is
      waited for only after it has been requested. */
  predicate Enabled(q: Queue, st: Step) {
    match st
    case SDispatchItem(vp, woken) => vp !in q.workers && MaySignal(q, woken)
    case SDispatchTimer(vp, _, _, woken) => vp !in q.workers && MaySignal(q, woken)
    case SCompleteTermination => !q.state.Running?
    case SBegin(vp, _) => vp in q.workers && q.workers[vp].phase.Starting?
    case SWaitEnds(vp, _) => Asleep(q, vp)
    case SWakeUp(vp, _) => vp in q.workers && q.workers[vp].phase.Woken?
    case SFinish(vp, _, _, _) => vp in q.workers && q.workers[vp].phase.Executing?
    case _ => true
  }

  function Apply(q: Queue, st: Step): Queue
    requires Enabled(q, st)
  {
    match st
    case SDispatchItem(vp, woken) => DispatchItem(q, vp, woken)
    case SDispatchTimer(vp, deadline, interval, woken) => DispatchTimer(q, deadline, interval, vp, woken)
    case SRemoveItem(id) => RemoveItem(q, id)
    case SRemoveTimer(id) => RemoveTimer(q, id)
    case SFlush => Flush(q)
    case STerminate => Terminate(q)
    case SCompleteTermination => CompleteTermination(q)
    case SBegin(vp, now) => LookForWork(q, vp, false, now)
    case SWaitEnds(vp, timedOut) => WaitEnds(q, vp, timedOut)
    case SWakeUp(vp, now) => WakeUp(q, vp, now)
    case SFinish(vp, armTime, cancelled, now) => Finish(q, vp, armTime, cancelled, now)
  }

  lemma StepKeepsInv(q: Queue, st: Step)
    requires Inv(q) && Enabled(q, st)
    ensures Inv(Apply(q, st))
  {
    match st
    case SDispatchItem(vp, woken) => DispatchItemInv(q, vp, woken);
    case SDispatchTimer(vp, deadline, interval, woken) => DispatchTimerInv(q, deadline, interval, vp, woken);
    case SRemoveItem(id) => RemoveItemInv(q, id);
    case SRemoveTimer(id) => RemoveTimerInv(q, id);
    case SFlush => FlushInv(q, q.state);
    case STerminate => TerminateInv(q);
    case SCompleteTermination => CompleteTerminationInv(q);
    case SBegin(vp, now) => LookForWorkInv(q, vp, false, now);
    case SWaitEnds(vp, timedOut) => MoveInv(q, vp, Woken(timedOut));
    case SWakeUp(vp, now) => LookForWorkInv(q, vp, MayLeave(q, vp), now);
    case SFinish(vp, armTime, cancelled, now) =>
      RetireInv(q, vp, armTime, cancelled);
      LookForWorkInv(Retire(q, vp, armTime, cancelled), vp, false, now);
  }

  /** What every queue has in common while its first workers are acquired. */
  ghost predicate Filling(q: Queue) {
    LanesOk(q) && TimersOk(q) && BooksOk(q) && q.state.Running? && q.itemsQueuedCount == 0
  }

  lemma AcquireNext(q: Queue, vp: WorkerId)
    requires Filling(q) && vp !in q.workers && q.availableConcurrency < q.minConcurrency
    ensures var r := AcquireWorker(q, vp);
            && Filling(r) && r.availableConcurrency == q.availableConcurrency + 1
            && r.minConcurrency == q.minConcurrency
            && r.workers.Keys == q.workers.Keys + {vp}
  {
    AcquireParts(q, vp);
    FreeLaneExists(q);
  }

  /** A queue right after its creation has exactly its minimum of workers. */
  lemma {:induction false} AcquireAllInv(q: Queue, pool: seq<WorkerId>)
    requires Filling(q) && q.availableConcurrency == 0 && q.workers == map[]
    requires |pool| <= q.minConcurrency && Distinct(pool)
    ensures var r := AcquireAll(q, pool);
            && Filling(r) && r.availableConcurrency == |pool| && r.minConcurrency == q.minConcurrency
            && (forall vp | vp in r.workers :: vp in pool)
  {
    if pool != [] {
      var n := |pool| - 1;
      AcquireAllInv(q, pool[..n]);
      assert forall k | 0 <= k < n :: pool[..n][k] != pool[n];
      AcquireNext(AcquireAll(q, pool[..n]), pool[n]);
    }
  }

  lemma CreatedInv(minConcurrency: nat, maxConcurrency: nat, pool: seq<WorkerId>)
    requires 1 <= maxConcurrency && minConcurrency == |pool| <= maxConcurrency && Distinct(pool)
    ensures Inv(Created(minConcurrency, maxConcurrency, pool))
    ensures Created(minConcurrency, maxConcurrency, pool).availableConcurrency == minConcurrency
  {
    var q := Queue([], [], 0, Running, minConcurrency, maxConcurrency, 0,
                   seq(maxConcurrency, (i: nat) => None), map[], History(0, 0, [], [], [], [], map[]));
    EmptyLanes(q.lanes);
    AcquireAllInv(q, pool);
  }

  lemma {:induction false} EmptyLanes(lanes: seq<Option<WorkerId>>)
    requires forall i | 0 <= i < |lanes| :: lanes[i] == None
    ensures Occupied(lanes) == 0 && InFlight(lanes, map[]) == []
  {
    if lanes != [] { EmptyLanes(lanes[..|lanes| - 1]); }
  }
}
