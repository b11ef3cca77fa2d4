/** The scheduler invariant and how the primitive queue operations change it.
    `Core(s, loose)` says that every VP outside `loose` is in exactly the place its
    fields say; operations move VPs in and out of `loose`. */
module SchedulerInvariant {
  import opened Sequences
  import opened PriorityBitmap
  import opened MonotonicClocks
  import opened SchedulerState

  /** A population bit is set iff its ready list is not empty. */
  ghost predicate BitmapOk(s: Sched)
    requires Shaped(s)
  {
    forall p: nat | p < PRIORITY_COUNT :: IsSet(s.populated, p) <==> s.ready[p] != []
  }

  ghost predicate ReadyVp(vp: Vp, p: int) {
    && vp.state.Ready? && vp.suspensionCount == 0 && !vp.terminated
    && vp.effectivePriority == p && InRange(p) && vp.quantumAllowance == Allowance(p)
  }

  ghost predicate ReadyOk(s: Sched, loose: set<VpId>)
    requires Shaped(s)
  {
    forall p: nat | p < PRIORITY_COUNT ::
      && Distinct(s.ready[p])
      && forall v | v in s.ready[p] :: v in s.vps && v !in loose && ReadyVp(s.vps[v], p)
  }

  /** Higher effective priority first; among equals nobody stands before somebody who has
      arrived in an earlier quantum.  SchedulerArrivals compares arrivals in one quantum. */
  ghost predicate Ordered(vps: map<VpId, Vp>, q: seq<VpId>)
    requires Known(vps, q)
  {
    forall i, j | 0 <= i < j < |q| ::
      var a, b := vps[q[i]], vps[q[j]];
      a.effectivePriority > b.effectivePriority
      || (a.effectivePriority == b.effectivePriority && a.waitStart <= b.waitStart)
  }

  ghost predicate WaitOk(s: Sched, loose: set<VpId>) {
    forall q | q in s.queues ::
      && Distinct(s.queues[q])
      && (forall v | v in s.queues[q] ::
            v in s.vps && v !in loose && s.vps[v].state.Waiting? && s.vps[v].waitingOn == Some(q))
      && Ordered(s.vps, s.queues[q])
  }

  ghost predicate SortedByDeadline(vps: map<VpId, Vp>, q: seq<VpId>)
    requires Known(vps, q)
  {
    forall i, j | 0 <= i < j < |q| :: vps[q[i]].timeoutDeadline <= vps[q[j]].timeoutDeadline
  }

  ghost predicate TimeoutOk(s: Sched, loose: set<VpId>) {
    && Distinct(s.timeouts)
    && (forall v | v in s.timeouts ::
          v in s.vps && s.vps[v].timeoutValid && (v in loose || s.vps[v].state.Waiting?))
    && (forall v | v in s.vps && s.vps[v].timeoutValid :: v in s.timeouts)
    && SortedByDeadline(s.vps, s.timeouts)
  }

  ghost predicate FinalOk(s: Sched, loose: set<VpId>) {
    && Distinct(s.finalizer)
    && forall v | v in s.finalizer ::
         v in s.vps && v !in loose && s.vps[v].terminated && s.vps[v].state.Ready?
  }

  ghost predicate FieldsOk(s: Sched) {
    forall v | v in s.vps ::
      0 <= s.vps[v].suspensionCount <= SUSPENSION_MAX && s.vps[v].waitStart <= s.now
  }

  /** `v` is where its fields say: on a ready list, on a wait queue, parked because it
      is suspended, or on the finalizer queue. */
  ghost predicate Placed(s: Sched, v: VpId)
    requires Shaped(s) && v in s.vps
  {
    var vp := s.vps[v];
    match vp.state
    case Running => false
    case Waiting =>
      !vp.terminated && vp.waitingOn.Some? && vp.waitingOn.value in s.queues
      && v in s.queues[vp.waitingOn.value]
    case Ready =>
      if vp.terminated then v in s.finalizer
      else vp.suspensionCount > 0 || v in s.ready[vp.effectivePriority]
  }

  ghost predicate Core(s: Sched, loose: set<VpId>) {
    && Shaped(s)
    && BitmapOk(s)
    && ReadyOk(s, loose)
    && WaitOk(s, loose)
    && TimeoutOk(s, loose)
    && FinalOk(s, loose)
    && FieldsOk(s)
    && (forall v | v in s.vps && v !in loose :: Placed(s, v))
  }

  /** What holds of a VP that executes. */
  ghost predicate Executable(vp: Vp) {
    && vp.suspensionCount == 0 && !vp.terminated && !vp.timeoutValid
    && InRange(vp.effectivePriority)
    && 1 <= vp.quantumAllowance <= Allowance(vp.effectivePriority)
  }

  ghost predicate Inv(s: Sched) {
    && Core(s, {s.running})
    && s.vps[s.running].state.Running?
    && Executable(s.vps[s.running])
  }

  // ---- Primitive operations -----------------------------------------------------

  lemma AddReadyLists(s: Sched, v: VpId, pri: int, loose: set<VpId>)
    requires Core(s, loose) && v in s.vps && v in loose && InRange(pri)
    requires s.vps[v].suspensionCount == 0 && !s.vps[v].terminated
    ensures BitmapOk(AddReady(s, v, pri)) && ReadyOk(AddReady(s, v, pri), loose - {v})
  {
    hide WaitOk, TimeoutOk, FinalOk, Placed, IsSet;
    BitUpdates(s.populated, pri);
  }

  lemma AddReadyElse(s: Sched, v: VpId, pri: int, loose: set<VpId>)
    requires Core(s, loose) && v in s.vps && v in loose && InRange(pri) && !s.vps[v].timeoutValid
    ensures var r, rest := AddReady(s, v, pri), loose - {v};
            WaitOk(r, rest) && TimeoutOk(r, rest) && FinalOk(r, rest) && FieldsOk(r)
  {
    hide BitmapOk, ReadyOk, Placed, SetBit;
  }

  /** A loose VP is put on the ready list of its new priority. */
  lemma AddReadyCore(s: Sched, v: VpId, pri: int, loose: set<VpId>)
    requires Core(s, loose) && v in s.vps && v in loose && InRange(pri)
    requires s.vps[v].suspensionCount == 0 && !s.vps[v].terminated && !s.vps[v].timeoutValid
    ensures Core(AddReady(s, v, pri), loose - {v})
  {
    hide BitmapOk, ReadyOk, WaitOk, TimeoutOk, FinalOk, Placed;
    var r := AddReady(s, v, pri);
    AddReadyLists(s, v, pri, loose);
    AddReadyElse(s, v, pri, loose);
    forall u | u in r.vps && u !in loose - {v} ensures Placed(r, u) {
      AddedPlaced(s, v, pri, u);
    }
  }

  lemma AddedPlaced(s: Sched, v: VpId, pri: int, u: VpId)
    requires Shaped(s) && v in s.vps && InRange(pri) && !s.vps[v].terminated
    requires u in s.vps && (u == v || Placed(s, u))
    ensures Placed(AddReady(s, v, pri), u)
  {
    var r := AddReady(s, v, pri);
    assert r.ready[pri][|s.ready[pri]|] == v;
  }

  /** A VP that is on its ready list is taken off it and becomes loose; taking off one that is
      on no list changes nothing. */
  lemma RemoveReadyCore(s: Sched, v: VpId, loose: set<VpId>)
    requires Core(s, loose) && v in s.vps
    ensures RemoveReady(s, v).vps == s.vps
    ensures if v in s.ready[s.vps[v].effectivePriority] then Core(RemoveReady(s, v), loose + {v})
            else RemoveReady(s, v) == s
  {
    if v in s.ready[s.vps[v].effectivePriority] {
      RemovePresent(s, v, loose);
    } else {
      RemoveAbsent(s, v, loose);
    }
  }

  lemma RemovePresent(s: Sched, v: VpId, loose: set<VpId>)
    requires Core(s, loose) && v in s.vps && v in s.ready[s.vps[v].effectivePriority]
    ensures Core(RemoveReady(s, v), loose + {v})
  {
    var r := RemoveReady(s, v);
    var pri := s.vps[v].effectivePriority;
    WithoutMembers(s.ready[pri], v);
    BitUpdates(s.populated, pri);
    forall u | u in r.vps && u !in loose + {v} ensures Placed(r, u) {
      assert Placed(s, u);
    }
  }

  /** Removing a VP that is on no ready list changes nothing. */
  lemma RemoveAbsent(s: Sched, v: VpId, loose: set<VpId>)
    requires Core(s, loose) && v in s.vps && v !in s.ready[s.vps[v].effectivePriority]
    ensures RemoveReady(s, v) == s
  {
    var pri := s.vps[v].effectivePriority;
    assert s.ready[pri := s.ready[pri]] == s.ready;
    if s.ready[pri] == [] {
      assert !IsSet(s.populated, pri);
      ClearUnset(s.populated, pri);
    }
  }

  lemma ClearUnset(populated: seq<bv8>, p: nat)
    requires |populated| == POP_BYTE_COUNT && p < PRIORITY_COUNT && !IsSet(populated, p)
    ensures ClearBit(populated, p) == populated
  {
    assert populated[p / 8] & !Mask(p % 8) == populated[p / 8];
  }

  lemma WithoutOrdered(vps: map<VpId, Vp>, q: seq<VpId>, v: VpId)
    requires Known(vps, q) && Ordered(vps, q) && Distinct(q)
    ensures Known(vps, Without(q, v)) && Ordered(vps, Without(q, v))
  {
    WithoutMembers(q, v);
    var r := Without(q, v);
    forall i, j | 0 <= i < j < |r|
      ensures var a, b := vps[r[i]], vps[r[j]];
              a.effectivePriority > b.effectivePriority
              || (a.effectivePriority == b.effectivePriority && a.waitStart <= b.waitStart)
    {
      WithoutAt(q, v, i);
      WithoutAt(q, v, j);
    }
  }

  lemma WithoutSorted(vps: map<VpId, Vp>, q: seq<VpId>, v: VpId)
    requires Known(vps, q) && SortedByDeadline(vps, q) && Distinct(q)
    ensures Known(vps, Without(q, v)) && SortedByDeadline(vps, Without(q, v))
  {
    WithoutMembers(q, v);
    var r := Without(q, v);
    forall i, j | 0 <= i < j < |r|
      ensures vps[r[i]].timeoutDeadline <= vps[r[j]].timeoutDeadline
    {
      WithoutAt(q, v, i);
      WithoutAt(q, v, j);
    }
  }

  lemma CancelTimeoutCore(s: Sched, v: VpId, loose: set<VpId>)
    requires Core(s, loose) && v in loose && v in s.vps
    ensures Core(CancelTimeout(s, v), loose)
    ensures !CancelTimeout(s, v).vps[v].timeoutValid
  {
    var r := CancelTimeout(s, v);
    if s.vps[v].timeoutValid {
      WithoutMembers(s.timeouts, v);
      WithoutSorted(s.vps, s.timeouts, v);
      forall q | q in r.queues ensures Ordered(r.vps, r.queues[q]) {
        assert Ordered(s.vps, s.queues[q]);
      }
      forall u | u in r.vps && u !in loose ensures Placed(r, u) {
        assert Placed(s, u);
      }
    }
  }

  /** Fields of a loose VP other than its timeout may change freely. */
  lemma SetLooseCore(s: Sched, v: VpId, vp: Vp, loose: set<VpId>)
    requires Core(s, loose) && v in loose && v in s.vps
    requires InRange(vp.priority) && InRange(vp.effectivePriority)
    requires 0 <= vp.suspensionCount <= SUSPENSION_MAX && vp.waitStart <= s.now
    requires vp.timeoutValid == s.vps[v].timeoutValid
    requires vp.timeoutDeadline == s.vps[v].timeoutDeadline
    ensures Core(SetVp(s, v, vp), loose)
  {
    var r := SetVp(s, v, vp);
    forall q | q in r.queues ensures Ordered(r.vps, r.queues[q]) {
      assert Ordered(s.vps, s.queues[q]);
    }
    forall u | u in r.vps && u !in loose ensures Placed(r, u) {
      assert Placed(s, u);
    }
  }

  /** A loose VP whose fields already describe its place stops being loose. */
  lemma SettleCore(s: Sched, v: VpId, loose: set<VpId>)
    requires Core(s, loose) && v in s.vps && Placed(s, v)
    requires s.vps[v].timeoutValid ==> s.vps[v].state.Waiting?
    ensures Core(s, loose - {v})
  {
  }

  lemma DetachCore(s: Sched, q: QueueId, v: VpId, reason: WakeReason, loose: set<VpId>)
    requires Core(s, loose) && q in s.queues && v in s.queues[q]
    ensures Core(Detach(s, q, v, reason), loose + {v})
    ensures !Detach(s, q, v, reason).vps[v].timeoutValid
    ensures v in Detach(s, q, v, reason).vps
  {
    var s0 := s.(queues := s.queues[q := Without(s.queues[q], v)]);
    WithoutMembers(s.queues[q], v);
    WithoutOrdered(s.vps, s.queues[q], v);
    forall u | u in s0.vps && u !in loose + {v} ensures Placed(s0, u) {
      assert Placed(s, u);
    }
    assert Core(s0, loose + {v});
    CancelTimeoutCore(s0, v, loose + {v});
    var s1 := CancelTimeout(s0, v);
    SetLooseCore(s1, v, s1.vps[v].(waitingOn := None, wakeReason := reason, interruptable := false),
                 loose + {v});
  }

  lemma InsertionSorted(vps: map<VpId, Vp>, q: seq<VpId>, i: nat, v: VpId, r: seq<VpId>)
    requires Known(vps, q) && SortedByDeadline(vps, q) && v in vps && IsInsertion(q, i, v, r)
    requires forall k | 0 <= k < i :: vps[q[k]].timeoutDeadline <= vps[v].timeoutDeadline
    requires i < |q| ==> vps[v].timeoutDeadline < vps[q[i]].timeoutDeadline
    ensures Known(vps, r) && SortedByDeadline(vps, r)
  {
    forall k | 0 <= k < |r| ensures r[k] in vps {
      assert k < i ==> q[k] in q;
      assert k > i ==> q[k - 1] in q;
    }
    forall j, k | 0 <= j < k < |r| ensures vps[r[j]].timeoutDeadline <= vps[r[k]].timeoutDeadline {
      if i < k { assert vps[q[i]].timeoutDeadline <= vps[q[k - 1]].timeoutDeadline; }
    }
  }

  lemma InsertSorted(vps: map<VpId, Vp>, vps': map<VpId, Vp>, q: seq<VpId>, v: VpId, deadline: int)
    requires Known(vps, q) && SortedByDeadline(vps, q)
    requires v in vps' && vps'[v].timeoutDeadline == deadline
    requires forall u | u in q :: u in vps' && vps'[u].timeoutDeadline == vps[u].timeoutDeadline
    ensures var r := InsertAt(q, TimeoutPos(vps, q, deadline), v);
            Known(vps', r) && SortedByDeadline(vps', r)
  {
    var i := TimeoutPos(vps, q, deadline);
    InsertAtInserts(q, i, v);
    InsertionSorted(vps', q, i, v, InsertAt(q, i, v));
  }

  lemma ArmTimeoutCore(s: Sched, v: VpId, deadline: TimeInterval, loose: set<VpId>)
    requires Core(s, loose) && v in loose && v in s.vps && !s.vps[v].timeoutValid
    ensures Core(ArmTimeout(s, v, deadline), loose)
  {
    var r := ArmTimeout(s, v, deadline);
    var quantum := ToQuantums(s.nsPerQuantum, deadline, AwayFromZero);
    InsertAtMembers(s.timeouts, TimeoutPos(s.vps, s.timeouts, quantum), v);
    InsertSorted(s.vps, r.vps, s.timeouts, v, quantum);
    forall q | q in r.queues ensures Ordered(r.vps, r.queues[q]) {
      assert Ordered(s.vps, s.queues[q]);
    }
    forall u | u in r.vps && u !in loose ensures Placed(r, u) {
      assert Placed(s, u);
    }
  }

  lemma InsertionOrdered(vps: map<VpId, Vp>, q: seq<VpId>, i: nat, v: VpId, r: seq<VpId>)
    requires Known(vps, q) && Ordered(vps, q) && v in vps && IsInsertion(q, i, v, r)
    requires forall k | 0 <= k < i :: vps[q[k]].effectivePriority >= vps[v].effectivePriority
    requires i < |q| ==> vps[v].effectivePriority > vps[q[i]].effectivePriority
    requires forall u | u in q :: vps[u].waitStart <= vps[v].waitStart
    ensures Known(vps, r) && Ordered(vps, r)
  {
    forall k | 0 <= k < |r| ensures r[k] in vps {
      assert k < i ==> q[k] in q;
      assert k > i ==> q[k - 1] in q;
    }
    forall j, k | 0 <= j < k < |r|
      ensures var a, b := vps[r[j]], vps[r[k]];
              a.effectivePriority > b.effectivePriority
              || (a.effectivePriority == b.effectivePriority && a.waitStart <= b.waitStart)
    {
      assert j < i ==> q[j] in q;
      if i < k - 1 { assert vps[q[i]].effectivePriority >= vps[q[k - 1]].effectivePriority; }
    }
  }

  lemma InsertOrdered(vps: map<VpId, Vp>, vps': map<VpId, Vp>, q: seq<VpId>, v: VpId)
    requires Known(vps, q) && Ordered(vps, q) && v in vps'
    requires forall u | u in q ::
               && u in vps' && vps[u].waitStart <= vps'[v].waitStart
               && vps'[u].effectivePriority == vps[u].effectivePriority
               && vps'[u].waitStart == vps[u].waitStart
    ensures var r := InsertAt(q, WaitPos(vps, q, vps'[v].effectivePriority), v);
            Known(vps', r) && Ordered(vps', r)
  {
    var i := WaitPos(vps, q, vps'[v].effectivePriority);
    InsertAtInserts(q, i, v);
    InsertionOrdered(vps', q, i, v, InsertAt(q, i, v));
  }

  lemma EnqueuePlaced(s: Sched, q: QueueId, interruptable: bool, u: VpId)
    requires Shaped(s) && q in s.queues && Known(s.vps, s.queues[q]) && u in s.vps && u != s.running && Placed(s, u)
    ensures Placed(Enqueue(s, q, interruptable), u)
  {
    var i := WaitPos(s.vps, s.queues[q], s.vps[s.running].effectivePriority);
    InsertAtMembers(s.queues[q], i, s.running);
  }

  lemma EnqueueWaits(s: Sched, q: QueueId, interruptable: bool, loose: set<VpId>)
    requires Core(s, loose) && s.running in loose && q in s.queues
    ensures WaitOk(Enqueue(s, q, interruptable), loose - {s.running})
  {
    hide BitmapOk, ReadyOk, TimeoutOk, FinalOk, Placed, InsertAt;
    var v, r := s.running, Enqueue(s, q, interruptable);
    InsertAtMembers(s.queues[q], WaitPos(s.vps, s.queues[q], s.vps[v].effectivePriority), v);
    InsertOrdered(s.vps, r.vps, s.queues[q], v);
    forall p | p in r.queues ensures Ordered(r.vps, r.queues[p]) {
      assert Ordered(s.vps, s.queues[p]);
    }
  }

  lemma EnqueueLists(s: Sched, q: QueueId, interruptable: bool, loose: set<VpId>)
    requires Core(s, loose) && s.running in loose && q in s.queues
    requires Known(s.vps, s.queues[q])
    ensures var r, rest := Enqueue(s, q, interruptable), loose - {s.running};
            BitmapOk(r) && ReadyOk(r, rest) && TimeoutOk(r, rest) && FinalOk(r, rest) && FieldsOk(r)
  {
    hide WaitOk, Placed;
  }

  lemma EnqueuePlaces(s: Sched, q: QueueId, interruptable: bool, loose: set<VpId>, u: VpId)
    requires Core(s, loose) && s.running in loose && q in s.queues && Known(s.vps, s.queues[q])
    requires !s.vps[s.running].terminated && u in s.vps && u !in loose - {s.running}
    ensures Placed(Enqueue(s, q, interruptable), u)
  {
    hide BitmapOk, ReadyOk, WaitOk, TimeoutOk, FinalOk;
    if u == s.running {
      var i := WaitPos(s.vps, s.queues[q], s.vps[u].effectivePriority);
      InsertAtMembers(s.queues[q], i, u);
    } else {
      EnqueuePlaced(s, q, interruptable, u);
    }
  }

  lemma EnqueueCore(s: Sched, q: QueueId, interruptable: bool, loose: set<VpId>)
    requires Core(s, loose) && s.running in loose && q in s.queues
    requires !s.vps[s.running].terminated
    ensures Core(Enqueue(s, q, interruptable), loose - {s.running})
  {
    hide BitmapOk, ReadyOk, TimeoutOk, FinalOk, Placed;
    var r := Enqueue(s, q, interruptable);
    EnqueueWaits(s, q, interruptable, loose);
    EnqueueLists(s, q, interruptable, loose);
    forall u | u in r.vps && u !in loose - {s.running} ensures Placed(r, u) {
      EnqueuePlaces(s, q, interruptable, loose, u);
    }
  }
}
