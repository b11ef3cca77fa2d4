/** State of the virtual processor scheduler and its operations as functions on that
    state (Kernel/Sources/dispatcher/VirtualProcessorScheduler.c and VirtualProcessor.c).
    Every operation runs with preemption disabled, so each is one atomic step; the
    context switch (VirtualProcessorScheduler_asm.s) is part of the step that asks for it. */
module SchedulerState {
  import opened Sequences
  import opened PriorityBitmap
  import opened MonotonicClocks

  type VpId = nat
  /** Identity of a wait queue. */
  type QueueId = nat

  const SLEEP_QUEUE: QueueId := 0
  const SCHEDULER_WAIT_QUEUE: QueueId := 1

  const SUSPENSION_MAX := 127

  datatype RunState = Ready | Running | Waiting

  datatype WakeReason = NoReason | Finished | Interrupted | TimedOut

  /** The scheduling fields of a virtual processor. */
  datatype Vp = Vp(
    state: RunState,
    priority: int,
    effectivePriority: int,
    quantumAllowance: int,
    suspensionCount: int,
    timeoutValid: bool,
    timeoutDeadline: int,
    waitingOn: Option<QueueId>,
    waitStart: int,
    wakeReason: WakeReason,
    interruptable: bool,
    terminated: bool
  )

  datatype Sched = Sched(
    vps: map<VpId, Vp>,
    running: VpId,
    ready: seq<seq<VpId>>,
    populated: seq<bv8>,
    timeouts: seq<VpId>,
    queues: map<QueueId, seq<VpId>>,
    finalizer: seq<VpId>,
    now: int,
    quantumsPerQuarter: int,
    nsPerQuantum: int,
    boot: VpId
  )

  predicate InRange(pri: int) {
    PRIORITY_LOWEST <= pri <= PRIORITY_HIGHEST
  }

  /** QuantumAllowanceForPriority. */
  function Allowance(pri: int): (n: int)
    requires InRange(pri)
    ensures 1 <= n <= 8
  {
    (PRIORITY_HIGHEST - pri) / 8 + 1
  }

  function Min(a: int, b: int): int { if a < b then a else b }

  function Max(a: int, b: int): int { if a < b then b else a }

  predicate Shaped(s: Sched) {
    && |s.ready| == PRIORITY_COUNT
    && |s.populated| == POP_BYTE_COUNT
    && s.quantumsPerQuarter > 0
    && s.nsPerQuantum > 0
    && s.running in s.vps
    && (forall v | v in s.vps :: InRange(s.vps[v].priority) && InRange(s.vps[v].effectivePriority))
  }

  function SetVp(s: Sched, v: VpId, vp: Vp): Sched {
    s.(vps := s.vps[v := vp])
  }

  /** What no operation but a tick, a creation and a finalization changes. */
  predicate Kin(s: Sched, r: Sched) {
    && r.vps.Keys == s.vps.Keys && r.now == s.now
    && r.nsPerQuantum == s.nsPerQuantum && r.quantumsPerQuarter == s.quantumsPerQuarter && r.boot == s.boot
  }

  // ---- Ready queue --------------------------------------------------------------

  /** AddVirtualProcessor_Locked. */
  function AddReady(s: Sched, v: VpId, pri: int): (r: Sched)
    requires Shaped(s) && v in s.vps && InRange(pri)
    ensures Shaped(r) && Kin(s, r)
  {
    var vp := s.vps[v].(state := Ready, effectivePriority := pri,
                        quantumAllowance := Allowance(pri), waitStart := s.now);
    s.(vps := s.vps[v := vp],
       ready := s.ready[pri := s.ready[pri] + [v]],
       populated := SetBit(s.populated, pri))
  }

  /** RemoveVirtualProcessor_Locked. */
  function RemoveReady(s: Sched, v: VpId): (r: Sched)
    requires Shaped(s) && v in s.vps
    ensures Shaped(r) && Kin(s, r)
  {
    var pri := s.vps[v].effectivePriority;
    var rest := Without(s.ready[pri], v);
    s.(ready := s.ready[pri := rest],
       populated := if rest == [] then ClearBit(s.populated, pri) else s.populated)
  }

  /** Scan of the population bits from priority `p` down to 0. */
  function BestFrom(s: Sched, p: int): Option<VpId>
    requires Shaped(s) && -1 <= p < PRIORITY_COUNT
    decreases p + 1
  {
    if p < 0 then None
    else if IsSet(s.populated, p) then Head(s.ready[p])
    else BestFrom(s, p - 1)
  }

  /** GetHighestPriorityReady. */
  function Best(s: Sched): Option<VpId>
    requires Shaped(s)
  {
    BestFrom(s, PRIORITY_HIGHEST)
  }

  // ---- Context switch -----------------------------------------------------------

  /** The context switcher: the outgoing VP becomes Ready unless higher-level code has
      already given it another state, the incoming one becomes Running. */
  function SwitchContext(s: Sched, v: VpId): (r: Sched)
    requires Shaped(s) && v in s.vps
    ensures Shaped(r) && Kin(s, r)
  {
    var out := s.vps[s.running];
    var vps := if out.state.Running? then s.vps[s.running := out.(state := Ready)] else s.vps;
    s.(vps := vps[v := vps[v].(state := Running)], running := v)
  }

  /** SwitchTo. */
  function SwitchTo(s: Sched, v: VpId): (r: Sched)
    requires Shaped(s) && v in s.vps
    ensures Shaped(r) && Kin(s, r)
  {
    SwitchContext(RemoveReady(s, v), v)
  }

  /** MaybeSwitchTo: a voluntary switch to `v` if it is the best choice. */
  function MaybeSwitchTo(s: Sched, v: VpId, cooperation: bool): (r: Sched)
    requires Shaped(s) && v in s.vps
    ensures Shaped(r) && Kin(s, r)
  {
    if && s.vps[v].state.Ready? && s.vps[v].suspensionCount == 0 && cooperation
       && Best(s) == Some(v)
       && s.vps[v].effectivePriority >= s.vps[s.running].effectivePriority
    then SwitchTo(AddReady(s, s.running, s.vps[s.running].priority), v)
    else s
  }

  /** Switch away from the running VP to the best ready one.  Without a ready VP there is
      nothing to switch to; that branch is what `BlockingFindsSuccessor` excludes. */
  function SwitchAway(s: Sched): (r: Sched)
    requires Shaped(s)
    ensures Shaped(r) && Kin(s, r)
  {
    match Best(s)
    case Some(v) => if v in s.vps then SwitchTo(s, v) else s
    case None => s
  }

  // ---- Timeouts -----------------------------------------------------------------

  predicate Known(vps: map<VpId, Vp>, q: seq<VpId>) {
    forall v | v in q :: v in vps
  }

  /** Number of queued timeouts that precede a new one with the given deadline. */
  function TimeoutPos(vps: map<VpId, Vp>, q: seq<VpId>, deadline: int): (i: nat)
    requires Known(vps, q)
    ensures i <= |q|
    ensures forall k | 0 <= k < i :: vps[q[k]].timeoutDeadline <= deadline
    ensures i < |q| ==> vps[q[i]].timeoutDeadline > deadline
  {
    if q == [] || vps[q[0]].timeoutDeadline > deadline then 0
    else
      var r := TimeoutPos(vps, q[1..], deadline);
      assert forall k | 1 <= k < r + 1 :: q[k] == q[1..][k - 1];
      r + 1
  }

  /** ArmTimeout. */
  function ArmTimeout(s: Sched, v: VpId, deadline: TimeInterval): (r: Sched)
    requires Shaped(s) && v in s.vps && Known(s.vps, s.timeouts)
    ensures Shaped(r) && Kin(s, r)
  {
    var quantum := ToQuantums(s.nsPerQuantum, deadline, AwayFromZero);
    var i := TimeoutPos(s.vps, s.timeouts, quantum);
    s.(vps := s.vps[v := s.vps[v].(timeoutDeadline := quantum, timeoutValid := true)],
       timeouts := InsertAt(s.timeouts, i, v))
  }

  /** CancelTimeout. */
  function CancelTimeout(s: Sched, v: VpId): (r: Sched)
    requires Shaped(s) && v in s.vps
    ensures Shaped(r)
  {
    if s.vps[v].timeoutValid then
      s.(vps := s.vps[v := s.vps[v].(timeoutDeadline := INT32_MAX, timeoutValid := false)],
         timeouts := Without(s.timeouts, v))
    else s
  }

  // ---- Waiting and waking -------------------------------------------------------

  /** Number of waiters that stay ahead of a newcomer with the given effective priority. */
  function WaitPos(vps: map<VpId, Vp>, q: seq<VpId>, pri: int): (i: nat)
    requires Known(vps, q)
    ensures i <= |q|
    ensures forall k | 0 <= k < i :: vps[q[k]].effectivePriority >= pri
    ensures i < |q| ==> vps[q[i]].effectivePriority < pri
  {
    if q == [] || vps[q[0]].effectivePriority < pri then 0
    else
      var r := WaitPos(vps, q[1..], pri);
      assert forall k | 1 <= k < r + 1 :: q[k] == q[1..][k - 1];
      r + 1
  }

  /** The part of WaitOn that puts the running VP on the wait queue. */
  function Enqueue(s: Sched, q: QueueId, interruptable: bool): (r: Sched)
    requires Shaped(s) && q in s.queues && Known(s.vps, s.queues[q])
    ensures Shaped(r) && Kin(s, r)
  {
    var vp := s.vps[s.running];
    var i := WaitPos(s.vps, s.queues[q], vp.effectivePriority);
    s.(vps := s.vps[s.running := vp.(state := Waiting, waitingOn := Some(q), waitStart := s.now,
                                     wakeReason := NoReason, interruptable := interruptable)],
       queues := s.queues[q := InsertAt(s.queues[q], i, s.running)])
  }

  /** Result of a WaitOn call at the time of the call. */
  datatype WaitOutcome = Blocked(next: Sched) | AlreadyTimedOut

  /** WaitOn.  `curTime` is the metric clock in nanoseconds, `None` the infinite deadline. */
  function WaitOn(s: Sched, q: QueueId, deadline: Option<TimeInterval>, curTime: int,
                  interruptable: bool): (r: WaitOutcome)
    requires Shaped(s) && q in s.queues && Known(s.vps, s.queues[q]) && Known(s.vps, s.timeouts)
    ensures r.Blocked? ==> Shaped(r.next) && Kin(s, r.next)
  {
    match deadline
    case None => Blocked(SwitchAway(Enqueue(s, q, interruptable)))
    case Some(t) =>
      if Nanos(t) <= curTime then AlreadyTimedOut
      else
        var armed := ArmTimeout(s, s.running, t);
        Blocked(SwitchAway(Enqueue(armed, q, interruptable)))
  }

  /** Takes a waiting VP off its wait queue and the timeout queue and records why. */
  function Detach(s: Sched, q: QueueId, v: VpId, reason: WakeReason): (r: Sched)
    requires Shaped(s) && v in s.vps && q in s.queues
    ensures Shaped(r)
  {
    var s1 := CancelTimeout(s.(queues := s.queues[q := Without(s.queues[q], v)]), v);
    SetVp(s1, v, s1.vps[v].(waitingOn := None, wakeReason := reason, interruptable := false))
  }

  /** Effective priority after a wait: one step up per quarter second slept, capped. */
  function Boosted(s: Sched, v: VpId): (pri: int)
    requires Shaped(s) && v in s.vps && s.vps[v].waitStart <= s.now
    ensures InRange(pri)
    ensures s.vps[v].effectivePriority <= pri
  {
    var quarters := (s.now - s.vps[v].waitStart) / s.quantumsPerQuarter;
    Min(s.vps[v].effectivePriority + Min(quarters, PRIORITY_HIGHEST), PRIORITY_HIGHEST)
  }

  /** The VP is not waiting, or the wait must not be interrupted. */
  predicate WakeIgnored(vp: Vp, reason: WakeReason) {
    !vp.state.Waiting? || (reason.Interrupted? && !vp.interruptable)
  }

  /** WakeUpOne. */
  function WakeUpOne(s: Sched, q: QueueId, v: VpId, reason: WakeReason,
                     allowSwitch: bool, cooperation: bool): (r: Sched)
    requires Shaped(s) && v in s.vps && q in s.queues && s.vps[v].waitStart <= s.now
    ensures Shaped(r) && Kin(s, r)
  {
    if WakeIgnored(s.vps[v], reason) then s
    else
      var s1 := Detach(s, q, v, reason);
      if s.vps[v].suspensionCount == 0 then
        var s2 := AddReady(s1, v, Boosted(s, v));
        if allowSwitch then MaybeSwitchTo(s2, v, cooperation) else s2
      else SetVp(s1, v, s1.vps[v].(state := Ready))
  }
}
