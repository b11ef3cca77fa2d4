/** Timed waits over whole runs, from the call to the wake-up: they are exact if the quantum
    of the deadline fits 32 bits, and end too early if it does not
    (Kernel/Sources/dispatcher/VirtualProcessorScheduler.c:177-192, 232-260, 273-330;
    Kernel/Sources/driver/MonotonicClock.c:119-150). */
module SchedulerDeadlines {
  import opened Arithmetic
  import opened Sequences
  import opened MonotonicClocks
  import opened SchedulerState
  import opened SchedulerInvariant
  import opened SchedulerSteps
  import opened SchedulerRuns
  import opened SchedulerProgress
  import opened SchedulerReachable
  import opened SchedulerWaits

  // ---- Clocked runs -------------------------------------------------------------

  /** A run whose timed waits are made with the clock and have deadlines that fit. */
  ghost predicate ClockedRun(s: Sched, idle: VpId, steps: seq<Step>)
    requires Safe(s, idle)
    decreases |steps|
  {
    steps != [] ==>
      && Enabled(s, idle, steps[0]) && Clocked(s, steps[0])
      && (StepKeepsSafe(s, idle, steps[0]);
          ClockedRun(Apply(s, idle, steps[0]), idle, steps[1..]))
  }

  /** States that clocked runs lead to from boot. */
  ghost predicate ClockedReachable(s: Sched, boot: VpId, idle: VpId, nsPerQuantum: int) {
    && boot != idle && 0 < nsPerQuantum <= ONE_SECOND_IN_NANOS
    && exists cooperation, steps :: ClockedLeadTo(FinishBoot(boot, idle, nsPerQuantum, cooperation), idle, steps, s)
  }

  ghost predicate ClockedLeadTo(start: Sched, idle: VpId, steps: seq<Step>, s: Sched)
    requires Safe(start, idle)
  {
    ClockedRun(start, idle, steps) && Exec(start, idle, steps) == Some(s)
  }

  lemma StepStaysTimely(s: Sched, idle: VpId, step: Step)
    requires Safe(s, idle) && Timely(s) && Enabled(s, idle, step) && Clocked(s, step)
    ensures Safe(Apply(s, idle, step), idle) && Timely(Apply(s, idle, step))
  {
    StepKeepsSafe(s, idle, step);
    if step.TickStep? { TickStaysTimely(s); } else { OtherStepStaysTimely(s, idle, step); }
  }

  lemma {:induction false} ClockedRunIsTimely(s: Sched, idle: VpId, steps: seq<Step>)
    requires Safe(s, idle) && Timely(s) && ClockedRun(s, idle, steps)
    ensures Exec(s, idle, steps).Some? && Safe(Exec(s, idle, steps).value, idle)
    ensures Timely(Exec(s, idle, steps).value)
    decreases |steps|
  {
    if steps != [] {
      StepStaysTimely(s, idle, steps[0]);
      ClockedRunIsTimely(Apply(s, idle, steps[0]), idle, steps[1..]);
    }
  }

  lemma BootIsTimely(boot: VpId, idle: VpId, nsPerQuantum: int, cooperation: bool)
    requires boot != idle && 0 < nsPerQuantum <= ONE_SECOND_IN_NANOS
    ensures Timely(FinishBoot(boot, idle, nsPerQuantum, cooperation))
  {
    var s := Booted(boot, idle, nsPerQuantum);
    assert s.timeouts == [];
    assert FinishBoot(boot, idle, nsPerQuantum, cooperation).timeouts == [];
  }

  /** In every state that a clocked run from boot leads to no armed timeout is due. */
  lemma ReachableIsTimely(s: Sched, boot: VpId, idle: VpId, nsPerQuantum: int)
    requires ClockedReachable(s, boot, idle, nsPerQuantum)
    ensures Safe(s, idle) && Timely(s)
  {
    var c, steps :| ClockedLeadTo(FinishBoot(boot, idle, nsPerQuantum, c), idle, steps, s);
    BootIsTimely(boot, idle, nsPerQuantum, c);
    ClockedRunIsTimely(FinishBoot(boot, idle, nsPerQuantum, c), idle, steps);
  }

  // ---- From the call to the wake-up ---------------------------------------------

  /** A timed wait that is not over at once. */
  predicate TimedWait(s: Sched, idle: VpId, wait: Step) {
    && wait.WaitStep? && wait.deadline.Some? && Enabled(s, idle, wait)
    && wait.curTime < Nanos(wait.deadline.value)
  }

  /** What the wait leaves behind: the caller sleeps with its timeout armed. */
  lemma WaitIsArmed(s: Sched, idle: VpId, wait: Step)
    requires Safe(s, idle) && TimedWait(s, idle, wait)
    ensures var t := Apply(s, idle, wait);
            && Safe(t, idle) && s.running in t.vps && t.now == s.now && t.nsPerQuantum == s.nsPerQuantum
            && t.vps[s.running].state.Waiting? && t.vps[s.running].timeoutValid
            && t.vps[s.running].wakeReason.NoReason?
            && t.vps[s.running].timeoutDeadline == ToQuantums(s.nsPerQuantum, wait.deadline.value, AwayFromZero)
  {
    StepKeepsSafe(s, idle, wait);
    WaitFrame(s, idle, wait.q, wait.deadline, wait.curTime, wait.interruptable, s.running);
  }

  /** The caller reads the clock, which is never behind the quantum counter. */
  predicate ClockRead(s: Sched, wait: Step)
    requires wait.WaitStep?
  {
    s.now * s.nsPerQuantum <= wait.curTime
  }

  /** The quantum number of the deadline is a 32-bit number. */
  predicate Fits(s: Sched, wait: Step)
    requires wait.WaitStep? && wait.deadline.Some? && s.nsPerQuantum > 0
  {
    IsInt32(FirstQuantumAt(Nanos(wait.deadline.value), s.nsPerQuantum))
  }

  /** A wait whose deadline fits is armed for that deadline. */
  lemma FittingWaitIsArmed(s: Sched, idle: VpId, wait: Step)
    requires Safe(s, idle) && TimedWait(s, idle, wait) && ClockRead(s, wait) && Fits(s, wait)
    ensures ArmedFor(Apply(s, idle, wait), s.running, Nanos(wait.deadline.value))
  {
    WaitIsArmed(s, idle, wait);
    DeadlineAhead(s.nsPerQuantum, s.now, wait.deadline.value, wait.curTime);
  }

  /** A timed wait made in any state, with a deadline whose quantum fits 32 bits, and any
      steps of anybody while it lasts: as long as it lasts the clock has not reached its
      deadline, and it is reported as timed out by exactly the first tick whose clock time
      is not before the deadline. */
  lemma TimedWaitIsExact(s: Sched, idle: VpId, wait: Step, steps: seq<Step>, t: Sched, last: Step)
    requires Safe(s, idle) && TimedWait(s, idle, wait) && ClockRead(s, wait) && Fits(s, wait)
    requires Safe(Apply(s, idle, wait), idle) && SleepsThrough(Apply(s, idle, wait), idle, steps, s.running)
    requires Exec(Apply(s, idle, wait), idle, steps) == Some(t) && Safe(t, idle) && Enabled(t, idle, last)
    ensures EndsExactly(t, idle, last, s.running, Nanos(wait.deadline.value))
  {
    FittingWaitIsArmed(s, idle, wait);
    WaitIsArmed(s, idle, wait);
    TimedOutOnTime(Apply(s, idle, wait), idle, steps, t, last, s.running, Nanos(wait.deadline.value));
  }

  /** `v` still sleeps in `t`: the deadline has not come, and the step `last` reports a timeout
      exactly if it is a tick that reaches it. */
  ghost predicate EndsExactly(t: Sched, idle: VpId, last: Step, v: VpId, nanos: int)
    requires Safe(t, idle) && Enabled(t, idle, last)
  {
    && t.now * t.nsPerQuantum < nanos
    && v in Apply(t, idle, last).vps
    && (Apply(t, idle, last).vps[v].wakeReason.TimedOut? <==>
        last.TickStep? && nanos <= (t.now + 1) * t.nsPerQuantum)
  }

  // ---- Deadlines that do not fit ------------------------------------------------

  /** The stored deadline of a wait whose quantum does not fit lies before that quantum. */
  lemma LongDeadlineWraps(nsPerQuantum: int, deadline: TimeInterval)
    requires nsPerQuantum > 0 && FirstQuantumAt(Nanos(deadline), nsPerQuantum) > INT32_MAX
    ensures ToQuantums(nsPerQuantum, deadline, AwayFromZero) <= INT32_MAX
    ensures INT32_MAX * nsPerQuantum < Nanos(deadline)
  {
    var c := FirstQuantumAt(Nanos(deadline), nsPerQuantum);
    MulMonotone(INT32_MAX, c - 1, nsPerQuantum);
  }

  /** A timed wait whose deadline does not fit 32 bits as a quantum, however the steps
      interleave: it lasts for some ticks only while the clock is below the largest 32-bit
      number, and a tick that ends it while the clock fits reports a timeout although the
      clock has not reached the deadline. */
  lemma LongWaitEndsEarly(s: Sched, idle: VpId, wait: Step, steps: seq<Step>, t: Sched)
    requires Safe(s, idle) && TimedWait(s, idle, wait) && Safe(Apply(s, idle, wait), idle)
    requires FirstQuantumAt(Nanos(wait.deadline.value), s.nsPerQuantum) > INT32_MAX
    requires SleepsThrough(Apply(s, idle, wait), idle, steps, s.running)
    requires Exec(Apply(s, idle, wait), idle, steps) == Some(t) && Safe(t, idle)
    ensures Ticks(steps) > 0 ==> t.now < INT32_MAX
    ensures t.now < INT32_MAX ==> (t.now + 1) * t.nsPerQuantum < Nanos(wait.deadline.value)
    ensures var stored := ToQuantums(s.nsPerQuantum, wait.deadline.value, AwayFromZero);
            && stored <= INT32_MAX && s.running in Tick(t).vps
            && (Tick(t).vps[s.running].state.Waiting? <==> t.now + 1 < stored)
            && (stored <= t.now + 1 ==> Tick(t).vps[s.running].wakeReason.TimedOut?)
  {
    var v, t0 := s.running, Apply(s, idle, wait);
    WaitIsArmed(s, idle, wait);
    LongDeadlineWraps(s.nsPerQuantum, wait.deadline.value);
    SleepEndsAtStoredDeadline(t0, idle, steps, v);
    LongWaitTick(t, v, Nanos(wait.deadline.value));
  }

  /** A tick of the sleeper's clock, with a stored deadline that has wrapped around. */
  lemma LongWaitTick(t: Sched, v: VpId, nanos: int)
    requires Inv(t) && v in t.vps && t.vps[v].state.Waiting? && t.vps[v].timeoutValid
    requires t.nsPerQuantum > 0 && INT32_MAX * t.nsPerQuantum < nanos
    ensures t.now < INT32_MAX ==> (t.now + 1) * t.nsPerQuantum < nanos
    ensures v in Tick(t).vps
    ensures Tick(t).vps[v].state.Waiting? <==> t.now + 1 < t.vps[v].timeoutDeadline
    ensures t.vps[v].timeoutDeadline <= t.now + 1 ==> Tick(t).vps[v].wakeReason.TimedOut?
  {
    NotYet(t.now, t.nsPerQuantum, nanos);
    TickOfSleeper(t, v);
  }

  lemma NotYet(now: int, nsPerQuantum: int, nanos: int)
    requires nsPerQuantum > 0 && INT32_MAX * nsPerQuantum < nanos
    ensures now < INT32_MAX ==> (now + 1) * nsPerQuantum < nanos
  {
    if now < INT32_MAX { MulMonotone(now + 1, INT32_MAX, nsPerQuantum); }
  }

  lemma TickOfSleeper(t: Sched, v: VpId)
    requires Inv(t) && v in t.vps && t.vps[v].state.Waiting? && t.vps[v].timeoutValid
    ensures v in Tick(t).vps
    ensures Tick(t).vps[v].state.Waiting? <==> t.now + 1 < t.vps[v].timeoutDeadline
    ensures t.vps[v].timeoutDeadline <= t.now + 1 ==> Tick(t).vps[v].wakeReason.TimedOut?
  {
    TickEffect(t, v);
  }

  // ---- The exact condition -------------------------------------------------------

  /** The wait ends exactly at its deadline in every run. */
  ghost predicate AlwaysExact(s: Sched, idle: VpId, wait: Step)
    requires Safe(s, idle) && TimedWait(s, idle, wait) && Safe(Apply(s, idle, wait), idle)
  {
    forall steps, last |
      && SleepsThrough(Apply(s, idle, wait), idle, steps, s.running)
      && EnabledAfter(Apply(s, idle, wait), idle, steps, last) ::
        var t := Exec(Apply(s, idle, wait), idle, steps).value;
        EndsExactly(t, idle, last, s.running, Nanos(wait.deadline.value))
  }

  ghost predicate EnabledAfter(s: Sched, idle: VpId, steps: seq<Step>, last: Step)
    requires Safe(s, idle)
  {
    Exec(s, idle, steps).Some? && Enabled(Exec(s, idle, steps).value, idle, last)
  }

  /** A timed wait ends exactly at its deadline, whatever everybody else does, if and only if
      the quantum number of the deadline fits 32 bits. */
  lemma ExactExactlyIfItFits(s: Sched, idle: VpId, wait: Step)
    requires Safe(s, idle) && TimedWait(s, idle, wait) && ClockRead(s, wait) && s.now < INT32_MAX
    requires Safe(Apply(s, idle, wait), idle)
    ensures AlwaysExact(s, idle, wait) <==> Fits(s, wait)
  {
    if Fits(s, wait) {
      forall steps, last |
        && SleepsThrough(Apply(s, idle, wait), idle, steps, s.running)
        && EnabledAfter(Apply(s, idle, wait), idle, steps, last)
        ensures EndsExactly(Exec(Apply(s, idle, wait), idle, steps).value, idle, last, s.running,
                            Nanos(wait.deadline.value))
      {
        TimedWaitIsExact(s, idle, wait, steps, Exec(Apply(s, idle, wait), idle, steps).value, last);
      }
    } else {
      NotExact(s, idle, wait);
    }
  }

  /** Nothing but ticks until the stored deadline, which has wrapped around. */
  lemma NotExact(s: Sched, idle: VpId, wait: Step)
    requires Safe(s, idle) && TimedWait(s, idle, wait) && ClockRead(s, wait) && s.now < INT32_MAX
    requires Safe(Apply(s, idle, wait), idle) && !Fits(s, wait)
    ensures !AlwaysExact(s, idle, wait)
  {
    hide Inv, Apply, Tick, WaitOn;
    LongDeadline(s, idle, wait);
    WaitIsArmed(s, idle, wait);
    var stored := ToQuantums(s.nsPerQuantum, wait.deadline.value, AwayFromZero);
    var n, t0 := Max(0, stored - 1 - s.now), Apply(s, idle, wait);
    SleepsUntilStored(t0, idle, n, s.running);
    SleepEndsAtStoredDeadline(t0, idle, Quiet(n), s.running);
    LongWaitEndsEarly(s, idle, wait, Quiet(n), Exec(t0, idle, Quiet(n)).value);
    OneRunIsEnough(s, idle, wait, Quiet(n));
  }

  lemma LongDeadline(s: Sched, idle: VpId, wait: Step)
    requires Safe(s, idle) && TimedWait(s, idle, wait) && ClockRead(s, wait) && !Fits(s, wait)
    ensures s.nsPerQuantum > 0 && FirstQuantumAt(Nanos(wait.deadline.value), s.nsPerQuantum) > INT32_MAX
    ensures ToQuantums(s.nsPerQuantum, wait.deadline.value, AwayFromZero) <= INT32_MAX
  {
    DeadlineIsAhead(s.now, s.nsPerQuantum, Nanos(wait.deadline.value));
    LongDeadlineWraps(s.nsPerQuantum, wait.deadline.value);
  }

  lemma OneRunIsEnough(s: Sched, idle: VpId, wait: Step, steps: seq<Step>)
    requires Safe(s, idle) && TimedWait(s, idle, wait) && Safe(Apply(s, idle, wait), idle)
    requires SleepsThrough(Apply(s, idle, wait), idle, steps, s.running)
    requires Exec(Apply(s, idle, wait), idle, steps).Some?
    requires var t := Exec(Apply(s, idle, wait), idle, steps).value;
             && s.running in Tick(t).vps && Tick(t).vps[s.running].wakeReason.TimedOut?
             && (t.now + 1) * t.nsPerQuantum < Nanos(wait.deadline.value)
    ensures !AlwaysExact(s, idle, wait)
  {
    hide Inv, Tick, WaitOn, Apply, Exec, SleepsThrough, Nanos, EndsExactly;
    var t0 := Apply(s, idle, wait);
    assert EnabledAfter(t0, idle, steps, TickStep);
    EarlyTick(Exec(t0, idle, steps).value, idle, s.running, Nanos(wait.deadline.value));
  }

  lemma EarlyTick(t: Sched, idle: VpId, v: VpId, nanos: int)
    requires Safe(t, idle) && v in Tick(t).vps && Tick(t).vps[v].wakeReason.TimedOut?
    requires (t.now + 1) * t.nsPerQuantum < nanos
    ensures !EndsExactly(t, idle, TickStep, v, nanos)
  {
    hide Inv, Tick;
  }

  lemma DeadlineIsAhead(now: int, nsPerQuantum: int, nanos: int)
    requires nsPerQuantum > 0 && now >= 0 && now * nsPerQuantum < nanos
    ensures FirstQuantumAt(nanos, nsPerQuantum) > now
  {
    var c := FirstQuantumAt(nanos, nsPerQuantum);
    if c <= now { MulMonotone(c, now, nsPerQuantum); }
  }

  /** `n` ticks. */
  function Quiet(n: nat): (steps: seq<Step>)
    ensures |steps| == n
  {
    if n == 0 then [] else [TickStep] + Quiet(n - 1)
  }

  /** Ticks alone do not end a wait before its stored deadline. */
  lemma {:induction false} SleepsUntilStored(s: Sched, idle: VpId, n: nat, v: VpId)
    requires Safe(s, idle) && v in s.vps && s.vps[v].state.Waiting? && s.vps[v].timeoutValid
    requires n > 0 ==> s.now + n < s.vps[v].timeoutDeadline
    ensures SleepsThrough(s, idle, Quiet(n), v) && Ticks(Quiet(n)) == n
    ensures Exec(s, idle, Quiet(n)).Some?
    decreases n
  {
    if n > 0 {
      assert Quiet(n)[0] == TickStep && Quiet(n)[1..] == Quiet(n - 1);
      StepKeepsSafe(s, idle, TickStep);
      TickOfSleeper(s, v);
      OneStepOfSleep(s, idle, TickStep, v);
      SleepsUntilStored(Apply(s, idle, TickStep), idle, n - 1, v);
    }
  }

  /** A sleep until 70 million seconds after boot with the quantum of an NTSC machine: the stored
      deadline is negative, and the first tick already reports a timeout. */
  lemma LongSleepEndsAtOnce(s: Sched, idle: VpId, wait: Step)
    requires Safe(s, idle) && s.nsPerQuantum == 16_761_906
    requires TimedWait(s, idle, wait) && wait.deadline == Some(TimeInterval(70_000_000, 0))
    ensures ToQuantums(16_761_906, TimeInterval(70_000_000, 0), AwayFromZero) == -118831240
    ensures var t := Apply(s, idle, wait);
            && Safe(t, idle) && s.running in Tick(t).vps
            && !Tick(t).vps[s.running].state.Waiting? && Tick(t).vps[s.running].wakeReason.TimedOut?
  {
    WaitIsArmed(s, idle, wait);
    assert TruncDiv(70_000_000 * ONE_SECOND_IN_NANOS, 16_761_906) == 4176136055;
    TickEffect(Apply(s, idle, wait), s.running);
  }
}
