# Verified models of Serena's kernel and tools

These Dafny modules model the parts of the Serena operating system whose correctness is
hard to see from reading one function, and prove what they are for. `dafny verify
dfyconfig.toml` checks the whole project.

Each component is modelled twice where the source changes state. A module of functions on
values says what every critical section does, branch by branch; its invariants, and the
theorems about whole runs, are lemmas about those functions. A class with the source's
fields, arrays and loops is then proved to compute the same functions. A run is any
interleaving of critical sections by any number of parties.

- **Virtual processor scheduler** (`SchedulerState`, `SchedulerInvariant`, `SchedulerSteps`,
  `SchedulerRuns`, `SchedulerReachable`, `SchedulerProgress`, `SchedulerWaits`,
  `SchedulerDeadlines`, `SchedulerArrivals`, `SchedulerExits`, `SchedulerWakes`,
  `SchedulerEffects`, `SchedulerLives`, `SchedulerTurns`, class in `Scheduler.dfy`; `PriorityBitmap`, `MonotonicClock.dfy`). 64
  ready lists with a population
  bitmap, priority-ordered wait queues, a sorted timeout queue, suspension counts, boost on
  wake-up and decay on quantum expiry. Every operation runs with preemption disabled and is
  one atomic step that includes the context switch it asks for. `SchedulerInvariant` states
  the invariant with a set of "loose" processors, so that the half-finished states inside an
  operation can be described too.
- **Dispatch queue** (`DispatchQueue*.dfy`). Worker processors in concurrency lanes share a
  queue of items and a queue of timers under one lock. The state carries a history of
  submissions, starts, ends and removals, about which conservation and ordering are stated.
- **Key maps** (`KeyMap*.dfy`). From key statements to sorted tables and ranges
  (`KeyMapTables`), the two-pass compiler with back-patching (`KeyMapCompiler`,
  `KeyMapStages`, `KeyMapCompile`), the kernel's interpreter and validity check
  (`KeyMapKernel`, `KeyMapValidity`) and the decompiler (`KeyMapDecompiler`); which tables
  are looked up as their source says (`KeyMapLookups`, `KeyMapAnswers`). `KeyMapFormat`
  says where every piece of an image lies; it is the meeting point of these programs. Key
  codes are those of the Keyboard/Keypad page, section 10 of the USB HID Usage Tables.
- **RAM disk** (`RamDisk*.dfy`): a sparse list of extents that behaves as a flat array.
- **Pipe** (`Pipe*.dfy`): a byte stream over two condition variables.
- **Shell parser** (`ShellSyntax.dfy`, `ShellParser.dfy`): recursive descent that loses
  nothing. A tree and a token list are compared through the pieces they stand for, which
  include the ends of words.
- **Console** (`ConsoleScreen.dfy`, `ConsoleCursor.dfy`, `Console.dfy`): scrolling by row
  copies in place, and the cursor.
- **Stack allocator** (`StackAllocation.dfy`, `StackAllocator.dfy`) and **line history**
  (`LineHistory.dfy`) of the shell.

## Findings

Some properties hold only under a condition. Each is stated as an if-and-only-if, or with a
concrete input that breaks it.

- A timed wait ends exactly at its deadline, whatever everybody else does, if and only if the
  quantum number of the deadline fits 32 bits (`SchedulerDeadlines.ExactExactlyIfItFits`);
  otherwise it ends too early, because the stored deadline wraps around
  (`SchedulerDeadlines.LongWaitEndsEarly`, and `LongSleepEndsAtOnce` for an input;
  `MonotonicClocks.ConversionIsCeiling` for the conversion alone).
- A virtual processor that terminates while three dead ones wait to be destroyed and the
  scheduler's own processor sleeps does not go away: it returns to its caller or is made
  ready again (`SchedulerExits.FinalizeNowRevives`). Termination is safe exactly otherwise
  (`SchedulerExits.TerminateIsSafeExactly`); `SchedulerExits.FourthExitGoesWrong` is a run
  that leads there. Where it is made ready again, debug builds stop at an
  assertion instead (Kernel/Sources/dispatcher/VirtualProcessorScheduler.c:112).
- A key map can be compiled and used although it is too large for its own size field; it
  can then not be decompiled (`KeyMapDecompiler.Decompile`,
  `KeyMapDecompiler.OversizedTables`).
- Repeated key codes are accepted and shift the traps behind them, even if the repetition
  is identical (`KeyMapAnswers.RepetitionShiftsTraps`). Lookups reach the statements of the
  source exactly if all keys are in step with their codes, up to repetitions at the end of a
  range, and the sort keeps the first of repeated statements in front
  (`KeyMapLookups.LooksUpExactly`); distinct codes are enough, but not necessary. When a
  difference shows is the subject of `KeyMapAnswers.AnswersAgreeExactly`. What is read back
  is complete exactly if no range repeats a code (`KeyMapDecompiler.SectionsAreTheTable`).
- On a RAM disk whose last extent ends at or beyond block 2^32 the bounds test of the extent
  search wraps around and writes are lost; on one whose extents need 2^32 bytes or more the
  allocation size wraps around and a write leaves its extent. All other disks are flat
  arrays (`RamDiskRefinement.FlatExactlyIfItFits`).
- A dispatch queue that may have more workers than its minimum can leave an armed timer to
  workers that all sleep past it (`DispatchQueueLimits.TimersAttendedExactly`), and one
  without a minimum can leave it without any worker (`DispatchQueueLimits.TimersServedExactly`,
  `TimerIsStranded`); queued items always have a worker that does not sleep
  (`DispatchQueueService.ItemsAlwaysServed`).
- A dispatch queue that may have two workers can let an item wait for a closure to end while
  another worker sleeps, because a worker that was woken for the item takes a timer that has
  come due (`DispatchQueueLimits.ItemsAreNeglectedExactly`); without timers it cannot
  (`DispatchQueueLimits.ItemsHaveWorkersOnTheWay`).
- The count of queued items, by which a dispatch queue decides to attach another worker, drifts:
  flushing does not reset it, and every look for work that finds none decrements it
  (`DispatchQueueService.ItemCountDrifts`, and `IdleLookMiscounts` for an input).
- A pipe wakes the other side only when a call goes to sleep or a side is closed. A write that
  completes leaves a sleeping reader asleep beside its bytes, and a read that completes leaves a
  sleeping writer asleep beside room (`PipeEnds.ReaderIsLeftExactly`, `WriterIsLeftExactly`, and
  `ReaderIsForgotten` for a run).
- Scrolling down smears the text unless it moves by at least half the screen
  (`ConsoleScreen.ScrollDownIsShiftExactly`).
- The nested-block rule of the parser prints an error for garbage after a nested block; that
  branch cannot be reached (`ShellParser.Parser.NestedBlock`).
- A page of the stack allocator that is linked behind the first one is lost when the next
  page is taken, because the top-of-stack pointer is never advanced. DeallocAll walks all
  pages exactly if at most two have been taken (`StackAllocation.AllPagesWalkedExactly`,
  `SecondPageIsLost`); blocks in lost pages stay valid.
- The context switch sets the state of the outgoing processor to ready
  (Kernel/Sources/dispatcher/VirtualProcessorScheduler_asm.s:150-158). A suspended processor
  is therefore ready and on no list, suspending it once more is harmless, and the branch of
  Resume for running processors is never taken.

## Assumptions

- Preemption is disabled for the whole of each scheduler operation, and a lock makes each
  critical section of a pipe or dispatch queue atomic, including the release of the lock
  and the sleep in a condition variable's wait.
- `List`, `SList` and `RingBuffer` are sequences. Unlinking a node that is on no list
  changes nothing (Kernel/Sources/klib/List.c:67-90).
- Memory comes cleared from `kalloc_cleared`; whether an allocation succeeds is a parameter,
  as is the address that `malloc` returns, which overlaps nothing in use.
- The target has 32-bit sizes and pointers (Library/libsystem/Headers/System/abi/_dmdef.h:112-115).
  The size of a disk extent's structure depends on padding and is a parameter.
- Clock readings, the order of events, and the cancellation of a timer are arbitrary, and so
  is which of the sleeping workers a signal wakes: that depends on their effective
  priorities.
- The modifier flags are Shift 1, Option 2, Control 4 and Caps Lock 16
  (Kernel/Sources/driver/hid/HIDEvent.h:35-39), so shift and option index the four
  characters of a trap.

## Model

| member | source | states |
|---|---|---|
| `SchedulerReachable.ReachableIsSafe` | Kernel/Sources/dispatcher/VirtualProcessorScheduler.c:79-104 | In every state reachable from boot by any interleaving of ticks, waits, wake-ups, suspends, resumes, priority changes, creations, terminations (other than those of `SchedulerExits.TerminateIsSafeExactly`) and finalisations, each virtual processor is in exactly the one place its fields name; who is on ready list `p` is ready, unsuspended and has effective priority `p`; a bitmap bit is set exactly if its list is non-empty; and whenever the idle processor does not run the bitmap scan finds somebody |
| `SchedulerRuns.StepKeepsSafe` | Kernel/Sources/dispatcher/VirtualProcessorScheduler.c:177-512 | Every scheduler operation, from any state with the invariant, leads to a state with the invariant in which the idle processor can still run |
| `SchedulerReachable.FinishBootSafe` | Kernel/Sources/dispatcher/VirtualProcessorScheduler.c:33-104 | The state that booting ends in has the invariant |
| `SchedulerLives.BootEffect` | Kernel/Sources/dispatcher/VirtualProcessorScheduler.c:33-92 | After booting the boot processor runs at priority 63, the idle one is ready at 0, nobody else exists, and a quarter of a second is the least number of quantums that covers it |
| `SchedulerReachable.StepsStayReachable` | Kernel/Sources/dispatcher/VirtualProcessorScheduler.c:79-104 | Every enabled operation leads from a reachable state to a reachable one, so that the reachable states are closed under all interleavings |
| `SchedulerRuns.BlockingFindsSuccessor` | Kernel/Sources/dispatcher/VirtualProcessorScheduler.c:153-174 | As long as the idle processor is able to run, the scan for a successor never comes back empty, whichever other processor gives up the CPU |
| `SchedulerSteps.BestIsHighest` | Kernel/Sources/dispatcher/VirtualProcessorScheduler.c:156-174 | The bitmap scan returns the head of the highest non-empty ready list, and nothing exactly when all lists are empty |
| `SchedulerSteps.BestBeatsReady` | Kernel/Sources/dispatcher/VirtualProcessorScheduler.c:156-174 | No processor on a ready list has a higher effective priority than the one the scan returns |
| `SchedulerProgress.BoundedPreemption` | Kernel/Sources/dispatcher/VirtualProcessorScheduler.c:195-227 | While one processor keeps the CPU and another stays ready with effective priority at least `q`, the number of ticks stays below the budget the runner started with, however all other operations interleave; each time somebody sets the runner's own priority adds at most 280 ticks |
| `SchedulerProgress.BudgetBound` | Kernel/Sources/dispatcher/VirtualProcessorScheduler.h:60-61 | That budget is at most the sum of the quantum allowances of the priorities from `q` to the runner's, and so at most 280 ticks |
| `SchedulerProgress.SuccessorIsWorthy` | Kernel/Sources/dispatcher/VirtualProcessorScheduler.c:195-227 | Whoever takes the CPU while a processor of effective priority `q` or more is ready has effective priority `q` or more itself |
| `SchedulerProgress.TickSpendsBudget` | Kernel/Sources/dispatcher/VirtualProcessorScheduler.c:177-228 | A tick that leaves the runner in place spends at least one tick of its budget |
| `SchedulerProgress.OtherStepsKeepRunner` | Kernel/Sources/dispatcher/VirtualProcessorScheduler.c:273-512 | No other operation adds to the budget of a runner it leaves in place, or replaces it by somebody unworthy; setting the runner's own priority gives it exactly a new slice of that priority |
| `SchedulerWaits.TimeoutExact` | Kernel/Sources/dispatcher/VirtualProcessorScheduler.c:177-192 | On a tick a wait whose stored deadline is still to come ends with reason TimedOut exactly if this is the first tick whose clock time is not before the nanosecond deadline it stands for |
| `SchedulerWaits.WaitEndsInTime` | Kernel/Sources/dispatcher/VirtualProcessorScheduler.c:177-192 | As long as a wait with such a timeout lasts, over any run of anybody's operations, the clock has not reached its deadline |
| `SchedulerWaits.TimedOutOnTime` | Kernel/Sources/dispatcher/VirtualProcessorScheduler.c:177-192 | Such a wait is reported as timed out by the first tick at or after its deadline, and by no other operation |
| `SchedulerDeadlines.TimedWaitIsExact` | Kernel/Sources/dispatcher/VirtualProcessorScheduler.c:177-334 | A timed wait made in any state with the invariant, with a deadline whose quantum number fits 32 bits: as long as it lasts, over any interleaving and whatever the deadlines of other waits, the clock has not reached the deadline, and it ends as timed out on exactly the first tick at or after it |
| `SchedulerDeadlines.ExactExactlyIfItFits` | Kernel/Sources/dispatcher/VirtualProcessorScheduler.c:177-334 | A timed wait ends exactly at its deadline in every run that can follow, if and only if the quantum number of its deadline fits 32 bits |
| `SchedulerDeadlines.SleepsUntilStored` | Kernel/Sources/dispatcher/VirtualProcessorScheduler.c:177-192 | Ticks alone do not end a wait before its stored deadline |
| `SchedulerDeadlines.ReachableIsTimely` | Kernel/Sources/dispatcher/VirtualProcessorScheduler.c:177-260 | In every state that a run from boot leads to in which all deadlines fit, no armed timeout is due |
| `SchedulerDeadlines.WaitIsArmed` | Kernel/Sources/dispatcher/VirtualProcessorScheduler.c:273-334 | A timed wait leaves its caller asleep with the converted deadline armed |
| `SchedulerDeadlines.LongWaitEndsEarly` | Kernel/Sources/dispatcher/VirtualProcessorScheduler.c:177-192 | A timed wait whose deadline does not fit 32 bits as a quantum number is over, and reported as timed out, before the clock reaches its deadline, over any interleaving, as long as the clock itself fits |
| `SchedulerDeadlines.LongSleepEndsAtOnce` | Kernel/Sources/driver/MonotonicClock.c:119-139 | A sleep until 70 million seconds after boot reports a timeout on the next tick |
| `SchedulerWaits.TickStaysTimely` | Kernel/Sources/dispatcher/VirtualProcessorScheduler.c:177-192 | After a tick no armed timeout is due |
| `SchedulerWaits.OtherStepStaysTimely` | Kernel/Sources/dispatcher/VirtualProcessorScheduler.c:232-260 | No operation between ticks arms a timeout that is already due, given that the clock reading of the wait is current and its quantum number fits 32 bits |
| `SchedulerWaits.ExpireClears` | Kernel/Sources/dispatcher/VirtualProcessorScheduler.c:180-192 | The expiry loop ends, and leaves no timeout that is due |
| `SchedulerWaits.ExpireEffect` | Kernel/Sources/dispatcher/VirtualProcessorScheduler.c:180-192 | The expiry loop ends exactly the waits that are due, and touches no other processor |
| `SchedulerWaits.WakeTakesPrefix` | Kernel/Sources/dispatcher/VirtualProcessorScheduler.c:355-381 | A Finished wake-up with a count takes exactly the first min(count, length) waiters and leaves the rest queued in order with unchanged fields |
| `SchedulerWaits.FirstPassTakes` | Kernel/Sources/dispatcher/VirtualProcessorScheduler.c:360-374 | The first pass of a wake-up removes the waiters that may be woken, leaves the uninterruptible ones of an interruption, and gives each woken processor its wake reason and boosted priority |
| `SchedulerWakes.WakeSwitchesExactly` | Kernel/Sources/dispatcher/VirtualProcessorScheduler.c:355-455 | After a wake-up the first woken processor that can run is running if and only if switching and cooperation are allowed, it heads the highest non-empty ready list, and its priority after the wait, worked out from the time slept, is at least the runner's; otherwise whoever ran before still runs, and in no case does whoever runs have a lower effective priority than before |
| `SchedulerWakes.WakeListsExactly` | Kernel/Sources/dispatcher/VirtualProcessorScheduler.c:355-455 | Those who became ready are at the ends of the lists of their new priorities; a runner that is replaced is ready at the end of the list of its base priority with a full slice, and its successor is on no list |
| `SchedulerWakes.WakeFreesExactly` | Kernel/Sources/dispatcher/VirtualProcessorScheduler.c:355-434 | A wake-up looks at the first `count` waiters; it frees all of them, or of an interruption those that may be interrupted, with the reason recorded and the priority the sleep has earned; the others stay queued in order and no other record changes |
| `SchedulerEffects.WaitEffect` | Kernel/Sources/dispatcher/VirtualProcessorScheduler.c:273-334 | A wait whose deadline has passed changes nothing; any other leaves its caller asleep with queue, time, deadline and interruptability recorded, and the CPU goes to the head of the highest non-empty list |
| `SchedulerEffects.SliceEffect` | Kernel/Sources/dispatcher/VirtualProcessorScheduler.c:195-227 | Within its slice the runner goes on; at its end its priority falls by one, and it is replaced by the head of the highest list if and only if that list is above the lowered priority, and then stands at the end of the list of its base priority |
| `SchedulerEffects.ExpireFrees` | Kernel/Sources/dispatcher/VirtualProcessorScheduler.c:177-192 | Whoever is timed out is freed with the priority its sleep has earned |
| `SchedulerEffects.SuspendEffect` | Kernel/Sources/dispatcher/VirtualProcessor.c:427-461 | A suspension counts up to 127 and takes the processor off the CPU or its ready list; a waiter goes on waiting |
| `SchedulerEffects.ResumeEffect` | Kernel/Sources/dispatcher/VirtualProcessor.c:466-495 | A resumption counts back by one, or to none if forced; at none a processor that does not wait stands at the end of the list of its base priority with a full slice |
| `SchedulerEffects.SetPriorityEffect` | Kernel/Sources/dispatcher/VirtualProcessor.c:385-414 | A new base priority takes effect at once for the runner and for ready processors, which move to the end of the new list, and later for waiting and suspended ones |
| `SchedulerEffects.CreateEffect` | Kernel/Sources/dispatcher/VirtualProcessor.c:99-129 | A new processor is suspended once and on no list |
| `SchedulerEffects.TerminateEffect` | Kernel/Sources/dispatcher/VirtualProcessorScheduler.c:471-512 | The runner is dead, last on the finalizer queue, and the CPU goes to the head of the highest non-empty list |
| `SchedulerEffects.FinalizeEffect` | Kernel/Sources/dispatcher/VirtualProcessorScheduler.c:534-560 | Finalizing destroys exactly the dead processors |
| `SchedulerLives.SuspensionsCount` | Kernel/Sources/dispatcher/VirtualProcessor.c:427-495 | Over any run the suspension count of a processor is what its suspensions and resumptions make of it, whatever else happens |
| `SchedulerLives.SuspendedStaysOff` | Kernel/Sources/dispatcher/VirtualProcessor.c:427-495 | A processor that has been suspended more often than resumed neither runs nor is on a ready list, over any run |
| `SchedulerLives.DeadStaysDead` | Kernel/Sources/dispatcher/VirtualProcessorScheduler.c:471-512 | A terminated processor stays on the finalizer queue until it is destroyed and never runs or becomes ready, over any run |
| `SchedulerLives.SleepIsPaid` | Kernel/Sources/dispatcher/VirtualProcessorScheduler.c:299-434 | From a wait over any run to the wake-up: the woken processor has gained one priority for each quarter of a second of the ticks it has slept, up to 63 |
| `SchedulerTurns.ReadyRunInTurn` | Kernel/Sources/dispatcher/VirtualProcessorScheduler.c:109-174 | Ready processors of one priority run in turn: over any run in which two stay ready the earlier one stays before the other, and no operation gives the CPU to the other one first, as long as nobody sets the priority of one of them to that of the list once more |
| `SchedulerTurns.StepInTurn` | Kernel/Sources/dispatcher/VirtualProcessorScheduler.c:109-512 | Every operation leaves a ready list in order with newcomers at its end, and gives the CPU to nobody on it but its head; the only exception moves a processor to the end of its own list |
| `SchedulerTurns.NewlyReadyStandsBehind` | Kernel/Sources/dispatcher/VirtualProcessorScheduler.c:109-126 | Whoever becomes ready stands behind all who are ready with the same priority |
| `SchedulerSteps.WakeUpOneFrame` | Kernel/Sources/dispatcher/VirtualProcessorScheduler.c:391-434 | What one wake-up changes: the woken processor's record, its wait queue, the timeout queue, and nothing if the wake-up is to be ignored |
| `SchedulerSteps.WakeUpOneInv` | Kernel/Sources/dispatcher/VirtualProcessorScheduler.c:391-434 | A single wake-up keeps the invariant |
| `SchedulerState.Boosted` | Kernel/Sources/dispatcher/VirtualProcessorScheduler.c:419-424 | The priority after a wait is never lower than before it and never above 63 |
| `SchedulerInvariant.EnqueueCore` | Kernel/Sources/dispatcher/VirtualProcessorScheduler.c:299-322 | Putting the running processor on a wait queue keeps every wait queue ordered by falling effective priority and, among equals, by the quantum of arrival |
| `SchedulerArrivals.ArrivalDecides` | Kernel/Sources/dispatcher/VirtualProcessorScheduler.c:299-323 | The order of a wait queue over any run: a waiter stands before one that has arrived after it, in the same quantum or later, exactly if its effective priority was not lower than the newcomer's, as long as both wait |
| `SchedulerArrivals.FirstComeFirstServed` | Kernel/Sources/dispatcher/VirtualProcessorScheduler.c:262-381 | Who enters a wait queue first leaves it first: over any run, a Finished wake-up that takes the later of two waiters takes the earlier one too, unless the later one had the higher effective priority, and then the other way round |
| `SchedulerArrivals.RunKeepsOrder` | Kernel/Sources/dispatcher/VirtualProcessorScheduler.c:177-512 | Two waiters of a queue keep their order over any run in which both go on waiting |
| `SchedulerArrivals.StepThins` | Kernel/Sources/dispatcher/VirtualProcessorScheduler.c:177-512 | Nobody joins a wait queue but the running processor by waiting on it; every other operation leaves a part of the queue, in order |
| `SchedulerArrivals.NewcomerStands` | Kernel/Sources/dispatcher/VirtualProcessorScheduler.c:299-313 | A newcomer stands behind every waiter of at least its effective priority and before every other |
| `SchedulerInvariant.ArmTimeoutCore` | Kernel/Sources/dispatcher/VirtualProcessorScheduler.c:232-249 | Arming a timeout keeps the timeout queue sorted and its membership equal to the armed flags |
| `SchedulerInvariant.CancelTimeoutCore` | Kernel/Sources/dispatcher/VirtualProcessorScheduler.c:253-260 | Cancelling a timeout keeps the timeout queue sorted and its membership equal to the armed flags |
| `SchedulerInvariant.AddReadyCore` | Kernel/Sources/dispatcher/VirtualProcessorScheduler.c:109-126 | Adding a processor keeps lists, bitmap and fields consistent |
| `SchedulerInvariant.RemoveReadyCore` | Kernel/Sources/dispatcher/VirtualProcessorScheduler.c:140-151 | Removing a processor from its ready list keeps lists, bitmap and fields consistent; removing one that is on no list changes nothing |
| `SchedulerInvariant.RemoveAbsent` | Kernel/Sources/dispatcher/VirtualProcessorScheduler.c:140-151 | Removing a processor that is on no list changes nothing |
| `SchedulerSteps.MaybeSwitchToInv` | Kernel/Sources/dispatcher/VirtualProcessorScheduler.c:441-455 | A voluntary context switch keeps the invariant |
| `SchedulerSteps.SwitchAwayInv` | Kernel/Sources/dispatcher/VirtualProcessorScheduler.c:461-467 | Switching away from a processor that has been put somewhere restores the invariant |
| `SchedulerSteps.EndSliceInv` | Kernel/Sources/dispatcher/VirtualProcessorScheduler.c:195-227 | Charging the time slice, lowering the priority and rotating the ready lists keeps the invariant |
| `SchedulerRuns.SuspendKeepsSafe` | Kernel/Sources/dispatcher/VirtualProcessor.c:427-461 | Suspending a processor in any state, suspended or not, keeps the invariant |
| `SchedulerRuns.ResumeKeepsSafe` | Kernel/Sources/dispatcher/VirtualProcessor.c:466-495 | Resuming a processor keeps the invariant |
| `SchedulerRuns.SetPriorityKeepsSafe` | Kernel/Sources/dispatcher/VirtualProcessor.c:385-414 | Changing a base priority keeps the invariant |
| `SchedulerRuns.TerminateKeepsSafe` | Kernel/Sources/dispatcher/VirtualProcessorScheduler.c:471-512 | Terminating the running processor keeps the invariant, unless three dead ones are queued and the scheduler's own processor sleeps |
| `SchedulerExits.TerminateIsSafeExactly` | Kernel/Sources/dispatcher/VirtualProcessorScheduler.c:471-512 | Terminating the running processor keeps the invariant if and only if it does not find three dead processors on the finalizer queue and the scheduler's own processor asleep |
| `SchedulerExits.FinalizeNowRevives` | Kernel/Sources/dispatcher/VirtualProcessorScheduler.c:441-502 | In that case, with every state of the scheduler's own processor, the dead processor goes on running, or it is on a ready list and on the finalizer queue at once |
| `SchedulerExits.FourthExitGoesWrong` | Kernel/Sources/dispatcher/VirtualProcessorScheduler.c:484-502 | A run from boot that leads there, for every quantum length: four processors are created and resumed, the scheduler's own goes to sleep for a second, three exit, and the fourth exit breaks the invariant |
| `SchedulerRuns.CreateKeepsSafe` | Kernel/Sources/dispatcher/VirtualProcessor.c:99-129 | A newly created, parked processor keeps the invariant |
| `PriorityBitmap.BitUpdates` | Kernel/Sources/dispatcher/VirtualProcessorScheduler.c:109-151 | Setting or clearing one bit of the population bitmap changes that bit and no other |
| `Scheduler.VirtualProcessorScheduler.GetHighestPriorityReady` | Kernel/Sources/dispatcher/VirtualProcessorScheduler.c:156-174 | The loop over the bitmap bytes and the cascade over the bits of a byte return what the specification's scan of all lists returns |
| `Scheduler.VirtualProcessorScheduler.AddVirtualProcessorLocked` | Kernel/Sources/dispatcher/VirtualProcessorScheduler.c:109-126 | The new state is the old one with the processor at the end of its list and the bit set |
| `Scheduler.VirtualProcessorScheduler.RemoveVirtualProcessorLocked` | Kernel/Sources/dispatcher/VirtualProcessorScheduler.c:140-151 | The new state is the old one with the processor unlinked and the bit cleared if the list is empty |
| `Scheduler.VirtualProcessorScheduler.OnEndOfQuantum` | Kernel/Sources/dispatcher/VirtualProcessorScheduler.c:177-228 | The expiry loop followed by the charge for the slice is the specified tick |
| `Scheduler.VirtualProcessorScheduler.ChargeQuantum` | Kernel/Sources/dispatcher/VirtualProcessorScheduler.c:195-227 | The runner's allowance, priority decay and rotation are as specified |
| `Scheduler.VirtualProcessorScheduler.ArmTimeout` | Kernel/Sources/dispatcher/VirtualProcessorScheduler.c:232-249 | The insertion loop puts the timeout behind all that are due no later |
| `Scheduler.VirtualProcessorScheduler.CancelTimeout` | Kernel/Sources/dispatcher/VirtualProcessorScheduler.c:253-260 | The timeout is disarmed and unlinked |
| `Scheduler.VirtualProcessorScheduler.WaitOn` | Kernel/Sources/dispatcher/VirtualProcessorScheduler.c:273-334 | Returns at once if a call-as-user is being aborted or the deadline has passed; otherwise the running processor is on the timeout queue and, by priority, on the wait queue, and the best ready one runs |
| `Scheduler.VirtualProcessorScheduler.Enqueue` | Kernel/Sources/dispatcher/VirtualProcessorScheduler.c:299-322 | The insertion loop puts the waiter behind all of at least its priority |
| `Scheduler.VirtualProcessorScheduler.WakeUpOne` | Kernel/Sources/dispatcher/VirtualProcessorScheduler.c:391-434 | The new state is the specified one for a single wake-up |
| `Scheduler.VirtualProcessorScheduler.WakePass` | Kernel/Sources/dispatcher/VirtualProcessorScheduler.c:360-374 | The first pass over the waiters, with the first that can run as candidate |
| `Scheduler.VirtualProcessorScheduler.WakeUpSome` | Kernel/Sources/dispatcher/VirtualProcessorScheduler.c:355-381 | Both passes of a wake-up |
| `Scheduler.VirtualProcessorScheduler.MaybeSwitchTo` | Kernel/Sources/dispatcher/VirtualProcessorScheduler.c:441-455 | Switches exactly under the conditions of the source |
| `Scheduler.VirtualProcessorScheduler.SwitchTo` | Kernel/Sources/dispatcher/VirtualProcessorScheduler.c:461-467 | The new runner leaves its ready list and runs |
| `Scheduler.VirtualProcessorScheduler.SwitchContext` | Kernel/Sources/dispatcher/VirtualProcessorScheduler_asm.s:150-190 | The outgoing processor becomes ready if it was running, the incoming one runs |
| `Scheduler.VirtualProcessorScheduler.Suspend` | Kernel/Sources/dispatcher/VirtualProcessor.c:427-461 | The new state is the specified one; fails exactly at the largest suspension count |
| `Scheduler.VirtualProcessorScheduler.Resume` | Kernel/Sources/dispatcher/VirtualProcessor.c:466-495 | The new state is the specified one |
| `Scheduler.VirtualProcessorScheduler.SetPriority` | Kernel/Sources/dispatcher/VirtualProcessor.c:385-414 | The new state is the specified one |
| `Scheduler.VirtualProcessorScheduler.Terminate` | Kernel/Sources/dispatcher/VirtualProcessorScheduler.c:471-512 | The new state is the specified one in both branches; the invariant holds again unless the finalizer is to run at once |
| `Scheduler.TopBitIsHighest` | Kernel/Sources/dispatcher/VirtualProcessorScheduler.c:162-171 | The cascade of tests finds the highest bit of a byte |
| `MonotonicClocks.ConversionIsCeiling` | Kernel/Sources/driver/MonotonicClock.c:119-139 | Converting a time to quantums, rounding away from zero, gives the first quantum at or after it if and only if that quantum number fits 32 bits |
| `MonotonicClocks.QuantumRoundTrip` | Kernel/Sources/driver/MonotonicClock.c:119-150 | The time at which a quantum starts converts back to that quantum, in either rounding |
| `MonotonicClocks.CeilingUnique` | Kernel/Sources/driver/MonotonicClock.c:119-139 | There is just one first quantum at or after a time |
| `MonotonicClocks.MonotonicClock.OnInterrupt` | Kernel/Sources/driver/MonotonicClock.c:76-88 | The clock's time stays the quantum count times the quantum length, and canonical |
| `KeyMapTables.KeyMap.AddAndUniqueString` | Tools/keymap.c:504-525 | Returns the index of the string, which is added only if it is not in the table yet |
| `KeyMapTables.KeyMap.AddKey` | Tools/keymap.c:529-572 | The tables stand for one more statement, and for the earlier ones as before |
| `KeyMapTables.SortByCode` | Tools/keymap.c:616-624 | The keys are put into ascending order and none is lost; nothing is assumed about the order of keys with the same code |
| `KeyMapTables.StatementsPermute` | Tools/keymap.c:616-624 | Sorting the key table loses and doubles no statement |
| `KeyMapTables.DistinctSortStrictly` | Tools/keymap.c:616-624 | The tables of a source with distinct codes are in strictly ascending order, whatever sorts them |
| `KeyMapTables.KeyMap.CalculateKeyRanges` | Tools/keymap.c:621-661 | The ranges are the maximal runs of consecutive codes of one type, in key order |
| `KeyMapTables.KeyMap.Build` | Tools/keymap.c:574-661 | The sorted tables stand for exactly the statements of the source file, each as often as it was written, with repeated codes or without |
| `KeyMapCompiler.CompiledKeyMap.AddPatchLocation` | Tools/keymap.c:701-713 | One more place waits for a label |
| `KeyMapCompiler.CompiledKeyMap.Patch16` | Tools/keymap.c:715-720 | Two bytes get the low 16 bits of a value, most significant first; all others keep theirs |
| `KeyMapCompiler.CompiledKeyMap.PatchLabeled16` | Tools/keymap.c:722-731 | Every place that waits for the label gets the value, and no other byte changes |
| `KeyMapCompiler.CompiledKeyMap.Write16` | Tools/keymap.c:753-759 | Appends two bytes and returns their offset, unless the image has outgrown 16-bit offsets |
| `KeyMapCompiler.CompiledKeyMap.Write8` | Tools/keymap.c:761-765 | Appends a byte, unless the image has outgrown 16-bit offsets |
| `KeyMapCompiler.CompiledKeyMap.WriteString` | Tools/keymap.c:767-774 | Appends a string and its NUL, unless the image has outgrown 16-bit offsets |
| `KeyMapCompiler.LocsMembers` | Tools/keymap.c:690-731 | The pending places never overlap and lie inside what has been written |
| `KeyMapStages.RangePatchFrame` | Tools/keymap.c:807-811 | Patching the trap pointer of a range changes that pointer only |
| `KeyMapStages.PatchedTrap` | Tools/keymap.c:839-843 | Patching the pointers to a string sets exactly the traps of the keys that use it |
| `KeyMapStages.Finished` | Tools/keymap.c:847-849 | Once the size is patched in, the image is complete |
| `KeyMapCompile.CompileType0` | Tools/keymap.c:776-849 | Compilation succeeds if and only if the last piece starts at an offset that 16 bits can hold, and then the bytes are the complete image of the tables |
| `KeyMapCompile.WriteRecords` | Tools/keymap.c:785-803 | The range table and the range records are in place, or an offset has become too large |
| `KeyMapCompile.WriteTraps` | Tools/keymap.c:806-835 | The traps and all trap pointers are in place, or an offset has become too large |
| `KeyMapCompile.WriteStrings` | Tools/keymap.c:838-843 | The strings and all pointers to them are in place, if and only if no offset has become too large |
| `KeyMapRanges.RunSteps` | Tools/keymap.c:621-661 | Inside a range, key codes and trap offsets advance in step with the key index |
| `KeyMapRanges.KeyInRange` | Kernel/Sources/console/KeyMap.c:103-106 | The codes of the keys of a range are exactly those between its bounds, repeated codes included |
| `KeyMapRanges.OffsetsFit` | Tools/keymap.c:753-774 | In a compiled image every stored offset is exact |
| `KeyMapKernel.Map` | Kernel/Sources/console/KeyMap.c:97-122 | For every table, key code, modifier set and buffer size, the kernel's lookup in the compiled image answers with the entry that lies as far behind the first entry of the first enclosing range as the code lies behind its code, and with nothing for codes no range encloses |
| `KeyMapKernel.MapChar` | Kernel/Sources/console/KeyMap.c:43-71 | The character picked by shift, caps lock and option, with fallback to the plain one, masked by control |
| `KeyMapModifiers.CapsLockInvertsShift` | Kernel/Sources/console/KeyMap.c:43-54 | For key codes 4 to 29 caps lock does what releasing shift does while it is held and what holding it does otherwise; for every other code it changes nothing |
| `KeyMapModifiers.ModifiersPick` | Kernel/Sources/console/KeyMap.c:56-71 | Without caps lock, shift and option pick one of the four characters of a binding, the plain one stands in for a missing one, and control keeps the five low bits |
| `KeyMapModifiers.ModifiersLeaveStrings` | Kernel/Sources/console/KeyMap.c:75-122 | Strings come as they are up to the size of the buffer, whatever the modifiers, and a key that nothing is bound to gives nothing |
| `KeyMapModifiers.FindsTheFirst` | Kernel/Sources/console/KeyMap.c:97-122 | The direct lookup finds the first statement for a code |
| `KeyMapKernel.MapString` | Kernel/Sources/console/KeyMap.c:74-88 | The string of the key, as much of it as fits |
| `KeyMapKernel.TestRange` | Kernel/Sources/console/KeyMap.c:103-106 | A range whose bounds enclose the code leads to the trap of that entry; otherwise the search goes on |
| `KeyMapLookups.LooksUpExactly` | Tools/keymap.c:621-661 | Over all tables: for every key code the entry the kernel reaches is the first statement of the source for it, if and only if each key lies in step with its code, up to repetitions that end a range, and the sort has kept the first statement of a repeated code in front |
| `KeyMapLookups.MapSource` | Kernel/Sources/console/KeyMap.c:97-122 | Under that condition, and so for distinct key codes, the kernel's lookup in a compiled image gives exactly what a direct lookup in the source statements gives |
| `KeyMapLookups.DistinctLooksUp` | Tools/keymap.c:621-661 | Tables with distinct key codes meet the condition |
| `KeyMapLookups.OnlyStatement` | Kernel/Sources/console/KeyMap.c:97-122 | Among statements with distinct codes the direct lookup finds each by its code |
| `KeyMapAnswers.AnswersAgreeExactly` | Kernel/Sources/console/KeyMap.c:43-122 | Over all tables: no key press, modifiers or buffer size shows a difference between kernel and source, if and only if for the code of each key the entry reached and the statement found have bindings that cannot be told apart, which is decided from the bindings alone |
| `KeyMapAnswers.RepetitionShiftsTraps` | Tools/keymap.c:621-661 | A key listed twice with the same binding: the tables compile, and in every image of them the next key of the range answers with the binding of the repeated one |
| `KeyMapValidity.IsValid` | Kernel/Sources/console/KeyMap.c:15-39 | For every image whose pointers stay inside it, the check succeeds if and only if no string a key maps to is longer than 16 bytes |
| `KeyMapValidity.StringsAreShort` | Kernel/Sources/console/KeyMap.c:22-32 | For one range of string keys, the same |
| `KeyMapValidity.CompiledIsValid` | Kernel/Sources/console/KeyMap.c:15-39 | Every image that compilation produces, of any tables, keeps its pointers inside and passes the check |
| `KeyMapValidity.StringLengthUnique` | Kernel/Sources/console/KeyMap.c:27-29 | The length of a stored string is the distance to its first NUL |
| `KeyMapDecompiler.Decompile` | Tools/keymap.c:1122-1140 | Reading a compiled image back succeeds if and only if its size fits the 16-bit size field, and then gives a statement for each code of each range, which for distinct codes are the sorted statements of the source |
| `KeyMapDecompiler.SectionsAreTheTable` | Tools/keymap.c:1097-1140 | The ranges read back, one after the other, are the whole key table in ascending code order, if and only if no code is repeated within a range |
| `KeyMapDecompiler.DecompileKeyRange` | Tools/keymap.c:1097-1120 | A range record and its traps are read back as the statements they hold |
| `KeyMapDecompiler.ReadText` | Tools/keymap.c:1076-1090 | A string is read back up to its NUL or the longest length |
| `KeyMapDecompiler.ReadCharTrap` | Tools/keymap.c:1057-1074 | The four characters of a trap are read back |
| `KeyMapDecompiler.Read8` | Tools/keymap.c:963-970 | A byte, or failure behind the end of the data |
| `KeyMapDecompiler.CutUnreadable` | Tools/keymap.c:934-983 | Of an image too large for its size field at most 16 bytes are loaded, in which no range can be read |
| `KeyMapDecompiler.OversizedTables` | Tools/keymap.c:776-849 | There are tables that compile to an image too large for its size field |
| `DispatchQueueRuns.StepKeepsInv` | Kernel/Sources/dispatchqueue/DispatchQueue.c:62-908 | Every critical section of any user or worker, with the signal or broadcast at its end, keeps the invariant of the queue |
| `DispatchQueueRuns.CreatedInv` | Kernel/Sources/dispatchqueue/DispatchQueue.c:19-59 | A new queue has the invariant and exactly its minimum of workers |
| `DispatchQueueReachable.LanesAreExact` | Kernel/Sources/dispatchqueue/DispatchQueue.c:190-247 | In every run the worker count is the number of occupied lanes, each worker sits in exactly the lane whose index it stores, a free lane exists whenever one is looked for, and no more closures run than there are lanes |
| `DispatchQueueReachable.SerialQueuesDoNotOverlap` | Kernel/Sources/dispatchqueue/DispatchQueue.c:781-908 | On a queue with one lane the closures started are the closures ended, in the same order, and at most one more |
| `DispatchQueueReachable.ItemsStartInOrder` | Kernel/Sources/dispatchqueue/DispatchQueue.c:367-381 | Immediate items start in the order of their submission |
| `DispatchQueueReachable.SubmissionsAreConserved` | Kernel/Sources/dispatchqueue/DispatchQueue.c:62-78 | In every run each submission is in exactly one of five places: queued, armed, in a worker's hands, done, dropped |
| `DispatchQueueReachable.NothingRunsTwice` | Kernel/Sources/dispatchqueue/DispatchQueue.c:790-849 | Work that does not repeat is taken by a worker at most once |
| `DispatchQueueReachable.NothingStartsAfterTermination` | Kernel/Sources/dispatchqueue/DispatchQueue.c:92-122 | Once termination has begun, for ever after both queues are empty and no worker takes another item |
| `DispatchQueueReachable.TerminationIsFinal` | Kernel/Sources/dispatchqueue/DispatchQueue.c:92-122 | No critical section undoes termination, queues anything or starts anything after it |
| `DispatchQueueReachable.TerminatedIsDrained` | Kernel/Sources/dispatchqueue/DispatchQueue.c:126-137 | When termination is complete no worker is attached, nothing runs, and every submission is done or dropped |
| `DispatchQueueReachable.MinimumIsKept` | Kernel/Sources/dispatchqueue/DispatchQueue.c:833-849 | A running queue never falls below its minimum of workers |
| `DispatchQueueService.ItemsAlwaysServed` | Kernel/Sources/dispatchqueue/DispatchQueue.c:190-231 | In every run, whenever items are queued, a worker is attached that does not sleep: no item is left to workers that all sleep without having been signalled |
| `DispatchQueueService.DispatchWakes` | Kernel/Sources/dispatchqueue/DispatchQueue.c:367-376 | After a dispatch some worker is up: the one that was signalled, the one that was acquired, or because nobody slept |
| `DispatchQueueService.TerminationWakesAll` | Kernel/Sources/dispatchqueue/DispatchQueue.c:92-122 | In every run no worker sleeps from the moment termination begins |
| `DispatchQueueService.LookingLeaves` | Kernel/Sources/dispatchqueue/DispatchQueue.c:815-849 | A worker that looks at a terminating queue leaves it |
| `DispatchQueueService.ItemCountDrifts` | Kernel/Sources/dispatchqueue/DispatchQueue.c:62-78 | In every run the count of queued items is their number plus the items that were flushed minus the looks for work that found none, and so right exactly if these two are equal |
| `DispatchQueueService.IdleLookMiscounts` | Kernel/Sources/dispatchqueue/DispatchQueue.c:806-810 | The first look for work of a new queue's only worker leaves the count at -1 with nothing queued |
| `DispatchQueueService.FixedWorkersAttend` | Kernel/Sources/dispatchqueue/DispatchQueue.c:820-838 | In every run of a queue with a fixed number of workers somebody is up, or will be up when the first armed timer is due |
| `DispatchQueueLimits.TimersAttendedExactly` | Kernel/Sources/dispatchqueue/DispatchQueue.c:820-841 | Over all runs of a queue: whenever a timer is armed, some worker is up or its wait ends no later than the first timer is due, if and only if the queue's minimum and maximum of workers are equal |
| `DispatchQueueLimits.TimersServedExactly` | Kernel/Sources/dispatchqueue/DispatchQueue.c:790-849 | Over all runs of a queue: armed timers have a worker attached, if and only if the queue was created with a minimum of at least one worker |
| `DispatchQueueLimits.TimerIsStranded` | Kernel/Sources/dispatchqueue/DispatchQueue.c:820-849 | A run after which a running queue has an armed timer and no worker: two timers are armed, the first is removed, the only worker's wait ends at the time of the first, and it leaves |
| `DispatchQueueLimits.LeavesTimer` | Kernel/Sources/dispatchqueue/DispatchQueue.c:820-849 | The same for any queue at rest with more workers than its minimum: the worker that waited for the removed timer leaves, all others sleep on without a timer |
| `DispatchQueueLimits.ItemsHaveWorkersOnTheWay` | Kernel/Sources/dispatchqueue/DispatchQueue.c:367-376 | In every run without timers: while any worker sleeps, there is for each queued item a worker that will look for work without having to be woken |
| `DispatchQueueLimits.ItemsAreNeglectedExactly` | Kernel/Sources/dispatchqueue/DispatchQueue.c:796-811 | Over all runs of a queue: the same with timers, if and only if the queue may have only one worker; otherwise a worker that was woken for an item can take a due timer instead |
| `DispatchQueueLimits.ComesToRest` | Kernel/Sources/dispatchqueue/DispatchQueue.c:190-231 | Every queue has a run after which all its workers sleep and nothing is queued, with two workers or more if it may have them and more than its minimum if it may have more |
| `DispatchQueueOutcomes.RepeatingComesBack` | Kernel/Sources/dispatchqueue/DispatchQueue.c:768-779 | In every run: when the closure of a repeating timer that was not cancelled returns on a running queue, the timer is armed, or due and in the worker's hands, in exactly one place, for the old deadline plus k intervals with the least k of at least 1 that is not before the clock reading |
| `DispatchQueueOutcomes.OthersAreOver` | Kernel/Sources/dispatchqueue/DispatchQueue.c:874-900 | Work that does not repeat and cancelled timers are over when the closure has returned: neither queued nor armed nor in anybody's hands |
| `DispatchQueueOutcomes.RepeatingTimersLive` | Kernel/Sources/dispatchqueue/DispatchQueue.c:884-893 | In every run: a timer that was submitted to repeat and that nobody removes, flushes or cancels on a queue that nobody terminates is armed or executing, in exactly one place, with its interval |
| `DispatchQueueEffects.DispatchItemEffect` | Kernel/Sources/dispatchqueue/DispatchQueue.c:190-231 | Dispatching to a running queue puts the item behind all others, attaches a worker to the first free lane if and only if there is none, less than the minimum, or less than the maximum with five items or more, and wakes the signalled worker; a queue that does not run is left as it is |
| `DispatchQueueEffects.DispatchTimerEffect` | Kernel/Sources/dispatchqueue/DispatchQueue.c:460-488 | The same for a timer, which is armed for its deadline in the sorted timer queue |
| `DispatchQueueEffects.RemoveItemEffect` | Kernel/Sources/dispatchqueue/DispatchQueue.c:435-456 | Removing an item takes it and nothing else off the queue, and keeps the count in step |
| `DispatchQueueEffects.RemoveTimerEffect` | Kernel/Sources/dispatchqueue/DispatchQueue.c:495-514 | Removing a timer takes it and nothing else off the timer queue |
| `DispatchQueueEffects.RemovedNeverStarts` | Kernel/Sources/dispatchqueue/DispatchQueue.c:435-514 | An item or one-shot timer that was removed, flushed or dropped by termination never starts, in any run that follows |
| `DispatchQueueEffects.FlushEffect` | Kernel/Sources/dispatchqueue/DispatchQueue.c:62-78 | Flushing drops everything that is queued or armed and leaves the workers as they are |
| `DispatchQueueEffects.TerminateEffect` | Kernel/Sources/dispatchqueue/DispatchQueue.c:92-122 | Terminating a running queue drops everything that is queued or armed and wakes all workers; terminating it again does nothing |
| `DispatchQueueEffects.CompletesExactly` | Kernel/Sources/dispatchqueue/DispatchQueue.c:126-137 | Termination completes if and only if no worker is attached |
| `DispatchQueueEffects.TerminationCanComplete` | Kernel/Sources/dispatchqueue/DispatchQueue.c:126-137 | From every state of a terminating queue a run of its own workers leads to the end of termination: one more step of each attached worker is enough |
| `DispatchQueueEffects.LookStarts` | Kernel/Sources/dispatchqueue/DispatchQueue.c:796-831 | A new worker starts the first due timer, else the first item, which leaves its queue, and otherwise waits until the first timer is due |
| `DispatchQueueEffects.WakeStarts` | Kernel/Sources/dispatchqueue/DispatchQueue.c:796-849 | The same after a wait; a worker that finds nothing on a running queue leaves if and only if its wait has timed out and more than the minimum are attached |
| `DispatchQueueInvariant.FreeLaneExists` | Kernel/Sources/dispatchqueue/DispatchQueue.c:196-210 | The assertion in lane acquisition never fails |
| `DispatchQueueInvariant.AcquireKeeps` | Kernel/Sources/dispatchqueue/DispatchQueue.c:190-231 | Acquiring a worker keeps lanes, stored indices and count consistent |
| `DispatchQueueInvariant.RelinquishKeeps` | Kernel/Sources/dispatchqueue/DispatchQueue.c:238-247 | A worker that leaves frees its own lane |
| `DispatchQueueRuns.InsertSorted` | Kernel/Sources/dispatchqueue/DispatchQueue.c:460-475 | The timer queue stays sorted by deadline, timers with equal deadlines in order of arming |
| `DispatchQueueRuns.DropItems` | Kernel/Sources/dispatchqueue/DispatchQueue.c:435-456 | Removing an item moves it, and only it, from the queue to the dropped ones |
| `DispatchQueueRuns.TakeItem` | Kernel/Sources/dispatchqueue/DispatchQueue.c:806-810 | Taking the first item moves it into the worker's hands and keeps the order of starts |
| `DispatchQueueRuns.RetireArmed` | Kernel/Sources/dispatchqueue/DispatchQueue.c:886-893 | A repeating timer that has run is armed again and in no other place |
| `DispatchQueueTimers.EarliestTimerFirst` | Kernel/Sources/dispatchqueue/DispatchQueue.c:796-810 | A timer is taken only once its deadline has passed and only the first of those due first; an item is taken only if no timer is due |
| `DispatchQueueTimers.NextDeadlineIsLeast` | Kernel/Sources/dispatchqueue/DispatchQueue.c:768-779 | Re-arming gives the least old deadline plus k intervals, k at least 1, that is not before now |
| `DispatchQueueTimers.TimersKeepTheirPhase` | Kernel/Sources/dispatchqueue/DispatchQueue.c:768-779 | In every run the deadline of a timer is a whole number of intervals after the one it was submitted with |
| `DispatchQueues.DispatchQueue.Create` | Kernel/Sources/dispatchqueue/DispatchQueue.c:19-59 | Fails exactly for concurrency values out of range; otherwise the queue has its minimum of workers in the first lanes |
| `DispatchQueues.DispatchQueue.AcquireVirtualProcessor` | Kernel/Sources/dispatchqueue/DispatchQueue.c:190-231 | The loop finds the first free lane, and the worker is put there exactly under the conditions of the source |
| `DispatchQueues.DispatchQueue.RelinquishVirtualProcessor` | Kernel/Sources/dispatchqueue/DispatchQueue.c:238-247 | The lane whose index the worker stores becomes free |
| `DispatchQueues.DispatchQueue.SignalWorkAvailable` | Kernel/Sources/dispatcher/ConditionVariable.c:41-57 | A signal wakes one sleeping worker |
| `DispatchQueues.DispatchQueue.AddTimer` | Kernel/Sources/dispatchqueue/DispatchQueue.c:460-475 | The loop puts the timer behind all timers that are due no later |
| `DispatchQueues.DispatchQueue.DispatchWorkItem` | Kernel/Sources/dispatchqueue/DispatchQueue.c:573-598 | Appends the item, acquires a worker if one is wanted and signals a sleeping one, or does nothing while terminating |
| `DispatchQueues.DispatchQueue.DispatchTimer` | Kernel/Sources/dispatchqueue/DispatchQueue.c:710-735 | Arms the timer, acquires a worker if one is wanted and signals a sleeping one, or does nothing while terminating |
| `DispatchQueues.DispatchQueue.RemoveWorkItem` | Kernel/Sources/dispatchqueue/DispatchQueue.c:435-456 | The loop removes every entry for the item and keeps the others in order |
| `DispatchQueues.DispatchQueue.RemoveTimer` | Kernel/Sources/dispatchqueue/DispatchQueue.c:495-514 | The loop removes every entry for the timer and keeps the others in order |
| `DispatchQueues.DispatchQueue.Flush` | Kernel/Sources/dispatchqueue/DispatchQueue.c:62-78 | The loops empty both queues |
| `DispatchQueues.DispatchQueue.Terminate` | Kernel/Sources/dispatchqueue/DispatchQueue.c:92-122 | Sets the state, flushes and wakes every sleeping worker, once |
| `DispatchQueues.DispatchQueue.CompleteTermination` | Kernel/Sources/dispatchqueue/DispatchQueue.c:126-137 | Terminated exactly if no worker is attached |
| `DispatchQueues.DispatchQueue.RearmTimer` | Kernel/Sources/dispatchqueue/DispatchQueue.c:768-779 | The loop arms the timer with the specified next deadline |
| `DispatchQueues.DispatchQueue.NextWork` | Kernel/Sources/dispatchqueue/DispatchQueue.c:790-849 | A round of the work loop takes a due timer, else an item, else waits until the first timer is due or leaves the queue |
| `DispatchQueues.DispatchQueue.OnWakeUp` | Kernel/Sources/dispatchqueue/DispatchQueue.c:833-849 | After a wait: a worker may leave only if the wait has timed out and more than the minimum are attached |
| `DispatchQueues.DispatchQueue.OnClosureReturned` | Kernel/Sources/dispatchqueue/DispatchQueue.c:874-900 | After a closure: the work is retired or re-armed, and the worker looks for more |
| `RamDiskRefinement.FlatExactlyIfItFits` | Kernel/Sources/driver/RamDisk.c:81-185 | A new disk behaves as a flat array of zeroed blocks under every sequence of reads and writes if and only if the block number behind its last extent and the byte size of an extent fit 32 bits |
| `RamDiskRefinement.NewDiskIsFlat` | Kernel/Sources/driver/RamDisk.c:30-185 | Any sequence of reads and writes on a new disk that fits behaves as on a flat array of zeroed blocks, with failed writes changing nothing |
| `RamDiskRefinement.RunRefinesFlat` | Kernel/Sources/driver/RamDisk.c:112-185 | The same from any disk that stores a given array of blocks |
| `RamDiskRefinement.NotAddressableLosesWrites` | Kernel/Sources/driver/RamDisk.c:81-105 | On a disk that is not addressable the last block reads as zeros after it has been written |
| `RamDiskRefinement.NotAllocatableStrays` | Kernel/Sources/driver/RamDisk.c:141-185 | If the byte size of an extent does not fit, some block of the first extent is written past the memory allocated for it |
| `RamDiskRefinement.OneLargeExtentStrays` | Kernel/Sources/driver/RamDisk.c:141-185 | 2^23 blocks of 512 bytes in one extent are such a disk, although its block numbers fit |
| `RamDiskRefinement.NeverStray` | Kernel/Sources/driver/RamDisk.c:112-185 | On a disk that fits no read or write leaves the memory of its extent |
| `RamDiskRefinement.PutKeeps` | Kernel/Sources/driver/RamDisk.c:160-185 | A successful write changes the block it is for and no other, and keeps the extents sorted, apart and aligned |
| `RamDiskRefinement.StaysSparse` | Kernel/Sources/driver/RamDisk.c:141-185 | After any sequence of reads and writes the extents are sorted, aligned and do not overlap |
| `RamDiskRefinement.FindsExtent` | Kernel/Sources/driver/RamDisk.c:81-105 | The search finds the extent that holds a block |
| `RamDiskRefinement.AddExtentReads` | Kernel/Sources/driver/RamDisk.c:141-153 | A new extent changes what no block reads as |
| `RamDisks.RamDisk.GetDiskExtentForBlockIndex` | Kernel/Sources/driver/RamDisk.c:81-105 | The loop finds the extent of a block, or the place where it would have to be added |
| `RamDisks.RamDisk.GetBlock` | Kernel/Sources/driver/RamDisk.c:112-134 | The buffer gets the whole block or keeps its contents, with EIO for blocks beyond the disk |
| `RamDisks.RamDisk.PutBlock` | Kernel/Sources/driver/RamDisk.c:160-185 | The whole block is written, in a new extent if there is none; a reported failure leaves the disk as it was |
| `RamDisks.RamDisk.AddExtentAt` | Kernel/Sources/driver/RamDisk.c:141-153 | A cleared extent is linked in at the given place |
| `RamDisks.RamDisk.WriteBlock` | Kernel/Sources/driver/RamDisk.c:178-180 | The bytes of one block of an extent are overwritten in place |
| `PipeRuns.BytesAreConserved` | Kernel/Sources/Pipe.c:121-203 | For any number of readers and writers and any interleaving, the bytes read so far in order followed by the buffered bytes are the bytes written so far in order, and the buffer never exceeds its capacity |
| `PipeRuns.CallsGetTheirBytes` | Kernel/Sources/Pipe.c:121-203 | Each reader has got exactly the bytes that left the buffer on its behalf, and each writer has sent a prefix of its data in order |
| `PipeStreams.SingleStream` | Kernel/Sources/Pipe.c:99-203 | With one reader and one writer, each making any number of calls one after the other, what the reader has got, call by call, and what is buffered is what the writer has sent, call by call; it is a prefix of what the writer was given unless a call has given up early |
| `PipeStreams.ReaderStaysInOrder` | Kernel/Sources/Pipe.c:121-161 | The bytes that have left the buffer are those the reader's calls have got, in the order of the calls |
| `PipeStreams.WriterStaysInOrder` | Kernel/Sources/Pipe.c:163-203 | The bytes that have entered the buffer are those the writer's calls have sent, in the order of the calls |
| `PipeRuns.NeverBothAsleep` | Kernel/Sources/Pipe.c:137-149 | No state has both a sleeping reader and a sleeping writer |
| `PipeRuns.ErrorsMoveNothing` | Kernel/Sources/Pipe.c:145-147 | A call that reports an error has moved no bytes |
| `PipeRuns.ReadSectionEnds` | Kernel/Sources/Pipe.c:121-161 | A reader returns with all it wanted, or with less because a side is closed, or sleeps with the buffer empty, both sides open and every writer awake |
| `PipeRuns.WriteSectionEnds` | Kernel/Sources/Pipe.c:163-203 | A writer returns with all sent, or with less because a side is closed, or sleeps with the buffer full, both sides open and every reader awake |
| `PipeEnds.SidesAreOpen` | Kernel/Sources/Pipe.c:99-115 | In every run the read side is open if and only if nobody has closed it, and so is the write side |
| `PipeEnds.CloseWakesEverybody` | Kernel/Sources/Pipe.c:99-115 | Closing a side wakes all calls on both sides and moves no bytes |
| `PipeEnds.NobodySleepsOnClosedPipe` | Kernel/Sources/Pipe.c:99-203 | In every run no call sleeps on either side once a side has been closed |
| `PipeEnds.ReadGets` | Kernel/Sources/Pipe.c:121-161 | In every run a section of a read takes as many bytes as it wants and there are, from the front of the buffer, and returns if and only if it has them all or a side is closed |
| `PipeEnds.EndOfFile` | Kernel/Sources/Pipe.c:129-136 | In every run: once the write side is closed and the read side is not, a read gets what is left, as much as it wants, and returns without an error |
| `PipeEnds.WriteSends` | Kernel/Sources/Pipe.c:163-203 | In every run a section of a write sends as many bytes as there is room for, returns if and only if it has sent them all or a side is closed, and fails with EPIPE exactly if the read side is closed and it could send nothing |
| `PipeEnds.BrokenPipe` | Kernel/Sources/Pipe.c:176-180 | In every run: once the read side is closed and the write side is not, a write without room returns EPIPE if it has sent nothing and ends short otherwise |
| `PipeEnds.InterruptReports` | Kernel/Sources/Pipe.c:145-149 | An interrupted wait fails with EINTR if and only if its call has moved nothing |
| `PipeEnds.ReaderIsLeftExactly` | Kernel/Sources/Pipe.c:163-203 | In every run a reader is left asleep beside bytes by exactly those writes that complete while a reader sleeps: they return without waking anybody |
| `PipeEnds.WriterIsLeftExactly` | Kernel/Sources/Pipe.c:121-161 | In every run a writer is left asleep beside room by exactly those reads that complete while a writer sleeps |
| `PipeEnds.ReaderIsForgotten` | Kernel/Sources/Pipe.c:163-203 | A run after which a reader sleeps beside the very bytes it has asked for while the writer has returned |
| `PipeRuns.StepKeepsInv` | Kernel/Sources/Pipe.c:99-203 | Every critical section of any call keeps the invariant of the pipe |
| `PipeRuns.WakeWritersInv` | Kernel/Sources/dispatcher/ConditionVariable.c:41-57 | A broadcast leaves nobody asleep on its side |
| `PipeRuns.ReaderPhaseInv` | Kernel/Sources/dispatcher/ConditionVariable.c:61-77 | Releasing the lock and going to sleep are one step, allowed for a reader when no writer sleeps |
| `Pipes.PipeResource.Read` | Kernel/Sources/Pipe.c:121-161 | The loop of a read, up to its return or wait, is the specified critical section |
| `Pipes.PipeResource.Write` | Kernel/Sources/Pipe.c:163-203 | The loop of a write, up to its return or wait, is the specified critical section |
| `Pipes.PipeResource.Close` | Kernel/Sources/Pipe.c:99-115 | Closing a side wakes everybody |
| `Pipes.PipeResource.Interrupt` | Kernel/Sources/Pipe.c:145-148 | An interrupted wait reports EINTR exactly if nothing has been moved |
| `ShellParser.Parser.Parse` | Commands/shell/Parser.c:250-262 | Parsing ends on every token list, prints no error if and only if the list consists of strings, terminators and balanced parentheses only, and then the tree stands for exactly the tokens, including where words end |
| `ShellParser.Parser.ParseBlock` | Commands/shell/Parser.c:229-246 | Consumes up to the end or, nested, up to a closing parenthesis; without error the block stands for the tokens consumed |
| `ShellParser.Parser.ParseSentence` | Commands/shell/Parser.c:203-226 | Makes progress; without error words and terminator stand for the tokens consumed |
| `ShellParser.Parser.ParseWord` | Commands/shell/Parser.c:123-177 | Makes progress or reports an error; without error the word stands for the tokens consumed and ends where a word ends |
| `ShellParser.Parser.NestedBlock` | Commands/shell/Parser.c:75-101 | Without error the word grows by the parenthesised block; in a well-formed list there is no error |
| `ShellParser.Parser.SkipUntilStartOfNextSentence` | Commands/shell/Parser.c:47-71 | Ends, and consumes at least one token if there is one |
| `ShellSyntax.PiecesAreTokens` | Commands/shell/Parser.c:123-246 | Apart from the ends of words the pieces that a tree stands for are the tokens, one by one |
| `ShellSyntax.PiecesSplit` | Commands/shell/Parser.c:229-246 | What a token list stands for can be split anywhere |
| `ShellParser.NoErrorHere` | Commands/shell/Parser.c:140-163 | In a well-formed list a word meets no unexpected token |
| `ConsoleScreen.ScrollUpIsShift` | Kernel/Sources/console/Console.c:193-240 | Scrolling up by any number of rows, done by copying rows in place and blanking the rest, shows the simple shift of every row |
| `ConsoleScreen.ScrollDownIsShiftExactly` | Kernel/Sources/console/Console_Video.c:266-283 | Scrolling down shows the simple shift on every screen if and only if it moves the text by at least half the height, or not at all |
| `ConsoleScreen.ScrollDownRepeats` | Kernel/Sources/console/Console_Video.c:266-283 | Otherwise the rows at the top are repeated down the screen |
| `ConsoleScreen.CopyUp` | Kernel/Sources/console/Console_Video.c:266-283 | Copying rows upwards never reads a row that has been written already |
| `ConsoleScreen.FillSeen` | Kernel/Sources/console/Console_Video.c:289-317 | Blanking changes the rows of the rectangle and no others |
| `ConsoleCursor.CursorStaysInside` | Kernel/Sources/console/Console.c:118-141 | After a reset the cursor stays inside the screen under every sequence of movements, prints, line feeds, saves, restores and resets |
| `ConsoleCursor.MovementsFollowTheText` | Kernel/Sources/console/Console.c:322-382 | Wrapping and scrolling movements leave the cursor in the row of text it would be in on a screen without top and bottom |
| `ConsoleCursor.RestoreUndoesMoves` | Kernel/Sources/console/Console.c:300-315 | Restoring returns to where the cursor was when it was last saved, or to the origin if the console has been reset since, whatever else has been done before and afterwards |
| `ConsoleMoves.LineFeedMoves` | Kernel/Sources/console/Console.c:451-454 | A line feed goes to the first column of the next row of text, and scrolls by one row exactly in the last row of the screen |
| `ConsoleMoves.PrintMoves` | Kernel/Sources/console/Console.c:428-437 | Printing goes one column right; in the last column it goes on in the next row of text with automatic wrapping and stays without |
| `ConsoleMoves.BackspaceMoves` | Kernel/Sources/console/Console.c:456-468 | A backspace goes one column left and stops at the first |
| `ConsoleMoves.MoveToLands` | Kernel/Sources/console/Console.c:389-392 | A movement to a place ends at the nearest place on the screen |
| `ConsoleMoves.RelativeMoves` | Kernel/Sources/console/Console.c:322-372 | Where clamped, scrolling and wrapping relative movements end, and by how much they scroll |
| `ConsoleMoves.StateOperations` | Kernel/Sources/console/Console.c:113-138 | Saving and setting modes do not move the cursor, restoring goes back, and a reset goes to the origin with all defaults |
| `ConsoleMoves.OnlyTheseScroll` | Kernel/Sources/console/Console.c:322-382 | The text scrolls if and only if a line feed or a wrapping print happens in the last row, or an unclamped relative movement leaves the screen |
| `ConsoleMoves.PrintedTextWraps` | Kernel/Sources/console/Console.c:428-437 | Character n after the start of a row is in column n mod width of row n / width of the text, however far the screen has scrolled |
| `Consoles.CopyRectInPlane` | Kernel/Sources/console/Console_Video.c:241-285 | The row loop copies a rectangle of one plane as specified |
| `Consoles.FillRectInPlane` | Kernel/Sources/console/Console_Video.c:289-317 | The row loop blanks a rectangle of one plane as specified |
| `Consoles.ScrollPlane` | Kernel/Sources/console/Console.c:193-240 | Copy and fill of one plane are as specified |
| `Consoles.Console.MoveCursor` | Kernel/Sources/console/Console.c:322-382 | The cursor moves as specified and every plane is scrolled by the amount the movement asks for |
| `Consoles.Console.Perform` | Kernel/Sources/console/Console.c:300-468 | Every operation moves the cursor as specified and scrolls every plane accordingly |
| `StackAllocation.BlocksAreSafe` | Commands/shell/StackAllocator.c:61-168 | In every run each block handed out since the last DeallocAll is aligned and lies inside the payload of a page in use, no two blocks overlap, and the cache's byte count is the sum of its pages |
| `StackAllocation.ReachableInv` | Commands/shell/StackAllocator.c:27-168 | The invariant behind that holds in every run |
| `StackAllocation.AllocInv` | Commands/shell/StackAllocator.c:61-79 | An allocation from the top page, the cache or malloc keeps the invariant |
| `StackAllocation.BackedInv` | Commands/shell/StackAllocator.c:113-168 | A page from the cache or from malloc becomes the top page without overlapping anything in use |
| `StackAllocation.CutInv` | Commands/shell/StackAllocator.c:75-78 | A block cut from the top page is apart from all others |
| `StackAllocation.DeallocAllInv` | Commands/shell/StackAllocator.c:91-111 | Giving all pages back keeps the cache and its count consistent |
| `StackAllocation.RecycledKeeps` | Commands/shell/StackAllocator.c:97-110 | The cache's byte count follows its pages and stays below its capacity unless it was not before |
| `StackAllocation.AllPagesWalkedExactly` | Commands/shell/StackAllocator.c:91-168 | In every run the list that DeallocAll walks holds all pages taken since the last DeallocAll if and only if there are at most two |
| `StackAllocation.LostPageIsNowhere` | Commands/shell/StackAllocator.c:91-168 | Every page between the first and the latest one is afterwards on no list and not in the cache |
| `StackAllocation.SecondPageIsLost` | Commands/shell/StackAllocator.c:156-168 | After three requests that need a page each, DeallocAll puts two pages into a cache with room for all |
| `StackEffects.AllocEffect` | Commands/shell/StackAllocator.c:61-168 | An allocation takes its rounded size from the page in use if it fits, else from the first cached page that is big enough, else from a new page, and fails exactly if that needs memory that malloc does not have |
| `StackEffects.DeallocEffect` | Commands/shell/StackAllocator.c:91-111 | Of the at most two pages walked each goes to the front of the cache if that stays below its capacity, and back to malloc otherwise |
| `StackAllocators.StackAllocator.Alloc` | Commands/shell/StackAllocator.c:61-79 | The block has at least the requested size at the returned address; without memory nothing changes |
| `StackAllocators.StackAllocator.AllocateBackingStore` | Commands/shell/StackAllocator.c:113-168 | The search of the cache, else a new page, is as specified |
| `StackAllocators.StackAllocator.DeallocAll` | Commands/shell/StackAllocator.c:91-111 | The loop moves pages to the cache as long as there is room, as specified |
| `LineHistory.HistoryIsMostRecentlyUsed` | Commands/shell/LineReader.c:174-221 | After any pushed lines the history is the last `capacity` of the non-blank lines, each once, in the order of their last use |
| `LineHistory.UseMovesToEnd` | Commands/shell/LineReader.c:194-214 | Using a line once more moves it to the end of the order of last use |
| `LineHistory.RemovedOnce` | Commands/shell/LineReader.c:149-172 | Since entries are distinct the removal loop, which skips an entry after a removal, misses no match |
| `LineHistory.FailedPush` | Commands/shell/LineReader.c:174-216 | A line that cannot be copied is taken out of the history, and if it was not there and the history is full the oldest line is lost all the same |
| `LineHistory.LineReader.RemoveFromHistory` | Commands/shell/LineReader.c:149-172 | The loop unlinks the line and adjusts the selection |
| `LineHistory.LineReader.PushHistory` | Commands/shell/LineReader.c:174-221 | The array holds the history as specified, and the selection follows a line that was pulled up |
| `LineHistory.LineReader.AddEntry` | Commands/shell/LineReader.c:204-216 | The line is added; it replaces the oldest entry if the history is full |

## Left out

- Processor records, work items and timers as heap objects: they are records in a table
  indexed by identity, so aliasing of list nodes is not captured. Extents of the RAM disk
  and planes of the console are objects and arrays.
- The quantum counter of the clock and `waitStart` do not wrap at 32 bits.
- SchedulerDeadlines.ExactExactlyIfItFits: is stated for waits made while the quantum counter is
  below its largest 32-bit value, since the model's counter does not wrap.
- Lock, semaphore and assembly primitives, sleeping VPs that wait for a lock, and the
  lock-free reading of the clock (Kernel/Sources/driver/MonotonicClock.c:51-74).
- The finalizer's loop and AbortCallAsUser; the finalizer destroys all dead processors in one
  step.
- SchedulerExits.FinalizeNowRevives: a dead processor on two lists is in two sequences; the
  list pointers that the two lists then share are not modelled.
- MonotonicClocks.MonotonicClock.OnInterrupt: the quantum counter does not wrap at 32 bits.
- DispatchQueues.DispatchQueue.DispatchWorkItem: does not model synchronous dispatch, its
  completion signaler, or the refusal of an item that some queue is already dispatching.
- DispatchQueues.DispatchQueue.DispatchTimer: does not model the refusal of a timer that some
  queue is already dispatching.
- DispatchQueues.DispatchQueue.Terminate: does not model aborting a call-as-user.
- DispatchQueues.DispatchQueue.Flush: does not model the reuse caches, or signals of
  completion. For each armed timer the second loop of the source signals the completion of
  the item variable of the first loop, which is NULL by then
  (Kernel/Sources/dispatchqueue/DispatchQueue.c:66-75): flushing a queue with one armed timer reads through
  a null pointer.
- DispatchQueues.DispatchQueue.NextWork: the two seconds that a worker waits when no timer is
  armed are a wait that may end at any time, as is every other.
- DispatchQueues.DispatchQueue.AcquireVirtualProcessor: the pool always has a processor to
  hand out, one that is not attached to the queue.
- DispatchQueueTimers.NextDeadlineIsLeast: does not model the saturation of time arithmetic
  at the ends of its range.
- KeyMapTables.KeyMap.Build: does not model the lexer of key files or the growth of the
  tables; statements come as values.
- KeyMapDecompiler.Decompile: does not model the printed text, and treats a word whose
  second byte lies behind the loaded data as a failure, where the source reads on.
- KeyMapKernel.Map: is stated for compiled images only; lookups in corrupt images are not
  modelled.
- KeyMapValidity.IsValid: requires that pointers stay inside the image, which the source does
  not check, and that no range of string keys spans all 65536 codes, for which its loop
  would not end.
- KeyMapValidity.StringsAreShort: the same, for one range.
- RamDisks.RamDisk.PutBlock: does not model the lock or partly finished copies; a copy that
  would leave the memory of an extent is reported as `Stray` instead of being made.
- RamDisks.RamDisk.GetBlock: the same for reads.
- ShellParser.Parser.Parse: does not model the lexer, the text of error messages, or what
  the tree of a list with errors contains.
- Consoles.Console.Perform: does not draw glyphs, shift characters in insertion mode, or
  model tab stops, colours, the cursor sprite and the VT52 and VT100 parsers.
- ConsoleScreen.ScrollBy: has no horizontal part, which no caller uses.
- StackAllocators.StackAllocator.Alloc: does not model the wrap-around of sizes near the
  largest size.
- LineHistory.HistoryIsMostRecentlyUsed: is stated for lines that could all be copied;
  PushHistory covers failed copies one by one.
- Console reports, event input, IOResource dispatch, drivers, boot, system calls, the disk
  image and ROM tools, libtool, and shell builtins: plumbing around the models.
