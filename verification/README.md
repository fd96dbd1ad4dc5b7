# JAMSched: verified models of its scheduling core

JAMSched runs real-time, interactive and batch tasks as coroutines over several workers. This project models the
parts of it whose correctness is not visible from one function and proves what those parts promise.

* **Timing wheel** (`Bits`, `WheelArithmetic`, `WheelModel`, `WheelProofs`, `WheelRuns`, `WheelOrder`,
  `WheelTimeout`, `WheelProgress`, `TimingWheels`). Four wheels of 64 slot lists, one pending mask per wheel, an expired queue. `WheelModel` gives each
  routine as a function on a state; the class `TimingWheels.TimingWheel` does the same in place on arrays, with the
  loops of the source, and agrees with the functions. Over every run the wheel refines a plain map from timer to expiry with a first-in, first-out queue of the due
  timers, and sleeping for the soft timeout fires every
  timer exactly on time.
* **Look-ahead decider** (`EdfDecider`, `EdfSchedules`, `EdfAccounts`, `Deciders`). The earliest-deadline-first simulation over
  sporadic-server slots counts every job if and only if some schedule of any kind serves every job, which is if and
  only if every window of slots can hold the work that must fit into it; under overload the account of every job is
  given.
* **Work stealing** (`StealQueue`, `StealSchedulers`, `WorkStealing`, `StealEffects`). What `StealFrom` takes and in which order, on
  objects, one call at a time; and, as a separate model on values, a machine over any number of workers whose steps
  are the locked sections. The two share `StealQueue` and are otherwise not tied to each other by a proof.
* **Futures** (`SharedStates`, `FutureChain`, `FutureOutcomes`, `WhenAny`, `WhenAll`, `FutureTimeout`). One shared state as an object,
  and the races of continuations, combinators and the timeout.
* **Blocking primitives** (`Semaphores`, `ReaderWriterFairs`, `ReaderWriterPriority`, `TimedWaits`, `SpinRwLocks`).
  Mesa-style waiting is modelled as enqueue-and-release followed later by a re-check, so barging and late wake-ups are
  possible in every run.
* **Interactive and batch choice** (`InteractiveBatch`). Where every queued task goes in one call.

`Common` holds what several components share.

Protocols are machines: a state, a predicate saying which steps are enabled, a function applying a step, and a run as
a sequence of states and steps. For each machine a lemma named `EveryStepActs`, or one on its history, says what every
step does, apart from the function that applies it. Some states carry bookkeeping fields, named as such, that no step consults.

## Model

| member | source | states |
|---|---|---|
| `Bits.RotlBit` | src/time/timeout.c:160-165 | `rotl` moves bit i - c to bit i, modulo the word, for every mask and count |
| `Bits.RotrBit` | src/time/timeout.c:168-173 | `rotr` moves bit i + c to bit i, modulo the word |
| `WheelArithmetic.TimeoutWheelRange` | src/time/timeout.c:288-291 | the wheel index is in range and is the one whose span brackets the remaining time, the last wheel taking all above it |
| `WheelArithmetic.SchedPlaces` | src/time/timeout.c:294-318 | for every expiry in the future the chosen wheel and slot satisfy the slot-distance invariant, with the offset of one on higher wheels |
| `WheelArithmetic.SweepCovers` | src/time/timeout.c:374-401 | on every wheel and for all old and new times, the mask built from the two rotations and the new slot holds every slot passed, both ends included, with the forced tick |
| `WheelArithmetic.SweepExact` | src/time/timeout.c:376-387 | without the forced tick the mask holds exactly the slots passed and no other |
| `WheelArithmetic.BreakIsSound` | src/time/timeout.c:396-400 | when slot 0 is not in the mask, no higher wheel has ticked |
| `WheelArithmetic.UnsweptStaysPlaced` | src/time/timeout.c:374-401 | a timer whose slot was not swept satisfies the slot-distance invariant at the new time too |
| `WheelProofs.DelKeeps` | src/time/timeout.c:265-280 | deleting unlinks the timer, clears the pending bit exactly when its slot empties, and keeps every list duplicate-free and consistent |
| `WheelProofs.DelOrder` | src/time/timeout.c:265-280 | deleting leaves all other timers of every list in their order |
| `WheelProofs.SchedKeeps` | src/time/timeout.c:299-328 | scheduling keeps the structure, changes no other timer, and puts the timer where its expiry belongs |
| `WheelProofs.SchedOrder` | src/time/timeout.c:299-328 | scheduling puts the timer behind all others of one list, the expired queue exactly when it is due, and leaves the others in their order |
| `WheelProofs.SweepWheelKeeps` | src/time/timeout.c:389-394 | the inner loop empties exactly the masked slots into the todo list and leaves other wheels alone |
| `WheelProofs.SweepKeeps` | src/time/timeout.c:374-401 | after the loop over the wheels, with its early break, every timer left in a slot is correctly placed at the new time |
| `WheelProofs.ReschedKeeps` | src/time/timeout.c:405-412 | rescheduling the swept timers restores the whole invariant and no expiry changes |
| `WheelProofs.Update` | src/time/timeout.c:363-415 | for every later time the update keeps the invariant, sets the clock and changes only where timers are linked |
| `WheelProofs.UpdateSweeps` | src/time/timeout.c:363-403 | no timer that stays in a slot is due after the sweep |
| `WheelProofs.UpdateAppends` | src/time/timeout.c:405-412 | an update leaves the expired timers in their order, in front of those it adds |
| `WheelRuns.OpenInv` | src/time/timeout.c:193-212 | the opened wheel is empty at time 0 and satisfies the invariant |
| `WheelRuns.DelInv` | src/time/timeout.c:265-280 | deletion preserves the invariant and only unlinks |
| `WheelRuns.AddInv` | src/time/timeout.c:350-360 | adding preserves the invariant, periodic or not, absolute or relative |
| `WheelRuns.GetInv` | src/time/timeout.c:481-498 | taking an expired timer, with re-arming, preserves the invariant |
| `WheelRuns.InvMeansExact` | src/time/timeout.c:265-328 | the expired queue holds exactly the armed timers due, the slots exactly those not yet due, each once and in one place |
| `WheelRuns.NextExpiryInPhase` | src/time/timeout.c:332-346 | a periodic timer is re-armed at the smallest expires + k * interval, k at least 1, above the clock |
| `WheelRuns.UpdateRefines` | src/time/timeout.c:363-415 | the update with all its sweeping is, on the plain map, an advance of the clock that puts the timers come due behind the queue |
| `WheelRuns.StepRefines` | src/time/timeout.c:265-498 | every operation is the corresponding step of the plain map with its queue, and `get` returns the timer that has been due longest |
| `WheelRuns.RunRefines` | src/time/timeout.c:265-498 | every run of init, add, del, update and get is a run of the plain map with the same results in the same order |
| `WheelRuns.RefStepOk` | src/time/timeout.c:481-498 | the plain map keeps exactly the due timers in its queue, so what `get` returns was due and it returns nothing only when none was |
| `WheelRuns.FirstInFirstOut` | src/time/timeout.c:324-327 | over whole runs, of two timers in the expired queue the one in front is returned first |
| `WheelOrder.SweepOrder` | src/time/timeout.c:374-401 | the masks, bit counts and the early break collect exactly the passed slots, wheel by wheel from the lowest slot up |
| `WheelOrder.ReschedOrder` | src/time/timeout.c:405-412 | each swept timer goes behind what its new list holds, in the order swept |
| `WheelOrder.UpdateOrder` | src/time/timeout.c:363-415 | every list after an update, in order: what the clock did not pass and then what now belongs there |
| `WheelOrder.SameExpiryOrder` | src/time/timeout.c:363-415 | two timers of one slot with the same expiry stay together and in order through every update |
| `WheelRuns.GetShrinks` | src/time/timeout.c:481-498 | each get strictly shrinks the expired queue even when the timer is periodic |
| `WheelRuns.DrainExact` | src/time/time.cc:49-58 | the drain loop ends, returns the expired queue in order, each timer once, and leaves it empty |
| `WheelRuns.TickFiresExactlyDue` | src/time/time.cc:49-58 | updating and draining fires each timer once if it was armed and due and not at all otherwise; whatever is armed afterwards is in the future |
| `WheelTimeout.WheelIntBefore` | src/time/timeout.c:446-459 | a wheel's contribution to the soft timeout never passes the tick of any timer in that wheel |
| `WheelTimeout.WheelIntPositive` | src/time/timeout.c:446-459 | a wheel with pending timers contributes at least 1 and less than all ones |
| `WheelTimeout.SoftTimeoutSound` | src/time/timeout.c:439-466 | the soft timeout is at least 1, at most the time to every pending expiry, and all ones exactly when nothing is pending |
| `WheelTimeout.MinIsEarliest` | src/time/timeout.c:505-519 | the search finds a pending timer of least expiry, or none exactly when none is pending |
| `WheelTimeout.MinOverFirst` | src/time/timeout.c:505-519 | of several timers with the least expiry the first one scanned is found |
| `WheelTimeout.CheckPasses` | src/time/timeout.c:538-560 | the wheel's own checker passes after every run, and what it checks of the earliest timer holds of every timer |
| `WheelTimeout.WakeProgress` | src/time/timeout.c:363-466 | advancing by the soft timeout makes each timer that determined it, within the horizon, expire exactly at its time or drop to a lower wheel |
| `WheelTimeout.LoneDetermines` | src/time/timeout.c:439-466 | a single pending timer determines the soft timeout |
| `WheelTimeout.LoneFires` | src/time/timeout.c:363-466 | a single timer within the horizon fires exactly on time after at most one wake-up per wheel |
| `WheelProgress.NeverUp` | src/time/timeout.c:288-328 | a timer scheduled again at a later time never goes to a higher wheel |
| `WheelProgress.UpdatePlace` | src/time/timeout.c:363-415 | an update leaves a timer where it is, or, if it was in a slot, puts it where scheduling at the new time would |
| `WheelProgress.RunHigh` | src/time/timeout.c:265-498 | in every run no timer sits on a wheel too low for its remaining time |
| `WheelProgress.SomeDetermines` | src/time/timeout.c:439-466 | whenever a timer is pending, some timer determines the soft timeout |
| `WheelProgress.WakeLowers` | src/time/timeout.c:363-466 | with all pending timers within the horizon each wake-up strictly lowers the sum of wheel + 1 over them |
| `WheelProgress.AllFire` | src/time/timeout.c:363-466 | with any number of timers within the horizon, each fires exactly at its expiry after at most that sum of wake-ups |
| `WheelProgress.FiresOnTime` | src/time/timeout.c:363-466 | beyond the horizon too every pending timer fires exactly at its expiry, after at most as many wake-ups as time units |
| `WheelProgress.ReachableFires` | src/time/timeout.c:265-498 | the bound of `AllFire` holds in every state a run can reach |
| `TimingWheels.TimingWheel.constructor` | src/time/timeout.c:193-212 | all lists and masks empty, clock 0 |
| `TimingWheels.TimingWheel.Init` | src/time/timeout.c:627-633 | the timer is known, unlinked, with its flags |
| `TimingWheels.TimingWheel.Del` | src/time/timeout.c:265-280 | in place on the arrays, the deletion of `WheelModel` |
| `TimingWheels.TimingWheel.Sched` | src/time/timeout.c:299-328 | in place, the scheduling of `WheelModel` |
| `TimingWheels.TimingWheel.Readd` | src/time/timeout.c:332-346 | in place, the re-arming characterised by `NextExpiryInPhase` |
| `TimingWheels.TimingWheel.Add` | src/time/timeout.c:350-360 | in place, the addition of `WheelModel` |
| `TimingWheels.TimingWheel.PassedSlots` | src/time/timeout.c:375-387 | computes the mask that `SweepCovers` and `SweepExact` are about |
| `TimingWheels.TimingWheel.SweepWheel` | src/time/timeout.c:389-394 | the loop over the set bits performs the sweep of one wheel |
| `TimingWheels.TimingWheel.SweepAll` | src/time/timeout.c:374-401 | the loop over the wheels with its break performs the whole sweep |
| `TimingWheels.TimingWheel.RescheduleAll` | src/time/timeout.c:405-412 | the loop over the todo list performs the rescheduling |
| `TimingWheels.TimingWheel.Update` | src/time/timeout.c:363-415 | keeps the invariant and equals the update that `RunRefines` is about |
| `TimingWheels.TimingWheel.Int` | src/time/timeout.c:439-466 | the loop computes the soft timeout of `SoftTimeoutSound` |
| `TimingWheels.TimingWheel.Timeout` | src/time/timeout.c:473-478 | 0 exactly when something has expired, all ones exactly when no timer is armed, never past an expiry |
| `TimingWheels.TimingWheel.Get` | src/time/timeout.c:481-498 | keeps the invariant and equals the `get` that refines the plain map |
| `TimingWheels.TimingWheel.Drain` | src/time/time.cc:53-57 | the loop ends and returns what `DrainExact` says |
| `TimingWheels.TimingWheel.NotifyAll` | src/time/time.cc:49-58 | fires each armed due timer once, no other, and leaves nothing expired |
| `TimingWheels.TimingWheel.Min` | src/time/timeout.c:505-519 | the nested loops compute the earliest timer of `MinIsEarliest` |
| `EdfDecider.ServeWork` | src/scheduler/decider.cc:76-92 | serving a slot reduces the work due by any horizon by the slot's length or to nothing, and every popped job is counted |
| `EdfDecider.CountIsRun` | src/scheduler/decider.cc:50-98 | leaving the slot loop early does not change the count |
| `EdfDecider.FeasibleImpliesAllCounted` | src/scheduler/decider.cc:38-99 | if every window of slots can hold the jobs whose usable slots lie inside it, every job is counted |
| `EdfDecider.AllCountedImpliesFeasible` | src/scheduler/decider.cc:38-99 | conversely, if every job is counted every window can hold its jobs |
| `EdfSchedules.SchedulableImpliesFeasible` | src/scheduler/decider.cc:38-99 | whatever schedule serves every job, no window is overloaded; for all jobs and slots |
| `EdfSchedules.AllCountedImpliesSchedulable` | src/scheduler/decider.cc:50-98 | what is counted is served: a run that counts every job is a schedule giving each its whole burst in slots it may use |
| `EdfSchedules.EdfOptimal` | src/scheduler/decider.cc:38-99 | every job is counted if and only if some schedule serves every job, and that is if and only if no window is overloaded |
| `EdfSchedules.CountAtMost` | src/scheduler/decider.cc:38-99 | the count never exceeds the number of jobs, for all jobs and slots |
| `EdfAccounts.AdmitExactly` | src/scheduler/decider.cc:52-63 | a slot admits the waiting jobs up to the first that arrives at or after its end, and nothing else |
| `EdfAccounts.DropExactly` | src/scheduler/decider.cc:64-74 | a slot drops exactly the entries due at or before its start, with multiplicity, and keeps every other |
| `EdfAccounts.ServeExactly` | src/scheduler/decider.cc:75-92 | the first entries are served whole as far as the time goes, the next gets what is left, the others stay as they are |
| `EdfAccounts.SlotServesTimely` | src/scheduler/decider.cc:50-97 | in every run each slot serves, by deadline and then by burst, exactly from the entries not overdue at its start |
| `EdfAccounts.EveryJobAccounted` | src/scheduler/decider.cc:38-99 | for all jobs and slots every job is counted, or was overdue with burst left when some slot started, or is left over after the last |
| `Deciders.FeasiblePermuted` | src/scheduler/decider.cc:116-120 | feasibility does not depend on the order of the records, so sorting them is harmless |
| `Deciders.SortByArrival` | src/scheduler/decider.cc:116-120 | ordered by arrival and a permutation |
| `Deciders.Decider.CalculateMatchCount` | src/scheduler/decider.cc:38-99 | the loops compute the simulation; the count is the number of jobs if and only if some schedule serves every job; in any case what is missing was overdue or is left over |
| `Deciders.Decider.ServeSlot` | src/scheduler/decider.cc:52-92 | the three inner loops perform one slot, whose effect `AdmitExactly`, `DropExactly` and `ServeExactly` state |
| `Deciders.Decider.DecideNextScheduleToRun` | src/scheduler/decider.cc:110-142 | clears the record; normal wins ties; a schedule that serves every job is chosen whenever one of the two does |
| `StealQueue.TakeLastSplits` | src/scheduler/taskthief.cc:61-79 | there is a cut in the queue: behind it every stealable task is taken, before it nothing is, and both parts keep their order |
| `StealQueue.TakeLastConserves` | src/scheduler/taskthief.cc:61-79 | what stays and what is taken together are the old queue, and only stealable tasks are taken |
| `StealQueue.StealTakesExactly` | src/scheduler/taskthief.cc:51-62 | with c positions holding a stealable task, 0 are taken when c is at most 1, else min(c, size / 2); the victim keeps at least half |
| `StealQueue.FilterPicks` | src/scheduler/taskthief.cc:64-79 | what is called the stealable part of a queue is exactly the positions with a stealable task, in order |
| `StealQueue.FilterOutPicks` | src/scheduler/taskthief.cc:64-79 | and what is left of it exactly the other positions, in order |
| `StealSchedulers.Task.Steal` | include/core/task/task.hpp:691-700 | re-homes the task if and only if it is stealable |
| `StealSchedulers.StealScheduler.Enable` | src/scheduler/taskthief.cc:36-44 | appends, counts and marks ready |
| `StealSchedulers.StealScheduler.EnableImmediately` | src/scheduler/taskthief.cc:25-33 | prepends, counts and marks ready |
| `StealSchedulers.StealScheduler.PopNext` | src/scheduler/taskthief.cc:189-194 | takes the front, which is running and not stealable from then on |
| `StealSchedulers.StealScheduler.EndTask` | src/scheduler/taskthief.cc:197-207 | stealable again exactly when the kind of task allows it; deleted exactly when finished |
| `StealSchedulers.StealScheduler.CountStealable` | src/scheduler/taskthief.cc:51-58 | the number of stealable tasks in the queue |
| `StealSchedulers.StealScheduler.TakeLoop` | src/scheduler/taskthief.cc:63-79 | the backward loop takes the last stealable tasks |
| `StealSchedulers.StealScheduler.PutInFront` | src/scheduler/taskthief.cc:82-90 | the stolen block is in front in its old order, and every task is re-homed |
| `StealSchedulers.StealScheduler.StealFrom` | src/scheduler/taskthief.cc:46-92 | both queues exactly, the number taken written out by positions, the victim keeps half, every moved task re-homed, and the thief's size counter ahead of its queue by the number taken |
| `WorkStealing.StepKeeps` | src/scheduler/taskthief.cc:25-92 | every step of creating, yielding, waiting, notifying, popping, stealing and ending keeps the invariant |
| `WorkStealing.RunKeeps` | src/scheduler/taskthief.cc:25-207 | every reachable state satisfies it |
| `WorkStealing.AlwaysSafe` | src/core/task/task.cc:15-48 | always, each task is in at most one ready queue and on at most one worker's stack, and if both then the queue is that worker's own and the task is not stealable |
| `WorkStealing.NoTaskLost` | src/scheduler/taskthief.cc:25-207 | in every run each live task is in a ready queue, in a thief's hand, on a stack or waiting, and one that is not running or finished is on some list |
| `WorkStealing.NeverStealsRunning` | src/scheduler/taskthief.cc:46-92 | a task taken by a thief is on no worker's stack |
| `WorkStealing.EnabledTaskIsUnlinked` | src/scheduler/taskthief.cc:28-39 | a task about to be enabled is in no queue, so the duplicate assertions hold |
| `WorkStealing.SharedStackStays` | include/core/task/task.hpp:623-700 | once started, a shared-stack task is only ever queued at and run by the worker that started it |
| `StealEffects.EveryStepActs` | src/scheduler/taskthief.cc:25-207 | in every run: a created or yielding task stands last and a notified one first in its home queue, a worker runs the first of its own queue, a waiting task waits, a finished one is gone after the switch, a thief takes the last stealable half and puts it in front; nothing else moves |
| `StealEffects.NoOvertaking` | src/scheduler/taskthief.cc:25-92 | two tasks that stay in a queue keep their order through every step of every worker, and a worker takes the one in front |
| `SharedStates.SharedState.MarkReady` | include/concurrency/future.hpp:160-175 | marks ready and tells the caller to run the callback exactly when one is set and none has run |
| `SharedStates.SharedState.Set` | include/concurrency/future.hpp:196-201 | the first outcome is stored, a later one is refused |
| `SharedStates.SharedState.Abandon` | include/concurrency/future.hpp:213-221 | breaks the promise only when nothing was set |
| `SharedStates.SharedState.AttachCallback` | include/concurrency/future.hpp:177-189 | runs the callback at once exactly when the state is ready and none has run |
| `FutureChain.ChainTheorem` | include/concurrency/future.hpp:543-580 | for every interleaving and any length each continuation runs at most once; at quiescence exactly once and the last outcome is the sequential fold; until then some step is enabled |
| `FutureChain.FirstOutcomeWins` | include/concurrency/future.hpp:196-221 | the source keeps the first outcome it was given |
| `FutureOutcomes.ChainOfValues` | include/concurrency/future.hpp:557-576 | when the source holds a value and no continuation throws, every future holds the composition of the functions so far |
| `FutureOutcomes.ChainOfErrors` | include/concurrency/future.hpp:562-576 | an exception of the source reaches every future when no continuation throws, whatever they return |
| `FutureOutcomes.ChainThatThrows` | include/concurrency/future.hpp:568-576 | an exception thrown by a continuation reaches every later future when no later one throws |
| `FutureOutcomes.ChainHistory` | include/concurrency/future.hpp:160-189 | as many continuations are attached and have run as such steps were taken, each at most once, and the source is settled once a step settled it |
| `WhenAny.WhenAnyTheorem` | include/concurrency/future.hpp:1033-1096 | publishes at most once, with the index of the first callback to run, after every `then` was attached; at quiescence if and only if some input completed |
| `WhenAny.NeverStuck` | include/concurrency/future.hpp:1065-1093 | until quiescence some step is enabled |
| `WhenAny.WhenAnyHistory` | include/concurrency/future.hpp:1065-1093 | inputs completed, callbacks run and in which order, attachments and the final check are exactly the steps taken |
| `WhenAll.WhenAllTheorem` | include/concurrency/future.hpp:946-983 | a non-empty range publishes at most once, and exactly when all callbacks ran |
| `WhenAll.PublishedByLast` | include/concurrency/future.hpp:971-977 | the publishing step is the callback of the last missing input |
| `WhenAll.EmptyNeverPublishes` | include/concurrency/future.hpp:966-982 | an empty range never publishes: the property fails exactly there |
| `WhenAll.WhenAllHistory` | include/concurrency/future.hpp:966-980 | inputs completed, callbacks run and attachments are exactly the steps taken |
| `FutureTimeout.TimeoutTheorem` | include/concurrency/future.hpp:790-828 | the returned future is set at most once, as soon as the timer fired or the callback ran, and never stays unset once the source is settled and its callback has run |
| `FutureTimeout.FirstDecides` | include/concurrency/future.hpp:799-825 | the first of timer and callback decides the outcome and the other changes nothing |
| `FutureTimeout.TimeoutHistory` | include/concurrency/future.hpp:799-825 | timer, callback and source are what the steps taken make them; the source holds what settled it first |
| `Semaphores.SignalKeeps` | include/concurrency/semaphore.hpp:15-20 | a signal adds one permit and keeps the no-lost-wake-up invariant |
| `Semaphores.CheckKeeps` | include/concurrency/semaphore.hpp:22-29 | one pass of the wait loop, by a newcomer or a woken task, takes a permit if and only if one is free and keeps the invariant |
| `Semaphores.FreePermitIsClaimed` | src/concurrency/condition_variable.cc:3-22 | with waiters and a free permit some woken task is on its way |
| `Semaphores.SemaphoreTheorem` | include/concurrency/semaphore.hpp:15-46 | in every run permits plus grants equal the size plus signals, the count is never negative and no wake-up is lost |
| `Semaphores.EveryStepActs` | include/concurrency/semaphore.hpp:15-46 | a signal adds a permit and wakes the task that has waited longest; a wait takes a permit or stands last; a try takes one or does nothing |
| `Semaphores.WokenInOrder` | src/concurrency/condition_variable.cc:3-22 | nobody is woken while another waits in front of it |
| `Semaphores.SignalsAreCounted` | include/concurrency/semaphore.hpp:15-20 | the signals of the theorem are the signals given in the run |
| `Semaphores.Semaphore.Release` | include/concurrency/semaphore.hpp:15-20 | the object's signal, and which task it makes ready |
| `Semaphores.Semaphore.WaitOnce` | include/concurrency/semaphore.hpp:22-29 | the object's locked section of a wait |
| `Semaphores.Semaphore.TryAcquire` | include/concurrency/semaphore.hpp:37-46 | takes a permit if one is free and never waits |
| `ReaderWriterFairs.StepKept` | app/assignment2/main.cc:77-121 | every step of every task keeps the invariant tying the three semaphores to who holds them |
| `ReaderWriterFairs.RunKept` | app/assignment2/main.cc:77-121 | so does every run |
| `ReaderWriterFairs.Exclusion` | app/assignment2/main.cc:86-120 | with a writer inside no other writer and no reader is |
| `ReaderWriterFairs.TakenExactly` | app/assignment2/main.cc:86-120 | `rwMutex` is taken exactly when a writer is inside or readers are counted, apart from the first reader's wait and the last one's signal; `rCount` counts the readers |
| `ReaderWriterFairs.NoDeadlock` | app/assignment2/main.cc:77-121 | with any task anywhere in the lock, some task's next step takes it forward and not back to sleep |
| `ReaderWriterFairs.BlockedImpliesProgress` | app/assignment2/main.cc:77-121 | in particular while a task sleeps |
| `ReaderWriterFairs.EveryLockStepActs` | app/assignment2/main.cc:86-120 | every step takes its task to the next place of its routine, or to sleep last in line, and does to semaphores and count what the routine says |
| `ReaderWriterFairs.ReadersShare` | app/assignment2/main.cc:86-97 | with readers inside and nobody on the way another reader gets in without waiting |
| `ReaderWriterFairs.WriteRoundTrip` | app/assignment2/main.cc:110-120 | locking for writing and unlocking leaves the lock as it was |
| `ReaderWriterPriority.StepKept` | app/assignment2/main.cc:29-75 | every locked section keeps exclusion, the counts and the wake-up invariant |
| `ReaderWriterPriority.LockTheorem` | app/assignment2/main.cc:29-75 | in every run a writer is alone, and a sleeper whose condition holds has a woken task about to re-check |
| `ReaderWriterPriority.SleeperImpliesProgress` | app/assignment2/main.cc:29-75 | while a task sleeps, somebody inside can leave or a woken task will get in |
| `ReaderWriterPriority.EveryStepActs` | app/assignment2/main.cc:39-74 | in every run a reader gets in exactly when no writer is inside, a writer exactly when nobody is inside and no reader waits, and each unlock wakes the longest sleeper of the right kind |
| `ReaderWriterPriority.ReadPriorityLock.BeginRead` | app/assignment2/main.cc:39-47 | counts the reader and lets it in if and only if no writer is inside |
| `ReaderWriterPriority.ReadPriorityLock.ResumeRead` | app/assignment2/main.cc:43-46 | the re-check after a wake-up, passing the wake-up on |
| `ReaderWriterPriority.ReadPriorityLock.EndRead` | app/assignment2/main.cc:49-55 | the last reader wakes a writer |
| `ReaderWriterPriority.ReadPriorityLock.TryWrite` | app/assignment2/main.cc:57-64 | enters if and only if no reader is counted and no writer is inside |
| `ReaderWriterPriority.ReadPriorityLock.EndWrite` | app/assignment2/main.cc:66-74 | wakes a reader if any is counted, else a writer |
| `TimedWaits.StepKept` | src/concurrency/condition_variable.cc:3-41 | every atomic access by notifiers, timer and waiters keeps the per-task invariant |
| `TimedWaits.RunKept` | src/time/time.cc:95-137 | so does every run |
| `TimedWaits.WokenExactlyOnce` | src/time/time.cc:95-103 | a waiter is never made ready twice nor before it is claimed, and once claimed is ready or about to be; ready exactly once if and only if claimed when no claimer is in between |
| `TimedWaits.UnclaimedIsReachable` | include/concurrency/condition_variable.hpp:48-59 | an unclaimed sleeping timed waiter has its timer set and is in the list or in a notifier's hands |
| `TimedWaits.ReturnedIsUnlinked` | include/concurrency/condition_variable.hpp:60-68 | when a wait returns, its task is not linked, so the closing assertion holds, and no notifier has it |
| `TimedWaits.EveryStepActs` | src/concurrency/condition_variable.cc:3-41 | every step of notifier, timer and waiter does what its name says to list, status and readiness, and nothing else |
| `TimedWaits.PoppedInOrder` | src/concurrency/condition_variable.cc:8-9 | a notifier takes nobody from behind another waiter |
| `TimedWaits.ReadyIs` | src/concurrency/condition_variable.cc:24-41 | the tasks made ready are exactly the waiters not claimed or timed out, each once |
| `TimedWaits.ClaimAllIs` | src/concurrency/condition_variable.cc:24-41 | after `notify_all` exactly the timed waiters in the list are claimed, every other status is unchanged |
| `TimedWaits.ConditionVariable.NotifyOne` | src/concurrency/condition_variable.cc:3-22 | pops one waiter and makes it ready unless it was claimed or timed out |
| `TimedWaits.ConditionVariable.NotifyAll` | src/concurrency/condition_variable.cc:24-41 | the loop empties the list and makes ready, in order, the tasks of `ReadyIs` |
| `SpinRwLocks.StepKept` | src/concurrency/spinrwlock.cc:22-155 | every load and compare-exchange, failing spuriously or not, keeps the invariant |
| `SpinRwLocks.RunKept` | src/concurrency/spinrwlock.cc:22-155 | so does every run |
| `SpinRwLocks.SpinExclusion` | src/concurrency/spinrwlock.cc:22-155 | a writer is alone inside, and the assertions of both unlock routines never fail |
| `SpinRwLocks.SpinValue` | src/concurrency/spinrwlock.cc:22-155 | the integer is -1 exactly while a writer is inside and otherwise the number of readers inside |
| `SpinRwLocks.UnlockSucceeds` | src/concurrency/spinrwlock.cc:65-87 | a writer's unlock can be disturbed by nobody: its compare-exchange fails only spuriously |
| `SpinRwLocks.EveryStepActs` | src/concurrency/spinrwlock.cc:22-155 | in every run the accesses to the integer decide as if they saw who is inside: a writer gets in exactly when nobody is, a reader when no writer is and the count is as it saw it |
| `SpinRwLocks.WriteRoundTrip` | src/concurrency/spinrwlock.cc:22-87 | without interference locking and unlocking an idle lock succeeds and leaves it as it was |
| `SpinRwLocks.ReadersShare` | src/concurrency/spinrwlock.cc:89-131 | without interference a reader gets in beside any number of others |
| `InteractiveBatch.TopExists` | src/core/task/task.cc:206-211 | every non-empty queue has a task that none precedes |
| `InteractiveBatch.GetMinThief` | src/scheduler/scheduler.cc:169-188 | the first thief of least size, or none exactly when every size is at least 2^32 - 1 |
| `InteractiveBatch.CallConserves` | src/scheduler/scheduler.cc:263-356 | in every branch, everything queued or let in is afterwards queued, handed to a thief, deleted, cancelled or returned, with multiplicity |
| `InteractiveBatch.BranchTaken` | src/scheduler/scheduler.cc:266-292 | with tasks of both kinds the class whose virtual clock is behind runs, batch on a tie; with one kind, that one |
| `InteractiveBatch.OldestCancelled` | src/scheduler/scheduler.cc:329-336 | in order of pushing the cancelled tasks are a prefix, three newer ones remain whenever any is cancelled, and at most three are left |
| `InteractiveBatch.EarliestReturned` | src/scheduler/scheduler.cc:337-344 | a task returned from the deadline queue precedes or equals all left by deadline and then burst, and has negative laxity exactly when a late arrival is preceded by no other arrival and by none but late tasks of the queue |
| `InteractiveBatch.NewestReturned` | src/scheduler/scheduler.cc:345-355 | when the deadline queue has nothing to offer the task pushed last on the cancel stack is returned, or none |
| `InteractiveBatch.LateArrivalIsReturned` | src/scheduler/scheduler.cc:312-344 | a call from a non-empty queue that returns such a late arrival: non-negative laxity does not hold in general |
| `InteractiveBatch.LateOnesLeave` | src/scheduler/scheduler.cc:295-311 | a task offered to a thief came from the deadline queue, was late, and could be stolen |
| `InteractiveBatch.LateOnesGo` | src/scheduler/scheduler.cc:303-310 | of the late tasks exactly those a thief may run are offered to one; the others are on the cancel stack, cancelled or returned |
| `InteractiveBatch.DeletedExactly` | src/scheduler/scheduler.cc:312-327 | nothing is silently deleted if and only if at every hand-over some thief is below 2^32 - 1 tasks; what is not deleted goes to the first of the least loaded thieves |
| `InteractiveBatch.FullThiefDeletes` | src/scheduler/scheduler.cc:312-327 | a call with one thief that deletes a stealable late task: having a thief is not enough |
| `InteractiveBatch.KeptExactly` | src/scheduler/scheduler.cc:295-311 | a task that is not late never leaves the deadline queue, and something stays exactly when some task is not late |
| `InteractiveBatch.InteractiveBatchScheduler.TakeLate` | src/scheduler/scheduler.cc:295-311 | the loop removes late tops only, until no top is late, and sends each to the right place |
| `InteractiveBatch.InteractiveBatchScheduler.HandOver` | src/scheduler/scheduler.cc:312-327 | each task goes to the least loaded of all thieves at its moment, or is deleted when none is below 2^32 - 1 |
| `InteractiveBatch.InteractiveBatchScheduler.TrimCancelStack` | src/scheduler/scheduler.cc:329-336 | keeps the newest three and cancels the rest from the oldest |
| `InteractiveBatch.InteractiveBatchScheduler.TakeNext` | src/scheduler/scheduler.cc:337-353 | a top of the deadline queue, else the newest of the cancel stack |
| `InteractiveBatch.InteractiveBatchScheduler.GetAnInteractiveBatchTask` | src/scheduler/scheduler.cc:263-356 | performs one call of the routine as the lemmas above describe it, with at most three on the cancel stack at every return |

## Left out

- Wrap-around of 64-bit times, of relative deadlines cast to unsigned and of the reader count of the spin lock: times and counts are unbounded integers, and updates are taken with non-decreasing times.
- Machine words as bit-vectors: a mask is the set of its bit numbers below 64, with shifts, rotations and `ctz` defined on it as in the source; `(1 << k) - 1` is the set of the bits below k.
- Zero bursts and overlapping or unordered slots in the decider: the if-and-only-if is stated for positive bursts, ordered disjoint slots and records sorted by arrival; the count itself is modelled for all inputs.
- `Deciders.SortByArrival`: any sorted permutation is a legal result of the library's unstable sort; the model computes one by insertion.
- The heap of the decider and the treap of the interactive queue are modelled by their order alone: a sorted sequence, and a multiset with any least element as its top.
- The random choice of `DecideNextScheduleToRun` with no records is a parameter, and so are the clocks, the thief sizes and the tasks that arrive while a lock is released.
- `Decider::RecordInteractiveJobArrival` and `NotifyChangeOfSchedule`: they only copy and convert times.
- `StealSchedulers.StealScheduler.StealFrom`: `sizeOfQueue` is not shown equal to the length of the queue, because the source counts a stolen task twice on the thief; the exact drift is stated instead.
- `WorkStealing.StepKeeps`: `EndTask` is one step; the source sets `isStealable` before it reads `status`.
- Update in place by several threads: the fair reader-writer lock, the spin lock, the timer handshake, the combinators and the workers are machines on values, each step standing for one locked section or atomic access.
- Stack copying, the context switch, alignment and memory ordering: a switch is one step and atomics are sequentially consistent.
- `StealSchedulers` and `WorkStealing` model the same routines separately; no proof ties the objects to the machine.
- `StealScheduler::GetNextTask` as a loop: victims, retries and sleeping are any sequence of steal, put and pop steps.
- The vectors of results that `when_any` and `when_all` publish: only when, how often and with which index.
- Executor variants of `then`, continuations that return futures, `when_any` and `when_all` over tuples, and blocking `get`.
- `FutureTimeout.TimeoutTheorem`: the timer service itself is a step that may fire once at any time after it was added.
- `TimedWaits.WokenExactlyOnce`: each task takes part in one wait; across successive timed waits the source compares tasks by `id` when it unlinks and leaves an expired but undrained timer in place, so once-only wake-up is not claimed there.
- `TimedWaits.ConditionVariable.NotifyAll`: the object is the notifier without a timer beside it; the interleaving with the timer is in the machine of the same module.
- Lost notifications of timed waits: a notification may be used up by a waiter that has already timed out, so none is claimed.
- Fairness and starvation of either reader-writer lock: only exclusion, exact counts, wake-ups and absence of deadlock.
- `RIBScheduler::GetNextTask`, virtual clocks and the real-time schedule table.
- `InteractiveBatch.InteractiveBatchScheduler.HandOver`: names the thief each task goes to; the thief's own queue is the subject of `StealSchedulers`.
- `InteractiveBatch.InteractiveBatchScheduler.GetAnInteractiveBatchTask`: user callbacks of cancelled tasks are not run; the cancelled tasks are returned in order.
- Channels, `WaitGroup`, task-local storage, iteration over timers, closing the wheel, and everything on the network or in storage.
