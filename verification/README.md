# A verified model of Taskio

Taskio is an asynchronous runtime for C23. This project models its five stateful
cores in Dafny and proves what they promise.

- **Timing wheel** (`Arith`, `Vec`, `Wheel`, `WheelClock`, `WheelCascade`,
  `WheelOps`, `WheelRuns`, `WheelFate`, `WheelArming`, `WheelHeld`, `WheelMoves`,
  `WheelExact`, `WheelOrder`, `TimerRuntime`, `Sleep`). Eight wheels with 543 buckets cascade into
  each other. Along every run, with aborts and fires that hit or miss, they make the very
  calls of one clock and one flat list of timers, one after the other. The list knows from
  its history alone which wheel holds a timer, which lookups miss, and in which order timers
  that expire together are called.
- **Semaphore** (`Semaphore`, `SemaphoreLaws`, `SemaphoreFairness`, `SemaphoreObject`,
  `TimedWait`). Permits, a queue of reference-counted nodes with packed flag bits, the
  alternation between futures and blocked threads, and the timed wait built from the
  select.
- **Join and select** (`IntrusiveList`, `Join`, `JoinLaws`, `JoinRuns`, `JoinNesting`,
  `JoinObject`). A list of woken children that is rebuilt while the detached old list is
  being walked, and what joins and selects do inside each other and to their task.
- **Run queue** (`RunQueue`, `RunQueueLaws`, `RunQueueTasks`, `RunQueueObject`). The
  single-threaded poll list with its status flags and one eventfd notification, against the
  line of tasks that its clients see.
- **Coroutines** (`Coroutine`, `CoroutineLaws`, `CoroutineRuns`, `CoroutineReports`,
  `CoroutineObject`). The counter machine behind the `async_*` macros, against the
  sequential program that a reader sees.

`Options`, `Sequences` and `Width` hold what several cores share.

Each core has the same layers. A state machine on values repeats the branches of the C
code. Laws about it are proved for all states, all interleavings and all runs. A class
with the fields of the C structures performs each operation in place, and every method is
proved to take the object exactly to the state that the machine reaches. The histories that
the laws speak of (handler calls, grants and frees, polls, links and wakes owed, bodies run,
futures started and cleaned up) are recorded by the methods where the action happens. Only
the clients of the semaphore (who owns a permit, who has noticed a grant) live in the
machine alone, as the structure does not know them.

## Assumptions

- Timer handlers only wake tasks; they do not call back into the wheel.
- A condition variable wakes exactly one of the threads that wait, at some later time, and
  wakes none spuriously.
- A waker that is called still refers to something. A semaphore node keeps the waker of a
  timed wait that has given up, and src/sync/semaphore.c:173 calls it although the join task
  behind it was freed at src/common/join_ext.c:38. The timer that a sleep leaves behind (see
  the next section) keeps a waker inside the finished sleep, and src/common/sleep.c:43 calls
  it. What these calls do is not modelled.
- A timerfd that was found readable is still armed when it is read. In one batch of
  src/platform/linux/runtime.c:287-373 the drain of the run queue can come first and abort
  the last timer; that disarms the timerfd and takes its expirations back before the read.
- A join child is woken at most once between two of its polls, its first placement in the
  list counting as a wake, and a child that reports ready has not woken itself in that poll.
- A task whose poll reports ready has not woken itself in that poll.
- The memory of a finished task that is woken later is still there; the source may have
  freed it. Such a task is polled again only if it was woken after it finished
  (`RunQueueLaws.PolledAgainOnlyIfWoken`).
- An async function embeds the futures it awaits, so the await relation between functions
  has no cycle.
- Counters do not reach the end of their type where reaching it needs that many operations:
  timer and node ids, poll counters of exhausted futures, and the doubling capacity of a
  vector. The count of timers, the priority counter, the removal index and the 64-bit expiry
  sum are modelled with their wrap-around.
- What polled children, tasks and scope bodies do is arbitrary and enters as data: lists of
  outcomes for children and tasks, total functions of the environment for bodies and
  conditions. `rand()` is an arbitrary number.

What happens when one of these fails is proved only where the next section says so. The two
assumptions about wakes are ones that the library itself breaks, see there.

## Where the code falls short of its promise

- *The ninth wheel.* A tick stays within the eight wheels if and only if the new time is no
  multiple of four years of milliseconds (`WheelClock.TickInBoundsIff`).
- *Abort and early fire can miss.* They choose the wheel from the time that remains, so a
  timer still held in wheel i > 0 with less than one unit of that wheel left is not found,
  and the timer count goes down all the same (`WheelOps.LookupHitsIff`, `WheelOps.MissLaw`,
  `WheelOps.RemoveCountsIff`). Whether this happens follows from the delay, the time of the
  add and the clock (`WheelHeld.FoundLaterIff`). Even an abort right after the add can miss
  (`WheelOps.AbortAfterAddIff`).
- *A missed abort can stop the clock for other timers.* In every run the count is the number
  of stored timers less the misses, modulo 2^64. So a timer is left stored with the timerfd
  disarmed if and only if there is a timer and the misses have caught up with the stored
  timers (`WheelArming.StalledIff`); the clock then stands still until a timer is added
  (`WheelArming.DisarmedClockStops`). A run that does this to a timer that nobody has touched
  is given in `WheelArming.MissedAbortStalls`, and the shortest one in
  `WheelArming.AbortCanMiss`.
- *Early timers.* The expiry is counted from the coarse clock of the chosen wheel, so a
  timer can fire early, by less than one unit of that wheel (`WheelOps.DelayBound`).
- *A sleep can end before its time.* Its second scope does not look whether the timer has
  fired. A sleep reports ready before its handler has run if and only if it is polled again
  before the clock reaches the expiry; its timer then stays stored, even after the cleanup
  (`Sleep.EarlyIff`, `Sleep.PolledTwiceIsEarly`). The library does that to a task that awaits
  a select and then a sleep: when the select is ready and has woken its parent, the task is
  woken while it pends on the sleep (`Sleep.WokenTaskEndsSleep`), and its next turn ends the
  sleep (`RunQueueLaws.SelfWakeIsPolledAgain`).
- *A sleep that is given up can leave its timer.* Its cleanup is an abort, which misses as
  said above (`Sleep.CleanedUpIff`); the handler of that timer runs later all the same.
- *Add overflow.* When the 64-bit expiry sum wraps, the handler runs at once and the count
  still grows (`WheelOps.AddOverflows`).
- *Permits are wasted* by exactly five events (`SemaphoreLaws.WastedIff`): a signal spent on
  the queued node of a wait that has given up (`SemaphoreLaws.GivenUpWaiterTakesPermit`); a
  signal to the threads when all that block have been signalled already
  (`SemaphoreLaws.HandOffIff`, `SemaphoreLaws.SecondSignalIsLost`); the cleanup of a future
  that was granted a permit and never noticed; and a wait that takes a free permit, or
  notices its grant, in a poll in which its caller is told of something else. In a biased
  select that is so if and only if some other child that is ready stands before the wait
  (`JoinRuns.ToldIff`); in a timed wait, if and only if a timeout that is ready was woken
  before the grant was given (`TimedWait.GrantKeptIff`, `TimedWait.TimeoutBeforeGrant`).
- *A poll without a grant takes a permit.* The second poll of a wait does not look whether
  it was granted. A permit too many is taken if and only if a wait is polled again before
  its waker was called (`SemaphoreLaws.UnearnedIff`, `SemaphoreLaws.UngrantedPollBreaks`).
- *Dropping a semaphore* keeps node memory in order if and only if no plain wait is pending
  in its queue (`SemaphoreLaws.DropKeepsMemoryIff`).
- *Waking a join child twice* breaks the list if and only if the child is in it already
  (`JoinLaws.WakeKeepsListIff`, `JoinLaws.WakeInBatchCuts`). The library does that itself: a
  join or select calls its parent's waker once for every child of its own that is woken. As a
  child of another join it keeps to what that join assumes if and only if at most one of its
  children is woken between two of its polls (`JoinNesting.NestedFreshIff`). With more, the
  outer list is intact all the same if and only if the calls come in direct succession and
  another child of the outer join is woken after them (`JoinNesting.NestedKeepsIff`). With
  two sleeps of one select in one tick, or a timed wait whose timeout and grant come
  together, nothing else being woken, the outer walk comes back to the select after it has
  completed, and the source follows a null pointer (`JoinNesting.TwoSleepsComeBack`). A
  nested join that still pends is polled without end (`JoinNesting.ThreeSleepsCircle`). And
  a nested one that is ready must not have called the waker in that poll at all, or the outer
  list holds a completed child (`JoinNesting.NestedPollKeepsIff`).
- *A task that is in the run queue when it finishes* breaks the queue, and one that is not
  does not (`RunQueueLaws.TurnKeepsIff`, `RunQueueLaws.FirstTaskSelfWakes`). No macro of
  async.h does that: a poll that is ready has woken its task if and only if one of the bodies
  that it ran has called the waker by hand (`CoroutineRuns.ReadyWokeIff`). A join that is
  ready has not (`JoinRuns.ReadyJoinIsQuiet`), but a select has if and only if one of its
  children was ready and one was woken in the same walk (`JoinRuns.SelectWokeIff`,
  `JoinNesting.SelectWakesAndReports`), and then a task that ends right after awaiting it
  stays in the queue.
- *Break in a plain scope* skips the next scope too, unless it is the last one
  (`CoroutineLaws.BreakLeavesScopeIff`).

## Model

| member | source | states |
|---|---|---|
| `Vec.RemovedKeepsSurvivors` | src/collections/vec.h:115-144 | ordered removal with early stop keeps exactly the elements that were not answered for removal before the stop, in order, for every sequence of answers |
| `Vec.RemovalStep` | src/collections/vec.h:119-143 | one turn of the loop, with the shift and the index step back, leaves the outcome of the whole removal unchanged |
| `Vec.Vec.RemoveIf` | src/collections/vec.h:115-144 | the in-place loop with unsigned index wrap-around leaves exactly the elements of the recursive filter, in the same storage |
| `Vec.Vec.RemoveAt` | src/collections/vec.h:126-131 | the shift left takes out one element and keeps the others in order |
| `Vec.Vec.PushLast` | src/collections/vec.h:76-91 | appends one element; the capacity becomes 16 or doubles exactly when the vector is full |
| `Vec.Vec.MoveFrom` | src/collections/vec.h:35-42 | the contents and the storage go to the target; the source is empty and shares nothing |
| `WheelClock.TickInBoundsIff` | src/platform/linux/runtime.c:444-447 | the wrap chain ticks only existing wheels, each of them in step with wheel 0, if and only if the new time is no multiple of four years |
| `WheelClock.AdvancedIsNextTime` | src/wheel.c:88-95 | the cascading increments carry like a mixed-radix counter: every clock becomes the exact quotient of the new time |
| `WheelClock.FindBucketIsSlot` | src/wheel.c:117-127 | unless expired, the bucket depends on the expiry alone: floor(expiry / resolution) mod size |
| `WheelClock.FindWheelFits` | src/platform/linux/runtime_ext.c:74-100 | the chosen wheel holds the delay in at least one unit and, below the top, less than one revolution |
| `WheelClock.FindWheelUnique` | src/platform/linux/runtime_ext.c:74-100 | the branch picks i if and only if the delay fits wheel i in that sense |
| `WheelClock.FreshPlacement` | src/wheel.c:41-48 | a delay counted from a multiple of the chosen unit lands at least one and, below the top, less than one revolution of units ahead |
| `WheelClock.PlacedAfterTick` | src/wheel.c:66-70 | when the time moves by one, a resting timer still rests, or its wheel ticks and it may be due |
| `WheelClock.UnreachedRests` | src/wheel.c:70-86 | when a wheel reaches a bucket, the timers in its other buckets rest |
| `WheelClock.HeldIsNotLate` | src/wheel.c:70-86 | no timer of a wheel that ticks is late |
| `WheelClock.ReachedIsDue` | src/wheel.c:70-86 | below the top wheel the bucket that is reached holds only timers due within the unit that begins |
| `WheelCascade.RescheduleDescends` | src/platform/linux/runtime_ext.c:25-46 | a timer handed back by wheel i < 7 goes to a strictly lower wheel, at rest for the new time, never into a bucket this cascade has reached; the assertion cannot fail |
| `WheelCascade.TickEachLaw` | src/wheel.c:75-86 | the loop over a moved-out bucket calls exactly what expires now, stores the rest, and loses or repeats nothing |
| `WheelCascade.WheelTickLaw` | src/wheel.c:66-95 | a cascade started at any wheel keeps the multiset of stored and called timers and leaves all at rest, although the ticking clocks are still one behind |
| `WheelCascade.TickLaw` | src/wheel.c:66-95 | from every settled state, whatever misses its count carries, a tick runs the handlers of exactly the timers that expire then, keeps every other timer over all 543 buckets, and keeps clocks, placement, and the count less the misses |
| `WheelOps.AddLaw` | src/platform/linux/runtime_ext.c:13-23 | an add stores exactly one new timer with a new id, returns its handle, calls nothing, keeps placement, and raises the count whatever misses it carries |
| `WheelOps.AddNothing` | src/wheel.c:36-39 | a delay of zero calls the handler at once, stores nothing and returns the invalid handle |
| `WheelOps.AddOverflows` | src/wheel.c:41-46 | when the 64-bit sum wraps, the handler of the new timer runs at once and nothing is stored, and the count grows, arming an idle clock, exactly if the handle returned is valid |
| `WheelOps.AddExisting` | src/platform/linux/runtime_ext.c:25-46 | outside of a cascade an expired timer is called at once and neither stored nor counted; any other is stored under its own expiry and counted, and nothing is called |
| `WheelOps.ExistingRestsIff` | src/platform/linux/runtime_ext.c:25-46 | such a timer rests as a new one does if and only if its bucket is not the one that its wheel stands at, which comes round after a whole turn |
| `WheelOps.DelayBound` | src/wheel.c:43 | the wait is exactly delay - now mod unit: at least max(1, delay - unit + 1) and at most delay |
| `WheelOps.RemovedIsWithout` | src/wheel.c:129-146 | removal by id takes out the first element with the id and keeps the order of the rest |
| `WheelOps.LookupHitsIff` | src/platform/linux/runtime_ext.c:48-72 | the lookup finds a timer held in wheel i if and only if i = 0 or at least one unit of wheel i remains |
| `WheelOps.HitIsWithout` | src/platform/linux/runtime_ext.c:48-72 | a hit changes one bucket, by exactly the one timer with the id, order kept |
| `WheelOps.HitLaw` | src/platform/linux/runtime_ext.c:48-72 | a hit takes exactly that timer out of the stored multiset, calls it if it is a fire, and keeps placement and the count less the misses |
| `WheelOps.MissLaw` | src/platform/linux/runtime_ext.c:48-72 | a miss changes no bucket and calls nothing, but lowers the count |
| `WheelOps.RemoveCountsIff` | src/platform/linux/runtime_ext.c:119-134 | abort and fire keep the count equal to the stored timers less the misses so far if and only if the handle has expired or the lookup hits |
| `WheelOps.AbortAfterAddIff` | src/platform/linux/runtime_ext.c:61-72 | an abort right after its add finds the timer if and only if the delay is below 10 or a whole unit is left after rounding |
| `WheelRuns.BatchesCompose` | src/platform/linux/runtime.c:375-379 | k and then j expirations equal one read of k + j expirations |
| `WheelRuns.InitialSimulates` | src/platform/linux/runtime.c:415-442 | the state after set-up simulates the empty list at time zero |
| `WheelRuns.RunRefinesFlat` | src/wheel.c:66-95 | along every run of adds, expirations, hitting aborts and fires, the eight wheels hold the timers and have made the calls of one flat list with one clock; the count is the number of stored timers and the timerfd is armed exactly when it is positive |
| `WheelFate.TimerFate` | src/platform/linux/runtime.c:370-379 | over any run that does not abort or fire it, a timer waits while the clock is before its expiry, is called exactly once, when the clock reaches it, and is gone afterwards; the time is that of the wheels, which stands still while the timerfd is disarmed |
| `WheelFate.CallsInOrder` | src/platform/linux/runtime.c:370-379 | handlers run in nondecreasing time; without early fires each runs at its recorded expiry |
| `WheelFate.SleepBound` | src/common/sleep.c:25-44 | in ticks of the wheels the handler of a sleep is called after at least one, never after more than its delay, and less than one granularity unit early; whether the clock ticks at all is the matter of StalledIff, and when the sleep itself reports ready that of EarlyIff |
| `WheelArming.RunCounts` | src/platform/linux/runtime_ext.c:102-134 | along every regular run the count, modulo 2^64, is the number of stored timers less the misses of all aborts and fires so far, and the timerfd is armed accordingly |
| `WheelArming.StalledIff` | src/platform/linux/runtime_ext.c:119-134 | a run leaves a timer stored with the timerfd disarmed if and only if some timer is stored and no more timers are stored than aborts and fires have missed |
| `WheelArming.DisarmedClockStops` | src/platform/linux/runtime.c:370-379 | once disarmed, the clock does not move and is not armed again by anything but an add |
| `WheelArming.SleepRings` | src/common/sleep.c:25-44 | after any run that does not name it, the handler of a sleep has been called in time, or its timer is still stored, and then the clock runs exactly while the misses are fewer than the stored timers |
| `WheelArming.AbortCanMiss` | src/platform/linux/runtime_ext.c:61-72 | input: with the clock ending in 5 a delay of 10 is added and aborted, the timer stays stored and the clock is disarmed |
| `WheelArming.MissedAbortStalls` | src/platform/linux/runtime.c:449-471 | input: the same add and abort beside any other timer; five expirations later the other timer, which nobody named, is stored with the clock disarmed before its expiry |
| `WheelArming.StallIsReached` | src/platform/linux/runtime.c:415-442 | from the set-up state an add of a second and five expirations lead to a state that MissedAbortStalls starts from |
| `WheelArming.MissIsReached` | src/platform/linux/runtime.c:415-442 | the same for AbortCanMiss, with a delay of five |
| `Sleep.FirstPoll` | src/common/sleep.c:21-31 | the first poll adds the timer, keeps its handle and pends; it has woken if and only if the handler has run at once |
| `Sleep.SecondPoll` | src/common/sleep.c:33-38 | the second poll is ready whatever has happened to the wheels, and the handle is gone |
| `Sleep.EarlyIff` | src/common/sleep.c:9-44 | over any run of the wheels that does not name its timer, a sleep polled again reports ready before its handler has run if and only if the clock has not reached the expiry; then the timer stays stored, even after the cleanup |
| `Sleep.PolledTwiceIsEarly` | src/common/sleep.c:33-38 | input: any sleep polled twice with nothing in between is ready, its handler has not run and its timer is stored |
| `Sleep.CleanedUpIff` | src/common/sleep.c:15-19 | a sleep is polled once and cleaned up after any run that does not name its timer: when the timer has expired nothing happens; before, exactly that timer goes and nothing is called if the timer has come to wheel 0 or has a unit left of its wheel, and otherwise the timer stays and the count drops all the same |
| `Sleep.WokenTaskEndsSleep` | include/taskio/async.h:156-228 | a task whose awaited future is ready and has called the waker, and which goes on to await a sleep in that poll, is woken without being ready; its next poll runs the sleep to its end |
| `WheelHeld.MovedAtMost` | src/platform/linux/runtime_ext.c:25-46 | on paper a timer taken by wheel i descends at most i times, each time to a strictly lower wheel |
| `WheelHeld.WheelTickHolds` | src/wheel.c:66-95 | a cascade that starts at any wheel leaves a timer that does not expire then in its bucket, or, exactly if the time has come to its turn there, puts it into the bucket for what remains |
| `WheelHeld.RunHolds` | src/wheel.c:66-95 | over any regular run that does not name it, a timer is in the wheel computed from its first wheel, its expiry and the clock alone |
| `WheelHeld.FoundLaterIff` | src/platform/linux/runtime_ext.c:48-72 | an abort or fire at any later time finds the timer if and only if the wheel computed from delay, expiry and clock is wheel 0 or has at least one unit left; the moves so far are bounded by the first wheel |
| `WheelMoves.HandsBackIff` | src/wheel.c:72-86 | a cascade hands an unexpired timer back once if it reaches the bucket of the timer, and otherwise not, counted in the walks over the buckets |
| `WheelMoves.RunBackIs` | src/platform/linux/runtime.c:449-453 | over any regular run the hand-backs of a timer, counted in the cascades, are its descents on paper, and one more if it waits in the top wheel for a later revolution |
| `WheelMoves.HandedBackAtMost` | src/platform/linux/runtime_ext.c:25-46 | so a timer held by wheel i is handed back at most i times, each time to a strictly lower wheel, except that one of the top wheel with a later revolution to wait for goes back to its own bucket, once |
| `WheelExact.HitsIffFound` | src/platform/linux/runtime_ext.c:48-72 | the flat list with histories decides exactly which lookups hit |
| `WheelExact.RunRefinesExact` | src/wheel.c:66-146 | along every regular run, whatever its aborts and fires hit or miss, the wheels hold the timers and have made the calls of the flat list with histories, as multisets; the count is its pending timers less its misses |
| `WheelExact.InitialAgrees` | src/platform/linux/runtime.c:415-442 | the state after set-up agrees with the empty list |
| `WheelOrder.CascadeKeepsLine` | src/wheel.c:66-95 | put wheel by wheel and bucket by bucket, the timers of one later expiry stand in a line whose order no cascade changes |
| `WheelOrder.CascadeCallsLine` | src/wheel.c:66-95 | a cascade calls the timers that expire then in the order of their line |
| `WheelOrder.RunRefinesInOrder` | src/wheel.c:34-146 | along every regular run, misses included, the sequence of all calls is that of the flat list, where a new timer stands behind those of the same expiry in its own and lower wheels and before those in higher ones |
| `WheelOrder.InitialInLine` | src/platform/linux/runtime.c:415-442 | the state after set-up is in line with the empty list |
| `TimerRuntime.HierarchyWheel.constructor` | src/platform/linux/runtime.c:415-442 | all clocks at zero, all buckets empty, nothing armed |
| `TimerRuntime.HierarchyWheel.FindBucket` | src/wheel.c:117-127 | computes the bucket of the state machine |
| `TimerRuntime.HierarchyWheel.AddFrom` | src/wheel.c:56-64 | pushes into the bucket, or calls the handler when expired; nothing else changes |
| `TimerRuntime.HierarchyWheel.WheelAdd` | src/wheel.c:34-54 | takes the object to the machine's state after an add to one wheel |
| `TimerRuntime.HierarchyWheel.IncreaseTimerLen` | src/platform/linux/runtime_ext.c:102-117 | counts up and arms when leaving zero |
| `TimerRuntime.HierarchyWheel.DecreaseTimerLen` | src/platform/linux/runtime_ext.c:119-134 | counts down with size_t wrap and disarms when one was left |
| `TimerRuntime.HierarchyWheel.RuntimeAdd` | src/platform/linux/runtime_ext.c:13-23 | takes the object to the machine's state after an add |
| `TimerRuntime.HierarchyWheel.RuntimeAddFrom` | src/platform/linux/runtime_ext.c:25-46 | as above for an existing timer, under the source's own assertion |
| `TimerRuntime.HierarchyWheel.RuntimeRemove` | src/platform/linux/runtime_ext.c:48-72 | takes the object to the machine's state after an abort or early fire |
| `TimerRuntime.HierarchyWheel.RemoveFirst` | src/wheel.c:129-146 | the removal loop takes the first timer with the id out of its bucket, order kept, and calls it for a fire |
| `TimerRuntime.HierarchyWheel.WheelRemove` | src/wheel.c:99-115 | removes the timer from the bucket of one wheel by the removal loop, and calls it for a fire |
| `TimerRuntime.HierarchyWheel.TickOne` | src/wheel.c:78-85 | one timer in hand is called and counted off, or handed back |
| `TimerRuntime.HierarchyWheel.TickBucket` | src/wheel.c:72-88 | the loop equals the machine's fold over the moved-out bucket |
| `TimerRuntime.HierarchyWheel.WheelTick` | src/wheel.c:66-95 | the recursive tick takes the object to the machine's state, clocks moved last |
| `TimerRuntime.HierarchyWheel.Expire` | src/platform/linux/runtime.c:370-379 | the expirations loop makes as many ticks as the read reported |
| `SemaphoreLaws.PackedCount` | src/sync/semaphore.c:179-201 | the 64-bit word with flags and a two-bit count behaves like a count of two owners; a plain node dropped without waking is freed at once |
| `SemaphoreLaws.LastOwnerLetsGo` | src/sync/semaphore.c:198-200 | the release by the last owner, queue or future, frees the node, once |
| `SemaphoreLaws.OneOwnerLetsGo` | src/sync/semaphore.c:198-200 | the release by the first owner keeps memory in order if and only if it wakes or the node is timed |
| `SemaphoreLaws.WaitKeeps` | src/sync/semaphore.c:85-118 | a wait keeps all invariants: it takes a free permit or queues a node at the end |
| `SemaphoreLaws.SignalAsyncLaw` | src/sync/semaphore.c:165-175 | a grant goes to the head of the queue, or is wasted if its future is gone, and node memory stays in order |
| `SemaphoreLaws.SignalKeeps` | src/sync/semaphore.c:143-177 | a signal keeps all invariants in each of its branches, also when it reaches no thread |
| `SemaphoreLaws.HandOffIff` | src/sync/semaphore.c:134-138 | a signal that falls to the threads survives if and only if one of them has not been signalled yet; that thread gets the permit when it runs |
| `SemaphoreLaws.SecondSignalIsLost` | src/sync/semaphore.c:134-138 | input: two signals before the one blocked thread runs again leave one holder and waste the other permit |
| `SemaphoreLaws.CleanupLaw` | src/sync/semaphore.c:79-83 | the cleanup of a waiting future leaves the queue as it is and wastes a permit exactly if one was granted and not noticed |
| `SemaphoreLaws.DropKeepsMemoryIff` | src/sync/semaphore.c:37-53 | dropping the semaphore keeps node memory in order if and only if no plain wait is pending in the queue |
| `SemaphoreLaws.RunKeeps` | src/sync/semaphore.c:75-201 | in every run, with signal and wake-up of a thread as separate steps: permits are conserved up to those wasted and those taken without a grant, a free permit never coexists with a waiter, grants follow arrival order, and each node is freed exactly once, when queue and future have both let go |
| `SemaphoreLaws.HoldersWithinPermits` | src/sync/semaphore.c:85-163 | when only holders signal, holders are at most the permits and the polls without a grant, and what is missing is on its way or wasted |
| `SemaphoreLaws.MutualExclusion` | src/sync/semaphore.c:85-163 | with one permit, only holders signalling and no poll without a grant, there is never more than one holder |
| `SemaphoreLaws.WaitEffect` | src/sync/semaphore.c:85-118 | a first poll takes one free permit, for its caller or for nobody; without one a fresh node with two owners joins the end of the queue; no other field moves |
| `SemaphoreLaws.BlockingWaitEffect` | src/sync/semaphore.c:129-136 | with a free permit the counter falls by one and the owners rise by one; without one the number of blocked threads rises by one, however many block already; no other field moves |
| `SemaphoreLaws.AwakeEffect` | src/sync/semaphore.c:136-141 | a signalled thread that runs again owns a permit, and one thread less is blocked and signalled |
| `SemaphoreLaws.NoticedEffect` | src/sync/semaphore.c:110-118 | a second poll ends the wait; a permit in flight to it is owned or wasted, and one that was not is owned all the same |
| `SemaphoreLaws.SignalEffect` | src/sync/semaphore.c:143-177 | a signal frees one permit when nobody waits, signals one thread or is lost when it falls to the threads, and grants to the head otherwise; only a choice between both moves the turn |
| `SemaphoreLaws.FirstOnesHold` | src/sync/semaphore.c:85-141 | of any mix of waits of both kinds the first get the free permits and all others wait |
| `SemaphoreLaws.LockUnlock` | src/sync/semaphore.c:85-163 | a lock, blocking or not, and its unlock leave permits, owners and waiters as they were |
| `SemaphoreLaws.UnearnedIff` | src/sync/semaphore.c:117 | a permit is taken without a grant if and only if a waiting future is polled again and reports before its waker was called |
| `SemaphoreLaws.UngrantedPollBreaks` | src/sync/semaphore.c:110-117 | input: while all permits have holders, a wait that queues and is polled again makes one holder too many |
| `SemaphoreLaws.WastedIff` | src/sync/semaphore.c:79-175 | a permit is wasted exactly by a signal spent on a queued node whose future no longer waits, a signal to threads that have all been signalled, the cleanup of a future granted one and never noticed, or a wait, plain or timed, that takes a free permit or notices its grant in a poll that tells its caller of something else |
| `SemaphoreLaws.GivenUpWaiterTakesPermit` | src/sync/semaphore.c:79-83 | a signal spent on the node of a given-up wait leaves nobody with the permit, and the next wait queues |
| `SemaphoreLaws.GivenUpWaiterReachable` | src/sync/semaphore.c:120-127 | such a state is reached with one permit by a wait and a timed-out wait |
| `SemaphoreFairness.BoundedBypass` | src/sync/semaphore.c:143-163 | the waiter at position p is granted within 2p + 1 signals, or 2p + 2 when the turn is with the threads, under any interleaving |
| `SemaphoreFairness.BypassIsTight` | src/sync/semaphore.c:146-153 | as long as a thread blocks and has the turn, 2p + 1 signals grant exactly p futures and leave the waiter at position p waiting |
| `SemaphoreFairness.BypassIsReached` | src/sync/semaphore.c:146-153 | such a state is reached from a semaphore without permits, for every p |
| `SemaphoreFairness.BlockingShare` | src/sync/semaphore.c:146-153 | while some thread has not been signalled, threads are handed at least floor(m / 2) of any m signals |
| `SemaphoreFairness.AsyncShare` | src/sync/semaphore.c:146-153 | while a future is queued, futures get at least floor(m / 2) of any m signals |
| `TimedWait.GrantKeptIff` | src/sync/semaphore.c:120-127 | in the poll that notices a grant the caller is told that it has the permit if and only if a ready timeout does not stand before the wait among the children woken |
| `TimedWait.GrantWastedIff` | src/sync/semaphore.c:120-127 | the permit of that grant is wasted if and only if the timeout stands before it |
| `TimedWait.TimeoutBeforeGrant` | src/sync/semaphore.c:120-127 | input: polled once, timeout woken, then the wait: both are ready and the timeout is reported |
| `TimedWait.BothWokenBefore` | src/sync/semaphore.c:120-127 | before the last poll of that run the waker of the timed wait has been called twice |
| `SemaphoreObject.WaiterNode.Drop` | src/sync/semaphore.c:179-201 | decrements the packed word in place and tells whether to free |
| `SemaphoreObject.TaskioSemaphore.constructor` | src/sync/semaphore.c:17-31 | all permits free, no waiter |
| `SemaphoreObject.TaskioSemaphore.DropNode` | src/sync/semaphore.c:179-201 | lowers one word in place and records the free exactly if the machine frees |
| `SemaphoreObject.TaskioSemaphore.Append` | src/sync/semaphore.c:99-107 | the linked chain from head to tail holds the old queue and then the new node |
| `SemaphoreObject.TaskioSemaphore.Wait` | src/sync/semaphore.c:85-118 | takes the object to the machine's state; a node is made exactly when no permit is free |
| `SemaphoreObject.TaskioSemaphore.BlockingWait` | src/sync/semaphore.c:129-136 | with a free permit the counter falls by one and nobody blocks; without one one more thread blocks; chain and nodes stay |
| `SemaphoreObject.TaskioSemaphore.Awake` | src/sync/semaphore.c:136-141 | the signalled thread runs again and one thread less is blocked |
| `SemaphoreObject.TaskioSemaphore.SignalAsync` | src/sync/semaphore.c:165-175 | the head leaves the chain, is recorded as granted, and loses one owner, with the free recorded |
| `SemaphoreObject.TaskioSemaphore.SignalSync` | src/sync/semaphore.c:177 | one thread that has not been signalled is, or nothing happens |
| `SemaphoreObject.TaskioSemaphore.Signal` | src/sync/semaphore.c:143-163 | takes the object, its grants and frees included, to the machine's state after a signal |
| `SemaphoreObject.TaskioSemaphore.Cleanup` | src/sync/semaphore.c:79-83 | takes the object, its frees included, to the machine's state after the cleanup of a waiting future |
| `SemaphoreObject.TaskioSemaphore.DropSemaphore` | src/sync/semaphore.c:37-53 | the walk over the chain lets go of every queued node and frees exactly those that the machine frees, in order |
| `JoinLaws.WakeKeepsListIff` | src/common/join_ext.c:105-115 | a wake keeps the list intact if and only if the child is not in it |
| `JoinLaws.SecondWakeLeaves` | src/common/join_ext.c:108-115 | after a second wake of a listed child the list ends at it; if it was the last there is no list any more |
| `JoinLaws.WakeInBatchCuts` | src/common/join_ext.c:108 | a wake of a child that still waits in the walked batch cuts off the children behind it |
| `JoinLaws.InitialInv` | src/common/select.c:31-39 | the initial list holds all children in order and none has completed |
| `JoinLaws.WakeAllLaw` | src/common/join_ext.c:105-118 | wakes raised during a walk append to the new list and leave the rest of the detached list linked |
| `JoinLaws.PollChildLaw` | src/common/join_ext.c:51-86 | one turn keeps the invariant: both chains duplicate-free and ending, completed_len equal to the number of completed children, each of them cleaned once |
| `JoinRuns.WalkLaw` | src/common/join_ext.c:51-86 | the walk polls every child of the batch once, in order, whatever the children wake |
| `JoinRuns.PollLaw` | src/common/join_ext.c:44-86 | a poll answers exactly the waiting wakes in wake order; those raised meanwhile form the next list |
| `JoinRuns.RunKeeps` | src/common/join_ext.c:41-118 | in every run the linked list is exactly the unanswered wakes in order, and the parent's waker has been called once for each of them, but for those placed at set-up |
| `JoinRuns.ReportLaw` | src/common/select.c:70-88 | a join is ready exactly when all children are; a select exactly when some child is, and names one that is |
| `JoinRuns.SelectNames` | src/common/select.c:70-88 | the first poll of a select that finds a ready child names, when biased, the first child in wake order whose outcome is ready, and otherwise the one after a random number of those, counted round |
| `JoinRuns.AnyIsNamed` | src/common/select.c:78-83 | for each child that ends in that poll some random number makes an unbiased select name it |
| `JoinRuns.ToldIff` | src/common/select.c:70-88 | of the children that end in the poll in which a biased select finishes, its caller is told of one if and only if none before it in wake order has ended |
| `JoinRuns.PollCalls` | src/common/join_ext.c:105-118 | a poll calls the parent's waker exactly once for each wake raised in it |
| `JoinRuns.SelectWokeIff` | src/common/select.c:70-88 | a select is ready and has woken its parent in the same poll if and only if a child of the batch was ready and one was woken meanwhile |
| `JoinRuns.ReadyJoinIsQuiet` | src/common/join_ext.c:97-98 | a join that is ready has not woken its parent since that poll began |
| `JoinRuns.CleanupFromLaw` | src/common/join_ext.c:24-36 | the early stop on pending_len skips no child that is still alive |
| `JoinRuns.EachChildCleanedOnce` | src/common/join_ext.c:18-39 | over its life every child is cleaned exactly once: on completion or in the final cleanup |
| `JoinNesting.WakesAreExact` | src/common/join_ext.c:105-118 | whatever is woken in whatever order, the links are a list that a new child joins at the end, that circles when its last child is woken again, and that is cut behind any other child |
| `JoinNesting.IntactIff` | src/common/join_ext.c:105-118 | some list with all woken children can be read off the links if and only if it does not circle and none was cut off |
| `JoinNesting.CallsAreWaiting` | src/common/join_ext.c:117 | between two polls of a join its parent's waker is called as often as children of its own are woken |
| `JoinNesting.WakesKeepIff` | src/common/join_ext.c:105-118 | when one child is woken any number of times and others once, in any order, the list stays intact if and only if nothing comes between the wakes of that child and, when there are several, another child is woken after them |
| `JoinNesting.NestedKeepsIff` | src/common/join_ext.c:105-118 | so, whatever else is woken in between, the list of the outer join is intact if and only if at most one child of the nested join or select was woken between two of its polls, or the calls of its waker came in direct succession and another child of the outer join was woken after them |
| `JoinNesting.NestedFreshIff` | src/common/join_ext.c:105-118 | what the outer join assumes of its children is kept, whatever else is woken in between, if and only if at most one child of the nested join was woken |
| `JoinNesting.NestedPollKeepsIff` | src/common/join_ext.c:51-86 | the turn of a walk that polls a nested join or select keeps the invariant of the outer join if and only if its waker is called at most once in it, and not at all when it is ready |
| `JoinNesting.CirclingWalk` | src/common/join_ext.c:51-86 | a walk that comes to a child linked to itself polls it for as long as it pends and does not end |
| `JoinNesting.TwoSleepsComeBack` | src/common/join_ext.c:51-86 | input: a select or timed wait is the only child of a join, both of its children are woken after its first poll and ready in the next; the outer list circles and its walk comes back to the completed child |
| `JoinNesting.ThreeSleepsCircle` | src/common/join_ext.c:51-86 | input: a join of three is the only child of a join and two of the three are woken; it pends in every poll that follows and the outer walk does not end |
| `JoinNesting.SelectWakesAndReports` | src/common/select.c:70-88 | input: in its first poll one child wakes itself and the other is ready; the select is ready and has woken its parent |
| `JoinObject.JoinTasks.constructor` | src/common/join.c:16-22 | the task array is linked in order |
| `JoinObject.JoinTasks.Wake` | src/common/join_ext.c:105-118 | relinks in place to the machine's state |
| `JoinObject.JoinTasks.PollChild` | src/common/join_ext.c:54-83 | polls one child, which may wake others, and completes it when ready |
| `JoinObject.JoinTasks.Poll` | src/common/join_ext.c:41-103 | the loop over the detached list and the report equal the machine's |
| `JoinObject.JoinTasks.Cleanup` | src/common/join_ext.c:24-36 | the cleanup loop reaches the machine's state |
| `RunQueueLaws.WakeLaw` | src/platform/linux/runtime.c:473-505 | a wake appends a task that is not listed and changes nothing for one that is; a nonempty list stays announced |
| `RunQueueLaws.RepeatedWakes` | src/platform/linux/runtime.c:474-476 | further wakes before the next poll have no effect |
| `RunQueueLaws.WakeAllReaches` | src/platform/linux/runtime.c:507-520 | every joiner of a finished task is in the list afterwards |
| `RunQueueLaws.TakeHeadLaw` | src/platform/linux/runtime.c:299-325 | before its poll the head is out of the list, unlinked and suspended, and nothing else has changed its status or joiners |
| `RunQueueLaws.FinishKeepsIff` | src/platform/linux/runtime.c:351-356 | the end of a task, with the wakes of its joiners, keeps the queue in order if and only if the task is not in the list |
| `RunQueueLaws.TurnKeepsIff` | src/platform/linux/runtime.c:294-366 | a turn keeps the queue in order if and only if it does not end a task that its poll has left in the list |
| `RunQueueLaws.SelfWakeBreaks` | src/platform/linux/runtime.c:351-362 | any task at the head that wakes itself in its last poll breaks the queue |
| `RunQueueLaws.SelfWakeIsPolledAgain` | src/platform/linux/runtime.c:294-366 | any task at the head that wakes itself and is not done stays in the list, which is in order, and will be polled again |
| `RunQueueLaws.FirstTaskSelfWakes` | src/platform/linux/runtime.c:351-362 | input: the first task of a runtime does so in its first turn, and is finished and at the head of the list |
| `RunQueueLaws.TurnLaw` | src/platform/linux/runtime.c:294-366 | a turn polls the head; all others keep their place and what the poll wakes comes behind |
| `RunQueueLaws.RunKeeps` | src/platform/linux/runtime.c:290-368 | in every run a task is scheduled exactly when linked once, which is exactly when it was woken after its last poll, polls follow the order of linking, and a nonempty list implies a pending notification or a running drain |
| `RunQueueLaws.PolledAgainOnlyIfWoken` | src/platform/linux/runtime.c:473-505 | a finished task is polled again only if it was linked by a wake after it finished |
| `RunQueueLaws.PolledInOrder` | src/platform/linux/runtime.c:294-366 | the task at position p is polled by the turn number p + 1, whatever happens in between |
| `RunQueueTasks.RunRefines` | src/platform/linux/runtime.c:250-520 | in every run the linked queue with its flags is a line of waiting tasks, in which a wake appends whoever does not wait, a turn takes the first, and an end wakes all who joined; what each task has become and who waits for whom agree |
| `RunQueueTasks.InitialIs` | src/platform/linux/runtime.c:39-64 | the state after set-up is the empty line |
| `RunQueueTasks.FinishEffect` | src/platform/linux/runtime.c:351-356 | a task that ends outside the list is finished unless it waited for itself, nobody waits for it any more, exactly its joiners are scheduled, those not yet listed behind the others with the latest first, and every other status and list of joiners stays |
| `RunQueueTasks.JoinEffect` | src/platform/linux/runtime.c:250-277 | a join on a finished task lists the joiner; on any other it leaves list and statuses alone and puts the joiner on top of the joiners of that task only |
| `RunQueueTasks.TurnEffect` | src/platform/linux/runtime.c:294-366 | after a turn its task is finished if and only if it was ready and has not joined itself; then nobody waits for it |
| `RunQueueTasks.JoinerIsWoken` | src/platform/linux/runtime.c:250-277 | in every run, a task that has joined another one stays its joiner until the turn in which that one ends, and is in the list after that turn |
| `RunQueueObject.Runtime.Schedule` | src/platform/linux/runtime.c:478-499 | links the record at the tail, marks it, records it and notifies once |
| `RunQueueObject.Runtime.Wake` | src/platform/linux/runtime.c:473-505 | takes the linked records to the machine's state; nothing for a scheduled task |
| `RunQueueObject.Runtime.SpawnTask` | src/platform/linux/runtime.c:103-138 | a new record joins the list |
| `RunQueueObject.Runtime.JoinTask` | src/platform/linux/runtime.c:250-277 | takes the records to the machine's state: a joiner on top, or a wake when the target has finished (`RunQueueTasks.JoinEffect`) |
| `RunQueueObject.Runtime.TakeHead` | src/platform/linux/runtime.c:299-325 | unlinks the head record, with the tail when it was the last |
| `RunQueueObject.Runtime.WakeAll` | src/platform/linux/runtime.c:507-520 | wakes the joiners, latest first |
| `RunQueueObject.Runtime.FinishTask` | src/platform/linux/runtime.c:351-356 | takes the records to the machine's state: the task finished and its joiners woken (`RunQueueTasks.FinishEffect`) |
| `RunQueueObject.Runtime.PollHead` | src/platform/linux/runtime.c:299-365 | one turn of the drain on the records equals the machine's |
| `RunQueueObject.Runtime.Drain` | src/platform/linux/runtime.c:290-368 | reads the counter, polls until the list is empty, then lets the next wake notify; polls, links and owed wakes recorded on the way are the machine's |
| `CoroutineLaws.ScanPassed` | include/taskio/async.h:183-185 | past the scope that the counter names no scope runs |
| `CoroutineLaws.ScanRefines` | include/taskio/async.h:183-256 | a walk over the scopes, with any chain of false while scopes skipped in one poll, runs the sequential program from where the counter stands |
| `CoroutineLaws.RunBodyRefines` | include/taskio/async.h:189-256 | each way to end a body moves the counter to where the sequential program goes on |
| `CoroutineLaws.AwaitRefines` | include/taskio/async.h:205-228 | an await polls at once and behaves as a call, ready or not |
| `CoroutineLaws.PollRefines` | include/taskio/async.h:147-181 | one poll of an await chain of any depth runs exactly the next bodies and conditions of the sequential program behind it |
| `CoroutineLaws.BreakLeavesScopeIff` | include/taskio/async.h:251-253 | a break leaves exactly its scope if and only if that is a while scope or the last scope |
| `CoroutineRuns.FunctionRefines` | include/taskio/async.h:130-181 | any number of polls of a fresh future runs its function as the sequential program reads, and a ready value is the value returned |
| `CoroutineRuns.PollProgress` | include/taskio/async.h:183-250 | while the innermost call has a scope left, a poll runs a body or a condition |
| `CoroutineRuns.ReadyWokeIff` | include/taskio/async.h:147-253 | a poll that reports ready, through any depth of awaits, has called the waker if and only if a body that it ran has called it by hand, as the loop of a join does for its children |
| `CoroutineReports.WokeIff` | include/taskio/async.h:147-253 | a poll, ready or not and through any depth of awaits, has called the waker if and only if some body that it ran called it by hand, or ended in a yield or a break, or awaited something that was ready at once |
| `CoroutineReports.StatusIs` | include/taskio/async.h:147-253 | a poll is pending while its future awaits; else its status is what the last body that it ran of that future's own function ends in, and undefined when it ran none |
| `CoroutineRuns.OnlyLeafAdvances` | include/taskio/async.h:156-171 | polling the root while the leaf is not ready changes the leaf alone; all ancestors, counters included, stay as they were |
| `CoroutineRuns.CleanupInnermostFirst` | include/taskio/async.h:154-155 | cleanup reaches each future of the chain once, innermost first |
| `CoroutineRuns.CleanupRunsNoScope` | include/taskio/async.h:183-187 | the walk over the scopes with the cleanup counter runs none, for every future of a chain |
| `CoroutineRuns.PollReplays` | include/taskio/async.h:154-177 | one poll starts and cleans up futures like calls on a stack |
| `CoroutineRuns.EveryFutureCleanedOnce` | include/taskio/async.h:24-26 | over any polls and the final cleanup every started future is cleaned up exactly once, never before one that it awaits |
| `CoroutineObject.FutureCell.constructor` | include/taskio/async.h:122-123 | a record that awaits nothing |
| `CoroutineObject.FutureCell.Poll` | include/taskio/async.h:130-181 | takes the chain of records to the machine's state, with the same status and wake, and what the records wrote down is what the machine ran, started and cleaned up |
| `CoroutineObject.FutureCell.Resume` | include/taskio/async.h:154-181 | polls the awaited record first, then settles it and goes on, or steps the counter back |
| `CoroutineObject.FutureCell.Settle` | include/taskio/async.h:172-177 | stores the value of a ready child, cleans it up and clears the link |
| `CoroutineObject.FutureCell.Scan` | include/taskio/async.h:183-250 | the walk over the scopes, counter updates included, equals the machine's |
| `CoroutineObject.FutureCell.RunBody` | include/taskio/async.h:189-253 | the body and its end, with wake and status (`CoroutineReports.WokeIff`), equal the machine's, recorded as they happen |
| `CoroutineObject.FutureCell.Enter` | include/taskio/async.h:245-249 | a while scope whose condition holds steps the counter back before its body |
| `CoroutineObject.FutureCell.AwaitGet` | include/taskio/async.h:205-228 | makes and polls the new record; when it is ready at once it is cleaned up, else it stays linked |
| `CoroutineObject.FutureCell.Cleanup` | include/taskio/async.h:24-26 | sets every counter of the chain to the cleanup counter, cleans up innermost first, and walks over the scopes without running one |
| `CoroutineObject.FutureCell.PollTimes` | src/platform/linux/runtime.c:327-350 | polls until the future is ready, or as often as asked, equal the machine's |
| `CoroutineObject.FutureCell.Drive` | src/platform/linux/runtime.c:327-352 | of the records themselves: over any polls and the cleanup, the bodies written down are a run of the sequential program, and starts and cleanups written down replay on a call stack that ends empty |

## Left out

- Multi-threaded paths and the blocking worker pool: the former are incomplete in the source, the latter shares the run queue without a lock.
- Task abort and `taskio_handle_abort`: aborted tasks are overwritten or linked twice by a later wake, so the run queue is modelled without them.
- Reference counts of tasks, copying of task results, and the end of the worker loop when the main task is done.
- epoll, eventfd, timerfd and condition variables: only "notified" and "armed" are kept.
- Allocators, varargs packing, struct embedding by cast, the `future_env` macros, `taskio_main` and tracing output.
- `taskio_vec_shrink` and `taskio_vec_pop_last`: not used by the library.
- The wrappers in src/sync/mutex.c, src/common/join.c and src/common/sleep.c beyond what the table cites: a mutex is the semaphore with one permit.
- The `back` link of semaphore nodes, which is written and never read.
- Code of an async function outside its scopes, which runs on every poll, and `async_cleanup` blocks: a scope body is a function of the environment only, and tells besides whether it called the waker by hand.
- The value that a join passes on from its children, and the list nodes in which select keeps the indices: the picked indices are a sequence.
- `TimerRuntime.HierarchyWheel.TickBucket`: buckets are sequences in an array, so sharing of storage between vectors is shown only for `Vec.Vec`, and the wheels are two arrays of one object.
- `WheelRuns.RunRefinesFlat`: leaves out runs with misses and the order of the calls within one tick; `WheelExact.RunRefinesExact` has the former and `WheelOrder.RunRefinesInOrder` both.
- `WheelExact.RunRefinesExact`: states the calls as a multiset; their order is that of `WheelOrder.RunRefinesInOrder`.
- `SemaphoreObject.TaskioSemaphore.Signal`: the clients of the semaphore (permits owned, grants noticed) are kept by the state machine and not by the object.
- Spurious wake-ups of condition variables, and what a call of a dangling waker does.
- `WheelArming.StalledIff`: the armed state is tied to the misses while they are fewer than 2^64; the count is stated for any number.
- `TimerRuntime.HierarchyWheel.WheelAdd`: timer ids are unbounded; the source's 64-bit id counter would wrap after 2^64 adds.
