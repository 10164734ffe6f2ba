# Models of the coordination protocols of aiodrive

This project models the hand-written protocols of aiodrive, a library of asyncio and thread
coordination primitives, and proves what they keep in every run: for any number of threads, tasks,
loops and messages, for every interleaving, and with cancellations and closed loops wherever they
can strike. `dafny verify dfyconfig.toml` checks all of it.

Each component has a class, or a method, in the form of the source: its fields, its critical sections
or its stretches of code between two awaits, and its loops. The contract of such a method ties the
new state to a function of the old one. A module named `...Runs` (or the second half of the module)
interleaves those same functions as a step machine: `Enabled` and `Apply` give one step, `IsRun` and
`After` give whole runs. The drivers (`gather`, `amass`, `shield_wait`, the search of `watch_path`)
are methods that run against an arbitrary schedule, or an arbitrary filesystem, so that a statement
about the method is a statement about every schedule. The loop of `amass` is both: a step machine, and
methods whose contracts say that they are runs of it.

What is taken from asyncio and the operating system is small. A future is pending or done. A call to
`call_soon_threadsafe` is accepted unless the loop is closed. `asyncio.wait` returns at a turn of the
event loop at which its condition holds. A cancellation is either delivered at an await or not. A
`threading.Lock` that is held blocks. Channels between processes are FIFO queues of whole messages.
The kernel reports events about the watched descriptor only.

| file | source | what it holds |
|---|---|---|
| ThreadsafeLock, ThreadsafeLockRuns | modules/thread_safe_lock.py | mutex shared by blocking threads and async tasks |
| Multiprocessing, MultiprocessingRuns | modules/multiprocessing.py | parent/child task protocol |
| WatchPath, WatchEvents, WatchReporter, WatchContext | modules/watch.py | path search, event language, debounced reporter, all of it together |
| ThreadsafeState, ThreadsafeStateRuns | modules/thread_safe_state.py | watchable state |
| RWLock, RWLockRuns | experiments/rw_lock.py | reader/writer lock |
| OrderedQueue, OrderedQueueRuns, OrderedMap | internal/queue.py, modules/map.py | reorder buffer and ordered map |
| TaskWaits, Gather, Amass | modules/gather.py, modules/amass.py | drivers of many tasks |
| Shield, Scope | modules/shield.py, modules/scope.py | shielding and nested cancellation scopes |
| Futures, Wrappers | modules/future_state.py | outcomes, small helpers |

## Where a promise fails, and exactly when it holds

- A `ThreadsafeLock` waiter that is cancelled, or whose loop closes, after a release has handed it the
  lock takes the ownership with it. Waiters are stranded if and only if this has happened
  (`StrandedIffTokenLost`); it is reachable, and final.
- A task cancelled before its first step in the child process never reports. When nothing else is left
  to happen, the futures still pending are exactly those of such tasks (`PendingIffDropped`).
- The comment at modules/multiprocessing.py:155-156 expects the end of the connection to fail the
  pending futures when the context is left. The exit stack leaves in reverse order, so the receive loop
  is cancelled first. A registered future is done later, whatever the child does, if and only if it was
  done when the context was left (`DoneIffDoneWhenLeft`); a run that ends with one pending is
  `[Spawn, ChildReceive, ChildStart(0), StopLoop, SendShutdown, ChildReceive, ChildExit(0)]`
  (`LeftWithACallPending`). The same holds when a send to a dead child fails before the receive loop has
  read the end of the connection: the reader then raises the error of that send, which line 169 does not
  catch (`DoneIffDoneWhenLeft`, `FailedSendLosesTheEnd`).
- A reader/writer request cancelled while queued keeps its place and is granted the lock later. The
  owners can still drain if and only if no owner is such an entry or lives on a closed loop
  (`CanEmptyIffNotJammed`, `CancelledWriterJams`).
- A reader/writer release that hands the lock to a request whose loop is closed raises half-way. Users
  are still owners and a writer is still alone (`ReaderWriterExclusion`), but "free if and only if
  without owner", and no reader queueing behind readers, break at exactly such a step
  (`DisagreeIffRaised`, `ClosedLoopJams`).
- `map` with a limit stops fetching once a job finds no room for its successor. It yields everything and
  stops, in every run, if and only if there is no limit or the limit exceeds the number of items
  (`CompleteIffRoomForAll`).
- `shield_wait` does not deliver the promised outcome if and only if the schedule has the inner task
  fail after at least as many cancellations as there are shields, and then a cancellation before the next
  turn of the event loop (`HidesFailure`, a condition on the schedule alone; `ShieldWait`,
  `LateCancellationHidesFailure`).
- `amass` interrupted in a wait ends without an exception if and only if the schedule that is left lets all
  tasks ignore their cancellation and succeed before some turn of the event loop and before any other
  cancellation (`EndsQuietly`, a condition on that schedule alone; `Amass`), because the `return` at
  modules/amass.py:90 skips the `raise` at line 110; it happens (`CancellationGetsLost`).

## Model

| member | source | states |
|---|---|---|
| ThreadsafeLocks.ThreadsafeLock.EnterSync | src/aiodrive/modules/thread_safe_lock.py:29-36 | The first section takes a free lock without blocking or counts the thread, and keeps flag, counter and inner lock coupled |
| ThreadsafeLocks.ThreadsafeLock.LeaveSync | src/aiodrive/modules/thread_safe_lock.py:40-41 | The second section uncounts the thread that became the owner and keeps the coupling |
| ThreadsafeLocks.ThreadsafeLock.EnterAsync | src/aiodrive/modules/thread_safe_lock.py:53-61 | The section takes a free lock or queues the new future last |
| ThreadsafeLocks.ThreadsafeLock.ReleaseAsync | src/aiodrive/modules/thread_safe_lock.py:66-84 | The loop drops exactly the dead waiters before the first live one, which gets the lock still held; without one it opens the lock, and the flag clears only if no thread is counted |
| ThreadsafeLocks.ReleaseKeepsCoupling | src/aiodrive/modules/thread_safe_lock.py:66-84 | After a release the inner lock is held if and only if some waiter was live, and the coupling holds |
| ThreadsafeLockRuns.MutualExclusion | src/aiodrive/modules/thread_safe_lock.py:29-84 | In every run there is exactly one ownership while the inner lock is held and none otherwise, and at most one caller is inside |
| ThreadsafeLockRuns.FlagsAgree | src/aiodrive/modules/thread_safe_lock.py:30-41 | In every run the counter is the number of threads between the increment and the decrement, the flag is coupled, a clear flag means no waiters, and the nested acquire never blocks under the state lock |
| ThreadsafeLockRuns.StrandedIffTokenLost | src/aiodrive/modules/thread_safe_lock.py:63-84 | Whenever somebody waits, an owner or an able thread exists, and some run brings a waiter inside, if and only if no ownership went to a waiter that then was cancelled or whose loop closed |
| ThreadsafeLockRuns.LostForever | src/aiodrive/modules/thread_safe_lock.py:74-79 | Once ownership is lost, nobody gets inside again in any continuation |
| ThreadsafeLockRuns.LateCancellationLosesTheLock | src/aiodrive/modules/thread_safe_lock.py:63-79 | A concrete run in which a waiter is cancelled after the hand-off and another request is stranded |
| ThreadsafeLockRuns.CancelledNeverEnters | src/aiodrive/modules/thread_safe_lock.py:63-79 | A waiter that is cancelled in the queue is never handed the lock |
| ThreadsafeLockRuns.BoundedBypass | src/aiodrive/modules/thread_safe_lock.py:66-79 | A live waiter at index k is served no later than the (k+1)-th release, whatever arrives meanwhile |
| ThreadsafeLockRuns.ServedInOrder | src/aiodrive/modules/thread_safe_lock.py:60-79 | Live waiters are served in arrival order |
| ThreadsafeLockRuns.ThreadsNeedAnEmptyQueue | src/aiodrive/modules/thread_safe_lock.py:67-84 | A blocked thread gets the lock only after a release that finds no live async waiter |
| ThreadsafeLockRuns.BypassWithoutBound | src/aiodrive/modules/thread_safe_lock.py:36-79 | So there is no bound for threads: for every n, a run in which n releases pass a blocked thread by |
| Multiprocessing.MultiprocessingProcess.Spawn | src/aiodrive/modules/multiprocessing.py:200-214 | A call uses up the next id and, if its message was sent, registers a pending future under it |
| Multiprocessing.MultiprocessingProcess.OnFinish | src/aiodrive/modules/multiprocessing.py:175-177 | A Finish message removes its entry and completes that future with its outcome |
| Multiprocessing.MultiprocessingProcess.OnEof | src/aiodrive/modules/multiprocessing.py:169-173 | The end of the connection fails every registered future, touches no other, and empties the table |
| Multiprocessing.ChildProcess.OnMessage | src/aiodrive/modules/multiprocessing.py:104-122 | One message registers a task, cancels a known one, or ends the loop and cancels them all |
| Multiprocessing.ChildProcess.OnDone | src/aiodrive/modules/multiprocessing.py:92-102 | A finished task leaves the table and its Finish message carries its id and outcome |
| Multiprocessing.AwaitResult | src/aiodrive/modules/multiprocessing.py:212-235 | The call ends at the first event that can end it. It returns a value if and only if no cancellation came and the first outcome of its future brought that value, raises an error if and only if the future brought that error, and fails if and only if a Cancel could not be sent; each other cancellation sends one Cancel |
| MultiprocessingRuns.TasksConserved | src/aiodrive/modules/multiprocessing.py:92-122 | In every run each id handed out is in exactly one place, no other id is anywhere, and the parent table is exactly the ids sent and not completed |
| MultiprocessingRuns.ParentNeverFails | src/aiodrive/modules/multiprocessing.py:165-177 | Every pop of the parent table hits and no future is completed while it is done |
| MultiprocessingRuns.CancelNeverOvertakes | src/aiodrive/modules/multiprocessing.py:109-117 | When the child reads a Cancel, it has read the Create of that task before |
| MultiprocessingRuns.MessagesArriveInOrder | src/aiodrive/modules/multiprocessing.py:203-226 | The child reads what was sent, in that order: a Create for each call, a Cancel with the id of its call for each cancellation of a pending one, and the Shutdown |
| MultiprocessingRuns.ReportsArriveInOrder | src/aiodrive/modules/multiprocessing.py:92-102 | The parent collects the outcomes in the order in which the tasks ended |
| MultiprocessingRuns.ReceivesUntilShutdown | src/aiodrive/modules/multiprocessing.py:104-122 | The child receives until it reads a Shutdown, and no longer |
| MultiprocessingRuns.TasksAreTold | src/aiodrive/modules/multiprocessing.py:104-122 | A task still there has been cancelled once for each of its Cancel messages and for the Shutdown that the child has read; one not started is doomed by the first |
| MultiprocessingRuns.StartsUnlessDoomed | src/aiodrive/modules/multiprocessing.py:92-111 | A task starts uncancelled, unless it is doomed; then it is dropped |
| MultiprocessingRuns.NothingPendingAfterEof | src/aiodrive/modules/multiprocessing.py:169-173 | After the end of the connection no registered future is pending, ever |
| MultiprocessingRuns.CompletedOnce | src/aiodrive/modules/multiprocessing.py:175-177 | A completed future keeps its outcome in every continuation |
| MultiprocessingRuns.ResultsAreFaithful | src/aiodrive/modules/multiprocessing.py:200-235 | A value returned by spawn is the one its function produced in the child |
| MultiprocessingRuns.UncancelledCallsSucceed | src/aiodrive/modules/multiprocessing.py:212-235 | Conversely, a call that is never cancelled returns the value or raises the error that its task reported, unless the connection ended first |
| MultiprocessingRuns.CancelledCallNeverReturns | src/aiodrive/modules/multiprocessing.py:216-235 | A call cancelled while it waited never returns a value, even if the task succeeds |
| MultiprocessingRuns.PendingIffDropped | src/aiodrive/modules/multiprocessing.py:92-117 | With nothing left to happen, the pending futures are exactly those of tasks cancelled before their first step |
| MultiprocessingRuns.DroppedStaysPending | src/aiodrive/modules/multiprocessing.py:112-117 | Such a task stays unanswered for as long as the child lives |
| MultiprocessingRuns.CancelBeforeFirstStepIsDropped | src/aiodrive/modules/multiprocessing.py:109-117 | A concrete run in which a call is cancelled at once and waits with nothing left to happen |
| MultiprocessingRuns.DoneIffDoneWhenLeft | src/aiodrive/modules/multiprocessing.py:155-169 | Whatever happens after the receive loop was cancelled on leaving the context, or broken by a failed send, a registered future is done iff it was done at that moment |
| MultiprocessingRuns.LeftWithACallPending | src/aiodrive/modules/multiprocessing.py:141-163 | A concrete run that leaves the context with a call under way, which stays pending after the child has shut down |
| MultiprocessingRuns.FailedSendLosesTheEnd | src/aiodrive/modules/multiprocessing.py:165-173 | A concrete run in which a failed send ends the receive loop with a call pending |
| WatchPath.PathWatcher.UpdateDown | src/aiodrive/modules/watch.py:141-147 | For any filesystem answers, on return only the watched descriptor is open and a creation is reported iff the target is watched; if the filesystem stays as it is from the call on, it returns within a stated number of calls, watching the longest openable prefix |
| WatchPath.PathWatcher.UpdateUp | src/aiodrive/modules/watch.py:149-170 | The same upwards: it finds everything that has appeared below the watched prefix, and closes every intermediate descriptor |
| WatchPath.PathWatcher.UpdateWatch | src/aiodrive/modules/watch.py:172-200 | The same after opening a new path; the early return is never taken |
| WatchPath.PathWatcher.Start | src/aiodrive/modules/watch.py:202-205 | Entering the context settles the watch, on the longest openable prefix if the filesystem stays as it is |
| WatchPath.PathWatcher.OnGone | src/aiodrive/modules/watch.py:117-124 | Reports a deletion if the target was watched, then a creation iff the search that starts over at the parent ends on the target |
| WatchPath.PathWatcher.OnChanged | src/aiodrive/modules/watch.py:125-130 | Reports a write if the target is watched, and otherwise a creation iff the search ends on the target |
| WatchPath.PathWatcher.OnNotice | src/aiodrive/modules/watch.py:111-130 | Every kernel event leaves the watch settled: one descriptor, a prefix of the target, and events that say whether the target exists; it adds exactly the events that `Reported` lists; if the filesystem has stopped changing, a deletion leads to the longest openable prefix, a write at least up to it |
| WatchPath.PathWatcher.OnNotices | src/aiodrive/modules/watch.py:111-130 | Once the filesystem has stopped changing, the first event that reveals a change moves the watch to the longest openable prefix, where it stays, and the events reported are exactly determined; without such an event it does not move |
| WatchPath.PathWatcher.Watch | src/aiodrive/modules/watch.py:108-211 | For any kernel events, leaving the context leaves no descriptor open, and the events are creations, writes and deletions in turn |
| WatchReporter.PathReporter.EagerCallback | src/aiodrive/modules/watch.py:66-90 | Reports the first event at once, cancels the timer for a deletion nobody heard of, and otherwise restarts the timer |
| WatchReporter.EagerDoes | src/aiodrive/modules/watch.py:66-90 | The first event is reported at once; a later one starts the only timer anew, except that a deletion of a path unknown to the caller just cancels it |
| WatchReporter.PathReporter.LateCallback | src/aiodrive/modules/watch.py:92-105 | The timer reports exactly one event: a deletion or a write of a path the caller knows to exist, or the creation of one it does not |
| WatchReporter.ReporterIsSound | src/aiodrive/modules/watch.py:66-105 | For every event stream of the watch and every timer schedule the caller sees creations, writes and deletions in turn, at most one timer is live, the raising arm is never met, and without a timer the last report agrees with the last event |
| WatchReporter.TimersReport | src/aiodrive/modules/watch.py:92-105 | In every run a timer that fires reports one event: a deletion if that was the last event, else a write if the caller knows the path, else a creation |
| WatchReporter.EventsStartTimers | src/aiodrive/modules/watch.py:66-90 | In every run the first event is reported at once, no later one is, and each later one leaves one timer running, unless it deletes an unknown path |
| WatchReporter.ChangesAreHeard | src/aiodrive/modules/watch.py:66-105 | An event of a path that the caller knows to exist is followed by at least one more report by the time that no timer is live |
| WatchContext.PathWatch.Feed | src/aiodrive/modules/watch.py:117-130 | The events of a search reach the reporter one by one, in order |
| WatchContext.PathWatch.OnOccurrences | src/aiodrive/modules/watch.py:58-205 | End to end: for any kernel events and timers, once the filesystem no longer changes, its state was revealed and no timer is live, the last event the caller saw says whether the target exists |
| WatchContext.PathWatch.Leave | src/aiodrive/modules/watch.py:206-211 | Leaving the context leaves no timer and no descriptor, and what the caller saw were creations, writes and deletions in turn |
| ThreadsafeStates.ThreadsafeState.UpdateValue | src/aiodrive/modules/thread_safe_state.py:31-57 | A change stores the value, empties the table and schedules exactly the futures of open loops; without a change nothing happens |
| ThreadsafeStates.ThreadsafeState.ObserveOnce | src/aiodrive/modules/thread_safe_state.py:128-137 | One pass returns a satisfying value or parks on the one future of the loop |
| ThreadsafeStates.WaitUntilSync | src/aiodrive/modules/thread_safe_state.py:116-121 | The loop returns the first value found that satisfies the predicate and parks on all before it |
| ThreadsafeStateRuns.NoLostWakeup | src/aiodrive/modules/thread_safe_state.py:43-57 | In every run a parked observer with a registered future has a false predicate, one whose future was removed has its wake-up scheduled or done or a closed loop, no future is scheduled twice, parked threads have false predicates, and returned values satisfied theirs |
| ThreadsafeStateRuns.LookReturnsCurrentValue | src/aiodrive/modules/thread_safe_state.py:128-137 | In every run, a look returns the current value iff it satisfies the predicate, and otherwise parks on a future that the next change schedules |
| ThreadsafeStateRuns.UpdatesAreKept | src/aiodrive/modules/thread_safe_state.py:31-57 | In every run the value is what the updates make of the first one, in order; nothing else changes it |
| ThreadsafeStateRuns.CancelledObserversAreGone | src/aiodrive/modules/thread_safe_state.py:126-139 | A cancelled observer never returns |
| ThreadsafeStateRuns.ParkedObserverCanReturn | src/aiodrive/modules/thread_safe_state.py:126-139 | A parked observer whose predicate holds returns after at most three steps of its own open loop |
| ThreadsafeStateRuns.NotifiedThreadCanReturn | src/aiodrive/modules/thread_safe_state.py:116-121 | A thread whose predicate has become true has been notified and returns at its next look |
| RWLocks.ThreadsafeRWLock.Enter | src/aiodrive/experiments/rw_lock.py:23-38 | A request is granted at once on a free lock, or as a reader among readers, and is queued last otherwise |
| RWLocks.ThreadsafeRWLock.Leave | src/aiodrive/experiments/rw_lock.py:40-64 | A release hands an emptied lock to the first writer, else to all queued readers, else frees it; it raises at the first request whose loop is closed and leaves the fields as they are then |
| RWLockRuns.ReaderWriterExclusion | src/aiodrive/experiments/rw_lock.py:24-77 | In every run, closed loops and releases that raised included, users are owners, a writer is alone, and nobody owns or queues for a free lock |
| RWLockRuns.FieldsAgree | src/aiodrive/experiments/rw_lock.py:24-64 | As long as no release raised, the lock is free iff it has no owner, a writer's lock has one owner, and queues are empty where they must be |
| RWLockRuns.DisagreeIffRaised | src/aiodrive/experiments/rw_lock.py:48-64 | From a reachable state, a step breaks this iff it is a release whose hand-over meets a closed loop |
| RWLockRuns.ClosedLoopJams | src/aiodrive/experiments/rw_lock.py:49-54 | A concrete run after which the lock is taken without an owner |
| RWLockRuns.CancelQueuedChangesNothing | src/aiodrive/experiments/rw_lock.py:40-46 | The release of a request cancelled while queued changes no field |
| RWLockRuns.WriterEntersInTurn | src/aiodrive/experiments/rw_lock.py:48-54 | A queued writer at index k enters exactly at the (k+1)-th time the owner set empties |
| RWLockRuns.WritersEnterInOrder | src/aiodrive/experiments/rw_lock.py:36-54 | Writers enter in the order of their requests |
| RWLockRuns.ReadersEnterTogether | src/aiodrive/experiments/rw_lock.py:55-62 | When the owner set empties and no writer queues, all queued readers enter together |
| RWLockRuns.WaitersHaveALiveOwner | src/aiodrive/experiments/rw_lock.py:33-64 | In runs without requests cancelled while queued and without releases that raised, a non-empty queue means an owner inside or on its way |
| RWLockRuns.CanEmptyIffNotJammed | src/aiodrive/experiments/rw_lock.py:48-77 | The owner set can still empty if and only if no owner is an entry abandoned in a queue or on a closed loop |
| RWLockRuns.FirstWriterCanEnter | src/aiodrive/experiments/rw_lock.py:48-75 | Unless the lock is jammed, the first queued writer can get inside |
| RWLockRuns.ReadersCanEnter | src/aiodrive/experiments/rw_lock.py:55-75 | So can every queued reader while no writer queues |
| RWLockRuns.CancelledWriterJams | src/aiodrive/experiments/rw_lock.py:48-72 | A concrete run that ends with such an owner |
| OrderedQueues.OrderedQueue.IteratePass | src/aiodrive/internal/queue.py:15-23 | One pass yields the next item, sleeps if it is missing, and stops at the end of a closed queue |
| OrderedQueues.OrderedQueue.PutItem | src/aiodrive/internal/queue.py:41-45 | A put stores its item and presses the button iff the consumer is at that index |
| OrderedQueueRuns.FifoOfReservations | src/aiodrive/internal/queue.py:15-47 | For every order of puts the output is the values of the first reservations in order, and a sleeper is woken iff its item is there or it is at the end |
| OrderedQueueRuns.DrainsAfterClose | src/aiodrive/internal/queue.py:15-33 | Once closed with all reservations filled, the consumer yields them all and stops |
| OrderedMap.Generator.OnItem | src/aiodrive/modules/map.py:86-91 | A job with an item starts its successor if the limit allows and reserves the next place |
| OrderedMap.Generator.OnExhausted | src/aiodrive/modules/map.py:84-94 | The job that finds the end closes the queue and leaves the count |
| OrderedMap.Generator.OnMapped | src/aiodrive/modules/map.py:90-94 | A finished mapper fills its own reservation and leaves the count |
| OrderedMap.OutputIsAPrefix | src/aiodrive/modules/map.py:73-101 | With or without a limit the output is a prefix of the mapped iterable and all of it at the stop, one job at most is fetching, close happens once with no reservation after it, and the count is the live jobs within the limit |
| OrderedMap.RunsAreBounded | src/aiodrive/modules/map.py:79-101 | No interleaving goes on forever |
| OrderedMap.CompleteIffRoomForAll | src/aiodrive/modules/map.py:73-101 | Every run yields exactly the mapped iterable in order and stops, if and only if there is no limit or it exceeds the number of items |
| TaskWaits.CancelEach | src/aiodrive/modules/gather.py:90-97 | The loop cancels each listed task once and no other |
| Gather.SensitivePhase | src/aiodrive/modules/gather.py:83-97 | The first wait cancels all tasks once iff it is interrupted or a task had failed by its turn |
| Gather.SawFailureIff | src/aiodrive/modules/gather.py:83-97 | That phase sees a failure iff at the first turn with an exception or with all tasks done, before any cancellation, some task has failed or was cancelled |
| Gather.DrainsQuietlyIff | src/aiodrive/modules/gather.py:101-134 | The retry loop ends uncancelled with all results iff the schedule has all tasks succeed before some turn and no cancellation before it |
| Gather.Drain | src/aiodrive/modules/gather.py:101-115 | The retry loop ends only when all tasks are done and passes every cancellation on, except the first after a failure |
| Gather.Conclude | src/aiodrive/modules/gather.py:117-134 | The outcome is the exceptions, else the cancellation, else the results |
| Gather.ErrorsSplit | src/aiodrive/modules/gather.py:117-117 | The exceptions come in task order and none is lost |
| Gather.ErrorsOfOne | src/aiodrive/modules/gather.py:117-117 | A task contributes its exception iff it raised one |
| Gather.Gather | src/aiodrive/modules/gather.py:77-134 | For every schedule with n cancellations: all tasks done at the end, n or max(1, n) cancel calls per task, the promised outcome, and a normal return means no cancel call |
| Amass.AlwaysSplit | src/aiodrive/modules/amass.py:60-99 | In every reachable state each awaitable is in one of four places (not started, running, done but unprocessed, processed), the running ones respect the limit, and asyncio.wait was called at most once per awaitable |
| Amass.RunsAreBounded | src/aiodrive/modules/amass.py:68-99 | No interleaving goes on forever: at most one step per event of the schedule, four per awaitable, and one more |
| Amass.EndsForAReason | src/aiodrive/modules/amass.py:80-99 | The generator is never stuck; where it goes no further it has exhausted the awaitables, or a task failed, or it was cancelled or closed by the schedule, or it is suspended with nothing left in the schedule |
| Amass.ExhaustedYieldsAll | src/aiodrive/modules/amass.py:68-99 | Exhausted, it has processed every awaitable and none failed if it is sensitive; when all succeed, the output is a permutation of all results |
| Amass.CloseEnds | src/aiodrive/modules/amass.py:92-107 | In every run, a close of the suspended generator before the consumer asks for more ends it closed, with nothing more yielded |
| Amass.CancelEnds | src/aiodrive/modules/amass.py:83-90 | In every run, a cancellation in a wait before any turn with a pending task done ends it interrupted |
| Amass.StartMore | src/aiodrive/modules/amass.py:69-78 | Starts awaitables in order until the limit is reached or none is left, as a run of the machine |
| Amass.WaitOnce | src/aiodrive/modules/amass.py:83-90 | The wait moves exactly the done futures, iff a turn finds one before any cancellation, and is interrupted iff a cancellation comes first |
| Amass.YieldOnce | src/aiodrive/modules/amass.py:98-99 | The yield ends closed iff the consumer closes before it asks for more |
| Amass.ProcessOne | src/aiodrive/modules/amass.py:92-99 | A result is yielded; a failure ends the loop iff sensitive |
| Amass.ProcessDone | src/aiodrive/modules/amass.py:92-99 | Yields the results of the done futures in any order and stops at a failure if sensitive, or when closed, as a run of the machine |
| Amass.RunLoop | src/aiodrive/modules/amass.py:68-99 | The whole loop is a run of the machine, which ends over or suspended at the end of the schedule; each pass leaves fewer awaitables not started or running |
| Amass.TerminateRest | src/aiodrive/modules/amass.py:104-105 | Exactly the awaitables that were never started are replaced by tasks that terminate them |
| Amass.CleanUp | src/aiodrive/modules/amass.py:100-110 | Cancels the pending futures once and passes later cancellations on, ends with every task done, and raises the exceptions, else a cancellation that came in the finally block or of a task, else nothing, which is decided by the schedule it starts with |
| Amass.Amass | src/aiodrive/modules/amass.py:60-110 | For every schedule: a run of the machine that stops for a reason; all started and terminating tasks done; the output is results of distinct tasks, a permutation of all when exhausted; without an exception iff the schedule left over by the loop lets all tasks succeed before a cancellation |
| Amass.CancellationGetsLost | src/aiodrive/modules/amass.py:88-110 | A concrete schedule in which the generator is cancelled and ends without an exception |
| Shield.ShieldCompletesOnce | src/aiodrive/modules/shield.py:30-49 | In every run the outer future is completed at most once, as the inner one, the assertion in transfer holds, and no callback is left behind |
| Shield.CancellationIsImmediate | src/aiodrive/modules/shield.py:35-49 | A cancellation ends the outer future at once and for good, and leaves the inner one alone |
| Shield.ShieldWait | src/aiodrive/modules/shield.py:71-90 | For every schedule with n cancellations the inner task gets max(0, n - k) of them and is done at the end; the outcome is the promised one iff the schedule does not strike the last await after the inner task failed |
| Shield.LateCancellationHidesFailure | src/aiodrive/modules/shield.py:84-85 | A concrete schedule in which a failure is hidden |
| Shield.ShieldInContext | src/aiodrive/modules/shield.py:141-163 | Cancellations from before the context was made use up the shield; budget and outcome are those of the rest, also when nothing is left of it |
| Scopes.Scope.Cancel | src/aiodrive/modules/scope.py:17-33 | A live scope cancels the task and counts it; an exited one refuses |
| Scopes.Scope.ExitOtherwise | src/aiodrive/modules/scope.py:51-60 | A scope left without a CancelledError takes nothing back |
| Scopes.Scope.ExitCancelled | src/aiodrive/modules/scope.py:53-60 | A scope left with a CancelledError takes back exactly its own requests and raises iff others remain |
| Scopes.Unwind | src/aiodrive/modules/scope.py:37-60 | A CancelledError is absorbed by the innermost scope with nothing left to cancel outside it, and escapes iff external or left-over requests exist; the objects do what the runs below do |
| Scopes.ScopesBalance | src/aiodrive/modules/scope.py:29-60 | In every run the counter is external requests plus live counts plus what scopes left otherwise had requested |
| Scopes.RequestsAreAccounted | src/aiodrive/modules/scope.py:29-60 | In every run each request raises the counter by one, only leaving a scope with a CancelledError lowers it, by the requests of that scope, and those of a scope left otherwise stay |
| Scopes.EscapesIffRestIsPositive | src/aiodrive/modules/scope.py:53-60 | The same absorption rule in any balanced state, which stays balanced |

## Left out

- Sockets, pickling, real processes, signals, kqueue registration and logging: I/O; the models keep messages, open, close, exists and event delivery.
- The asyncio event loop, its selector and its coroutines: assumed as described at the top.
- Two cancellations of one task before it runs again: asyncio delivers them as one error, so the counts of cancellations are counts of delivered ones.
- ThreadsafeLockRuns.MutualExclusion: only holders release; a release by somebody else is not part of the model.
- Amass.CleanUp: gather gets a set there, so the order of the exceptions in the group is arbitrary in the source; the model keeps them in task order.
- Shield.ShieldWait: the awaitable is a future or a task; with a shield count of zero a bare coroutine would run inside its caller.
- MultiprocessingRuns.TasksConserved: sending a Create message and registering the future are one step, as without backpressure; a send to a dead child fails, and the receive loop may then end with that error or still read the end of the connection, whichever comes first.
- WatchPath.PathWatcher.Watch: the root of the filesystem always opens, exists and is never reported gone, and errors of `open` other than a missing or unsuitable path are not modelled; descriptors are told apart by the call that opened them.
- WatchReporter.ReporterIsSound: only with `call_immediately` and a debounce delay; without the delay several callbacks may be scheduled at once.
- OrderedMap.CompleteIffRoomForAll: mappers succeed, the task factory is not eager, and the generator is not closed early.
- UnorderedQueue, and so `map` with `ordered=False`: its close presses no button, and only a prefix property holds.
- ThreadsafeCondition: its waiters register after releasing the lock, so the usual notification claim does not hold.
- ThreadsafeState.wait: it raises unless no loop runs, but asks for the running loop.
- shield_wait_forever: it does not end when the inner awaitable itself ends cancelled.
- race: with cancelled losers it raises a CancelledError through gather.
- Button, Latch, Cargo, GuaranteedTask, daemon handles and other small members: they would add only easy statements.
