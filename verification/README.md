# Verification of the HPGS fibre runtime and its byte codecs

HPGS runs fibres (stackful coroutines) on a pool of worker threads over epoll. Workers take fibres and callbacks
from one queue; fibres park themselves in per-fd event contexts or behind timers; readiness, cancellation and
timeouts put them back into the queue. This project models that runtime, the hooked blocking I/O calls on top of
it, the chunked `ByteArray` with its codecs, and the URL coder, and proves what they promise.

Run `dafny verify dfyconfig.toml` to check everything.

## How it is organised

| files | what they hold |
|---|---|
| `Tasks`, `TimerTasks`, `Wrappers`, `Words` | what the queue and the timers hold, and how often; optional values; word sizes |
| `TimerSpec`, `TimerManager`, `TimerRuns`, `TimerEffects` | the ordered timer set on values; the timer objects and the set as the program has them; all runs of it; what each operation does, timer by timer |
| `IoSpec`, `IoProofs`, `IOManager`, `IoEffects` | event registration on values and what its operations keep; the fd contexts as the program has them; what each operation does, in event bits, contexts and queue |
| `Scheduler`, `Worker` | the queue with its scan, and the worker's loop, as the program has them |
| `Runtime`, `RuntimeProofs`, `RuntimeTheorems`, `RuntimeEffects` | workers, fibres, registrations, timers as one transition system; its invariant; theorems about all runs; what each step does to the fibre and task concerned |
| `TimedIo`, `TimedIoProofs`, `TimedIoTheorems` | the wait/timeout/retry protocol of the hooked calls, for any number of calls at once; its invariant; theorems about all runs, with several workers and with one |
| `TimedIoEffects`, `TimedIoLeftovers`, `TimedIoExamples` | what each step of a call and of its callbacks does, and how a call ends; what a timeout callback can do after its call has returned; three instructive runs |
| `Chunks`, `Tape`, `ByteArray` | a list of blocks as one flat sequence; a buffer with a cursor; the linked list of blocks that implements it |
| `Endian`, `Varint`, `Zigzag`, `Records`, `Readers`, `Codecs` | the codecs on values, records of mixed formats, what the readers make of any bytes, and the writers and readers on a byte array |
| `Url` | percent-encoding |

Where the program changes objects in place the model does too: classes `TimerManager`, `IOManager`, `Scheduler`,
`Worker` and `ByteArray` have the program's fields, and each of their methods is proved to do to an abstract value
`View()` exactly what an operation on values does, failed assertions included. The theorems are then about those operations, and the run-level
ones about every sequence of them.

## What the model takes for granted

The program relies on the following without enforcing it, and so do the runtime theorems.

- A step of the transition system is one critical section, or one switch of fibres together with the worker's
  bookkeeping for it (src/concurrency/scheduler.cc:196-209 and 222-240). Line 199 lowers the count of active
  workers before line 203 queues the fibre again; `RuntimeTheorems.RequeueWindow` says exactly when another worker
  could notice. `YieldToHold` is one step (src/concurrency/fibre.cc:194-199), and so are the evaluation of
  `stopping()` (src/concurrency/iomanager.cc:340-343) and an idle pass after `epoll_wait` (398-462). In the idle
  pass the due timers are out of the set before their callbacks are queued (400-402);
  `RuntimeTheorems.ExpiryWindow` says exactly when the stop condition could be seen there.
- In runs of the runtime, reported events are registered ones. `idle` only tests that some reported event is (src/concurrency/iomanager.cc:433);
  `IoProofs.HandleReadyMeaning` says exactly which reports fail the assertion of line 83, and
  `IoProofs.StaleReportAborts` shows one.
- Growth of the context table is serialised (lines 161-165), an event argument is READ or WRITE, there is one
  scheduler, and `Scheduler::GetThis()` is not null.
- Clients hand a fibre to one waker at a time, register an event once, and do not resume a fibre they did not park.
- The rest of the program leaves a timed call alone while it lasts: it does not delEvent the call's registration, take
  or queue its fibre, or cancel its timer. It may cancel the call's event, and do anything else.
- The clock does not go back, except where rollover is the subject; deadlines in runs stay below 2^64 ms.
- A timer's address is not reused while the timer can still be reached. A timer is identified by its address.
- `epoll_ctl` may fail at any call (the `fault` arguments); when it is not made to fail it accepts exactly the calls
  that are in place: ADD of an unknown fd, MOD and DEL of a known one.
- In the timed I/O protocol anything may come between the steps, as with several workers. The steps of a call are
  adding the timer; `addEvent` with `YieldToHold` (a fibre woken in between is in EXEC and passed over by every scan,
  src/concurrency/scheduler.cc:173-176); waking up, cancelling the timer and reading the flag (src/util/hook.cc:150-156);
  returning. Those of a timeout callback are leaving the queue and looking at the flag; setting it; `cancelEvent`
  (130-137). One worker is the discipline `TimedIoTheorems.OneWorker` on such runs: a fibre or a callback is taken up
  only when no callback is being run and every call in progress is parked, and the kernel does not refuse `cancelEvent`.
- The byte order a program was built for (include/util/myendian.h:45-49) may differ from the machine's: a `Host` has both.
- Block sizes are positive, `ceil(1.0 * size / base)` is the exact ceiling, and signed overflow in the zigzag coder
  wraps in two's complement. Adding bits to a partial varint is written as a sum; the bits do not overlap.

## Where the code differs from what one would expect

- A `ByteArray::read` of no bytes with the cursor exactly at capacity follows a null pointer
  (src/network/bytearray.cc:381), although include/network/bytearray.h documents only an exception. So a list of
  records comes back except exactly when its last one is an empty string and the data fills a whole number of
  blocks (`Codecs.RoundTrip`; `Codecs.EmptyStringsDoNotComeBack` shows it for every block size).
- `writeToFile` runs off the block list exactly when less than a block is left to read and the cursor is not at a
  block's beginning (`ByteArrays.ByteArray.WriteToFile`; example in `Codecs.HalfBlockIsNotSaved`).
- A timeout of a hooked call can be lost with several workers: the callback may run between the adding of the timer
  and the parking of the fibre (`TimedIoExamples.TimeoutCanBeLost`). `TimedIoTheorems.CalmStep` gives the exact steps;
  with one worker there are none (`TimedIoTheorems.OneWorkerMissesNothing`).
- A hooked call adds a timer for its whole timeout at each retry, but its deadline is that of the first wait: a callback
  of an earlier wait that was queued before its timer was cancelled ends the later one, even with one worker
  (`TimedIoExamples.RetryTimesOut`). It never reports ETIMEDOUT before that (`TimedIoTheorems.TimeoutIsNeverEarly`).
- With several workers a timeout callback can outlive its call: no lock spans its look at the flag, the setting of it
  and `cancelEvent` (src/util/hook.cc:132-136), so it may withdraw what somebody else has registered for the same event
  by then (`TimedIoExamples.LeftoverCanHurt`). `TimedIoLeftovers.LeftoversIff` says exactly when. A hooked call so woken
  retries; a callback registered with `addEvent` runs although its event is not there. With one worker it cannot happen.
- A program built for the wrong byte order reads back its own data, but the bytes are in the other order than the array
  says, and other programs do not understand them (`Endian.OrderAsAsked`, `Endian.LoadStoredIff`).
- The URL table also passes '=' (src/util/util.cc:411), which the comment at line 451 does not list.
- With its last reading in the first hour after the epoch, `detectClockRollover` takes any step back for a rollover
  (`TimerSpec.RolloverMeans`).

## Model

| member | source | states |
|---|---|---|
| TimerSpec.ComparatorIsStrictTotalOrder | src/concurrency/timer.cc:6-23 | the comparator is a strict order on possibly null timers, total on different ones |
| TimerSpec.FindSelf | src/concurrency/timer.cc:40-41 | in a sorted set, looking up an element by its current deadline finds it: the unguarded erase is safe |
| TimerSpec.LowerBound | src/concurrency/timer.cc:154 | everything before the position is less than the key, the element at it is not |
| TimerSpec.InsertFresh | src/concurrency/timer.cc:182 | inserting a timer that is not in the set keeps it sorted and free of duplicates and adds exactly that timer |
| TimerSpec.EraseOrdered | src/concurrency/timer.cc:40-41 | erasing keeps the set legal and takes out exactly that timer |
| TimerSpec.CutIsExact | src/concurrency/timer.cc:152-158 | lower_bound and the skip loop cut off exactly the timers due by now, whatever address the search key has; all of them on rollover |
| TimerSpec.RearmMeaning | src/concurrency/timer.cc:163-172 | the loop keeps the set legal and adds exactly the recurring expired timers, at now plus their period |
| TimerSpec.ExpiryMeaning | src/concurrency/timer.cc:133-173 | an expiry pass hands over the due timers' callbacks in comparator order; what stays is the undue timers plus the re-armed recurring ones |
| TimerSpec.ExpiryEmpties | src/concurrency/timer.cc:133-173 | the pass leaves no timer exactly when all are due and none recurs |
| TimerSpec.RolloverMeans | src/concurrency/timer.cc:196-204 | when the wrapping test reports a rollover: the clock went back by over an hour, or at all within the first hour |
| TimerRuns.StepKeepsInv | src/concurrency/timer.cc:36-204 | every operation keeps: sorted set, every deadline exactly one period after the period's start, no missed early wake-up, histories that add up |
| TimerRuns.EveryRunIsSafe | src/concurrency/timer.cc:36-204 | in every run: a timer is due exactly one period after it was added, last fired, refreshed or reset from now; fired + cancelled + armed is 1 for each one-shot timer; either the wake-up flag is set or no deadline is earlier than the last answer |
| TimerRuns.FiringsKeepTheirDistance | src/concurrency/timer.cc:133-173 | in every run a timer fires only at its deadline, a one-shot only once and never after a cancel, a recurring one no sooner than its period after the last time |
| TimerRuns.FiresOnTime | src/concurrency/timer.cc:133-173 | in every run an expiry pass hands over exactly the armed timers whose period has passed since its start |
| TimerRuns.RefreshDelays | src/concurrency/timer.cc:47-60 | after a refresh no pass of any later run hands the timer over before its whole period has passed again |
| TimerRuns.ResetDelays | src/concurrency/timer.cc:62-86 | after a reset not before the new period has passed, since then or since the start of the old one |
| TimerEffects.AddMeans | src/concurrency/timer.cc:175-194 | the new timer is due its period from now, all others stay, and the idle loop is notified if and only if the new one is first and was not preceded by a pending wake-up |
| TimerEffects.CancelMeans | src/concurrency/timer.cc:36-45 | true if and only if the timer is in the set; then exactly it is gone |
| TimerEffects.RefreshMeans | src/concurrency/timer.cc:47-60 | the timer's deadline is now plus its period, everything else about it and all other timers are as before |
| TimerEffects.ResetMeans | src/concurrency/timer.cc:62-86 | the timer has the new period, counted from now or from the start of the old one; the others are as before; the notification is exact; nothing happens for the old period not from now |
| TimerEffects.NextMeans | src/concurrency/timer.cc:115-131 | the answer is the least time to a deadline over all armed timers, 0 if one has passed, all ones if there is none |
| TimerRuns.ResetKeepsArmingInstant | src/concurrency/timer.cc:75-83 | reset without from_now keeps the instant the timer was armed, even where sums wrap |
| TimerRuns.OnlyAddAndResetLowerTheFront | src/concurrency/timer.cc:175-194 | only addTimer and reset bring the earliest deadline forward, and then the wake-up is out |
| TimerManagers.TimerManager.Position | src/concurrency/timer.cc:36-45 | a published timer has a callback exactly when it is in the set, and is found at its one position |
| TimerManagers.TimerManager.Cancel | src/concurrency/timer.cc:36-45 | true exactly for a timer with a callback; takes that timer out of the set and nothing else |
| TimerManagers.TimerManager.Refresh | src/concurrency/timer.cc:47-60 | the timer objects change as the operation on values says; the object's deadline is now plus its period and the set has the same timers |
| TimerManagers.TimerManager.Reset | src/concurrency/timer.cc:62-86 | as the operation on values says, with the shortcut for an unchanged period and the wake-up decision; the object's period and deadline are stated for both values of from_now |
| TimerManagers.TimerManager.AddTimer | src/concurrency/timer.cc:96-101 | a new published timer in the set; the result says whether the idle loop must be woken |
| TimerManagers.TimerManager.Link | src/concurrency/timer.cc:175-194 | insertion under the lock, the front test and the wake-up flag |
| TimerManagers.TimerManager.GetNextTimer | src/concurrency/timer.cc:115-131 | milliseconds to the earliest deadline, 0 if passed, all ones if there is none; clears the wake-up flag |
| TimerManagers.TimerManager.CutPosition | src/concurrency/timer.cc:152-158 | the search and the skip loop compute the cut of the specification |
| TimerManagers.TimerManager.ListExpiredCb | src/concurrency/timer.cc:133-173 | the loop over timer objects does what the expiry pass on values does, and published timers keep their callback exactly while they are in the set |
| TimerTasks.ExpireCount | src/concurrency/timer.cc:159-172 | an expiry pass moves every one-shot callback from its timer to the list handed over, once |
| TimerTasks.RetimeCount | src/concurrency/timer.cc:47-86 | refresh and reset keep the set legal and every callback in it |
| IoProofs.TriggerBoth | src/concurrency/iomanager.cc:82-95 | triggering registered events queues their tasks once each and empties their contexts |
| IoProofs.WakeMoves | src/concurrency/iomanager.cc:82-95 | waking moves each woken task from its context to the queue, once, and no other |
| IoProofs.WakeKeepsInv | src/concurrency/iomanager.cc:265-282 | with the kernel call and the count it keeps bits, contexts, interest list and pending count in agreement |
| IoProofs.GrowKeeps | src/concurrency/iomanager.cc:141-166 | growing the table makes room for the fd and changes no registration |
| IoProofs.AddEventMeaning | src/concurrency/iomanager.cc:152-212 | addEvent finds an empty context and makes a legal epoll_ctl call, so only a kernel fault or a double registration stops it |
| IoProofs.RegisteredKeeps | src/concurrency/iomanager.cc:193-209 | a registration keeps the agreement and puts exactly one more task into the contexts |
| IoProofs.AddEventKeeps | src/concurrency/iomanager.cc:152-212 | addEvent keeps bits, contexts, kernel list and count in agreement and adds exactly the given task |
| IoProofs.DelEventKeeps | src/concurrency/iomanager.cc:214-249 | delEvent keeps the agreement and discards exactly the one registered task |
| IoProofs.CancelEventMeaning | src/concurrency/iomanager.cc:251-284 | cancelEvent wakes exactly the registered event, unless there is none or the kernel faults |
| IoProofs.CancelEventKeeps | src/concurrency/iomanager.cc:251-284 | cancelEvent keeps the agreement and every task |
| IoProofs.CancelAllMeaning | src/concurrency/iomanager.cc:286-326 | cancelAll wakes all events of the fd, READ first, and its closing assertion holds |
| IoProofs.CancelAllKeeps | src/concurrency/iomanager.cc:286-326 | cancelAll keeps the agreement and every task, and leaves the fd without events |
| IoProofs.HandleReadyMeaning | src/concurrency/iomanager.cc:417-461 | one report wakes exactly the reported events; the assertion fails if and only if it names a registered event together with an unregistered one |
| IoProofs.StaleReportAborts | src/concurrency/iomanager.cc:425-461 | a reachable registration and a report for which the assertion fails |
| IoProofs.HandleAllKeeps | src/concurrency/iomanager.cc:407-462 | the loop over consistent reports fails no assertion, keeps the agreement and every task |
| IoEffects.ReportMeans | src/concurrency/iomanager.cc:417-461 | on the bits of the report: READ is withdrawn and its task queued if and only if it is registered and the report says readable or error, WRITE likewise; the assertion fails if and only if the report is about a registered event and names an unregistered one |
| IoEffects.ReportsMean | src/concurrency/iomanager.cc:407-462 | after the loop exactly those registrations are gone that some report, not refused by the kernel, is about |
| IoEffects.HangUpWakes | src/concurrency/iomanager.cc:423-427 | a report of nothing but a hang-up wakes a fibre that waits for reading |
| IoEffects.AddEventMeans | src/concurrency/iomanager.cc:152-212 | the assertion fails if and only if the event is registered; else, without a fault, the task is in the event's half of the context, the bit is set, and nothing else but the table's size is different |
| IoEffects.CancelEventMeans | src/concurrency/iomanager.cc:251-284 | the registered task, if any, goes to the end of the queue and its context is empty; nothing else is different |
| IoEffects.CancelAllMeans | src/concurrency/iomanager.cc:286-326 | the same for both events of the fd |
| IoEffects.DelEventMeans | src/concurrency/iomanager.cc:214-249 | what cancelEvent does, without the queue |
| IOManagers.FdContext.TriggerEvent | src/concurrency/iomanager.cc:82-95 | clears the bit, moves callback or fibre from the context to the queue, drops the scheduler; for an event not registered its assertion fails |
| IOManagers.IOManager.constructor | src/concurrency/iomanager.cc:97-126 | 32 empty contexts, nothing pending, empty interest list, all views in agreement |
| IOManagers.IOManager.ContextResize | src/concurrency/iomanager.cc:141-150 | the loop fills every new position with a new empty context and leaves the others alone |
| IOManagers.IOManager.AddEvent | src/concurrency/iomanager.cc:152-212 | what the method does to the context objects is the operation on values; it ends in the assertion of line 174 exactly when that does, which is for an event already registered |
| IOManagers.IOManager.DelEvent | src/concurrency/iomanager.cc:214-249 | the same for delEvent, which fails no assertion |
| IOManagers.IOManager.CancelEvent | src/concurrency/iomanager.cc:251-284 | the same for cancelEvent, which fails no assertion |
| IOManagers.IOManager.CancelAll | src/concurrency/iomanager.cc:286-326 | the same for cancelAll, which fails no assertion |
| IOManagers.IOManager.HandleReady | src/concurrency/iomanager.cc:417-461 | what the method does to the context objects is the operation on values for any report about a context of the table; in the report's bits: which events are withdrawn and whose tasks queued, and when the assertion of line 83 fails |
| IOManagers.HangUp | src/concurrency/iomanager.cc:423-427 | an I/O manager on which a fibre waits for reading and only a hang-up is reported: the fibre is queued |
| IOManagers.IOManager.HandleAll | src/concurrency/iomanager.cc:407-462 | the same for the loop over any reports, up to the first that fails the assertion |
| IOManagers.IOManager.Stopping | src/concurrency/iomanager.cc:340-343 | true exactly with no timer, no pending event, an empty queue, no active worker and both stop flags |
| IOManagers.IOManager.QueueExpired | src/concurrency/iomanager.cc:398-404 | the due timers' callbacks go to the end of the queue in order |
| IOManagers.IOManager.IdlePass | src/concurrency/iomanager.cc:398-462 | expired callbacks are queued first, then the reports are handled, as the runtime's idle step has it, failed assertions included |
| Schedulers.Scheduler.ScheduleNoLock | include/concurrency/scheduler.h:135-143 | appends a non-empty task; asks for a wake-up when the queue was empty before |
| Schedulers.Scheduler.ScheduleAll | include/concurrency/scheduler.h:84-97 | moves every slot's callback to the queue in order, leaves all slots empty |
| Schedulers.Scheduler.Take | src/concurrency/scheduler.cc:158-186 | takes the first entry neither pinned elsewhere nor executing; the wake-up request is exact |
| Runtime.Scan | src/concurrency/scheduler.cc:162-184 | finds the first entry this thread may take, or none if there is none |
| Workers.ReachableIsFit | src/concurrency/scheduler.cc:152-240 | in every reachable state the assertions on fibre states ahead of a worker hold |
| Workers.Worker.Pop | src/concurrency/scheduler.cc:152-190 | the loop top on the shared fields is the runtime's step: task taken, idle, or exit |
| Workers.Worker.SwapIn | src/concurrency/scheduler.cc:192-222 | resuming a fibre, dropping a dead one, giving a callback its fibre, is the runtime's step; a fibre is run if and only if it is INIT, HOLD or READY, dropped if and only if TERM or EXCEPT; no state assertion fails |
| Workers.Worker.YieldReady | src/concurrency/scheduler.cc:199-232 | the bookkeeping for a fibre that wants to go on is the runtime's step |
| Workers.Worker.YieldHold | src/concurrency/scheduler.cc:199-240 | the bookkeeping for a parked fibre is the runtime's step; a parked callback fibre is given up |
| Workers.Worker.Finish | src/concurrency/scheduler.cc:199-236 | the bookkeeping for a finished fibre is the runtime's step; a callback's fibre is INIT again |
| RuntimeProofs.StepKeepsInv | src/concurrency/scheduler.cc:138-263 | every step of workers, idle loop and clients fails no assertion and keeps the runtime's invariant |
| RuntimeTheorems.EveryRunIsSafe | src/concurrency/scheduler.cc:138-263 | so does every run, and every allowed next step succeeds |
| RuntimeTheorems.EveryTaskIsSomewhere | src/concurrency/iomanager.cc:82-95 | in every run each task handed over is once in a context, the queue, a hand or a timer, or was executed, passed over or discarded; one whose fibre has not ended is never passed over |
| RuntimeTheorems.SkippedHaveEnded | src/concurrency/scheduler.cc:193-196 | in every run only tasks of fibres that have returned or thrown are passed over |
| RuntimeTheorems.NoFibreRunsTwice | src/concurrency/scheduler.cc:172-196 | in every run no fibre executes on two workers, and a fibre is EXEC exactly while a worker runs it |
| RuntimeTheorems.CountersAndPinning | src/concurrency/scheduler.cc:164-184 | in every run the counters are the numbers of busy and idle workers, and a pinned task is only in its own thread's hand |
| RuntimeTheorems.StoppingMeans | src/concurrency/iomanager.cc:340-343 | the stop condition implies no timer, no event, no queued task and no busy worker |
| RuntimeTheorems.QuietStep | src/concurrency/iomanager.cc:357-372 | after it no step without an outside submission executes or queues anything, or ends the condition |
| RuntimeTheorems.StoppedForGood | src/concurrency/iomanager.cc:340-372 | without outside submissions the stop condition stays true in every later run, and no task is executed |
| RuntimeTheorems.StoppedMeansAllDone | src/concurrency/iomanager.cc:340-343 | when it holds, every task ever handed over was executed or discarded, unless its fibre has ended |
| RuntimeTheorems.LeavingStep | src/concurrency/scheduler.cc:242-261 | when it holds, each step of a worker takes it exactly one nearer to leaving `run`, and no other worker's step concerns it |
| RuntimeTheorems.StoppedWorkersLeave | src/concurrency/scheduler.cc:242-261 | so in every run without outside submissions each worker, wherever it is, leaves after a fixed number of own steps, at most four, and can always take the next one |
| RuntimeTheorems.RequeueWindow | src/concurrency/scheduler.cc:199-204 | exactly when the stop condition can be seen between releasing the worker and queueing its fibre again |
| RuntimeTheorems.ExpiryWindow | src/concurrency/iomanager.cc:398-404 | exactly when it can be seen between taking the due timers out of the set and queueing their callbacks |
| RuntimeEffects.PopMeans | src/concurrency/scheduler.cc:162-184 | a worker takes the first entry that is for any thread or for its own, and is not a fibre some worker runs; it gets none if and only if there is none |
| RuntimeEffects.SwapInMeans | src/concurrency/scheduler.cc:192-222 | in every reachable state a fibre in hand is run and counted as executed if and only if it is INIT, HOLD or READY; it is dropped and counted as passed over if and only if it is TERM or EXCEPT |
| RuntimeEffects.CallbackMeans | src/concurrency/scheduler.cc:211-222 | a callback is executed on the worker's spare fibre, or on a new one |
| RuntimeEffects.QueuedFibreRuns | src/concurrency/scheduler.cc:152-196 | a queued fibre that has not ended runs on the next worker for which it is the first candidate |
| RuntimeEffects.YieldReadyMeans | src/concurrency/scheduler.cc:199-232 | the fibre is READY, at the end of the queue for any thread, and in no other place |
| RuntimeEffects.YieldHoldMeans | src/concurrency/scheduler.cc:199-240 | the fibre is HOLD; no task and no registration moves |
| RuntimeEffects.FinishMeans | src/concurrency/scheduler.cc:199-236 | the fibre is TERM or EXCEPT; a callback's is INIT and stays the worker's spare one |
| RuntimeEffects.StoppingIff | src/concurrency/iomanager.cc:340-343 | past time 0 the stop condition holds if and only if both flags are set and nothing is armed, registered, queued or worked on |
| RuntimeEffects.IdlePassMeans | src/concurrency/iomanager.cc:398-404 | the callbacks of exactly the due timers follow the queue, in order |
| RuntimeEffects.LeavesOnlyWhenStopped | src/concurrency/scheduler.cc:248-251 | in every run a worker leaves only after the stop condition held when its idle fibre evaluated it |
| RuntimeEffects.ClientPlaces | include/concurrency/scheduler.h:65-97 | submissions, registrations and one-shot timers give their task exactly one place more, delEvent and a timer's cancel take it; every other operation of a client only moves tasks |
| TimedIoProofs.StepKeepsInv | src/util/hook.cc:116-162 | every step of the timed calls, the timers and the rest of the program fails no assertion and keeps the protocol's invariant |
| TimedIoTheorems.EveryRunIsSafe | src/util/hook.cc:116-162 | so does every run |
| TimedIoEffects.ArmMeans | src/util/hook.cc:123-138 | the call's new timer is due its timeout from now and is the only change to the timers; the first wait is noted once |
| TimedIoEffects.RegisterMeans | src/util/hook.cc:140-150 | the call is registered for its event and parked, or, exactly if addEvent fails, has returned with its timer cancelled |
| TimedIoEffects.ResumeMeans | src/util/hook.cc:150-158 | a woken call tries again if and only if its flag is clear, and reports ETIMEDOUT if and only if it is set; its timer, and only that, is cancelled |
| TimedIoEffects.RunCbMeans | src/util/hook.cc:131-134 | a timeout callback goes on if and only if its call has not returned and the flag is clear |
| TimedIoEffects.SetFlagMeans | src/util/hook.cc:135 | it sets the flag of its own call, if that is in progress, and of no other |
| TimedIoEffects.WithdrawMeans | src/util/hook.cc:136 | it wakes whoever is registered for its call's event, and nobody else |
| TimedIoEffects.ReturnStep | src/util/hook.cc:119-162 | a call returns without ETIMEDOUT if and only if its operation is complete or addEvent failed; with ETIMEDOUT only when woken with the flag set |
| TimedIoEffects.ReturnedHow | src/util/hook.cc:119-162 | the same found in the run of any call that has returned |
| TimedIoEffects.FirstWaitStep | src/util/hook.cc:129-158 | the instant of the first wait is set by the first timer and no retry changes it |
| TimedIoTheorems.TimeoutIsNeverEarly | src/util/hook.cc:129-156 | over any number of retries ETIMEDOUT is reported only when the timeout has passed since the first wait |
| TimedIoTheorems.ParkedCallCanBeWoken | src/util/hook.cc:129-150 | a parked call is queued or registered; with a finite timeout it has a live timeout callback, in a timer, queued or being run, if and only if its callbacks did not all act at the wrong moment |
| TimedIoTheorems.WithdrawWakes | src/util/hook.cc:135-156 | a callback that has set the flag of a parked call queues its fibre, and the call then reports ETIMEDOUT |
| TimedIoTheorems.LiveTimeoutWakes | src/util/hook.cc:130-156 | so does a live callback still queued, in three steps |
| TimedIoTheorems.CalmStep | src/util/hook.cc:130-150 | a step makes a flag stale if and only if the last callback of a call withdraws its event while the call is not parked, or the kernel refuses that |
| TimedIoTheorems.TimelyRunsMissNothing | src/util/hook.cc:129-150 | in runs without such steps every parked call with a finite timeout has a live wake source |
| TimedIoTheorems.SoloStep | src/util/hook.cc:129-150 | with one worker there is no such step: while a callback is being run all calls are parked, and its own is in progress |
| TimedIoTheorems.OneWorkerMissesNothing | src/util/hook.cc:129-150 | so in every run of one worker every parked call with a finite timeout has a live wake source, and no callback of a returned call is halfway |
| TimedIoTheorems.OneWorkerFromTheStart | src/util/hook.cc:129-157 | the same of every run of one worker from the beginning |
| TimedIoLeftovers.LeftoversAreHarmless | src/util/hook.cc:130-157 | what a call returned is final; in every later state no timer of it is armed, its callbacks still queued change nothing but the queue, and none gets past its look at the flag |
| TimedIoLeftovers.LeftoverStep | src/util/hook.cc:132-136 | a callback's step after the return changes more exactly when it is a cancelEvent for which somebody is registered now and the kernel does not refuse; it wakes that one |
| TimedIoLeftovers.LeftoversIff | src/util/hook.cc:130-157 | a returned call's callbacks change more in some later run if and only if one of them is between its look at the flag and the end of its cancelEvent |
| TimedIoExamples.TimeoutCanBeLost | src/util/hook.cc:129-150 | a run in which a call ends up parked past its timeout with nothing left to wake it |
| TimedIoExamples.LeftoverCanHurt | src/util/hook.cc:130-157 | a run in which the callback of a call that has returned ETIMEDOUT withdraws the registration of the fibre's next call, which has no timeout, and wakes it |
| TimedIoExamples.RetryTimesOut | src/util/hook.cc:119-158 | a run of one worker in which a call waits, is woken, waits again and reports ETIMEDOUT, 10 ms after its first wait and before its second timer is due |
| Chunks.CeilIsLeast | src/network/bytearray.cc:504-505 | the block count is the least that fits |
| Chunks.FlatOverwrite | src/network/bytearray.cc:349-368 | a memcpy into one block overwrites the flat sequence at that block's place |
| Tapes.TightIsFull | src/network/bytearray.cc:494-524 | after writes from the beginning on, the data ends exactly at capacity if and only if it fills whole blocks |
| Tapes.ReadMeans | src/network/bytearray.cc:375-403 | for every length: the exception if and only if more bytes are asked for than are left, the null pointer if and only if none at capacity, else exactly those bytes; the cursor moves only then |
| Tapes.WroteMeans | src/network/bytearray.cc:339-373 | byte by byte, the new ones replace those at the cursor and no others |
| ByteArrays.ByteArray.constructor | src/network/bytearray.cc:26-28 | one block, no data, big endian |
| ByteArrays.ByteArray.AddCapacity | src/network/bytearray.cc:494-524 | the data is kept, there is room, and no block more than needed is added |
| ByteArrays.ByteArray.Write | src/network/bytearray.cc:339-373 | the flat data is overwritten at the cursor and extended; the cursor moves; capacity grows by the fewest blocks |
| ByteArrays.ByteArray.Read | src/network/bytearray.cc:375-403 | the flat bytes at the cursor, as many as asked for, and the cursor behind them; the exception if and only if too few are left; the null pointer if and only if none is asked for at capacity; neither moves the cursor |
| ByteArrays.ByteArray.SetPosition | src/network/bytearray.cc:435-451 | the cursor's block is the one the position is in; fails exactly beyond the capacity |
| ByteArrays.ByteArray.Clear | src/network/bytearray.cc:326-337 | the first block only, no data |
| ByteArrays.ByteArray.ToString | src/network/bytearray.cc:526-534 | all data from the cursor on, the cursor unmoved |
| ByteArrays.ByteArray.GetReadBuffers | src/network/bytearray.cc:551-581 | non-empty slices inside single blocks whose concatenation is the promised data |
| ByteArrays.ByteArray.GetReadBuffersAt | src/network/bytearray.cc:583-617 | the same from a given position; runs off the list exactly when position plus granted length exceeds the capacity |
| ByteArrays.ByteArray.UpToTheCursor | src/network/bytearray.cc:583-617 | for positions up to the cursor it cannot; at the cursor both forms give the same bytes |
| ByteArrays.ByteArray.WriteToFile | src/network/bytearray.cc:462-473 | writes exactly the data from the cursor on, or runs off the list exactly when the cursor is unaligned and less than a block is left |
| ByteArrays.ByteArray.ReadFromFile | src/network/bytearray.cc:486-490 | the chunked loop writes the file's bytes at the cursor |
| Endian.StoredInOrder | src/network/bytearray.cc:60-100 | the stored bytes are in the array's byte order on every machine the program is built for, else in the other |
| Endian.LoadedInOrder | src/network/bytearray.cc:206-214 | the loaded value is what the bytes stand for in that same order |
| Endian.InMemoryAt | src/network/bytearray.cc:60-100 | the byte at each place is that of weight 256^i in little endian, 256^(w-1-i) in big endian |
| Endian.OrderAsAsked | include/util/myendian.h:45-49 | all values of more than a byte are stored in the order asked for if and only if the program was built for the machine's |
| Endian.LoadStored | include/util/myendian.h:19-49 | a value comes back, even across machines of different byte order, if both programs were built for their machine's order or neither was |
| Endian.LoadStoredIff | include/util/myendian.h:19-49 | and if not, some value of every width above a byte does not; on one and the same machine all do |
| Endian.SignedComesBack | src/network/bytearray.cc:60-65 | the same through two's complement |
| Varint.DecodeEncode | src/network/bytearray.cc:132-156 | the encoding is complete and decodes to the value |
| Varint.EncodedLength | src/network/bytearray.cc:132-156 | k bytes exactly for values from 128^(k-1) up to 128^k; one byte for 0 |
| Varint.EncodeIsMinimal | src/network/bytearray.cc:132-156 | no encoding of a value is shorter |
| Varint.PrefixFree | src/network/bytearray.cc:246-278 | no complete encoding is the beginning of another |
| Varint.BufferIsEnough | src/network/bytearray.cc:133-148 | the writers' buffers of 5 and 10 bytes suffice |
| Zigzag.EncodeMeans | src/network/bytearray.cc:102-118 | without the wrapping: even codes for non-negative values, odd for negative ones |
| Zigzag.Bijection | src/network/bytearray.cc:102-126 | encode and decode are inverse in both directions, extreme values included |
| Zigzag.EncodedSize | src/network/bytearray.cc:128-145 | at most k bytes exactly for values from -2^(7k-1) up to 2^(7k-1) |
| Records.VarintBack | src/network/bytearray.cc:246-278 | the reader's loop returns the written value and consumes exactly its bytes, whatever follows |
| Records.FixedBack | src/network/bytearray.cc:206-238 | a fixed-width value ahead of the cursor is read back, for every width and cursor position, by every machine that agrees with the writer's as `LoadStoredIff` requires |
| Records.TextBack | src/network/bytearray.cc:294-324 | a string that fits its length field is read back, except an empty one ending at capacity |
| Records.RecordBack | src/network/bytearray.cc:194-324 | every format's reader undoes its writer, except for an empty string ending at capacity |
| Records.OverlongIsCut | src/network/bytearray.cc:170-173 | a string too long for its length field comes back cut |
| Records.AllBack | tests/bytearray_test/test_bytearray.cc:8-22 | a list of records of mixed formats is read back completely, except in exactly one case |
| Readers.EncodingMeans | src/network/bytearray.cc:52-192 | what is written for every format: two's complement in the actual order, varints of the zigzag code, length and bytes |
| Readers.LengthMeans | src/network/bytearray.cc:170-188 | length fields of 2, 4 and 8 bytes with the length modulo their range, or a varint |
| Readers.ReadFixedMeans | src/network/bytearray.cc:194-238 | a value is returned if and only if its bytes are left, and is what they stand for |
| Readers.VarintReaderMeans | src/network/bytearray.cc:246-278 | on any bytes: groups are read up to the first without the top bit, at most 5 or 10; the value is what they stand for modulo the word; the exception if and only if the data ends before |
| Readers.ReadTextMeans | src/network/bytearray.cc:294-324 | on any bytes: the length, then that many bytes; the exception if and only if either is not there, the cursor then behind the length |
| Codecs.WriteFixed | src/network/bytearray.cc:52-100 | fixed-width writers store the bytes of the specification at the cursor |
| Codecs.ReadFixed | src/network/bytearray.cc:194-238 | fixed-width readers return what the specification reads: a value only if its bytes were left, the exception if and only if not, the cursor moved only with a value |
| Codecs.EncodeVarint | src/network/bytearray.cc:132-156 | the loop over a fixed buffer produces the encoding and stays inside the buffer |
| Codecs.WriteVarint | src/network/bytearray.cc:132-156 | stores the encoding at the cursor |
| Codecs.ReadVarint | src/network/bytearray.cc:246-278 | the reading loop is the specification's, error cases and partial consumption included |
| Codecs.WriteText | src/network/bytearray.cc:170-188 | length, then bytes |
| Codecs.ReadText | src/network/bytearray.cc:294-324 | the reader of the specification |
| Codecs.WriteRecord | src/network/bytearray.cc:52-192 | the writer of each format stores the record's encoding at the cursor |
| Codecs.ReadValue | src/network/bytearray.cc:194-324 | the reader of each format returns what the specification reads, or its exception |
| Codecs.WriteAll | tests/bytearray_test/test_bytearray.cc:14-16 | the writing loop leaves exactly the encodings, in order, with not a block too many |
| Codecs.ReadAll | tests/bytearray_test/test_bytearray.cc:18-21 | the reading is the specification's, up to the first failure |
| Codecs.RoundTrip | tests/bytearray_test/test_bytearray.cc:8-22 | writing any records to a new array, rewinding and reading returns them and leaves nothing, for any block size and byte order, except in exactly one case |
| Codecs.EmptyStringsFault | src/network/bytearray.cc:318-324 | that case exists for every block size: reading as many empty strings as a block has bytes faults |
| Codecs.EmptyStringsDoNotComeBack | src/network/bytearray.cc:318-324 | the same written to and read from an array |
| Codecs.HalfBlockIsNotSaved | src/network/bytearray.cc:462-473 | an array whose data writeToFile cannot save: two bytes in a block of four, the cursor at the second |
| Codecs.PastTheEndIsNotGiven | src/network/bytearray.cc:583-617 | an array and a position for which getReadBuffers runs off the list |
| Url.UrlEncode | src/util/util.cc:452-484 | the lazily copying loop gives what an eager encoder gives |
| Url.UrlDecode | src/util/util.cc:486-517 | the same for the decoder |
| Url.UnreservedAre | src/util/util.cc:406-427 | the bytes passed unchanged, as characters |
| Url.DigitsAre | src/util/util.cc:429-446 | hexadecimal digits are read in either case and written as capitals |
| Url.EscapeDecodes | src/util/util.cc:497-508 | '%' and two digits of either case stand for one byte |
| Url.OthersDecode | src/util/util.cc:486-517 | any other byte stands for itself, an incomplete escape included; '+' for a space if asked for |
| Url.DecodeUndoesEncode | src/util/util.cc:452-517 | decoding undoes encoding for every byte string and both flags |
| Url.DecodeWithoutPlus | src/util/util.cc:452-517 | with '+' written for spaces but not read as such, exactly the strings without a space survive |
| Url.EncodedIsWellFormed | src/util/util.cc:406-427 | only table bytes, '+' and complete escapes come out, at most three times as long |
| Url.UnchangedIfUnreserved | src/util/util.cc:457-478 | the output is the input exactly when every byte is in the table |

## Left out

- Real context switching, stacks, thread start and join, locks and memory ordering: steps are atomic.
- A second scheduler: event contexts keep a scheduler pointer, here always the one there is; `switchTo` and `SchedulerSwitcher`.
- The wake-up pipe: `tickle` writes to it and `idle` drains it; the model returns the request for a wake-up instead.
- Liveness and fairness: that a wake-up is followed by a worker's turn, or that `stop()` returns.
- The truncation of timer distances to int at src/concurrency/iomanager.cc:382, for distances of 2^31 ms or more.
- Reuse of a dead timer's address, and a fd closed behind the hooks' back while the kernel forgets its registration.
- `sleep`, `usleep`, `nanosleep`: one addTimer whose callback schedules the fibre; `close`: cancelAll and a table entry; `connect`: the timed protocol without its retry.
- do_io's tests for plain files, user non-blocking fds and closed fds, which call straight through; the EINTR loop.
- Runtime.Step: models the fibre and worker objects as values, since one run interleaves many of them; `Workers.Worker` ties the loop's own code to those steps.
- RuntimeTheorems.StoppingMeans: asks for a clock past 0, since at time 0 a deadline of 2^64-1 looks like no timer at all.
- `ByteArray::read` with an explicit position: it starts at the cursor's block whatever position is given, and is modelled as `toString` uses it.
- `toHexString`, which prints the second byte for every one (src/network/bytearray.cc:545), and `getWriteBuffers`, declared only.
- Opening files and their errors: `WriteToFile` returns the bytes written, `ReadFromFile` takes the bytes there are.
- Floats beyond their bit pattern, which the fixed-width formats carry; `writeStringWithoutLength`, which has no reader.
- Sockets, SSL, servers, addresses, MySQL, configuration, logging and JSON: thin wrappers over libraries that are not part of this model.
