# A verified model of the kcom core

kcom lets Windows drivers write COM objects and asynchronous tasks in Rust. This project models
the parts of it that are hard to get right and proves what they are meant to guarantee, for every
input, every interleaving and every run.

**Protocols.** The DPC executor and the kernel timer are machines of sequentially consistent
atomic steps (`DpcTask`, `KernelTimer`): any number of threads may be inside `schedule`,
`release`, `cancel` or `dpc_routine` at once, each at a program point with its locals, and the
future may do anything while it is polled. A run is a sequence of states, each a step away from
the one before; the theorems quantify over all runs. `DpcSystem` puts many tasks together with the
per-processor slots and the tracker. `AsyncTask` lets a task carry the operation it runs and the
object whose method it is, with the polls, drops and takes that the executor makes and no others,
and `AsyncSystem` does so for many tasks; `TimerTask` joins a task to the timer it waits for.
`DpcEnd` and `TimerEnd` show that every state a run can reach can still be brought to its end.
`DpcExecutor` and `TimerFuture` hold the same functions as imperative programs on the shared
cells, in which everybody else may act between any two accesses; their invariant says that what
happened so far is a run of the machine, so every theorem about runs is a theorem about them.

**Sequential code.** COM objects (`ComObjects`), the cancellable future (`Cancellable`), the
cells of an operation and its spawn paths (`AsyncShim`), the pool allocator (`PoolHeap`) and the
UNICODE_STRING types (`UnicodeStrings`) are classes and methods with loops, proved against
functions whose own laws are lemmas (`ComIdentity`, `BitMask`, `Utf16`, `RefCount`).

## What the environment promises

- The KDPC is a one-place queue: an insert fails exactly when it is queued already, and it leaves
  the queue before its routine starts, so a running task can be queued again.
- Rust's borrow rule: a waker or handle outlives the calls made through a borrow of it.
- `FutureLifecycle`, and what rests on it, assumes that two DPC activations of one task do not
  overlap; the ledger, wake and leak theorems and `CanceledOnlyIfCancelled` do not.
  `OverlapPollsAfterDrop` shows a run without the assumption in which the future is polled after it
  was dropped.
- A processor with a slot runs one DPC at a time.
- `KeCancelTimer` succeeds exactly when the timer is in the timer queue, `KeRemoveQueueDpc` exactly
  when its DPC is in the DPC queue.
- With the plain counter, clients hold fewer than 2^32 references; the hardened counter stops
  the machine instead. `HardenedAndPlainAgree` and `PlainWraps` say how the two relate.

## Where the code does not do what is said of it

- A poll budget of n allows n + 1 polls in one activation, not n as the comment at
  `src/executor.rs:143` says (`BudgetBound`, `BudgetReached`); it makes the last of them exactly when
  each of the first n returned `Pending` and found the task woken (`LastPollExactly`).
- An operation made by `spawn_error_raw` with STATUS_SUCCESS hands its reader a value that nobody
  wrote, and no other operation does (`UnwrittenExactly`, `ErrorOperation`).
- A timer future polled by two tasks can leave one of them `Pending` without a wake; exactly the
  timers polled by at most one task keep the promise (`WakeNeedsOneTask`).
- The allocator answers an empty layout with address 1, so what it returns is a multiple of the
  alignment exactly when the layout is not empty or the alignment is 1 (`PoolHeap.Heap.Alloc`).
- A failed QueryInterface nulls its output only if it was given an interface to look for: with a
  null `riid` the output keeps what it held (`QueryInterface`, `NullRiidKeepsOutput`).
- A taken cancellation does not always cancel the operation: a request that comes after the
  operation's own `Cancellable` has asked can be taken by one nested in the user's future, and then
  the operation can complete (`NestedTakeCompletes`) and is never Canceled; when the task's block is
  freed it is Canceled exactly if the take was its own (`TakeDecides`).
- A guard made in the first poll gives its reference back exactly when there was a first poll that
  was not cancelled (`GuardGivesBackOnce`, `UnpolledTaskLeaks`); that the executor polls every
  future before it drops it, and that nobody can cancel a method call, is what makes this safe
  (`AsyncCallBalance`).

## Model

| member | source | states |
|---|---|---|
| `DpcTaskProofs.LedgerHolds` | src/executor.rs:290-527 | in every state of every interleaving of schedule, release, cancel, takes of the request, wakers and routines the counter equals spawn reference, handles, wakers, queued entry, routines and inserting schedulers added up; the block is freed at most once, only with no holder left, and no thread is about to touch it afterwards |
| `DpcTaskProofs.NothingLeaks` | src/executor.rs:297-317 | once all calls have returned and no handle, waker or queue entry is left, the block was freed exactly once and the future polled and dropped |
| `DpcTaskProofs.NoLostWake` | src/executor.rs:319-377 | after any wake, cancel or schedule step and until a poll begins, the task is completed or the KDPC is queued or some thread is at a point that leads to a poll, whichever exchange or insert failed meanwhile |
| `DpcTaskProofs.FutureLifecycle` | src/executor.rs:393-435 | with activations that do not overlap: until the first poll one is due; polls are never concurrent, and begin and go on only before `Ready` and before the drop, so nothing is dropped while it is polled; at most one drop, only after a poll; exactly one by the time the block is freed |
| `DpcTaskProofs.PushKeptOn` | src/executor.rs:331-377 | `scheduled` on an uncompleted task always has a queued KDPC or a thread bound to queue it or clear the flag |
| `DpcTaskProofs.RunKeepsInv` | src/executor.rs:290-527 | the invariant behind these theorems holds in every state of every run |
| `DpcBudget.BudgetBound` | src/executor.rs:436-474 | under a budget of n polls no activation polls more than n + 1 times, and one that stops for its budget leaves the KDPC queued |
| `DpcBudget.BudgetReached` | src/executor.rs:393-474 | for every n a run of the machine from the spawn, with activations that do not overlap, in which a future that wakes itself in each poll is polled n + 1 times by one activation, which then queues itself again: no budget meets the documented bound |
| `DpcBudget.LastPollExactly` | src/executor.rs:436-474 | over any run, an activation under a budget of n makes poll n + 1 if and only if each of its first n polls returned `Pending` and found `scheduled` set |
| `DpcDue.DuePollCanBegin` | src/executor.rs:331-412 | from every state of a serial run in which a poll is due and the future has not answered `Ready`, some serial continuation begins one, no longer than the work that the calls under way have left: a due poll is never blocked |
| `DpcEnd.EveryTaskCanEnd` | src/executor.rs:290-481 | from every state of every serial run, with room in the counter, some serial continuation, no longer than the work and the owners left, lets all calls return, all references go back, the future be dropped once and the block freed once: no deadlock and no state that must leak |
| `DpcClaims.WakesCoalesce` | src/executor.rs:331-360 | wakes and cancels coalesce exactly: a `schedule` at its exchange goes on to queue the KDPC if and only if no earlier one did since an activation last cleared the flag |
| `DpcClaims.FirstCancelTakesEffect` | src/executor.rs:319-329 | over any run a call of `cancel` goes on to schedule the task if and only if it is the first one, even if the request was taken meanwhile |
| `DpcClaims.CompletionIsFinal` | src/executor.rs:331-412 | once completed with no call on its way to the queue or to a poll, a task is never queued and never polled again, whoever wakes or cancels it |
| `DpcClaims.OwnersCounted` | src/executor.rs:483-527 | over any run the wakers are those cloned and not consumed, and there is one handle, from its making to its drop, exactly if the spawn was asked for one |
| `DpcClaims.ClientsCanAct` | src/executor.rs:483-527 | at every moment of a run: exactly when a waker can be cloned, lent, woken or dropped, and when a handle can cancel or be dropped |
| `DpcOverlap.OverlapPollsAfterDrop` | src/executor.rs:391-435 | a run with overlapping activations in which a poll begins after the future was dropped: the assumption of `FutureLifecycle` is needed |
| `DpcSystem.TakerFindsOwnTask` | src/executor.rs:219-280 | the slot that a polled future reads on its processor names its own task, which is not freed |
| `DpcSystem.SlotsNameLiveTasks` | src/executor.rs:405-477 | over every run a processor has a slot entry if and only if some activation on it is between setting and clearing it; the entry names the task of that activation, which is not freed |
| `DpcSystem.FlagMoves` | src/executor.rs:319-329 | a step leaves the cancel flag of a task alone, or moves it from 0 to 1 in `cancel`, or from 1 to 2 in a take, and in no other way |
| `DpcSystem.TakenAtMostOnce` | src/executor.rs:262-280 | over any run at most one take of a task's request succeeds |
| `DpcSystem.TakenOnlyAfterCancel` | src/executor.rs:319-329 | a flag that is set was set by an earlier `cancel` through a handle of that very task |
| `DpcSystem.TrackerCounts` | src/executor.rs:1891-1912 | `pending` is the number of tracked tasks between begin and complete; at zero every begun one has been polled and dropped, exactly once if activations do not overlap, and its block freed exactly once |
| `DpcSystem.TaskOfSystemRuns` | src/executor.rs:199-280 | every task of every run of many tasks with slots and takes has itself made a run of one task, a serial one if activations do not overlap, so all theorems about runs of one task hold of it |
| `DpcExecutor.Task.constructor` | src/executor.rs:570-609 | a new task stands at the start of a run of the step machine |
| `DpcExecutor.Task.Moved` | src/executor.rs:290-481 | an atomic access followed by the thread's next program point is a step of the machine |
| `DpcExecutor.Task.AddRef` | src/executor.rs:292-295 | with any interference, adding a reference is one step of the run; it is refused only at the counter's limit |
| `DpcExecutor.Task.Release` | src/executor.rs:297-317 | with any interference between its accesses, release, the final drop, the free and the report are steps of a run |
| `DpcExecutor.Task.Cancel` | src/executor.rs:319-329 | with any interference cancel and the schedule it makes are steps of a run that ends idle; only a counter at its limit cuts it short |
| `DpcExecutor.Task.TakeCancellationRequest` | src/executor.rs:262-280 | a step of a run during a poll; it takes the request if and only if one is pending and the processor has a slot |
| `DpcExecutor.Task.Schedule` | src/executor.rs:331-360 | likewise for load, exchange, add_ref, insert and the release when the insert is refused; only a counter at its limit cuts it short |
| `DpcExecutor.Task.QueueDpc` | src/executor.rs:363-377 | likewise for the queueing again when the budget is spent |
| `DpcExecutor.Task.DpcRoutine` | src/executor.rs:379-481 | the whole routine with its loop is a run of the machine that ends idle, unless a counter is at its limit, a borrow outlasts a poll or the given answers run out; with a budget of n it makes at most n + 1 rounds |
| `DpcExecutor.Task.WakeRaw` | src/executor.rs:503-510 | wake is schedule and then release of the waker's reference, as steps of a run |
| `DpcExecutor.Task.Spawn` | src/executor.rs:1963-2042 | tracker, optional handle, first schedule and release of the spawn reference, as steps of a run |
| `KernelTimer.LedgerHolds` | src/executor.rs:842-970 | over every interleaving of poll, expiry, DPC and drop: the count is the owner's reference plus the timer's, the timer's is given back as often as taken and at most once, a recalled timer leaves `Drop` both references to give back, the block is freed exactly once, when nothing uses it, and no step follows |
| `KernelTimer.DropCancelsTimer` | src/executor.rs:958-970 | over every run the timer is in no timer queue from the KeCancelTimer of `Drop` on |
| `KernelTimer.RecallDecided` | src/executor.rs:958-970 | the second release is due if and only if KeCancelTimer found the timer queued or KeRemoveQueueDpc its DPC, and nothing later changes that |
| `KernelTimer.NoWakeAfterDrop` | src/executor.rs:896-909 | a routine that finds the future being dropped never wakes anybody |
| `KernelTimer.PendingPollIsWoken` | src/executor.rs:887-909 | for a timer polled by one task, every poll that found it not fired is followed by a wake of the task once it fires, or the routine is still on its way to it, unless the future is dropped |
| `KernelTimer.ReadyAfterFired` | src/executor.rs:916-923 | a poll that looks after the routine has fired returns `Ready` at once, whatever happened between |
| `KernelTimer.SecondTaskNotWoken` | src/executor.rs:916-954 | for any two different tasks a run in which the second one's `Pending` poll is never followed by a wake |
| `KernelTimer.WakeNeedsOneTask` | src/executor.rs:887-954 | every `Pending` poll gets its wake in every run if and only if the set of polling tasks has at most one member |
| `TimerEnd.LastPollerIsWoken` | src/executor.rs:896-928 | with any number of polling tasks the wake goes to exactly the one whose poll was the last to store its waker |
| `TimerEnd.EveryTimerCanEnd` | src/executor.rs:842-970 | from every state of every run, with either counter, some continuation of at most 24 steps frees the block |
| `TimerEnd.EitherQueueRecalls` | src/executor.rs:958-970 | for every task a run in which the timer queue, and one in which the DPC queue, hands the timer back to `Drop`, which then frees the block without the routine ever running |
| `TimerTask.FiredTimerGetsPolled` | src/executor.rs:887-954 | timer and task together: after a `Pending` poll and once the timer has fired, unless it is dropped, its routine is on its way to the wake, or it has woken the task and since then a poll of the task is due until one begins, unless the task is completed |
| `TimerTask.ReadyAfterWake` | src/executor.rs:916-923 | from that wake on every poll of the timer is `Ready` at its first look |
| `TimerTask.WakeNeverBlocked` | src/executor.rs:896-905 | the routine always finds the task's waker in the block and can wake the task |
| `TimerTask.WakersBalance` | src/executor.rs:896-928 | over every run of task and timer the task's wakers are those its clients cloned and did not consume, plus the one in the timer's block from the first store until the block is freed: storing anew drops the old one, freeing the block the last one |
| `TimerFuture.Timer.Poll` | src/executor.rs:916-954 | with any interference it is a run of the machine; `Ready` if and only if its look found the timer fired; else it leaves the timer armed and this task's waker stored |
| `TimerFuture.Timer.Drop` | src/executor.rs:958-970 | with any interference it ends with the timer in no timer queue; it reports a recall if and only if one of the two kernel queues handed the timer back, and then the block is freed by the end; otherwise the timer side still holds or frees it |
| `TimerFuture.Timer.TimerDpcRoutine` | src/executor.rs:887-909 | fires, wakes nobody if and only if its look found the future being dropped, otherwise the task whose waker is stored at the wake, and releases once |
| `Cancellable.Cancellable.Poll` | src/task.rs:43-80 | after any earlier polls and for any answers: no rule of the two futures is broken, the state tells which are left, the loop ends within two rounds, and acts and answer are those of `PollMeans` |
| `Cancellable.PollMeans` | src/task.rs:43-80 | what the answer of a poll says of the futures: `Ready(Some(v))` if and only if main was polled and finished with v; `Ready(None)` if and only if the poll ended by finishing and dropping the cleanup; a panic if and only if nothing was left before; `Pending` if and only if some future is left after it |
| `Cancellable.Cancellable.Drop` | src/task.rs:83-98 | after any polls and the drop, main and cleanup have each been dropped exactly once and no rule was broken |
| `Cancellable.PollsLawful` | src/task.rs:43-80 | for every sequence of polls and answers: nothing is polled or dropped once gone, the cleanup is polled only after a taken request dropped main, the request is taken once |
| `Cancellable.LifeEndsOnce` | src/task.rs:83-98 | with a drop after any sequence of polls, main and cleanup are each dropped exactly once |
| `Cancellable.CancelledMeansTaken` | src/task.rs:46-80 | `Ready(None)` only after a taken request, and once the cleanup runs no poll answers with a value |
| `AsyncOperation.ReaderGetsWhatWasStored` | src/async_com.rs:182-218 | with stores and loads interleaved, a reader that saw Completed gets the value the future finished with, one that saw Canceled gets STATUS_CANCELLED, one that saw Started STATUS_PENDING, one that saw Error the code of the error operation unless that is STATUS_SUCCESS |
| `AsyncOperation.AnswerNeverChanges` | src/async_com.rs:330-352 | after a terminal status every later reader gets the same answer |
| `AsyncOperation.ErrorOperation` | src/async_com.rs:288-293 | for every code a run that makes the error operation; its reader takes an unwritten value if and only if the code is STATUS_SUCCESS, else gets that code |
| `AsyncOperation.UnwrittenExactly` | src/async_com.rs:116-131 | over all runs of stores and loads a reader takes a value that nobody wrote if and only if the operation was made by `spawn_error_raw` with STATUS_SUCCESS and has been published |
| `AsyncOperation.TaskReferenceBalance` | src/async_com.rs:225-286 | over any interleaving of client references, polls and the drop in which the future is polled before it is dropped, the count is clients plus task, the task's reference is given back exactly once and the object freed exactly once, at zero; `OperationOfCallRuns` shows that the executor makes only such runs |
| `AsyncOperation.ClientsCounted` | src/async_com.rs:225-286 | the clients own the reference of the spawn and those they added less those they gave up, and can add and release exactly as long as they own one, whatever the task does |
| `AsyncOperation.UnpolledTaskLeaks` | src/async_com.rs:244-286 | over every run without the executor's guarantee, a dropped task has given its reference back if and only if it was polled before; otherwise the operation is never freed, whatever its clients do |
| `AsyncOperation.CanceledOnlyIfTaken` | src/async_com.rs:259-272 | the status is Canceled if and only if some poll took the request; `CanceledOnlyIfCancelled` leads the request back to a handle |
| `AsyncOperation.CellsHold` | src/async_com.rs:259-272 | over every run a completed operation holds success and the value with which an earlier poll finished the future, a canceled one STATUS_CANCELLED, any other nothing |
| `AsyncOperation.CompletedExactly` | src/async_com.rs:259-272 | the status is Completed if and only if some poll finished the future without a request |
| `AsyncOperation.OperationAnswers` | src/async_com.rs:330-352 | a reader at any moment of any run, whenever it reads on: the value the future finished with exactly when it saw Completed, STATUS_CANCELLED when Canceled, STATUS_PENDING before |
| `AsyncOperation.OperationIsPublished` | src/async_com.rs:182-203 | the cells of an operation at any moment are the end of a run of the publication machine, for a completed one exactly the value, success and Completed in that order |
| `ReleaseGuard.GuardGivesBackOnce` | src/macros/declare_interface.rs:342-358 | over any polls and the drop, the release guard runs once if there was a first poll that took no request, else never |
| `AsyncShim.SpawnRawCancellable` | src/async_com.rs:225-286 | on allocation failure every reference made is given back and the operation freed once; on success the counts are those with which the operation machine begins |
| `AsyncShim.AsyncMethodShim` | src/macros/declare_interface.rs:306-365 | the reference on the target stays out exactly when the task runs, and is given back on init failure and both allocation failures, which answer null; with a running task the operation and the target stand where the machine of the call begins |
| `AsyncShim.AsyncOperationTask.GetResult` | src/async_com.rs:330-352 | at any point of the stores, error operations included: the finished value exactly when Completed, STATUS_CANCELLED when Canceled, STATUS_PENDING before, the stored error otherwise, and an unwritten value if and only if that error is STATUS_SUCCESS |
| `AsyncShim.AsyncOperationTask.StoreResult` | src/async_com.rs:182-189 | store by store a run of the publication machine, so in the order readers rely on; at the end value, success and Completed |
| `AsyncShim.AsyncOperationTask.StoreCanceled` | src/async_com.rs:199-203 | likewise for a cancelled operation |
| `AsyncShim.AsyncOperationTask.StoreError` | src/async_com.rs:192-196 | likewise for an error operation |
| `AsyncTask.TaskOfCallRuns` | src/async_com.rs:258-285 | the task that runs an operation makes a serial run of the executor machine, so `FutureLifecycle` holds of its future |
| `AsyncTask.OperationOfCallRuns` | src/async_com.rs:258-272 | the operation that the executor polls and drops makes a run of the operation machine, in which it is polled before it is dropped |
| `AsyncTask.NeverBlocked` | src/async_com.rs:225-286 | whatever the executor does the operation can follow: no release finds a count at zero, nothing finished or dropped is polled |
| `AsyncTask.AsyncCallBalance` | src/macros/declare_interface.rs:306-365 | from the spawn to beyond the freed task block, with clients of operation and target acting at any time: both counts are the references owned, each object is freed once, at zero, whoever releases last; at the freed block the operation's reference has been given back once, the target's if and only if the first poll took no request, as it never does when nobody cancels |
| `AsyncTask.TargetClientsCounted` | src/macros/declare_interface.rs:306-365 | the clients of the target own what they began with and added less what they gave up, whatever the call does, and can add and release exactly as long as they own one |
| `AsyncTask.CallAnswers` | src/async_com.rs:259-352 | over every call, run by the executor: a reader gets the value with which the future finished a poll exactly when Completed, STATUS_CANCELLED when Canceled, STATUS_PENDING before |
| `AsyncTask.TakeDecides` | src/async_com.rs:259-272 | a successful take decides: taken by the operation's own `Cancellable` it never completes, taken by a nested one it is never Canceled, and when the block is freed it is Canceled if and only if the take was its own |
| `AsyncTask.CancelTakesEffect` | src/task.rs:46-63 | a poll that begins while the request is pending, on a processor with a slot, ends with the operation Canceled: its own `Cancellable` asks first, so no nested one can come before it |
| `AsyncShim.AsyncMethodCall` | src/macros/declare_interface.rs:306-365 | a failed shim leaves the target as it was; otherwise the two objects stand where any run of what may follow begins, and at each of its moments the balance holds, with both references given back once the task block is freed, even when the guard's release is the last |
| `AsyncSystem.CanceledOnlyIfCancelled` | src/async_com.rs:259-272 | over every run of many tasks, an operation is Canceled only if a handle of the very task that runs it was cancelled before |
| `AsyncSystem.CarriedTakeDecides` | src/async_com.rs:259-272 | the same over every run of many tasks whose activations do not overlap, for any successful take of the task's request |
| `AsyncSystem.CarriedCancelTakesEffect` | src/executor.rs:262-280 | the same over every such run of many tasks, through the processor's slot: a cancel before a poll begins makes that poll end Canceled |
| `AsyncSystem.FailedTakeIsRefused` | src/executor.rs:262-280 | a take through the slots fails exactly when no request of the polled task is pending or the processor has no slot |
| `AsyncNested.NestedTakeCompletes` | src/task.rs:102-108 | for every value a serial run in which a `Cancellable` nested in the user's future takes the request, after its own asked in vain, and the operation then completes |
| `AsyncSystem.CarriedBalance` | src/async_com.rs:225-286 | the balance of `AsyncCallBalance` for every operation that a task of the system carries |
| `ComIdentity.MatchFindsFirst` | src/macros/impl_interface.rs:68-111 | the unrolled comparisons find the first secondary with the IID, at its index, or none exactly when no secondary has it |
| `ComIdentity.LookupFinds` | src/macros/impl_interface.rs:205-253 | found if and only if the IID is IUnknown, the primary, a secondary or a parent, at a place that carries the vtable asked for; IUnknown is the primary |
| `ComIdentity.FindsItself` | src/macros/impl_interface.rs:205-253 | an interface asked for its own IID answers with itself if and only if none compared earlier has the same IID |
| `ComObjects.ComObject.constructor` | src/wrapper.rs:453-475 | one reference, owned by the pointer handed out, and every parent pointer leads back to the object |
| `ComObjects.AddRef` | src/wrapper.rs:126-137 | one more reference through the pointer and the new value of the count that moved; in an aggregate only the non-delegating pointer moves the inner count and every other moves only the outer one |
| `ComObjects.Release` | src/wrapper.rs:140-162 | one reference less on the right count, whose new value is reported, and the inner value dropped and freed once, exactly when the object's own count reaches zero |
| `ComObjects.QueryInterface` | src/wrapper.rs:514-553 | answers what the lookup through the followed parent pointer says; success writes the pointer and adds one reference through it, anything else adds none; a failure that the object reports nulls the output if an interface was asked for and leaves it alone if `riid` is null |
| `ComObjects.Find` | src/macros/impl_interface.rs:205-253 | the comparisons through the followed parent pointer find exactly what the answer function says, a pointer of the same object |
| `ComObjects.NullRiidKeepsOutput` | src/wrapper.rs:530-533 | for every object and pointer a query with a null `riid` fails and leaves a stale pointer in the output |
| `ComObjects.QueryLaws` | src/wrapper.rs:514-642 | the answer does not depend on the interface asked, IUnknown is the primary, success is reflexive, symmetric and transitive, what is answered carries the vtable and leads back to the object |
| `ComObjects.AggregateAnswers` | src/wrapper.rs:1041-1076 | in an aggregate the non-delegating pointer is its own IUnknown and answers everything else with delegating pointers, which never answer it |
| `ComObjects.FromRawAddRef` | src/smart_ptr.rs:93-102 | a smart pointer to the same interface owning one new reference, or none at the hardened limit |
| `ComObjects.FromRaw` | src/smart_ptr.rs:50-55 | a smart pointer takes over one raw reference and no count moves |
| `ComObjects.IntoRaw` | src/smart_ptr.rs:109-113 | turns the owner of a reference from smart to raw and moves no count |
| `ComObjects.DropRc` | src/smart_ptr.rs:156-160 | releases the one reference that the smart pointer owns |
| `ComObjects.QueryRc` | src/smart_ptr.rs:116-135 | a smart pointer owning exactly the reference that QueryInterface added |
| `ComObjects.Run` | src/wrapper.rs:480-590 | over any run of operations through any pointers both counts equal the references owned, and the value is dropped and freed once, exactly when the object's own references have run out |
| `RefCount.AtomicCounter.Increment` | src/refcount.rs:60-79 | the new value, wrapping or refused as built; a refusal leaves the cell alone |
| `RefCount.AtomicCounter.Decrement` | src/refcount.rs:96-115 | the same for the way down |
| `RefCount.HardenedAndPlainAgree` | src/refcount.rs:60-115 | over any sequence of changes the hardened counter survives if and only if the number of references stays within 0 and i32::MAX, and then both counters are that number |
| `RefCount.PlainWraps` | src/refcount.rs:60-64 | the plain counter is the number of references modulo 2^32 |
| `BitMask.MaskRoundsUp` | src/allocator.rs:434-440 | for a power of two the mask yields the first multiple at or after the start, within one alignment of it |
| `PoolHeap.UserAddressFits` | src/allocator.rs:426-442 | the address exists if and only if rounding cannot overflow; it is aligned, leaves room for a header on a word boundary, and fits what was requested |
| `PoolHeap.HeaderNamesBase` | src/allocator.rs:442-483 | the header words read back are the magic, the alignment and the pool's address that were written |
| `PoolHeap.HeaderLayout` | src/allocator.rs:442-461 | the header is the address that the pool gave, or in a debug build three words: the magic 0x4B434F4D, that address and the alignment |
| `PoolHeap.LiveBlocksDisjoint` | src/allocator.rs:404-461 | no two live blocks overlap and none overlaps another's header |
| `PoolHeap.Heap.AllocOveraligned` | src/allocator.rs:404-461 | null exactly on overflow or a refused pool request, leaving nothing behind; otherwise a sound block, older blocks and their contents untouched, zeroes if asked |
| `PoolHeap.Heap.DeallocOveraligned` | src/allocator.rs:464-483 | the pool gets back exactly the base its allocation received, and the debug checks pass |
| `PoolHeap.Heap.Alloc` | src/allocator.rs:533-578 | dispatch for all builds: null exactly in the cases of `AnswerExactly`; served without a header at the address of the pool; a multiple of the alignment if and only if the layout is not empty or the alignment is 1, inside its pool block, all other blocks unchanged |
| `PoolHeap.AnswerExactly` | src/allocator.rs:404-578 | null if and only if the request is not empty and the pool refuses, or a build without the feature is asked for more than 16, or a block with a header would pass the end of the address space; without a header the answer is the address of the pool |
| `PoolHeap.Heap.Dealloc` | src/allocator.rs:581-600 | exactly the base of that block goes back to the pool and the other blocks stay sound |
| `PoolHeap.Heap.UserWrite` | src/allocator.rs:404-483 | a write inside one's own block leaves every header and every other block alone |
| `PoolHeap.Heap.Run` | src/allocator.rs:404-600 | over any sequence of allocations, frees and writes that the users have a right to: the blocks are where the users' books have them, all sound, each free hands back what its allocation received, and every byte written or zeroed stays until its user overwrites it or frees the block |
| `Utf16.DecodeEncode` | src/unicode.rs:95-125 | decoding undoes encoding for every text |
| `Utf16.EncodeDecode` | src/unicode.rs:267-285 | units that decode are the encoding of what they decode to |
| `Utf16.DecodesIffPaired` | src/unicode.rs:278-283 | decoding succeeds if and only if no surrogate is unpaired |
| `Utf16.OneFormInUnits` | src/unicode.rs:95-125 | each scalar value has exactly one form, one unit outside the surrogates or a pair with ten bits each of the offset beyond 0xFFFF, and it is the one written |
| `Utf16.ThreeBytesPerUnit` | src/unicode.rs:271-277 | the UTF-8 text needs between one and three bytes for a unit, one exactly in ASCII and three exactly in characters of three bytes |
| `UnicodeStrings.ToScalars` | src/unicode.rs:255-285 | the decoding of exactly the first length / 2 units of the buffer, none without a buffer, if and only if they are paired; each error exactly in its case, within the reservation at every step |
| `UnicodeStrings.NewIn` | src/unicode.rs:95-125 | too long exactly when the bytes of units and terminator exceed 65535, allocation failure exactly when refused, otherwise a terminated buffer with byte lengths that were not cut off |
| `UnicodeStrings.BuildAndConvert` | src/unicode.rs:95-285 | building and converting back yields the text for every text that fits, and every other text is refused |
| `UnicodeStrings.LocalUnicodeString.TryPush` | src/unicode.rs:171-190 | accepted exactly when it fits the buffer with the terminator and its bytes fit sixteen bits; a rejected push changes nothing |
| `UnicodeStrings.LocalUnicodeString.Clear` | src/unicode.rs:164-169 | the empty text, terminated |
| `UnicodeStrings.LocalUnicodeString.AsUnicodeRef` | src/unicode.rs:202-214 | exact byte lengths, capped at 65534, and the slice is the encoding of the text |
| `UnicodeStrings.LocalUnicodeString.Apply` | src/unicode.rs:148-225 | after any pushes and clears the string holds, and reads back as, the accepted pieces since the last clear; for N > 0 the length stays below min(N, 32767) with a NUL there |

## Left out

- The work-item executor: mostly kernel calls, and its `work_item` slot can be overwritten, so no such claims hold of it.
- KEVENT signalling and the wait in `drain`: the counter and the event change in separate steps, so only the counter is claimed.
- The clock of the time budget: when it is spent is an arbitrary answer of the environment.
- Atomic orderings: steps are sequentially consistent.
- `leaky-hardening`: a saturated add is not recorded, so the ledger is not kept there.
- A value whose Drop calls AddRef or Release on its own object: documented as forbidden.
- QueryInterface of single objects with derived interfaces, and custom allocators of COM objects.
- Field offsets, casts and method dispatch; panics and fail-fast paths; IRQL rules; descriptors and trace hooks.
- The host build without a kernel, which polls a task once inside the spawn and then drops it.
- What the outer object of an aggregate does in its own QueryInterface.
- The bytes of UTF-8 text: only their number is modelled.
- ComObjects.Run: with the plain counter it asks that count and operations together stay below 2^32, since that counter wraps to zero there.
- DpcExecutor.Task.DpcRoutine: it is given finitely many poll answers and reports when they run out, since a future that wakes itself under a time budget may keep the routine going.
- DpcEnd.EveryTaskCanEnd: asks that the counter has room for the calls under way, since a hardened one would stop the machine.
- DpcDue.DuePollCanBegin: asks that the counter has room for the calls under way, since a hardened one would stop the machine.
- DpcTaskProofs.NoLostWake: says that a poll stays due until it begins, not that a scheduler is fair.
- PoolHeap.Heap.Alloc: what the pool answers is a parameter, constrained to be aligned to 16 and apart from the blocks handed out.
