/** One task of the DPC executor (`executor.rs`) as a machine of sequentially
  * consistent atomic steps. Any number of threads may be inside `schedule`, `cancel`,
  * `release` or `dpc_routine` at once; each is a program point with its locals. */
module DpcTask {
  import opened Basics
  import opened RefCount

  /** Who called `schedule`, and therefore what it holds meanwhile. */
  datatype Caller = Spawner | Waker | WakerRef | Canceller

  datatype Budget = Polls(n: nat) | TimeUs

  /** The locals of one `dpc_routine` activation; `polled` counts its polls. */
  datatype Run = Run(cpu: Option<nat>, budget: Budget, left: nat, polled: nat)

  /** What a thread does once a call of `release` returns to it. */
  datatype After =
    | ScheduleReturns(caller: Caller)
    | QueueReturns(run: Run)
    | RoutineDropsWaker
    | Return

  // The next atomic step of a thread inside each function.
  datatype SchedulePc = SLoad | SCas | SAddRef | SInsert
  datatype ReleasePc = RSub | RLoad | RStore | RDrop | RDealloc | RTracker
  datatype RoutinePc =
    | DClear | DLoad | DWaker | DSetSlot | DBudget
    | DPoll | DPolling | DStore | DDrop
    | DWoken | DSpend | DReset | DAddRef | DInsert | DClearSlot

  datatype Thread =
    | Idle
    | Spawning(wantsHandle: bool)
    | MakingHandle
    | Cancelling
    | Scheduling(s: SchedulePc, caller: Caller)
    | Releasing(r: ReleasePc, after: After)
    | Routine(d: RoutinePc, run: Run)

  /** The header cells, the KDPC's place in the kernel queue, what the clients hold,
    * and the history of the future: polls begun, `Ready` seen, drops, frees. */
  datatype Header = Header(
    refCount: u32,
    scheduled: bool,
    completed: bool,
    cancelRequested: nat,
    queued: bool,
    handles: nat,
    wakers: nat,
    begun: bool,
    reported: bool,
    freed: bool,
    frees: nat,
    polls: nat,
    ready: bool,
    drops: nat)

  datatype State = State(h: Header, threads: seq<Thread>)

  /** The outcome of a step that the program does not determine. */
  datatype Choice = Choice(budget: Budget, ready: bool, exhausted: bool)

  /** A thread's next step; the kernel starting the routine; what clients do with wakers and
    * handles; and the future, while it is polled, taking the cancellation request. */
  datatype Event =
    | Advance(t: nat, choice: Choice)
    | RunDpc(cpu: Option<nat>)
    | CloneWaker
    | Wake
    | WakeByRef
    | DropWaker
    | Cancel
    | DropHandle
    | TakeRequest(t: nat)

  /** Nothing is chosen: a poll returns `Pending` and no budget is spent. */
  const PENDING := Choice(TimeUs, false, false)

  // ----- One atomic step of one thread -----

  /** The header and the thread's new program point; `Stuck` when it has no step. */
  datatype Local = Stuck | Goes(h: Header, th: Thread)

  function AfterSchedule(c: Caller): Thread {
    if c.Spawner? || c.Waker? then Releasing(RSub, Return) else Idle
  }

  function Resume(k: After): Thread {
    match k
    case ScheduleReturns(c) => AfterSchedule(c)
    case QueueReturns(run) => Routine(DClearSlot, run)
    case RoutineDropsWaker => Releasing(RSub, Return)
    case Return => Idle
  }

  /** `refcount::add`, then continue at `th`. */
  function AddRef(m: Mode, h: Header, th: Thread): Local {
    match Add(m, h.refCount)
    case Halted => Stuck
    case Now(n) => Goes(h.(refCount := n), th)
  }

  /** `KeInsertQueueDpc`: false exactly when the entry is queued already; the caller's
    * extra reference becomes the entry's, or is released. */
  function Insert(h: Header, th: Thread, after: After): Local {
    if h.queued then Goes(h, Releasing(RSub, after)) else Goes(h.(queued := true), th)
  }

  function ScheduleStep(m: Mode, h: Header, s: SchedulePc, k: Caller): Local {
    match s
    case SLoad => Goes(h, if h.completed then AfterSchedule(k) else Scheduling(SCas, k))
    case SCas =>
      if h.scheduled then Goes(h, AfterSchedule(k))
      else Goes(h.(scheduled := true), Scheduling(SAddRef, k))
    case SAddRef => AddRef(m, h, Scheduling(SInsert, k))
    case SInsert => Insert(h, AfterSchedule(k), ScheduleReturns(k))
  }

  function ReleaseStep(m: Mode, h: Header, r: ReleasePc, k: After): Local {
    match r
    case RSub =>
      (match Sub(m, h.refCount)
       case Halted => Stuck
       case Now(n) => Goes(h.(refCount := n), if n == 0 then Releasing(RLoad, k) else Resume(k)))
    case RLoad => Goes(h, Releasing(if h.completed then RDealloc else RStore, k))
    case RStore => Goes(h.(completed := true), Releasing(RDrop, k))
    case RDrop => Goes(h.(drops := h.drops + 1), Releasing(RDealloc, k))
    case RDealloc => Goes(h.(freed := true, frees := h.frees + 1), Releasing(RTracker, k))
    case RTracker => Goes(h.(reported := true), Resume(k))
  }

  /** Another round, or the queue when the budget is spent. */
  function Spend(r: Run, c: Choice): Thread {
    if r.budget.Polls? && r.left > 0 then Routine(DReset, r.(left := r.left - 1))
    else if r.budget.Polls? || c.exhausted then Routine(DAddRef, r)
    else Routine(DReset, r)
  }

  function RoutineStep(m: Mode, h: Header, d: RoutinePc, r: Run, c: Choice): Local {
    match d
    case DClear => Goes(h.(scheduled := false), Routine(DLoad, r))
    case DLoad => Goes(h, if h.completed then Releasing(RSub, Return) else Routine(DWaker, r))
    case DWaker => AddRef(m, h, Routine(DSetSlot, r))
    case DSetSlot => Goes(h, Routine(DBudget, r))
    case DBudget =>
      Goes(h, Routine(DPoll, r.(budget := c.budget, left := if c.budget.Polls? then c.budget.n else 0)))
    case DPoll => Goes(h.(polls := h.polls + 1), Routine(DPolling, r.(polled := r.polled + 1)))
    case DPolling =>
      if c.ready then Goes(h.(ready := true), Routine(DStore, r)) else Goes(h, Routine(DWoken, r))
    case DStore => Goes(h.(completed := true), Routine(DDrop, r))
    case DDrop => Goes(h.(drops := h.drops + 1), Routine(DClearSlot, r))
    case DWoken => Goes(h, Routine(if h.scheduled then DSpend else DClearSlot, r))
    case DSpend => Goes(h, Spend(r, c))
    case DReset => Goes(h.(scheduled := false), Routine(DPoll, r))
    case DAddRef => AddRef(m, h, Routine(DInsert, r))
    case DInsert => Insert(h, Routine(DClearSlot, r), QueueReturns(r))
    case DClearSlot => Goes(h, Releasing(RSub, RoutineDropsWaker))
  }

  function LocalStep(m: Mode, h: Header, th: Thread, c: Choice): Local {
    match th
    case Idle => Stuck
    case Spawning(wantsHandle) =>
      Goes(h.(begun := true), if wantsHandle then MakingHandle else Scheduling(SLoad, Spawner))
    case MakingHandle => AddRef(m, h.(handles := h.handles + 1), Scheduling(SLoad, Spawner))
    case Cancelling =>
      if h.cancelRequested == 0 then Goes(h.(cancelRequested := 1), Scheduling(SLoad, Canceller))
      else Goes(h, Idle)
    case Scheduling(s, k) => ScheduleStep(m, h, s, k)
    case Releasing(r, k) => ReleaseStep(m, h, r, k)
    case Routine(d, r) => RoutineStep(m, h, d, r, c)
  }

  // ----- Borrows -----

  /** The call runs through a borrow of a cancel handle. */
  predicate UsesHandle(th: Thread) {
    || th.Cancelling?
    || (th.Scheduling? && th.caller.Canceller?)
    || (th.Releasing? && th.after == ScheduleReturns(Canceller))
  }

  /** The call runs through a borrow of a waker. */
  predicate UsesWaker(th: Thread) {
    || (th.Scheduling? && th.caller.WakerRef?)
    || (th.Releasing? && th.after == ScheduleReturns(WakerRef))
  }

  predicate InPoll(th: Thread) {
    th.Routine? && th.d.DPolling?
  }

  /** A waker outside the routine, or the one lent to the future while it is polled. */
  predicate LiveWaker(s: State) {
    s.h.wakers > 0 || exists i :: 0 <= i < |s.threads| && InPoll(s.threads[i])
  }

  /** Rust's borrow rule: a handle or waker outlives the calls made through a borrow of it. */
  predicate BorrowsHold(s: State) {
    && (forall i :: 0 <= i < |s.threads| && UsesHandle(s.threads[i]) ==> s.h.handles > 0)
    && (forall i :: 0 <= i < |s.threads| && UsesWaker(s.threads[i]) ==> LiveWaker(s))
  }

  // ----- One step of the whole task -----

  function Start(s: State, h: Header, th: Thread): State {
    State(h, s.threads + [th])
  }

  /** The effect of a step, the borrow rule aside. */
  function Effect(m: Mode, s: State, e: Event): Option<State> {
    match e
    case Advance(t, c) =>
      if t >= |s.threads| then None
      else (
        match LocalStep(m, s.h, s.threads[t], c)
        case Stuck => None
        case Goes(h, th) => Some(State(h, s.threads[t := th])))
    case RunDpc(cpu) =>
      if s.h.queued then Some(Start(s, s.h.(queued := false), Routine(DClear, Run(cpu, TimeUs, 0, 0))))
      else None
    case CloneWaker =>
      if !LiveWaker(s) then None
      else (
        match Add(m, s.h.refCount)
        case Halted => None
        case Now(n) => Some(s.(h := s.h.(refCount := n, wakers := s.h.wakers + 1))))
    case Wake =>
      if s.h.wakers == 0 then None
      else Some(Start(s, s.h.(wakers := s.h.wakers - 1), Scheduling(SLoad, Waker)))
    case WakeByRef => if !LiveWaker(s) then None else Some(Start(s, s.h, Scheduling(SLoad, WakerRef)))
    case DropWaker =>
      if s.h.wakers == 0 then None
      else Some(Start(s, s.h.(wakers := s.h.wakers - 1), Releasing(RSub, Return)))
    case Cancel => if s.h.handles == 0 then None else Some(Start(s, s.h, Cancelling))
    case DropHandle =>
      if s.h.handles == 0 then None
      else Some(Start(s, s.h.(handles := s.h.handles - 1), Releasing(RSub, Return)))
    case TakeRequest(t) =>
      if t < |s.threads| && InPoll(s.threads[t]) && s.threads[t].run.cpu.Some? && s.h.cancelRequested == 1 then
        Some(s.(h := s.h.(cancelRequested := 2)))
      else None
  }

  /** The step ends the life of a waker or handle that calls may be borrowing. */
  predicate EndsLoan(s: State, e: Event) {
    || e.Wake? || e.DropWaker? || e.DropHandle?
    || (e.Advance? && e.t < |s.threads| && InPoll(s.threads[e.t]))
  }

  function Step(m: Mode, s: State, e: Event): Option<State> {
    match Effect(m, s, e)
    case None => None
    case Some(s') => if EndsLoan(s, e) && !BorrowsHold(s') then None else Some(s')
  }

  /** `Task::allocate` has returned; the spawning thread goes on with one reference. */
  function Init(wantsHandle: bool): State {
    State(Header(1, false, false, 0, false, 0, 0, false, false, false, 0, 0, false, 0),
          [Spawning(wantsHandle)])
  }
}
