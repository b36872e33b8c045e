/** All the DPC tasks of a driver together: the per-processor `CURRENT_TASKS` slots through
  * which a running future finds its own cancellation flag, and a `TaskTracker`. */
module DpcSystem {
  import opened Basics
  import opened RefCount
  import opened DpcTask
  import opened DpcTaskProofs

  datatype Tracked = Tracked(s: State, tracked: bool)

  /** `slots[c]` is the index of the task CURRENT_TASKS[c] points to; no entry is null. */
  datatype System = System(tasks: seq<Tracked>, slots: map<nat, nat>, pending: u32)

  /** A spawn; a step of task i; thread t of task i calling `take_cancellation_request` while
    * it polls its future; or somebody acting who touches no task. */
  datatype SystemEvent =
    | Spawn(tracked: bool, wantsHandle: bool)
    | On(i: nat, e: Event)
    | Take(i: nat, t: nat)
    | Elsewhere

  /** The processor whose slot the activation uses until it clears it. */
  function Cpu(th: Thread): Option<nat> {
    match th
    case Routine(_, r) => r.cpu
    case Releasing(_, k) => if k.QueueReturns? then k.run.cpu else None
    case _ => None
  }

  /** The slot has been set and not yet cleared. */
  predicate HasSlot(th: Thread) {
    || (th.Routine? && !th.d.DClear? && !th.d.DLoad? && !th.d.DWaker? && !th.d.DSetSlot?)
    || (th.Releasing? && th.after.QueueReturns?)
  }

  predicate ValidThread(y: System, i: int, t: int) {
    0 <= i < |y.tasks| && 0 <= t < |y.tasks[i].s.threads|
  }

  function At(y: System, i: nat, t: nat): Thread
    requires ValidThread(y, i, t)
  {
    y.tasks[i].s.threads[t]
  }

  /** DPCs run to completion on a processor, so it starts none while one uses its slot. */
  ghost predicate CpuFree(y: System, cpu: Option<nat>) {
    cpu.Some? ==> forall i, t :: ValidThread(y, i, t) ==> Cpu(At(y, i, t)) != cpu
  }

  function SlotsAfter(slots: map<nat, nat>, i: nat, th: Thread): map<nat, nat> {
    if th.Routine? && th.run.cpu.Some? && th.d.DSetSlot? then slots[th.run.cpu.value := i]
    else if th.Routine? && th.run.cpu.Some? && th.d.DClearSlot? then slots - {th.run.cpu.value}
    else slots
  }

  /** `TaskTracker::begin` and `complete`: 32-bit wrapping counters. */
  function PendingAfter(pending: u32, tracked: bool, th: Thread): u32 {
    if tracked && th.Spawning? then (if pending == 0xFFFF_FFFF then 0 else pending + 1)
    else if tracked && th.Releasing? && th.r.RTracker? then (if pending == 0 then 0xFFFF_FFFF else pending - 1)
    else pending
  }

  /** The task whose flag `take_cancellation_request` exchanges, if any. */
  function Target(y: System, i: nat, t: nat): Option<nat>
    requires ValidThread(y, i, t)
  {
    var cpu := Cpu(At(y, i, t));
    if cpu.None? || cpu.value !in y.slots then None else Some(y.slots[cpu.value])
  }

  /** The request is pending, so the exchange of 1 for 2 succeeds. */
  predicate Takes(y: System, i: nat, t: nat)
    requires ValidThread(y, i, t)
  {
    var j := Target(y, i, t);
    j.Some? && j.value < |y.tasks| && y.tasks[j.value].s.h.cancelRequested == 1
  }

  function Acknowledge(s: State): State {
    s.(h := s.h.(cancelRequested := 2))
  }

  ghost function SystemStep(m: Mode, y: System, e: SystemEvent): Option<System> {
    match e
    case Spawn(tracked, wantsHandle) =>
      Some(y.(tasks := y.tasks + [Tracked(Init(wantsHandle), tracked)]))
    case On(i, e) =>
      if i >= |y.tasks| || e.TakeRequest? || (e.RunDpc? && !CpuFree(y, e.cpu)) then None
      else (
        match Step(m, y.tasks[i].s, e)
        case None => None
        case Some(s') =>
          var y' := y.(tasks := y.tasks[i := y.tasks[i].(s := s')]);
          if e.Advance? && e.t < |y.tasks[i].s.threads| then
            var th := y.tasks[i].s.threads[e.t];
            Some(y'.(slots := SlotsAfter(y.slots, i, th), pending := PendingAfter(y.pending, y.tasks[i].tracked, th)))
          else Some(y'))
    case Take(i, t) =>
      if !ValidThread(y, i, t) || !InPoll(At(y, i, t)) then None
      else if Takes(y, i, t) then
        var j := Target(y, i, t).value;
        Some(y.(tasks := y.tasks[j := y.tasks[j].(s := Acknowledge(y.tasks[j].s))]))
      else Some(y)
    case Elsewhere => Some(y)
  }

  const EMPTY := System([], map[], 0)

  // ----- The slots -----

  ghost predicate OnePerCpu(y: System) {
    forall i, t, j, u :: ValidThread(y, i, t) && ValidThread(y, j, u) && (i != j || t != u) ==>
      Cpu(At(y, i, t)).None? || Cpu(At(y, i, t)) != Cpu(At(y, j, u))
  }

  ghost predicate SlotsName(y: System) {
    forall i, t :: ValidThread(y, i, t) && HasSlot(At(y, i, t)) && Cpu(At(y, i, t)).Some? ==>
      var c := Cpu(At(y, i, t)).value; c in y.slots && y.slots[c] == i
  }

  predicate SlotMoves(th: Thread, th': Thread) {
    && (Cpu(th') == Cpu(th) || Cpu(th').None?)
    && (HasSlot(th') ==> HasSlot(th) || (th.Routine? && th.d.DSetSlot?))
    && (HasSlot(th') ==> !(th.Routine? && th.d.DClearSlot?))
    && (HasSlot(th) && !(th.Routine? && th.d.DClearSlot?) ==> HasSlot(th') && Cpu(th') == Cpu(th))
    && (th.Routine? && th.d.DSetSlot? ==> HasSlot(th') && Cpu(th') == Cpu(th))
  }

  lemma RoutineSlotMoves(m: Mode, h: Header, d: RoutinePc, r: Run, c: Choice, h': Header, th': Thread)
    requires RoutineStep(m, h, d, r, c) == Goes(h', th')
    ensures SlotMoves(Routine(d, r), th')
  {
    match d
    case DClear => case DLoad => case DWaker => case DSetSlot => case DBudget =>
    case DPoll => case DPolling => case DStore => case DDrop => case DWoken => case DSpend =>
    case DReset => case DAddRef => case DInsert => case DClearSlot =>
  }

  lemma LocalSlotMoves(m: Mode, h: Header, th: Thread, c: Choice, h': Header, th': Thread)
    requires LocalStep(m, h, th, c) == Goes(h', th')
    ensures SlotMoves(th, th')
  {
    match th
    case Scheduling(s, _) => match s { case SLoad => case SCas => case SAddRef => case SInsert => }
    case Releasing(r, k) => match r { case RSub => case RTracker => case _ => }
    case Routine(d, r) => RoutineSlotMoves(m, h, d, r, c, h', th');
    case Idle => case Spawning(_) => case MakingHandle => case Cancelling =>
  }

  /** Where thread u of task j of the new state comes from. */
  predicate ComesFrom(y: System, y': System, e: SystemEvent, j: nat, u: nat)
    requires ValidThread(y', j, u)
  {
    || (ValidThread(y, j, u) && At(y', j, u) == At(y, j, u))
    || (e.On? && e.i == j && e.e.Advance? && e.e.t == u && ValidThread(y, j, u) && SlotMoves(At(y, j, u), At(y', j, u)))
    || (!ValidThread(y, j, u) && !HasSlot(At(y', j, u)) && (Cpu(At(y', j, u)).Some? ==>
          && e.On? && e.e.RunDpc? && e.i == j && j < |y.tasks|
          && u == |y.tasks[j].s.threads| && e.e.cpu == Cpu(At(y', j, u))))
  }

  lemma SteppedOrigin(m: Mode, y: System, i: nat, e: Event, y': System, u: nat)
    requires SystemStep(m, y, On(i, e)) == Some(y') && ValidThread(y', i, u)
    ensures ComesFrom(y, y', On(i, e), i, u)
  {
    var s := y.tasks[i].s;
    var s' := y'.tasks[i].s;
    assert Step(m, s, e) == Some(s');
    StepShape(m, s, e);
    if e.Advance? && u == e.t {
      LocalSlotMoves(m, s.h, s.threads[u], e.choice, s'.h, s'.threads[u]);
    }
  }

  lemma ThreadOrigin(m: Mode, y: System, e: SystemEvent, j: nat, u: nat)
    requires SystemStep(m, y, e).Some? && ValidThread(SystemStep(m, y, e).value, j, u)
    ensures ComesFrom(y, SystemStep(m, y, e).value, e, j, u)
  {
    if e.On? && j == e.i {
      SteppedOrigin(m, y, j, e.e, SystemStep(m, y, e).value, u);
    }
  }

  lemma OnePerCpuKept(m: Mode, y: System, e: SystemEvent)
    requires OnePerCpu(y) && SystemStep(m, y, e).Some?
    ensures OnePerCpu(SystemStep(m, y, e).value)
  {
    var y' := SystemStep(m, y, e).value;
    forall i, t, j, u | ValidThread(y', i, t) && ValidThread(y', j, u) && (i != j || t != u)
      ensures Cpu(At(y', i, t)).None? || Cpu(At(y', i, t)) != Cpu(At(y', j, u))
    {
      ThreadOrigin(m, y, e, i, t);
      ThreadOrigin(m, y, e, j, u);
    }
  }

  lemma SlotsNameKept(m: Mode, y: System, e: SystemEvent)
    requires OnePerCpu(y) && SlotsName(y) && SystemStep(m, y, e).Some?
    ensures SlotsName(SystemStep(m, y, e).value)
  {
    var y' := SystemStep(m, y, e).value;
    forall i, t | ValidThread(y', i, t) && HasSlot(At(y', i, t)) && Cpu(At(y', i, t)).Some?
      ensures var c := Cpu(At(y', i, t)).value; c in y'.slots && y'.slots[c] == i
    {
      ThreadOrigin(m, y, e, i, t);
      if e.On? && e.e.Advance? && ValidThread(y, e.i, e.e.t) && (e.i != i || e.e.t != t) {
        var moved := At(y, e.i, e.e.t);
        assert Cpu(moved).None? || Cpu(moved) != Cpu(At(y, i, t));
      }
    }
  }

  // ----- The tracker -----

  function Begins(th: Thread): nat {
    Bit(th.Spawning?)
  }

  function Reports(th: Thread): nat {
    Bit(th.Releasing? && th.r.RTracker?)
  }

  predicate TrackInv(s: State) {
    && Sum(s.threads, Begins) == Bit(!s.h.begun)
    && Sum(s.threads, Reports) + Bit(s.h.reported) == Bit(s.h.freed)
  }

  /** A tracked task between `begin` and `complete`. */
  function Outstanding(k: Tracked): nat {
    Bit(k.tracked && k.s.h.begun && !k.s.h.reported)
  }

  lemma FreedMeansBegun(s: State)
    requires Inv(s) && TrackInv(s)
    ensures s.h.freed ==> s.h.begun
    ensures s.h.reported ==> s.h.freed
  {
    if s.h.freed {
      forall i | 0 <= i < |s.threads| ensures Begins(s.threads[i]) == 0 {
        ZeroMeansOver(s, i);
      }
      SumOfZeros(s.threads, Begins);
    }
  }

  predicate TrackMoves(h: Header, th: Thread, h': Header, th': Thread) {
    && h'.begun == (h.begun || th.Spawning?) && Begins(th') == 0
    && h'.reported == (h.reported || Reports(th) == 1)
    && h'.freed == (h.freed || (th.Releasing? && th.r.RDealloc?))
    && Reports(th') == Bit(th.Releasing? && th.r.RDealloc?)
  }

  lemma RoutineTrackMoves(m: Mode, h: Header, d: RoutinePc, r: Run, c: Choice, h': Header, th': Thread)
    requires RoutineStep(m, h, d, r, c) == Goes(h', th')
    ensures TrackMoves(h, Routine(d, r), h', th')
  {
    match d
    case DClear => case DLoad => case DWaker => case DSetSlot => case DBudget =>
    case DPoll => case DPolling => case DStore => case DDrop => case DWoken => case DSpend =>
    case DReset => case DAddRef => case DInsert => case DClearSlot =>
  }

  lemma ReleaseTrackMoves(m: Mode, h: Header, r: ReleasePc, k: After, h': Header, th': Thread)
    requires ReleaseStep(m, h, r, k) == Goes(h', th')
    ensures TrackMoves(h, Releasing(r, k), h', th')
  {
    match r
    case RSub => case RLoad => case RStore => case RDrop => case RDealloc => case RTracker =>
  }

  lemma ScheduleTrackMoves(m: Mode, h: Header, s: SchedulePc, k: Caller, h': Header, th': Thread)
    requires ScheduleStep(m, h, s, k) == Goes(h', th')
    ensures TrackMoves(h, Scheduling(s, k), h', th')
  {
    match s
    case SLoad => case SCas => case SAddRef => case SInsert =>
  }

  lemma LocalTrackMoves(m: Mode, h: Header, th: Thread, c: Choice, h': Header, th': Thread)
    requires LocalStep(m, h, th, c) == Goes(h', th')
    ensures TrackMoves(h, th, h', th')
  {
    match th
    case Scheduling(s, k) => ScheduleTrackMoves(m, h, s, k, h', th');
    case Releasing(r, k) => ReleaseTrackMoves(m, h, r, k, h', th');
    case Routine(d, r) => RoutineTrackMoves(m, h, d, r, c, h', th');
    case Idle => case Spawning(_) => case MakingHandle => case Cancelling =>
  }

  lemma AdvanceKeepsTrack(m: Mode, s: State, t: nat, c: Choice, h': Header, th': Thread)
    requires OneOwnerAtZero(s) && TrackInv(s) && t < |s.threads|
    requires LocalStep(m, s.h, s.threads[t], c) == Goes(h', th')
    ensures TrackInv(State(h', s.threads[t := th']))
  {
    LocalTrackMoves(m, s.h, s.threads[t], c, h', th');
    SumUpdate(s.threads, Begins, t, th');
    SumUpdate(s.threads, Reports, t, th');
    SumAt(s.threads, Begins, t);
    SumAt(s.threads, Reports, t);
    SumAt(s.threads, Destroyer, t);
  }

  /** A call that starts neither begins nor completes the task. */
  lemma StartLeavesTracker(m: Mode, s: State, e: Event, s': State)
    requires Effect(m, s, e) == Some(s') && !e.Advance?
    ensures s'.h.begun == s.h.begun && s'.h.reported == s.h.reported && s'.h.freed == s.h.freed
    ensures Starts(e) ==> |s'.threads| == |s.threads| + 1
    ensures Starts(e) ==> Begins(s'.threads[|s.threads|]) == 0 && Reports(s'.threads[|s.threads|]) == 0
  {
    match e
    case Advance(_, _) => case RunDpc(_) => case CloneWaker => case TakeRequest(_) => case Wake =>
    case WakeByRef => case DropWaker => case Cancel => case DropHandle =>
  }

  lemma StartKeepsTrack(m: Mode, s: State, e: Event)
    requires TrackInv(s) && Effect(m, s, e).Some? && !e.Advance?
    ensures TrackInv(Effect(m, s, e).value)
  {
    var s' := Effect(m, s, e).value;
    StepShape(m, s, e);
    StartLeavesTracker(m, s, e, s');
    if Starts(e) {
      TrackAppend(s.threads, s'.threads[|s.threads|]);
    }
  }

  lemma TrackAppend(threads: seq<Thread>, th: Thread)
    requires Begins(th) == 0 && Reports(th) == 0
    ensures Sum(threads + [th], Begins) == Sum(threads, Begins)
    ensures Sum(threads + [th], Reports) == Sum(threads, Reports)
  {
    SumAppend(threads, Begins, th);
    SumAppend(threads, Reports, th);
  }

  lemma TrackInvKept(m: Mode, s: State, e: Event)
    requires Inv(s) && TrackInv(s) && Step(m, s, e).Some?
    ensures TrackInv(Step(m, s, e).value)
  {
    if e.Advance? {
      var s' := Step(m, s, e).value;
      StepShape(m, s, e);
      AdvanceKeepsTrack(m, s, e.t, e.choice, s'.h, s'.threads[e.t]);
    } else {
      StartKeepsTrack(m, s, e);
    }
  }

  /** What a step of task i does to the number of outstanding tasks. */
  lemma OutstandingMoves(m: Mode, k: Tracked, e: Event)
    requires Inv(k.s) && TrackInv(k.s) && Step(m, k.s, e).Some?
    ensures var k' := k.(s := Step(m, k.s, e).value);
            if e.Advance? && e.t < |k.s.threads| && k.tracked then
              Outstanding(k') == Outstanding(k) + Begins(k.s.threads[e.t]) - Reports(k.s.threads[e.t])
            else Outstanding(k') == Outstanding(k)
  {
    StepShape(m, k.s, e);
    FreedMeansBegun(k.s);
    if e.Advance? {
      var s' := Step(m, k.s, e).value;
      LocalTrackMoves(m, k.s.h, k.s.threads[e.t], e.choice, s'.h, s'.threads[e.t]);
      SumAt(k.s.threads, Begins, e.t);
      SumAt(k.s.threads, Reports, e.t);
    }
  }

  // ----- No slot outlives its activation -----

  /** Thread t of task i is between setting and clearing the slot of processor c. */
  predicate HoldsSlot(y: System, i: nat, t: nat, c: nat) {
    ValidThread(y, i, t) && HasSlot(At(y, i, t)) && Cpu(At(y, i, t)) == Some(c)
  }

  ghost predicate SlotsHeld(y: System) {
    forall c :: c in y.slots ==> exists t :: HoldsSlot(y, y.slots[c], t, c)
  }

  /** The step by which a thread clears the slot it holds. */
  predicate ClearsSlot(y: System, e: SystemEvent, i: nat, t: nat) {
    && e.On? && e.i == i && e.e.Advance? && e.e.t == t && ValidThread(y, i, t)
    && At(y, i, t).Routine? && At(y, i, t).d.DClearSlot?
  }

  lemma OwnStepKeepsHolder(m: Mode, y: System, e: Event, y': System, i: nat, t: nat, c: nat)
    requires SystemStep(m, y, On(i, e)) == Some(y') && HoldsSlot(y, i, t, c) && !ClearsSlot(y, On(i, e), i, t)
    ensures HoldsSlot(y', i, t, c)
  {
    var s, s' := y.tasks[i].s, y'.tasks[i].s;
    assert Step(m, s, e) == Some(s');
    StepShape(m, s, e);
    if e.Advance? && e.t == t {
      LocalSlotMoves(m, s.h, s.threads[t], e.choice, s'.h, s'.threads[t]);
    }
  }

  lemma HolderKept(m: Mode, y: System, e: SystemEvent, y': System, i: nat, t: nat, c: nat)
    requires SystemStep(m, y, e) == Some(y') && HoldsSlot(y, i, t, c) && !ClearsSlot(y, e, i, t)
    ensures HoldsSlot(y', i, t, c)
  {
    if e.On? && e.i == i {
      OwnStepKeepsHolder(m, y, e.e, y', i, t, c);
    }
  }

  /** A slot that a step changes is the slot of the thread that takes the step. */
  lemma SlotChange(m: Mode, y: System, e: SystemEvent, y': System, c: nat)
    requires SystemStep(m, y, e) == Some(y') && c in y'.slots && !(c in y.slots && y.slots[c] == y'.slots[c])
    ensures e.On? && e.e.Advance? && y'.slots[c] == e.i && HoldsSlot(y', e.i, e.e.t, c)
  {
    var i, t := e.i, e.e.t;
    var s, s' := y.tasks[i].s, y'.tasks[i].s;
    assert Step(m, s, e.e) == Some(s');
    StepShape(m, s, e.e);
    LocalSlotMoves(m, s.h, s.threads[t], e.e.choice, s'.h, s'.threads[t]);
  }

  lemma SlotsHeldKept(m: Mode, y: System, e: SystemEvent, y': System)
    requires SlotsHeld(y) && SystemStep(m, y, e) == Some(y')
    ensures SlotsHeld(y')
  {
    forall c | c in y'.slots ensures exists t :: HoldsSlot(y', y'.slots[c], t, c) {
      if c in y.slots && y.slots[c] == y'.slots[c] {
        var t :| HoldsSlot(y, y.slots[c], t, c);
        HolderKept(m, y, e, y', y.slots[c], t, c);
      } else {
        SlotChange(m, y, e, y', c);
      }
    }
  }

  // ----- Every step of the system -----

  ghost predicate TasksInv(y: System) {
    forall i :: 0 <= i < |y.tasks| ==> Inv(y.tasks[i].s) && TrackInv(y.tasks[i].s)
  }

  ghost predicate SystemInv(y: System) {
    && TasksInv(y)
    && OnePerCpu(y) && SlotsName(y) && SlotsHeld(y)
    && y.pending == Sum(y.tasks, Outstanding)
  }

  /** Plain counters stay in range; see `Countable`. */
  ghost predicate SystemCountable(m: Mode, y: System) {
    && (forall i :: 0 <= i < |y.tasks| ==> Countable(m, y.tasks[i].s))
    && Sum(y.tasks, Outstanding) < U32_MODULUS
  }

  lemma FreshTrackInv(s: State)
    requires Fresh(s) && !s.h.begun && !s.h.reported
    ensures TrackInv(s)
  {
    assert s.threads == [s.threads[0]];
    SumOne(s.threads[0], Begins);
    SumOne(s.threads[0], Reports);
  }

  lemma AcknowledgeKeeps(s: State)
    requires Inv(s) && TrackInv(s)
    ensures Inv(Acknowledge(s)) && TrackInv(Acknowledge(s))
  {
    assert Acknowledge(s).threads == s.threads;
  }

  lemma TaskInvKept(m: Mode, s: State, e: Event)
    requires Inv(s) && TrackInv(s) && Step(m, s, e).Some? && Countable(m, Step(m, s, e).value)
    ensures Inv(Step(m, s, e).value) && TrackInv(Step(m, s, e).value)
  {
    InvKept(m, s, e);
    TrackInvKept(m, s, e);
  }

  lemma OnKeepsTask(m: Mode, y: System, i: nat, e: Event, y': System)
    requires TasksInv(y) && SystemStep(m, y, On(i, e)) == Some(y') && SystemCountable(m, y')
    ensures y'.tasks == y.tasks[i := y'.tasks[i]] && Inv(y'.tasks[i].s) && TrackInv(y'.tasks[i].s)
  {
    assert Countable(m, y'.tasks[i].s);
    TaskInvKept(m, y.tasks[i].s, e);
  }

  lemma OneMoreTask(y: System, y': System, k: Tracked)
    requires TasksInv(y) && y'.tasks == y.tasks + [k] && Fresh(k.s) && !k.s.h.begun && !k.s.h.reported
    ensures TasksInv(y')
  {
    FreshInv(k.s);
    FreshTrackInv(k.s);
    forall i | 0 <= i < |y'.tasks| ensures Inv(y'.tasks[i].s) && TrackInv(y'.tasks[i].s) {
      assert i < |y.tasks| ==> y'.tasks[i] == y.tasks[i];
    }
  }

  lemma SpawnKeepsTasks(m: Mode, y: System, tracked: bool, wantsHandle: bool, y': System)
    requires TasksInv(y) && SystemStep(m, y, Spawn(tracked, wantsHandle)) == Some(y')
    ensures TasksInv(y')
  {
    OneMoreTask(y, y', y'.tasks[|y.tasks|]);
  }

  lemma TakeKeepsTasks(m: Mode, y: System, i: nat, t: nat, y': System)
    requires TasksInv(y) && SystemStep(m, y, Take(i, t)) == Some(y')
    ensures TasksInv(y')
  {
    if Takes(y, i, t) {
      AcknowledgeKeeps(y.tasks[Target(y, i, t).value].s);
    }
  }

  /** The tasks that a step of the system did not step are as they were. */
  lemma TasksInvKept(m: Mode, y: System, e: SystemEvent)
    requires TasksInv(y) && SystemStep(m, y, e).Some? && SystemCountable(m, SystemStep(m, y, e).value)
    ensures TasksInv(SystemStep(m, y, e).value)
  {
    var y' := SystemStep(m, y, e).value;
    match e
    case Spawn(tracked, wantsHandle) => SpawnKeepsTasks(m, y, tracked, wantsHandle, y');
    case On(i, e) => OnKeepsTask(m, y, i, e, y');
    case Take(i, t) => TakeKeepsTasks(m, y, i, t, y');
    case Elsewhere =>
  }

  lemma TaskPendingKept(m: Mode, y: System, i: nat, e: Event, y': System)
    requires i < |y.tasks| && Inv(y.tasks[i].s) && TrackInv(y.tasks[i].s) && y.pending == Sum(y.tasks, Outstanding)
    requires SystemStep(m, y, On(i, e)) == Some(y') && Sum(y'.tasks, Outstanding) < U32_MODULUS
    ensures y'.pending == Sum(y'.tasks, Outstanding)
  {
    SumUpdate(y.tasks, Outstanding, i, y'.tasks[i]);
    OutstandingMoves(m, y.tasks[i], e);
  }

  lemma PendingKept(m: Mode, y: System, e: SystemEvent)
    requires TasksInv(y) && y.pending == Sum(y.tasks, Outstanding)
    requires SystemStep(m, y, e).Some? && SystemCountable(m, SystemStep(m, y, e).value)
    ensures SystemStep(m, y, e).value.pending == Sum(SystemStep(m, y, e).value.tasks, Outstanding)
  {
    if e.On? {
      TaskPendingKept(m, y, e.i, e.e, SystemStep(m, y, e).value);
    } else {
      var y' := SystemStep(m, y, e).value;
      if e.Spawn? {
        SumAppend(y.tasks, Outstanding, y'.tasks[|y.tasks|]);
      } else if e.Take? && Takes(y, e.i, e.t) {
        var j := Target(y, e.i, e.t).value;
        SumUpdate(y.tasks, Outstanding, j, y'.tasks[j]);
      }
    }
  }

  lemma SystemInvKept(m: Mode, y: System, e: SystemEvent)
    requires SystemInv(y) && SystemStep(m, y, e).Some? && SystemCountable(m, SystemStep(m, y, e).value)
    ensures SystemInv(SystemStep(m, y, e).value)
  {
    TasksInvKept(m, y, e);
    OnePerCpuKept(m, y, e);
    SlotsNameKept(m, y, e);
    SlotsHeldKept(m, y, e, SystemStep(m, y, e).value);
    PendingKept(m, y, e);
  }

  // ----- Whole runs of the system -----

  ghost predicate SystemFollows(m: Mode, ys: seq<System>, es: seq<SystemEvent>, i: nat)
    requires |ys| == |es| + 1 && i < |es|
  {
    SystemStep(m, ys[i], es[i]) == Some(ys[i + 1]) && SystemCountable(m, ys[i + 1])
  }

  ghost predicate IsSystemRun(m: Mode, ys: seq<System>, es: seq<SystemEvent>) {
    && |ys| == |es| + 1 && ys[0] == EMPTY
    && forall i :: 0 <= i < |es| ==> SystemFollows(m, ys, es, i)
  }

  lemma {:induction false} SystemRunKeepsInv(m: Mode, ys: seq<System>, es: seq<SystemEvent>, k: nat)
    requires IsSystemRun(m, ys, es) && k < |ys|
    ensures SystemInv(ys[k])
  {
    if k > 0 {
      SystemRunKeepsInv(m, ys, es, k - 1);
      assert SystemFollows(m, ys, es, k - 1);
      SystemInvKept(m, ys[k - 1], es[k - 1]);
    }
  }

  /** While a future is polled on a processor with a slot, that slot names its own task,
    * and the task is not freed: the taker exchanges the flag of the task it runs in. */
  lemma TakerFindsOwnTask(m: Mode, ys: seq<System>, es: seq<SystemEvent>, k: nat, i: nat, t: nat)
    requires IsSystemRun(m, ys, es) && k < |ys| && ValidThread(ys[k], i, t)
    requires InPoll(At(ys[k], i, t)) && Cpu(At(ys[k], i, t)).Some?
    ensures Target(ys[k], i, t) == Some(i) && !ys[k].tasks[i].s.h.freed
  {
    SystemRunKeepsInv(m, ys, es, k);
    var s := ys[k].tasks[i].s;
    assert Inv(s);
    if s.h.freed {
      ZeroMeansOver(s, t);
      assert false;
    }
  }

  /** A processor has a slot entry exactly while an activation on it is between setting and clearing
    * it; the entry names the task of that activation, which is not freed. So no entry outlives its
    * task, and nobody who reads one finds a header that is gone. */
  lemma SlotsNameLiveTasks(m: Mode, ys: seq<System>, es: seq<SystemEvent>, k: nat, c: nat)
    requires IsSystemRun(m, ys, es) && k < |ys|
    ensures c in ys[k].slots <==> exists i, t :: HoldsSlot(ys[k], i, t, c)
    ensures c in ys[k].slots ==>
              var i := ys[k].slots[c];
              i < |ys[k].tasks| && !ys[k].tasks[i].s.h.freed && exists t :: HoldsSlot(ys[k], i, t, c)
  {
    SystemRunKeepsInv(m, ys, es, k);
    var y := ys[k];
    if c in y.slots {
      var t :| HoldsSlot(y, y.slots[c], t, c);
      HolderIsLive(y, y.slots[c], t, c);
    }
  }

  lemma HolderIsLive(y: System, i: nat, t: nat, c: nat)
    requires HoldsSlot(y, i, t, c) && Inv(y.tasks[i].s)
    ensures !y.tasks[i].s.h.freed
  {
    if y.tasks[i].s.h.freed {
      ZeroMeansOver(y.tasks[i].s, t);
    }
  }

  /** The tracker counts the tasks between `begin` and `complete`; when it shows zero every
    * tracked task that began has had its future polled and dropped, exactly once if activations
    * do not overlap, and its block freed. */
  lemma TrackerCounts(m: Mode, ys: seq<System>, es: seq<SystemEvent>, k: nat)
    requires IsSystemRun(m, ys, es) && k < |ys|
    ensures ys[k].pending == Sum(ys[k].tasks, Outstanding)
    ensures ys[k].pending == 0 ==>
              forall i :: 0 <= i < |ys[k].tasks| && ys[k].tasks[i].tracked && ys[k].tasks[i].s.h.begun ==>
                var h := ys[k].tasks[i].s.h; h.frees == 1 && h.drops > 0 && h.polls > 0
    ensures ys[k].pending == 0 && AllSerial(ys, es) ==>
              forall i :: 0 <= i < |ys[k].tasks| && ys[k].tasks[i].tracked && ys[k].tasks[i].s.h.begun ==>
                ys[k].tasks[i].s.h.drops == 1
  {
    SystemRunKeepsInv(m, ys, es, k);
    if ys[k].pending == 0 {
      SumZero(ys[k].tasks, Outstanding);
      forall i | 0 <= i < |ys[k].tasks| && ys[k].tasks[i].tracked && ys[k].tasks[i].s.h.begun
        ensures var h := ys[k].tasks[i].s.h; h.frees == 1 && h.drops > 0 && h.polls > 0
      {
        var s := ys[k].tasks[i].s;
        assert Outstanding(ys[k].tasks[i]) == 0;
        FreedMeansBegun(s);
        FreedMeansDropped(s);
      }
      if AllSerial(ys, es) {
        forall i | 0 <= i < |ys[k].tasks| && ys[k].tasks[i].tracked && ys[k].tasks[i].s.h.begun
          ensures ys[k].tasks[i].s.h.drops == 1
        {
          var ss, ts := TaskOfSystemRuns(m, ys, es, k, i);
          FutureLifecycle(m, ss, ts, |ts|);
        }
      }
    }
  }

  lemma FreedMeansDropped(s: State)
    requires Inv(s) && s.h.freed
    ensures s.h.frees == 1 && s.h.drops > 0 && s.h.polls > 0
  {
    if s.h.drops == 0 {
      var j :| 0 <= j < |s.threads| && Dropping(s.threads[j]);
      ZeroMeansOver(s, j);
      SumAt(s.threads, Destroyer, j);
      assert false;
    }
  }

  // ----- Each task of the system is a task -----

  /** The step of task i that a step of the system amounts to, if any. */
  ghost function TaskEvent(y: System, e: SystemEvent, i: nat): Option<Event> {
    if e.On? && e.i == i then Some(e.e)
    else if e.Take? && e.i == i && ValidThread(y, i, e.t) && Takes(y, i, e.t) then Some(TakeRequest(e.t))
    else None
  }

  /** A taker exchanges the flag of its own task. */
  lemma TakerTarget(y: System, i: nat, t: nat)
    requires SlotsName(y) && ValidThread(y, i, t) && InPoll(At(y, i, t))
    ensures Target(y, i, t).Some? ==> Target(y, i, t) == Some(i)
    ensures Takes(y, i, t) ==> Target(y, i, t) == Some(i) && y.tasks[i].s.h.cancelRequested == 1
  {
  }

  lemma TakeMoves(m: Mode, y: System, j: nat, t: nat, y': System, i: nat)
    requires SlotsName(y) && SystemStep(m, y, Take(j, t)) == Some(y') && i < |y.tasks|
    ensures i < |y'.tasks|
    ensures match TaskEvent(y, Take(j, t), i)
            case None => y'.tasks[i].s == y.tasks[i].s
            case Some(te) => Step(m, y.tasks[i].s, te) == Some(y'.tasks[i].s)
  {
    TakerTarget(y, j, t);
  }

  lemma TaskMoves(m: Mode, y: System, e: SystemEvent, y': System, i: nat)
    requires SlotsName(y) && SystemStep(m, y, e) == Some(y') && i < |y.tasks|
    ensures i < |y'.tasks|
    ensures match TaskEvent(y, e, i)
            case None => y'.tasks[i].s == y.tasks[i].s
            case Some(te) => Step(m, y.tasks[i].s, te) == Some(y'.tasks[i].s)
  {
    match e
    case Spawn(_, _) => case On(_, _) => case Elsewhere =>
    case Take(j, t) => TakeMoves(m, y, j, t, y', i);
  }

  /** The environment assumption of `FutureLifecycle`, for every task. */
  ghost predicate SystemSerial(y: System, e: SystemEvent) {
    e.On? && e.i < |y.tasks| ==> Serial(y.tasks[e.i].s, e.e)
  }

  ghost predicate SerialAt(ys: seq<System>, es: seq<SystemEvent>, i: nat)
    requires |ys| == |es| + 1 && i < |es|
  {
    SystemSerial(ys[i], es[i])
  }

  ghost predicate AllSerial(ys: seq<System>, es: seq<SystemEvent>)
    requires |ys| == |es| + 1
  {
    forall i :: 0 <= i < |es| ==> SerialAt(ys, es, i)
  }

  lemma RunGoesOn(m: Mode, ss: seq<State>, ts: seq<Event>, e: Event, s': State, serial: bool)
    returns (ss': seq<State>, ts': seq<Event>)
    requires IsRun(m, ss, ts) && Step(m, ss[|ts|], e) == Some(s') && Countable(m, s')
    requires serial ==> IsSerialRun(m, ss, ts) && Serial(ss[|ts|], e)
    ensures IsRun(m, ss', ts') && ss'[|ts'|] == s' && (serial ==> IsSerialRun(m, ss', ts'))
  {
    RunGrows(m, ss, ts, e, s');
    if serial {
      SerialRunGrows(m, ss, ts, e, s');
    }
    ss', ts' := ss + [s'], ts + [e];
  }

  /** Every task of every run of the system has itself made a run, and a serial one if the
    * system's activations do not overlap: the theorems about runs of one task hold of it. */
  lemma {:induction false} TaskOfSystemRuns(m: Mode, ys: seq<System>, es: seq<SystemEvent>, k: nat, i: nat)
    returns (ss: seq<State>, ts: seq<Event>)
    requires IsSystemRun(m, ys, es) && k < |ys| && i < |ys[k].tasks|
    ensures IsRun(m, ss, ts) && ss[|ts|] == ys[k].tasks[i].s
    ensures AllSerial(ys, es) ==> IsSerialRun(m, ss, ts)
  {
    assert SystemFollows(m, ys, es, k - 1);
    var y, e, y' := ys[k - 1], es[k - 1], ys[k];
    if i >= |y.tasks| {
      assert e.Spawn?;
      ss, ts := [y'.tasks[i].s], [];
      assert ss[0] == Init(e.wantsHandle);
    } else {
      ss, ts := TaskOfSystemRuns(m, ys, es, k - 1, i);
      SystemRunKeepsInv(m, ys, es, k - 1);
      TaskMoves(m, y, e, y', i);
      var te := TaskEvent(y, e, i);
      if te.Some? {
        assert AllSerial(ys, es) ==> SerialAt(ys, es, k - 1);
        assert Countable(m, y'.tasks[i].s);
        ss, ts := RunGoesOn(m, ss, ts, te.value, y'.tasks[i].s, AllSerial(ys, es));
      }
    }
  }

  // ----- Cancellation -----

  /** Event e of state y is the successful exchange of 0 for 1 in `cancel` on task i. */
  predicate CancelsTask(y: System, e: SystemEvent, i: nat) {
    && e.On? && e.i == i && i < |y.tasks| && e.e.Advance? && e.e.t < |y.tasks[i].s.threads|
    && y.tasks[i].s.threads[e.e.t].Cancelling? && y.tasks[i].s.h.cancelRequested == 0
  }

  /** Event e of state y is a successful `take_cancellation_request` on the flag of task i. */
  predicate TakesFrom(y: System, e: SystemEvent, i: nat) {
    && e.Take? && ValidThread(y, e.i, e.t) && Takes(y, e.i, e.t) && Target(y, e.i, e.t) == Some(i)
  }

  function Flag(y: System, i: nat): nat {
    if i < |y.tasks| then y.tasks[i].s.h.cancelRequested else 0
  }

  /** The flag of a task only moves 0 to 1 in `cancel` and 1 to 2 in a take. */
  lemma FlagMoves(m: Mode, y: System, e: SystemEvent, i: nat)
    requires SystemStep(m, y, e).Some?
    ensures var y' := SystemStep(m, y, e).value;
            || (Flag(y', i) == Flag(y, i) && !TakesFrom(y, e, i))
            || (Flag(y, i) == 0 && Flag(y', i) == 1 && CancelsTask(y, e, i) && !TakesFrom(y, e, i))
            || (Flag(y, i) == 1 && Flag(y', i) == 2 && TakesFrom(y, e, i))
  {
    if e.On? && e.i == i {
      CancelMoves(m, y.tasks[i].s, e.e);
    }
  }

  lemma {:induction false} FlagOnlyRises(m: Mode, ys: seq<System>, es: seq<SystemEvent>, j: nat, k: nat, i: nat)
    requires IsSystemRun(m, ys, es) && j <= k < |ys|
    ensures Flag(ys[j], i) <= Flag(ys[k], i)
    decreases k
  {
    if j < k {
      FlagOnlyRises(m, ys, es, j, k - 1, i);
      assert SystemFollows(m, ys, es, k - 1);
      FlagMoves(m, ys[k - 1], es[k - 1], i);
    }
  }

  /** At most one take per task ever succeeds. */
  lemma TakenAtMostOnce(m: Mode, ys: seq<System>, es: seq<SystemEvent>, j: nat, k: nat, i: nat)
    requires IsSystemRun(m, ys, es) && j < k < |es|
    ensures !(TakesFrom(ys[j], es[j], i) && TakesFrom(ys[k], es[k], i))
  {
    if TakesFrom(ys[j], es[j], i) {
      assert SystemFollows(m, ys, es, j);
      FlagMoves(m, ys[j], es[j], i);
      FlagOnlyRises(m, ys, es, j + 1, k, i);
    }
  }

  /** A take succeeds only after `cancel` was called on a handle of that very task. */
  lemma {:induction false} TakenOnlyAfterCancel(m: Mode, ys: seq<System>, es: seq<SystemEvent>, k: nat, i: nat)
    requires IsSystemRun(m, ys, es) && k < |ys| && Flag(ys[k], i) > 0
    ensures exists j :: 0 <= j < k && CancelsTask(ys[j], es[j], i)
  {
    assert SystemFollows(m, ys, es, k - 1);
    FlagMoves(m, ys[k - 1], es[k - 1], i);
    if Flag(ys[k - 1], i) > 0 {
      TakenOnlyAfterCancel(m, ys, es, k - 1, i);
    }
  }
}
