/** What every interleaving of the DPC task machine keeps. */
module DpcTaskProofs {
  import opened Basics
  import opened RefCount
  import opened DpcTask

  // ----- Who holds references -----

  function CallerHolds(c: Caller): nat {
    Bit(c.Spawner? || c.Waker?)
  }

  function AfterHolds(k: After): nat {
    match k
    case ScheduleReturns(c) => CallerHolds(c)
    case QueueReturns(_) => 2
    case RoutineDropsWaker => 1
    case Return => 0
  }

  /** The references a thread owns at each program point. */
  function Holds(th: Thread): nat {
    match th
    case Idle => 0
    case Spawning(_) => 1
    case MakingHandle => 1
    case Cancelling => 0
    case Scheduling(s, k) => CallerHolds(k) + Bit(s.SInsert?)
    case Releasing(r, k) => AfterHolds(k) + Bit(r.RSub?)
    case Routine(d, _) => if d.DClear? || d.DLoad? || d.DWaker? then 1 else 2 + Bit(d.DInsert?)
  }

  /** References outside every call: the handle, the wakers, the queued KDPC entry. */
  function Outside(h: Header): nat {
    h.handles + h.wakers + Bit(h.queued)
  }

  function Holders(s: State): nat {
    Sum(s.threads, Holds) + Outside(s.h)
  }

  /** 1 for the thread whose `sub` reached zero and that has not yet freed the block. */
  function Destroyer(th: Thread): nat {
    Bit(th.Releasing? && !th.r.RSub? && !th.r.RTracker?)
  }

  /** The step a thread is about to take reads or writes the header. */
  predicate Touches(th: Thread) {
    !th.Idle? && !(th.Releasing? && th.r.RTracker?)
  }

  predicate Ledger(s: State) {
    s.h.refCount == Holders(s)
  }

  predicate OneOwnerAtZero(s: State) {
    && Sum(s.threads, Destroyer) + Bit(s.h.freed) == Bit(s.h.refCount == 0)
    && s.h.frees == Bit(s.h.freed)
  }

  /** With `Plain` counters the clients must stay below 2^32 references; hardened counters
    * stop the machine instead. */
  predicate Countable(m: Mode, s: State) {
    m.Hardened? || Holders(s) < U32_MODULUS
  }

  // ----- Which threads lead to a poll -----

  /** Sure to leave the KDPC queued or `scheduled` clear. */
  predicate Pushing(th: Thread) {
    || (th.Scheduling? && (th.s.SAddRef? || th.s.SInsert?))
    || (th.Routine? && (th.d.DClear? || th.d.DAddRef? || th.d.DInsert?))
  }

  /** Unless the task completes first, the thread polls, or queues the KDPC, or
    * finds that another has undertaken to. */
  predicate Leads(th: Thread) {
    || th.Spawning? || th.MakingHandle? || th.Scheduling?
    || (th.Routine? && !th.d.DPolling? && !th.d.DStore? && !th.d.DDrop? && !th.d.DWoken? && !th.d.DClearSlot?)
  }

  predicate BeginsPoll(th: Thread) {
    th.Routine? && th.d.DPoll?
  }

  predicate PushKept(s: State) {
    s.h.scheduled && !s.h.completed ==>
      s.h.queued || exists i :: 0 <= i < |s.threads| && Pushing(s.threads[i])
  }

  /** A poll is still to come. */
  predicate PollDue(s: State) {
    s.h.queued || exists i :: 0 <= i < |s.threads| && Leads(s.threads[i])
  }

  // ----- The life of the future -----

  predicate Dropping(th: Thread) {
    (th.Routine? && th.d.DDrop?) || (th.Releasing? && th.r.RDrop?)
  }

  predicate HasPolled(th: Thread) {
    th.Routine? && (th.d.DPolling? || th.d.DStore? || th.d.DDrop?)
  }

  /** Polled before completed, completed before dropped and freed, and somebody drops it. */
  predicate LivedOn(s: State) {
    && (s.h.completed ==> s.h.polls > 0)
    && (s.h.drops > 0 ==> s.h.completed)
    && (s.h.freed ==> s.h.completed)
    && (s.h.completed ==> s.h.drops > 0 || exists i :: 0 <= i < |s.threads| && Dropping(s.threads[i]))
    && (forall i :: 0 <= i < |s.threads| && HasPolled(s.threads[i]) ==> s.h.polls > 0)
    && (forall i :: 0 <= i < |s.threads| && Dropping(s.threads[i]) ==> s.h.completed)
    && (forall i :: 0 <= i < |s.threads| && s.threads[i].Releasing? && s.threads[i].r.RDealloc? ==> s.h.completed)
  }

  predicate Lived(s: State) {
    (s.h.polls == 0 && !s.h.completed ==> PollDue(s)) && LivedOn(s)
  }

  predicate Inv(s: State) {
    Ledger(s) && BorrowsHold(s) && OneOwnerAtZero(s) && PushKept(s) && Lived(s)
  }

  // ----- What one atomic step does to the thread that takes it -----

  /** The counter moves exactly with the references held. */
  predicate Balanced(h: Header, th: Thread, h': Header, th': Thread) {
    h'.refCount == h.refCount + Holds(th') + Outside(h') - Holds(th) - Outside(h)
  }

  predicate OwnerMoves(h: Header, th: Thread, h': Header, th': Thread) {
    && (h.refCount > 0 && !h.freed && Destroyer(th) == 0 ==>
          !h'.freed && Destroyer(th') == Bit(h'.refCount == 0) && h'.frees == h.frees)
    && (h.refCount == 0 && Holds(th) == 0 && th.Releasing? && th.after.Return? ==>
          && h'.refCount == 0 && Destroyer(th') <= Destroyer(th) && h'.frees == h.frees + Destroyer(th) - Destroyer(th')
          && Bit(h'.freed) == (if Destroyer(th) > Destroyer(th') then 1 else Bit(h.freed)))
  }

  predicate BorrowMoves(h: Header, th: Thread, h': Header, th': Thread) {
    && (UsesHandle(th') ==> UsesHandle(th))
    && (UsesWaker(th') ==> UsesWaker(th))
    && h'.handles >= h.handles && h'.wakers == h.wakers
  }

  predicate WakeMoves(h: Header, th: Thread, h': Header, th': Thread) {
    && (h.queued ==> h'.queued)
    && (Pushing(th) && !Pushing(th') ==> h'.queued || !h'.scheduled)
    && (h'.scheduled && !h.scheduled ==> Pushing(th'))
    && (Leads(th) && !BeginsPoll(th) && !h'.completed ==>
          Leads(th') || h'.queued || (h.scheduled && h'.scheduled))
  }

  predicate LifeMoves(h: Header, th: Thread, h': Header, th': Thread) {
    && (h.completed ==> h'.completed)
    && h'.polls == h.polls + Bit(BeginsPoll(th))
    && (h.drops <= h'.drops <= h.drops + Bit(Dropping(th)))
    && (Dropping(th) && !Dropping(th') ==> h'.drops > 0)
    && (h'.completed && !h.completed ==> Dropping(th') && (HasPolled(th) || Destroyer(th) > 0))
    && (Dropping(th') ==> h'.completed)
    && (HasPolled(th') ==> HasPolled(th) || BeginsPoll(th))
    && (th'.Releasing? && th'.r.RDealloc? ==> h.completed || Dropping(th))
    && (h'.freed ==> h.freed || (th.Releasing? && th.r.RDealloc?))
  }

  /** It does so unless a plain counter wraps. */
  predicate BalanceMoves(m: Mode, h: Header, th: Thread, h': Header, th': Thread) {
    h.refCount >= Holds(th) ==>
      (m.Hardened? || h.refCount + Holds(th') + Outside(h') - Holds(th) - Outside(h) < U32_MODULUS) ==>
        Balanced(h, th, h', th')
  }

  predicate RefMoves(m: Mode, h: Header, th: Thread, h': Header, th': Thread) {
    && BalanceMoves(m, h, th, h', th')
    && (Balanced(h, th, h', th') ==> OwnerMoves(h, th, h', th'))
    && BorrowMoves(h, th, h', th')
  }

  predicate FlowMoves(h: Header, th: Thread, h': Header, th': Thread) {
    WakeMoves(h, th, h', th') && LifeMoves(h, th, h', th')
  }

  lemma ScheduleBalanceMoves(m: Mode, h: Header, s: SchedulePc, k: Caller, h': Header, th': Thread)
    requires ScheduleStep(m, h, s, k) == Goes(h', th')
    ensures BalanceMoves(m, h, Scheduling(s, k), h', th')
  {
    match s
    case SLoad => case SCas => case SAddRef => case SInsert =>
  }

  lemma ScheduleOwnerMoves(m: Mode, h: Header, s: SchedulePc, k: Caller, h': Header, th': Thread)
    requires ScheduleStep(m, h, s, k) == Goes(h', th')
    ensures Balanced(h, Scheduling(s, k), h', th') ==> OwnerMoves(h, Scheduling(s, k), h', th')
  {
    match s
    case SLoad => case SCas => case SAddRef => case SInsert =>
  }

  lemma ScheduleBorrowMoves(m: Mode, h: Header, s: SchedulePc, k: Caller, h': Header, th': Thread)
    requires ScheduleStep(m, h, s, k) == Goes(h', th')
    ensures BorrowMoves(h, Scheduling(s, k), h', th')
  {
    match s
    case SLoad => case SCas => case SAddRef => case SInsert =>
  }

  lemma ScheduleRefMoves(m: Mode, h: Header, s: SchedulePc, k: Caller, h': Header, th': Thread)
    requires ScheduleStep(m, h, s, k) == Goes(h', th')
    ensures RefMoves(m, h, Scheduling(s, k), h', th')
  {
    ScheduleBalanceMoves(m, h, s, k, h', th');
    ScheduleOwnerMoves(m, h, s, k, h', th');
    ScheduleBorrowMoves(m, h, s, k, h', th');
  }

  lemma ReleaseBalanceMoves(m: Mode, h: Header, r: ReleasePc, k: After, h': Header, th': Thread)
    requires ReleaseStep(m, h, r, k) == Goes(h', th')
    ensures BalanceMoves(m, h, Releasing(r, k), h', th')
  {
    match r
    case RSub => case RLoad => case RStore => case RDrop => case RDealloc => case RTracker =>
  }

  lemma ReleaseOwnerMoves(m: Mode, h: Header, r: ReleasePc, k: After, h': Header, th': Thread)
    requires ReleaseStep(m, h, r, k) == Goes(h', th')
    ensures Balanced(h, Releasing(r, k), h', th') ==> OwnerMoves(h, Releasing(r, k), h', th')
  {
    match r
    case RSub => case RLoad => case RStore => case RDrop => case RDealloc => case RTracker =>
  }

  lemma ReleaseBorrowMoves(m: Mode, h: Header, r: ReleasePc, k: After, h': Header, th': Thread)
    requires ReleaseStep(m, h, r, k) == Goes(h', th')
    ensures BorrowMoves(h, Releasing(r, k), h', th')
  {
    match r
    case RSub => case RLoad => case RStore => case RDrop => case RDealloc => case RTracker =>
  }

  lemma ReleaseRefMoves(m: Mode, h: Header, r: ReleasePc, k: After, h': Header, th': Thread)
    requires ReleaseStep(m, h, r, k) == Goes(h', th')
    ensures RefMoves(m, h, Releasing(r, k), h', th')
  {
    ReleaseBalanceMoves(m, h, r, k, h', th');
    ReleaseOwnerMoves(m, h, r, k, h', th');
    ReleaseBorrowMoves(m, h, r, k, h', th');
  }

  /** In the routine the counter and the references held move together, by one or not at all. */
  lemma RoutineHeldMoves(m: Mode, h: Header, d: RoutinePc, r: Run, c: Choice, h': Header, th': Thread)
    requires RoutineStep(m, h, d, r, c) == Goes(h', th')
    ensures Holds(th') + Outside(h') == Holds(Routine(d, r)) + Outside(h) + Bit(d.DWaker? || d.DAddRef?)
  {
    match d
    case DClear => case DLoad => case DWaker => case DSetSlot => case DBudget =>
    case DPoll => case DPolling => case DStore => case DDrop => case DWoken => case DSpend =>
    case DReset => case DAddRef => case DInsert => case DClearSlot =>
  }

  /** The routine frees nothing and ends no borrow of a waker or handle by itself. */
  lemma RoutineQuietMoves(m: Mode, h: Header, d: RoutinePc, r: Run, c: Choice, h': Header, th': Thread)
    requires RoutineStep(m, h, d, r, c) == Goes(h', th')
    ensures if d.DWaker? || d.DAddRef? then Add(m, h.refCount) == Now(h'.refCount) else h'.refCount == h.refCount
    ensures h'.freed == h.freed && h'.frees == h.frees && Destroyer(th') == 0
    ensures BorrowMoves(h, Routine(d, r), h', th')
  {
    match d
    case DClear => case DLoad => case DWaker => case DSetSlot => case DBudget =>
    case DPoll => case DPolling => case DStore => case DDrop => case DWoken => case DSpend =>
    case DReset => case DAddRef => case DInsert => case DClearSlot =>
  }

  lemma RoutineRefMoves(m: Mode, h: Header, d: RoutinePc, r: Run, c: Choice, h': Header, th': Thread)
    requires RoutineStep(m, h, d, r, c) == Goes(h', th')
    ensures RefMoves(m, h, Routine(d, r), h', th')
  {
    RoutineHeldMoves(m, h, d, r, c, h', th');
    RoutineQuietMoves(m, h, d, r, c, h', th');
  }

  predicate Entering(th: Thread) {
    th.Idle? || th.Spawning? || th.MakingHandle? || th.Cancelling?
  }

  /** Before `schedule` a reference is taken only for the handle, and nothing is freed. */
  lemma EntryHeldMoves(m: Mode, h: Header, th: Thread, c: Choice, h': Header, th': Thread)
    requires LocalStep(m, h, th, c) == Goes(h', th') && Entering(th)
    ensures Holds(th') + Outside(h') == Holds(th) + Outside(h) + Bit(th.MakingHandle?)
  {
    match th
    case Idle => case Spawning(_) => case MakingHandle => case Cancelling =>
  }

  lemma EntryQuietMoves(m: Mode, h: Header, th: Thread, c: Choice, h': Header, th': Thread)
    requires LocalStep(m, h, th, c) == Goes(h', th') && Entering(th)
    ensures if th.MakingHandle? then Add(m, h.refCount) == Now(h'.refCount) else h'.refCount == h.refCount
    ensures h'.freed == h.freed && h'.frees == h.frees && Destroyer(th') == 0 && Destroyer(th) == 0
    ensures BorrowMoves(h, th, h', th')
  {
    match th
    case Idle => case Spawning(_) => case MakingHandle => case Cancelling =>
  }

  lemma EntryRefMoves(m: Mode, h: Header, th: Thread, c: Choice, h': Header, th': Thread)
    requires LocalStep(m, h, th, c) == Goes(h', th') && Entering(th)
    ensures RefMoves(m, h, th, h', th')
  {
    EntryHeldMoves(m, h, th, c, h', th');
    EntryQuietMoves(m, h, th, c, h', th');
  }

  lemma LocalRefMoves(m: Mode, h: Header, th: Thread, c: Choice, h': Header, th': Thread)
    requires LocalStep(m, h, th, c) == Goes(h', th')
    ensures RefMoves(m, h, th, h', th')
  {
    match th
    case Scheduling(s, k) => ScheduleRefMoves(m, h, s, k, h', th');
    case Releasing(r, k) => ReleaseRefMoves(m, h, r, k, h', th');
    case Routine(d, r) => RoutineRefMoves(m, h, d, r, c, h', th');
    case _ => EntryRefMoves(m, h, th, c, h', th');
  }

  lemma ScheduleFlowMoves(m: Mode, h: Header, s: SchedulePc, k: Caller, h': Header, th': Thread)
    requires ScheduleStep(m, h, s, k) == Goes(h', th')
    ensures FlowMoves(h, Scheduling(s, k), h', th')
  {
    match s
    case SLoad => case SCas => case SAddRef => case SInsert =>
  }

  lemma ReleaseFlowMoves(m: Mode, h: Header, r: ReleasePc, k: After, h': Header, th': Thread)
    requires ReleaseStep(m, h, r, k) == Goes(h', th')
    ensures FlowMoves(h, Releasing(r, k), h', th')
  {
    match r
    case RSub => case RLoad => case RStore => case RDrop => case RDealloc => case RTracker =>
  }

  lemma RoutineWakeMoves(m: Mode, h: Header, d: RoutinePc, r: Run, c: Choice, h': Header, th': Thread)
    requires RoutineStep(m, h, d, r, c) == Goes(h', th')
    ensures WakeMoves(h, Routine(d, r), h', th')
  {
    match d
    case DClear => case DLoad => case DWaker => case DSetSlot => case DBudget =>
    case DPoll => case DPolling => case DStore => case DDrop => case DWoken => case DSpend =>
    case DReset => case DAddRef => case DInsert => case DClearSlot =>
  }

  lemma RoutineLifeMoves(m: Mode, h: Header, d: RoutinePc, r: Run, c: Choice, h': Header, th': Thread)
    requires RoutineStep(m, h, d, r, c) == Goes(h', th')
    ensures LifeMoves(h, Routine(d, r), h', th')
  {
    match d
    case DClear => case DLoad => case DWaker => case DSetSlot => case DBudget =>
    case DPoll => case DPolling => case DStore => case DDrop => case DWoken => case DSpend =>
    case DReset => case DAddRef => case DInsert => case DClearSlot =>
  }

  lemma EntryWakeMoves(m: Mode, h: Header, th: Thread, c: Choice, h': Header, th': Thread)
    requires LocalStep(m, h, th, c) == Goes(h', th') && Entering(th)
    ensures WakeMoves(h, th, h', th')
  {
    match th
    case Idle => case Spawning(_) => case MakingHandle => case Cancelling =>
  }

  lemma EntryLifeMoves(m: Mode, h: Header, th: Thread, c: Choice, h': Header, th': Thread)
    requires LocalStep(m, h, th, c) == Goes(h', th') && Entering(th)
    ensures LifeMoves(h, th, h', th')
  {
    match th
    case Idle => case Spawning(_) => case MakingHandle => case Cancelling =>
  }

  lemma LocalFlowMoves(m: Mode, h: Header, th: Thread, c: Choice, h': Header, th': Thread)
    requires LocalStep(m, h, th, c) == Goes(h', th')
    ensures FlowMoves(h, th, h', th')
  {
    match th
    case Scheduling(s, k) => ScheduleFlowMoves(m, h, s, k, h', th');
    case Releasing(r, k) => ReleaseFlowMoves(m, h, r, k, h', th');
    case Routine(d, r) =>
      RoutineWakeMoves(m, h, d, r, c, h', th');
      RoutineLifeMoves(m, h, d, r, c, h', th');
    case _ =>
      EntryWakeMoves(m, h, th, c, h', th');
      EntryLifeMoves(m, h, th, c, h', th');
  }

  // ----- What one step of the task keeps -----

  /** The event starts a call. */
  predicate Starts(e: Event) {
    !e.Advance? && !e.CloneWaker? && !e.TakeRequest?
  }

  /** How a step changes the thread list: one thread moves, or one call starts, or none. */
  lemma StepShape(m: Mode, s: State, e: Event)
    requires Effect(m, s, e).Some?
    ensures var s' := Effect(m, s, e).value;
            && (e.Advance? ==>
                  && e.t < |s.threads|
                  && s'.threads == s.threads[e.t := s'.threads[e.t]]
                  && LocalStep(m, s.h, s.threads[e.t], e.choice) == Goes(s'.h, s'.threads[e.t]))
            && (e.CloneWaker? || e.TakeRequest? ==> s'.threads == s.threads)
            && (Starts(e) ==>
                  |s'.threads| == |s.threads| + 1 && s'.threads == s.threads + [s'.threads[|s.threads|]])
  {
  }

  lemma AdvanceKeepsLedger(m: Mode, s: State, t: nat, c: Choice, h': Header, th': Thread)
    requires Ledger(s) && t < |s.threads| && LocalStep(m, s.h, s.threads[t], c) == Goes(h', th')
    requires Countable(m, State(h', s.threads[t := th']))
    ensures Ledger(State(h', s.threads[t := th']))
  {
    LocalRefMoves(m, s.h, s.threads[t], c, h', th');
    SumUpdate(s.threads, Holds, t, th');
    SumAt(s.threads, Holds, t);
  }

  /** A call that starts takes over a reference from outside, or holds none. */
  lemma StartHolds(m: Mode, s: State, e: Event)
    requires Effect(m, s, e).Some? && Starts(e)
    ensures var s' := Effect(m, s, e).value;
            && |s'.threads| == |s.threads| + 1 && s'.h.refCount == s.h.refCount
            && Holds(s'.threads[|s.threads|]) + Outside(s'.h) == Outside(s.h)
  {
    match e
    case RunDpc(_) => case Wake => case WakeByRef => case DropWaker => case Cancel => case DropHandle =>
    case Advance(_, _) => case CloneWaker => case TakeRequest(_) =>
  }

  lemma StartKeepsLedger(m: Mode, s: State, e: Event)
    requires Ledger(s) && Effect(m, s, e).Some? && !e.Advance?
    requires Countable(m, Effect(m, s, e).value)
    ensures Ledger(Effect(m, s, e).value)
  {
    if Starts(e) {
      var s' := Effect(m, s, e).value;
      StepShape(m, s, e);
      StartHolds(m, s, e);
      SumAppend(s.threads, Holds, s'.threads[|s.threads|]);
    } else {
      RestKeepsLedger(m, s, e, Effect(m, s, e).value);
    }
  }

  lemma RestKeepsLedger(m: Mode, s: State, e: Event, s': State)
    requires Ledger(s) && Effect(m, s, e) == Some(s') && (e.CloneWaker? || e.TakeRequest?) && Countable(m, s')
    ensures Ledger(s')
  {
    assert s'.threads == s.threads;
  }

  lemma LedgerKept(m: Mode, s: State, e: Event)
    requires Ledger(s) && Effect(m, s, e).Some?
    requires Countable(m, Effect(m, s, e).value)
    ensures Ledger(Effect(m, s, e).value)
  {
    if e.Advance? {
      var s' := Effect(m, s, e).value;
      StepShape(m, s, e);
      AdvanceKeepsLedger(m, s, e.t, e.choice, s'.h, s'.threads[e.t]);
    } else {
      StartKeepsLedger(m, s, e);
    }
  }

  lemma BorrowsKept(m: Mode, s: State, e: Event)
    requires BorrowsHold(s) && Step(m, s, e).Some?
    ensures BorrowsHold(Step(m, s, e).value)
  {
    var s' := Step(m, s, e).value;
    if !EndsLoan(s, e) {
      StepShape(m, s, e);
      if e.Advance? {
        LocalRefMoves(m, s.h, s.threads[e.t], e.choice, s'.h, s'.threads[e.t]);
      }
      if LiveWaker(s) && s.h.wakers == 0 {
        var j :| 0 <= j < |s.threads| && InPoll(s.threads[j]);
        assert InPoll(s'.threads[j]);
      }
    }
  }

  /** At count zero only the destroyer is left; every other call has returned. */
  lemma ZeroMeansOver(s: State, i: nat)
    requires Ledger(s) && BorrowsHold(s) && s.h.refCount == 0 && i < |s.threads|
    ensures !s.h.queued && s.h.wakers == 0 && s.h.handles == 0
    ensures var th := s.threads[i];
            th.Idle? || (th.Releasing? && th.after.Return? && !th.r.RSub?)
  {
    SumZero(s.threads, Holds);
  }

  lemma AdvanceKeepsOwner(m: Mode, s: State, t: nat, h': Header, th': Thread)
    requires Ledger(s) && BorrowsHold(s) && OneOwnerAtZero(s) && t < |s.threads|
    requires RefMoves(m, s.h, s.threads[t], h', th') && Balanced(s.h, s.threads[t], h', th')
    requires s.h.refCount == 0 ==> !s.threads[t].Idle?
    ensures OneOwnerAtZero(State(h', s.threads[t := th']))
  {
    SumUpdate(s.threads, Destroyer, t, th');
    SumAt(s.threads, Destroyer, t);
    if s.h.refCount == 0 {
      ZeroMeansOver(s, t);
    }
  }

  lemma AdvanceKeepsOneOwner(m: Mode, s: State, t: nat, c: Choice, h': Header, th': Thread)
    requires Ledger(s) && BorrowsHold(s) && OneOwnerAtZero(s) && t < |s.threads|
    requires LocalStep(m, s.h, s.threads[t], c) == Goes(h', th')
    requires Countable(m, State(h', s.threads[t := th']))
    ensures OneOwnerAtZero(State(h', s.threads[t := th']))
  {
    LocalRefMoves(m, s.h, s.threads[t], c, h', th');
    AdvanceKeepsLedger(m, s, t, c, h', th');
    SumUpdate(s.threads, Holds, t, th');
    AdvanceKeepsOwner(m, s, t, h', th');
  }

  /** A call that starts frees nothing and is nobody's destroyer. */
  lemma StartIsNoOwner(m: Mode, s: State, e: Event)
    requires Effect(m, s, e).Some? && Starts(e)
    ensures var s' := Effect(m, s, e).value;
            && |s'.threads| == |s.threads| + 1 && Destroyer(s'.threads[|s.threads|]) == 0
            && s'.h.refCount == s.h.refCount && s'.h.freed == s.h.freed && s'.h.frees == s.h.frees
  {
    match e
    case RunDpc(_) => case Wake => case WakeByRef => case DropWaker => case Cancel => case DropHandle =>
    case Advance(_, _) => case CloneWaker => case TakeRequest(_) =>
  }

  lemma StartKeepsOwner(m: Mode, s: State, e: Event)
    requires OneOwnerAtZero(s) && Effect(m, s, e).Some? && Starts(e)
    ensures OneOwnerAtZero(Effect(m, s, e).value)
  {
    StepShape(m, s, e);
    StartIsNoOwner(m, s, e);
    SumAppend(s.threads, Destroyer, Effect(m, s, e).value.threads[|s.threads|]);
  }

  /** A waker is cloned only while there is one, so never at count zero. */
  lemma LiveWakerIsHeld(s: State)
    requires Ledger(s) && BorrowsHold(s) && LiveWaker(s)
    ensures s.h.refCount > 0
  {
    if s.h.wakers == 0 {
      var j :| 0 <= j < |s.threads| && InPoll(s.threads[j]);
      SumAt(s.threads, Holds, j);
    }
  }

  lemma CloneKeepsOwner(m: Mode, s: State)
    requires Ledger(s) && BorrowsHold(s) && OneOwnerAtZero(s) && Effect(m, s, CloneWaker).Some?
    requires Countable(m, Effect(m, s, CloneWaker).value)
    ensures OneOwnerAtZero(Effect(m, s, CloneWaker).value)
  {
    LiveWakerIsHeld(s);
    LedgerKept(m, s, CloneWaker);
  }

  lemma OwnerKept(m: Mode, s: State, e: Event)
    requires Ledger(s) && BorrowsHold(s) && OneOwnerAtZero(s) && Step(m, s, e).Some?
    requires Countable(m, Step(m, s, e).value)
    ensures OneOwnerAtZero(Step(m, s, e).value)
  {
    if e.Advance? {
      var s' := Step(m, s, e).value;
      StepShape(m, s, e);
      AdvanceKeepsOneOwner(m, s, e.t, e.choice, s'.h, s'.threads[e.t]);
    } else if e.CloneWaker? {
      CloneKeepsOwner(m, s);
    } else if Starts(e) {
      StartKeepsOwner(m, s, e);
    }
  }

  lemma PushKeptOn(m: Mode, s: State, e: Event)
    requires PushKept(s) && Step(m, s, e).Some?
    ensures PushKept(Step(m, s, e).value)
  {
    var s' := Step(m, s, e).value;
    StepShape(m, s, e);
    if e.Advance? {
      LocalFlowMoves(m, s.h, s.threads[e.t], e.choice, s'.h, s'.threads[e.t]);
      assert Pushing(s'.threads[e.t]) ==> PushKept(s');
    } else if e.RunDpc? {
      assert Pushing(s'.threads[|s.threads|]);
    }
    if j :| 0 <= j < |s.threads| && Pushing(s.threads[j]) && s'.threads[j] == s.threads[j] {
      assert Pushing(s'.threads[j]);
    }
  }

  lemma CompletedStays(m: Mode, s: State, e: Event)
    requires Step(m, s, e).Some?
    ensures s.h.completed ==> Step(m, s, e).value.h.completed
  {
    StepShape(m, s, e);
    if e.Advance? {
      var s' := Step(m, s, e).value;
      LocalFlowMoves(m, s.h, s.threads[e.t], e.choice, s'.h, s'.threads[e.t]);
    }
  }

  /** The wake step itself: whichever way its exchange goes, a poll is due. */
  predicate Requests(s: State, e: Event) {
    || e.Wake? || e.WakeByRef?
    || (e.Advance? && e.t < |s.threads| && s.threads[e.t].Cancelling? && s.h.cancelRequested == 0)
    || (e.Advance? && e.t < |s.threads| && s.threads[e.t].Scheduling?)
  }

  predicate PollBegins(s: State, e: Event) {
    e.Advance? && e.t < |s.threads| && BeginsPoll(s.threads[e.t])
  }

  lemma PollDueKept(m: Mode, s: State, e: Event)
    requires PushKept(s) && PollDue(s) && Step(m, s, e).Some? && !PollBegins(s, e)
    requires !Step(m, s, e).value.h.completed
    ensures PollDue(Step(m, s, e).value)
  {
    var s' := Step(m, s, e).value;
    StepShape(m, s, e);
    PushKeptOn(m, s, e);
    if e.Advance? {
      LocalFlowMoves(m, s.h, s.threads[e.t], e.choice, s'.h, s'.threads[e.t]);
      assert Leads(s'.threads[e.t]) ==> PollDue(s');
    } else if e.RunDpc? {
      assert Leads(s'.threads[|s.threads|]);
    }
    if j :| 0 <= j < |s'.threads| && Pushing(s'.threads[j]) {
      assert Leads(s'.threads[j]);
    }
    if j :| 0 <= j < |s.threads| && Leads(s.threads[j]) && s'.threads[j] == s.threads[j] {
      assert Leads(s'.threads[j]);
    }
  }

  lemma RequestMakesPollDue(m: Mode, s: State, e: Event)
    requires PushKept(s) && Step(m, s, e).Some? && Requests(s, e)
    requires !Step(m, s, e).value.h.completed
    ensures PollDue(Step(m, s, e).value)
  {
    var s' := Step(m, s, e).value;
    if e.Advance? && s.threads[e.t].Scheduling? {
      assert Leads(s.threads[e.t]);
      PollDueKept(m, s, e);
    } else {
      StepShape(m, s, e);
      assert Leads(s'.threads[if e.Advance? then e.t else |s.threads|]);
    }
  }

  /** At count zero no poll is due, so the future has been polled. */
  lemma ZeroMeansPolled(s: State)
    requires Ledger(s) && BorrowsHold(s) && Lived(s) && s.h.refCount == 0
    ensures s.h.polls > 0
  {
    if PollDue(s) {
      if |s.threads| > 0 {
        ZeroMeansOver(s, 0);
      }
      var j :| s.h.queued || (0 <= j < |s.threads| && Leads(s.threads[j]));
      if !s.h.queued {
        ZeroMeansOver(s, j);
      }
      assert false;
    }
  }

  /** Until the first poll one stays due. */
  lemma FirstPollStaysDue(m: Mode, s: State, e: Event, s': State)
    requires Inv(s) && Step(m, s, e) == Some(s') && s'.h.polls == 0 && !s'.h.completed
    ensures PollDue(s')
  {
    CompletedStays(m, s, e);
    if e.Advance? {
      StepShape(m, s, e);
      LocalFlowMoves(m, s.h, s.threads[e.t], e.choice, s'.h, s'.threads[e.t]);
    }
    PollDueKept(m, s, e);
  }

  lemma AdvanceKeepsLife(m: Mode, s: State, t: nat, c: Choice, h': Header, th': Thread)
    requires Inv(s) && t < |s.threads| && LocalStep(m, s.h, s.threads[t], c) == Goes(h', th')
    ensures LivedOn(State(h', s.threads[t := th']))
  {
    var s' := State(h', s.threads[t := th']);
    LocalFlowMoves(m, s.h, s.threads[t], c, h', th');
    if Destroyer(s.threads[t]) > 0 {
      SumAt(s.threads, Destroyer, t);
      ZeroMeansPolled(s);
    }
    assert Dropping(th') ==> Dropping(s'.threads[t]);
    if j :| 0 <= j < |s.threads| && Dropping(s.threads[j]) && j != t {
      assert Dropping(s'.threads[j]);
    }
  }

  lemma StartKeepsLife(m: Mode, s: State, e: Event, s': State)
    requires Lived(s) && Effect(m, s, e) == Some(s') && !e.Advance?
    ensures LivedOn(s')
  {
    StepShape(m, s, e);
    if j :| 0 <= j < |s.threads| && Dropping(s.threads[j]) {
      assert Dropping(s'.threads[j]);
    }
  }

  lemma LivedKept(m: Mode, s: State, e: Event)
    requires Inv(s) && Step(m, s, e).Some?
    ensures Lived(Step(m, s, e).value)
  {
    var s' := Step(m, s, e).value;
    if s'.h.polls == 0 && !s'.h.completed {
      FirstPollStaysDue(m, s, e, s');
    }
    if e.Advance? {
      StepShape(m, s, e);
      AdvanceKeepsLife(m, s, e.t, e.choice, s'.h, s'.threads[e.t]);
    } else {
      StartKeepsLife(m, s, e, s');
    }
  }

  lemma InvKept(m: Mode, s: State, e: Event)
    requires Inv(s) && Step(m, s, e).Some? && Countable(m, Step(m, s, e).value)
    ensures Inv(Step(m, s, e).value)
  {
    LedgerKept(m, s, e);
    BorrowsKept(m, s, e);
    OwnerKept(m, s, e);
    PushKeptOn(m, s, e);
    LivedKept(m, s, e);
  }

  lemma SumOne(th: Thread, f: Thread -> nat)
    ensures Sum([th], f) == f(th)
  {
    SumAppend([], f, th);
    assert [] + [th] == [th];
  }

  /** Only the spawning thread exists, with the one reference of `Task::allocate`. */
  predicate Fresh(s: State) {
    && |s.threads| == 1 && s.threads[0].Spawning?
    && s.h.refCount == 1 && Outside(s.h) == 0 && !s.h.scheduled && !s.h.completed
    && !s.h.freed && s.h.frees == 0 && s.h.polls == 0 && !s.h.ready && s.h.drops == 0
  }

  lemma FreshInv(s: State)
    requires Fresh(s)
    ensures Inv(s)
  {
    assert s.threads == [s.threads[0]];
    SumOne(s.threads[0], Holds);
    SumOne(s.threads[0], Destroyer);
    assert Leads(s.threads[0]);
  }

  /** The thread is about to take a reference. */
  predicate Adds(th: Thread) {
    || th.MakingHandle?
    || (th.Scheduling? && th.s.SAddRef?)
    || (th.Routine? && (th.d.DWaker? || th.d.DAddRef?))
  }

  predicate HoldsAtMost(h: Header, th: Thread, h': Header, th': Thread) {
    Holds(th') + Outside(h') <= Holds(th) + Outside(h) + Bit(Adds(th))
  }

  lemma ScheduleHolds(m: Mode, h: Header, s: SchedulePc, k: Caller, h': Header, th': Thread)
    requires ScheduleStep(m, h, s, k) == Goes(h', th')
    ensures HoldsAtMost(h, Scheduling(s, k), h', th')
  {
    match s
    case SLoad => case SCas => case SAddRef => case SInsert =>
  }

  lemma ReleaseHolds(m: Mode, h: Header, r: ReleasePc, k: After, h': Header, th': Thread)
    requires ReleaseStep(m, h, r, k) == Goes(h', th')
    ensures HoldsAtMost(h, Releasing(r, k), h', th')
  {
    match r
    case RSub => case RLoad => case RStore => case RDrop => case RDealloc => case RTracker =>
  }

  lemma RoutineHolds(m: Mode, h: Header, d: RoutinePc, r: Run, c: Choice, h': Header, th': Thread)
    requires RoutineStep(m, h, d, r, c) == Goes(h', th')
    ensures HoldsAtMost(h, Routine(d, r), h', th')
  {
    match d
    case DClear => case DLoad => case DWaker => case DSetSlot => case DBudget =>
    case DPoll => case DPolling => case DStore => case DDrop => case DWoken => case DSpend =>
    case DReset => case DAddRef => case DInsert => case DClearSlot =>
  }

  lemma LocalHolds(m: Mode, h: Header, th: Thread, c: Choice, h': Header, th': Thread)
    requires LocalStep(m, h, th, c) == Goes(h', th')
    ensures HoldsAtMost(h, th, h', th')
  {
    match th
    case Scheduling(s, k) => ScheduleHolds(m, h, s, k, h', th');
    case Releasing(r, k) => ReleaseHolds(m, h, r, k, h', th');
    case Routine(d, r) => RoutineHolds(m, h, d, r, c, h', th');
    case Idle => case Spawning(_) => case MakingHandle => case Cancelling =>
  }

  /** Only taking a reference can fill a plain counter. */
  lemma CountableKept(m: Mode, s: State, t: nat, c: Choice, h': Header, th': Thread)
    requires Ledger(s) && t < |s.threads|
    requires LocalStep(m, s.h, s.threads[t], c) == Goes(h', th')
    requires Adds(s.threads[t]) ==> s.h.refCount < 0xFFFF_FFFF
    ensures Countable(m, State(h', s.threads[t := th']))
  {
    LocalHolds(m, s.h, s.threads[t], c, h', th');
    SumUpdate(s.threads, Holds, t, th');
  }

  /** The cancel flag moves from 0 to 1 in `cancel` and from 1 to 2 in a take, and not otherwise. */
  lemma CancelMoves(m: Mode, s: State, e: Event)
    requires Step(m, s, e).Some?
    ensures var s' := Step(m, s, e).value;
            s'.h.cancelRequested == s.h.cancelRequested
            || (s.h.cancelRequested == 0 && s'.h.cancelRequested == 1
                && e.Advance? && e.t < |s.threads| && s.threads[e.t].Cancelling?)
            || (s.h.cancelRequested == 1 && s'.h.cancelRequested == 2 && e.TakeRequest?)
  {
    StepShape(m, s, e);
    if e.Advance? {
      match s.threads[e.t] {
        case Scheduling(p, _) => match p { case SLoad => case SCas => case SAddRef => case SInsert => }
        case Releasing(p, _) => match p { case RSub => case _ => }
        case Routine(d, r) =>
          RoutineLeavesFlag(m, s.h, d, r, e.choice);
        case _ =>
      }
    }
  }

  lemma RoutineLeavesFlag(m: Mode, h: Header, d: RoutinePc, r: Run, c: Choice)
    requires RoutineStep(m, h, d, r, c).Goes?
    ensures RoutineStep(m, h, d, r, c).h.cancelRequested == h.cancelRequested
  {
    match d
    case DClear => case DLoad => case DWaker => case DSetSlot => case DBudget =>
    case DPoll => case DPolling => case DStore => case DDrop => case DWoken => case DSpend =>
    case DReset => case DAddRef => case DInsert => case DClearSlot =>
  }

  // ----- Whole runs -----

  /** The i-th step of a run. */
  ghost predicate Follows(m: Mode, ss: seq<State>, es: seq<Event>, i: nat)
    requires |ss| == |es| + 1 && i < |es|
  {
    Step(m, ss[i], es[i]) == Some(ss[i + 1]) && Countable(m, ss[i + 1])
  }

  /** A finite run from a freshly allocated task. */
  ghost predicate IsRun(m: Mode, ss: seq<State>, es: seq<Event>) {
    && |ss| == |es| + 1
    && (exists wantsHandle :: ss[0] == Init(wantsHandle))
    && (forall i :: 0 <= i < |es| ==> Follows(m, ss, es, i))
  }

  /** One more step of a run. */
  lemma RunGrows(m: Mode, ss: seq<State>, es: seq<Event>, e: Event, s': State)
    requires IsRun(m, ss, es) && Step(m, ss[|es|], e) == Some(s') && Countable(m, s')
    ensures IsRun(m, ss + [s'], es + [e])
  {
    var ss', es' := ss + [s'], es + [e];
    assert ss'[0] == ss[0];
    forall i | 0 <= i < |es'| ensures Follows(m, ss', es', i) {
      if i < |es| {
        assert Follows(m, ss, es, i);
      }
    }
  }

  lemma {:induction false} RunKeepsInv(m: Mode, ss: seq<State>, es: seq<Event>, k: nat)
    requires IsRun(m, ss, es) && k < |ss|
    ensures Inv(ss[k])
  {
    if k == 0 {
      var wantsHandle :| ss[0] == Init(wantsHandle);
      FreshInv(ss[0]);
    } else {
      RunKeepsInv(m, ss, es, k - 1);
      assert Follows(m, ss, es, k - 1);
      InvKept(m, ss[k - 1], es[k - 1]);
    }
  }

  /** The ledger theorem: at every moment of every interleaving the counter equals the
    * references held, the block is freed at most once, only with no holder left, and
    * no thread is about to touch it afterwards. */
  lemma LedgerHolds(m: Mode, ss: seq<State>, es: seq<Event>, k: nat)
    requires IsRun(m, ss, es) && k < |ss|
    ensures ss[k].h.refCount == Holders(ss[k])
    ensures ss[k].h.frees <= 1 && (ss[k].h.freed <==> ss[k].h.frees == 1)
    ensures ss[k].h.freed ==> Holders(ss[k]) == 0
    ensures ss[k].h.freed ==> forall i :: 0 <= i < |ss[k].threads| ==> !Touches(ss[k].threads[i])
  {
    RunKeepsInv(m, ss, es, k);
    var s := ss[k];
    if s.h.freed {
      SumZero(s.threads, Destroyer);
      forall i | 0 <= i < |s.threads| ensures !Touches(s.threads[i]) {
        ZeroMeansOver(s, i);
      }
    }
  }

  /** Nothing leaks: once every call has returned and nobody holds a reference, the block
    * has been freed, exactly once, and the future dropped. */
  lemma NothingLeaks(m: Mode, ss: seq<State>, es: seq<Event>, k: nat)
    requires IsRun(m, ss, es) && k < |ss|
    requires Outside(ss[k].h) == 0
    requires forall i :: 0 <= i < |ss[k].threads| ==> ss[k].threads[i].Idle?
    ensures ss[k].h.frees == 1 && ss[k].h.drops > 0 && ss[k].h.polls > 0
  {
    RunKeepsInv(m, ss, es, k);
    SumOfZeros(ss[k].threads, Holds);
    SumOfZeros(ss[k].threads, Destroyer);
  }

  predicate PollOwed(s: State) {
    s.h.completed || PollDue(s)
  }

  lemma PollOwedKept(m: Mode, ss: seq<State>, es: seq<Event>, k: nat)
    requires IsRun(m, ss, es) && k < |es|
    requires Requests(ss[k], es[k]) || (PollOwed(ss[k]) && !PollBegins(ss[k], es[k]))
    ensures PollOwed(ss[k + 1])
  {
    RunKeepsInv(m, ss, es, k);
    assert Follows(m, ss, es, k);
    CompletedStays(m, ss[k], es[k]);
    if !ss[k + 1].h.completed {
      if Requests(ss[k], es[k]) {
        RequestMakesPollDue(m, ss[k], es[k]);
      } else {
        PollDueKept(m, ss[k], es[k]);
      }
    }
  }

  /** No wake and no cancel is lost: after a request, and until a poll begins, either the
    * task has completed or a poll is still due. */
  lemma {:induction false} NoLostWake(m: Mode, ss: seq<State>, es: seq<Event>, i: nat, k: nat)
    requires IsRun(m, ss, es) && i < k < |ss|
    requires Requests(ss[i], es[i])
    requires forall j :: i < j < k ==> !PollBegins(ss[j], es[j])
    ensures ss[k].h.completed || PollDue(ss[k])
    decreases k
  {
    if k > i + 1 {
      NoLostWake(m, ss, es, i, k - 1);
    }
    PollOwedKept(m, ss, es, k - 1);
  }

  // ----- Runs whose DPC activations do not overlap -----

  /** `dpc_routine` is between its entry and its own `release`. */
  function Active(th: Thread): nat {
    Bit(th.Routine? || (th.Releasing? && (th.after.QueueReturns? || th.after.RoutineDropsWaker?)))
  }

  function DropsNow(th: Thread): nat {
    Bit(Dropping(th))
  }

  /** Between the load of `completed` and the last use of the future. */
  predicate UsesFuture(th: Thread) {
    th.Routine? && !th.d.DClear? && !th.d.DLoad? && !th.d.DClearSlot?
  }

  /** What a thread near the future knows of it. */
  predicate Knows(h: Header, th: Thread) {
    && (UsesFuture(th) ==>
          h.drops == 0 && h.completed == th.d.DDrop? && h.ready == (th.d.DStore? || th.d.DDrop?))
    && (th.Releasing? && th.r.RStore? ==> h.drops == 0 && !h.completed)
    && (th.Releasing? && th.r.RDrop? ==> h.drops == 0 && h.completed)
  }

  predicate SerialInv(s: State) {
    && Sum(s.threads, Active) <= 1
    && (forall i :: 0 <= i < |s.threads| ==> Knows(s.h, s.threads[i]))
    && s.h.drops + Sum(s.threads, DropsNow) == Bit(s.h.completed)
    && (s.h.ready && !s.h.completed ==>
          exists i :: 0 <= i < |s.threads| && s.threads[i].Routine? && s.threads[i].d.DStore?)
  }

  /** The environment assumption: the kernel starts the routine only when no earlier
    * activation for the same task is still in it. */
  predicate Serial(s: State, e: Event) {
    e.RunDpc? ==> Sum(s.threads, Active) == 0
  }

  /** The thread is about to change what others may know of the future. */
  predicate Decides(th: Thread) {
    || (th.Routine? && (th.d.DPolling? || th.d.DStore? || th.d.DDrop?))
    || (th.Releasing? && (th.r.RStore? || th.r.RDrop?))
  }

  predicate SerialMoves(h: Header, th: Thread, h': Header, th': Thread) {
    && Active(th') <= Active(th)
    && h'.drops + DropsNow(th') + Bit(h.completed) == h.drops + DropsNow(th) + Bit(h'.completed)
    && ((th.Routine? && th.d.DLoad? && !h.completed ==> !h.ready && h.drops == 0) ==>
        (th.Releasing? && th.r.RLoad? && !h.completed ==> h.drops == 0) ==> Knows(h', th'))
    && (!Decides(th) ==> h'.drops == h.drops && h'.completed == h.completed && h'.ready == h.ready)
    && (h'.ready && !h'.completed ==> (h.ready && !(th.Routine? && th.d.DStore?)) || (th'.Routine? && th'.d.DStore?))
  }

  lemma ScheduleSerialMoves(m: Mode, h: Header, s: SchedulePc, k: Caller, h': Header, th': Thread)
    requires ScheduleStep(m, h, s, k) == Goes(h', th')
    ensures SerialMoves(h, Scheduling(s, k), h', th')
  {
    match s
    case SLoad => case SCas => case SAddRef => case SInsert =>
  }

  lemma ReleaseSerialMoves(m: Mode, h: Header, r: ReleasePc, k: After, h': Header, th': Thread)
    requires ReleaseStep(m, h, r, k) == Goes(h', th') && Knows(h, Releasing(r, k))
    ensures SerialMoves(h, Releasing(r, k), h', th')
  {
    match r
    case RSub => case RLoad => case RStore => case RDrop => case RDealloc => case RTracker =>
  }

  lemma RoutineSerialMoves(m: Mode, h: Header, d: RoutinePc, r: Run, c: Choice, h': Header, th': Thread)
    requires RoutineStep(m, h, d, r, c) == Goes(h', th') && Knows(h, Routine(d, r))
    ensures SerialMoves(h, Routine(d, r), h', th')
  {
    match d
    case DClear => case DLoad => case DWaker => case DSetSlot => case DBudget =>
    case DPoll => case DPolling => case DStore => case DDrop => case DWoken => case DSpend =>
    case DReset => case DAddRef => case DInsert => case DClearSlot =>
  }

  lemma LocalSerialMoves(m: Mode, h: Header, th: Thread, c: Choice, h': Header, th': Thread)
    requires LocalStep(m, h, th, c) == Goes(h', th') && Knows(h, th)
    ensures SerialMoves(h, th, h', th')
  {
    match th
    case Scheduling(s, k) => ScheduleSerialMoves(m, h, s, k, h', th');
    case Releasing(r, k) => ReleaseSerialMoves(m, h, r, k, h', th');
    case Routine(d, r) => RoutineSerialMoves(m, h, d, r, c, h', th');
    case Idle => case Spawning(_) => case MakingHandle => case Cancelling =>
  }

  /** No other thread can know of the future while one decides about it. */
  lemma DecidesAlone(s: State, t: nat, i: nat)
    requires Inv(s) && Sum(s.threads, Active) <= 1
    requires t < |s.threads| && i < |s.threads| && i != t && Decides(s.threads[t])
    ensures !UsesFuture(s.threads[i])
    ensures !(s.threads[i].Releasing? && (s.threads[i].r.RStore? || s.threads[i].r.RDrop?))
  {
    var lo, hi := if i < t then i else t, if i < t then t else i;
    SumTwo(s.threads, Active, lo, hi);
    SumTwo(s.threads, Destroyer, lo, hi);
    if s.h.refCount == 0 {
      ZeroMeansOver(s, i);
      ZeroMeansOver(s, t);
    }
  }

  /** What a thread about to learn of the future finds. */
  lemma FindsFuture(s: State, t: nat)
    requires Inv(s) && SerialInv(s) && t < |s.threads| && !s.h.completed
    ensures s.h.drops == 0
    ensures s.threads[t].Routine? && s.threads[t].d.DLoad? ==> !s.h.ready
  {
    if s.threads[t].Routine? && s.threads[t].d.DLoad? && s.h.ready {
      var j :| 0 <= j < |s.threads| && s.threads[j].Routine? && s.threads[j].d.DStore?;
      SumTwo(s.threads, Active, if j < t then j else t, if j < t then t else j);
      assert false;
    }
  }

  lemma AdvanceKeepsSerial(m: Mode, s: State, t: nat, c: Choice, h': Header, th': Thread)
    requires Inv(s) && SerialInv(s) && t < |s.threads|
    requires LocalStep(m, s.h, s.threads[t], c) == Goes(h', th')
    ensures SerialInv(State(h', s.threads[t := th']))
  {
    var th, s' := s.threads[t], State(h', s.threads[t := th']);
    LocalSerialMoves(m, s.h, th, c, h', th');
    SumUpdate(s.threads, Active, t, th');
    SumUpdate(s.threads, DropsNow, t, th');
    forall i | 0 <= i < |s'.threads| ensures Knows(h', s'.threads[i]) {
      if i == t {
        if !s.h.completed {
          FindsFuture(s, t);
        }
      } else if Decides(th) {
        DecidesAlone(s, t, i);
      }
    }
    if h'.ready && !h'.completed {
      if th'.Routine? && th'.d.DStore? {
        assert s'.threads[t] == th';
      } else {
        assert s.h.ready && !s.h.completed by { LocalFlowMoves(m, s.h, th, c, h', th'); }
        var j :| 0 <= j < |s.threads| && s.threads[j].Routine? && s.threads[j].d.DStore?;
        assert s'.threads[j] == s.threads[j];
      }
    }
  }

  /** A step that moves no thread leaves the future alone, and a call that starts has not
    * come near it yet. */
  lemma StartShape(m: Mode, s: State, e: Event)
    requires Effect(m, s, e).Some? && !e.Advance?
    ensures var s' := Effect(m, s, e).value;
            && s'.h.drops == s.h.drops && s'.h.completed == s.h.completed && s'.h.ready == s.h.ready
            && (Starts(e) ==>
                  && |s'.threads| == |s.threads| + 1
                  && DropsNow(s'.threads[|s.threads|]) == 0 && Knows(s'.h, s'.threads[|s.threads|])
                  && Active(s'.threads[|s.threads|]) == Bit(e.RunDpc?))
  {
    match e
    case Advance(_, _) => case RunDpc(_) => case CloneWaker => case TakeRequest(_) => case Wake =>
    case WakeByRef => case DropWaker => case Cancel => case DropHandle =>
  }

  lemma StartKeepsSerial(m: Mode, s: State, e: Event, s': State)
    requires SerialInv(s) && Serial(s, e) && Effect(m, s, e) == Some(s') && !e.Advance?
    ensures SerialInv(s')
  {
    StepShape(m, s, e);
    StartShape(m, s, e);
    if Starts(e) {
      SumAppend(s.threads, Active, s'.threads[|s.threads|]);
      SumAppend(s.threads, DropsNow, s'.threads[|s.threads|]);
    }
    forall i | 0 <= i < |s.threads| ensures s'.threads[i] == s.threads[i] && Knows(s'.h, s'.threads[i]) {}
    if j :| 0 <= j < |s.threads| && s.threads[j].Routine? && s.threads[j].d.DStore? {
      assert s'.threads[j].d.DStore?;
    }
  }

  lemma SerialKept(m: Mode, s: State, e: Event)
    requires Inv(s) && SerialInv(s) && Serial(s, e) && Step(m, s, e).Some?
    ensures SerialInv(Step(m, s, e).value)
  {
    if e.Advance? {
      var s' := Step(m, s, e).value;
      StepShape(m, s, e);
      AdvanceKeepsSerial(m, s, e.t, e.choice, s'.h, s'.threads[e.t]);
    } else {
      StartKeepsSerial(m, s, e, Step(m, s, e).value);
    }
  }

  lemma FreshSerialInv(s: State)
    requires Fresh(s)
    ensures SerialInv(s)
  {
    assert s.threads == [s.threads[0]];
    SumOne(s.threads[0], Active);
    SumOne(s.threads[0], DropsNow);
  }

  ghost predicate IsSerialRun(m: Mode, ss: seq<State>, es: seq<Event>) {
    && IsRun(m, ss, es)
    && forall i :: 0 <= i < |es| ==> FollowsSerially(ss, es, i)
  }

  ghost predicate FollowsSerially(ss: seq<State>, es: seq<Event>, i: nat)
    requires |ss| == |es| + 1 && i < |es|
  {
    Serial(ss[i], es[i])
  }

  lemma SerialRunGrows(m: Mode, ss: seq<State>, es: seq<Event>, e: Event, s': State)
    requires IsSerialRun(m, ss, es) && Step(m, ss[|es|], e) == Some(s') && Countable(m, s') && Serial(ss[|es|], e)
    ensures IsSerialRun(m, ss + [s'], es + [e])
  {
    RunGrows(m, ss, es, e, s');
    var ss', es' := ss + [s'], es + [e];
    forall i | 0 <= i < |es'| ensures FollowsSerially(ss', es', i) {
      if i < |es| {
        assert FollowsSerially(ss, es, i);
      }
    }
  }

  lemma SerialRunStep(m: Mode, ss: seq<State>, es: seq<Event>, k: nat)
    requires IsSerialRun(m, ss, es) && k < |es| && SerialInv(ss[k])
    ensures SerialInv(ss[k + 1])
  {
    RunKeepsInv(m, ss, es, k);
    assert Follows(m, ss, es, k) && FollowsSerially(ss, es, k);
    SerialKept(m, ss[k], es[k]);
  }

  lemma {:induction false} SerialRunKeepsInv(m: Mode, ss: seq<State>, es: seq<Event>, k: nat)
    requires IsSerialRun(m, ss, es) && k < |ss|
    ensures SerialInv(ss[k])
  {
    if k == 0 {
      var wantsHandle :| ss[0] == Init(wantsHandle);
      FreshSerialInv(ss[0]);
    } else {
      SerialRunKeepsInv(m, ss, es, k - 1);
      SerialRunStep(m, ss, es, k - 1);
    }
  }

  /** The life of a future when activations do not overlap: until its first poll one is due,
    * a poll begins, and goes on, only while it is neither finished nor dropped, it is dropped at
    * most once and only after it was polled, and it has been dropped exactly once when the block
    * is freed. */
  lemma FutureLifecycle(m: Mode, ss: seq<State>, es: seq<Event>, k: nat)
    requires IsSerialRun(m, ss, es) && k < |ss|
    ensures ss[k].h.polls == 0 ==> PollDue(ss[k]) && !ss[k].h.freed
    ensures k < |es| && PollBegins(ss[k], es[k]) ==> ss[k].h.drops == 0 && !ss[k].h.ready
    ensures forall i :: 0 <= i < |ss[k].threads| && InPoll(ss[k].threads[i]) ==> ss[k].h.drops == 0 && !ss[k].h.ready
    ensures forall i, j :: 0 <= i < j < |ss[k].threads| ==> !(InPoll(ss[k].threads[i]) && InPoll(ss[k].threads[j]))
    ensures ss[k].h.drops <= 1 && (ss[k].h.drops == 1 ==> ss[k].h.polls > 0)
    ensures ss[k].h.freed ==> ss[k].h.drops == 1
  {
    RunKeepsInv(m, ss, es, k);
    SerialRunKeepsInv(m, ss, es, k);
    var s := ss[k];
    forall i, j | 0 <= i < j < |s.threads| ensures !(InPoll(s.threads[i]) && InPoll(s.threads[j])) {
      SumTwo(s.threads, Active, i, j);
    }
    if s.h.freed {
      forall i | 0 <= i < |s.threads| ensures DropsNow(s.threads[i]) == 0 {
        ZeroMeansOver(s, i);
        SumAt(s.threads, Destroyer, i);
      }
      SumOfZeros(s.threads, DropsNow);
    }
  }
}
