/** That a poll which is due can really begin: from every state of every run with activations
  * that do not overlap, by steps that keep them from overlapping. */
module DpcDue {
  import opened Basics
  import opened RefCount
  import opened DpcTask
  import opened DpcTaskProofs

  // ----- How much work is left -----

  const ENTRY := 9 // the weight of the queued entry: its activation and what that has to do

  function ReleaseLeft(r: ReleasePc): nat {
    match r
    case RSub => 6 case RLoad => 5 case RStore => 4 case RDrop => 3 case RDealloc => 2 case RTracker => 1
  }

  function CallerLeft(k: Caller): nat {
    if k.Spawner? || k.Waker? then 6 else 0
  }

  function AfterLeft(k: After): nat {
    match k
    case ScheduleReturns(c) => CallerLeft(c)
    case QueueReturns(_) => 13
    case RoutineDropsWaker => 6
    case Return => 0
  }

  function RoutineLeft(d: RoutinePc): nat {
    match d
    case DClear => 8 case DLoad => 7 case DWaker => 3 case DSetSlot => 2 case DBudget => 1 case DPoll => 0
    case DPolling => 27 case DStore => 15 case DDrop => 14 case DWoken => 26 case DSpend => 25
    case DReset => 1 case DAddRef => 24 case DInsert => 23 case DClearSlot => 13
  }

  /** At least the steps a thread takes until it returns or comes to a poll. */
  function Left(th: Thread): nat {
    match th
    case Idle => 0
    case Spawning(_) => 21
    case MakingHandle => 20
    case Cancelling => 14
    case Scheduling(s, k) =>
      CallerLeft(k) + (match s case SLoad => 13 case SCas => 12 case SAddRef => 11 case SInsert => 10)
    case Releasing(r, k) => ReleaseLeft(r) + AfterLeft(k)
    case Routine(d, _) => RoutineLeft(d)
  }

  function Work(s: State): nat {
    Sum(s.threads, Left) + ENTRY * Bit(s.h.queued)
  }

  predicate Less(h: Header, th: Thread, h': Header, th': Thread) {
    Left(th') + ENTRY * Bit(h'.queued) < Left(th) + ENTRY * Bit(h.queued)
  }

  lemma ScheduleLess(m: Mode, h: Header, s: SchedulePc, k: Caller, h': Header, th': Thread)
    requires ScheduleStep(m, h, s, k) == Goes(h', th')
    ensures Less(h, Scheduling(s, k), h', th')
  {
    match s
    case SLoad => case SCas => case SAddRef => case SInsert =>
  }

  lemma ReleaseLess(m: Mode, h: Header, r: ReleasePc, k: After, h': Header, th': Thread)
    requires ReleaseStep(m, h, r, k) == Goes(h', th')
    ensures Less(h, Releasing(r, k), h', th')
  {
    match r
    case RSub => case RLoad => case RStore => case RDrop => case RDealloc => case RTracker =>
  }

  lemma RoutineLess(m: Mode, h: Header, d: RoutinePc, r: Run, c: Choice, h': Header, th': Thread)
    requires RoutineStep(m, h, d, r, c) == Goes(h', th') && !d.DPoll?
    ensures Less(h, Routine(d, r), h', th')
  {
    match d
    case DClear => case DLoad => case DWaker => case DSetSlot => case DBudget =>
    case DPoll => case DPolling => case DStore => case DDrop => case DWoken => case DSpend =>
    case DReset => case DAddRef => case DInsert => case DClearSlot =>
  }

  /** Every step of a thread that does not begin a poll leaves less work. */
  lemma LocalLess(m: Mode, h: Header, th: Thread, c: Choice, h': Header, th': Thread)
    requires LocalStep(m, h, th, c) == Goes(h', th') && !BeginsPoll(th)
    ensures Less(h, th, h', th')
  {
    match th
    case Scheduling(s, k) => ScheduleLess(m, h, s, k, h', th');
    case Releasing(r, k) => ReleaseLess(m, h, r, k, h', th');
    case Routine(d, r) => RoutineLess(m, h, d, r, c, h', th');
    case Idle => case Spawning(_) => case MakingHandle => case Cancelling =>
  }

  // ----- Somebody can always go on -----

  /** A thread inside a call has a step unless a counter is at its end. */
  lemma LocalEnabled(m: Mode, h: Header, th: Thread, c: Choice)
    requires !th.Idle? && h.refCount < MAX_REFCOUNT && (Holds(th) > 0 ==> h.refCount > 0)
    ensures LocalStep(m, h, th, c).Goes?
  {
    match th
    case Scheduling(s, _) => match s { case SLoad => case SCas => case SAddRef => case SInsert => }
    case Releasing(r, _) =>
      match r { case RSub => case RLoad => case RStore => case RDrop => case RDealloc => case RTracker => }
    case Routine(d, _) =>
      match d { case DClear => case DLoad => case DWaker => case DSetSlot => case DBudget =>
        case DPoll => case DPolling => case DStore => case DDrop => case DWoken => case DSpend =>
        case DReset => case DAddRef => case DInsert => case DClearSlot => }
    case Spawning(_) => case MakingHandle => case Cancelling =>
  }

  /** A poll is due of a future that has not answered `Ready`, and the counter has room for
    * the calls under way. */
  ghost predicate Owed(s: State) {
    && Inv(s) && SerialInv(s) && PollDue(s) && !s.h.completed && !s.h.ready
    && s.h.refCount + Work(s) < MAX_REFCOUNT
  }

  /** A step to a state with less work in which the poll is still due. */
  ghost predicate Onward(m: Mode, s: State, s': State) {
    Owed(s') && Work(s') < Work(s) && Next(m, s, s')
  }

  ghost predicate Next(m: Mode, s: State, s': State) {
    Countable(m, s') && exists e :: Serial(s, e) && Step(m, s, e) == Some(s')
  }

  /** While a poll is due somebody holds a reference, so nobody destroys the task. */
  lemma DueMeansHeld(s: State)
    requires Inv(s) && PollDue(s)
    ensures s.h.refCount > 0
  {
    if s.h.refCount == 0 {
      if |s.threads| > 0 {
        ZeroMeansOver(s, 0);
      }
      var j :| s.h.queued || (0 <= j < |s.threads| && Leads(s.threads[j]));
      if !s.h.queued {
        ZeroMeansOver(s, j);
      }
      assert false;
    }
  }

  /** Answering `Pending` neither completes the task nor makes it ready. */
  lemma StaysOpen(m: Mode, s: State, t: nat, h': Header, th': Thread)
    requires Owed(s) && t < |s.threads| && LocalStep(m, s.h, s.threads[t], PENDING) == Goes(h', th')
    ensures !h'.completed && !h'.ready
  {
    var th := s.threads[t];
    LocalFlowMoves(m, s.h, th, PENDING, h', th');
    assert Knows(s.h, th);
    LocalSerialMoves(m, s.h, th, PENDING, h', th');
    DueMeansHeld(s);
    SumAt(s.threads, Destroyer, t);
  }

  lemma WorkShrinks(m: Mode, s: State, t: nat, h': Header, th': Thread)
    requires t < |s.threads| && !BeginsPoll(s.threads[t])
    requires LocalStep(m, s.h, s.threads[t], PENDING) == Goes(h', th')
    ensures Work(State(h', s.threads[t := th'])) < Work(s)
    ensures Holders(State(h', s.threads[t := th'])) <= Holders(s) + 1
  {
    LocalLess(m, s.h, s.threads[t], PENDING, h', th');
    LocalHolds(m, s.h, s.threads[t], PENDING, h', th');
    SumUpdate(s.threads, Left, t, th');
    SumUpdate(s.threads, Holds, t, th');
  }

  lemma AdvanceOnward(m: Mode, s: State, t: nat) returns (s': State)
    requires Owed(s) && t < |s.threads| && !s.threads[t].Idle? && !BeginsPoll(s.threads[t])
    requires InPoll(s.threads[t]) ==> forall i :: 0 <= i < |s.threads| && i != t ==> s.threads[i].Idle?
    ensures Onward(m, s, s')
  {
    SumAt(s.threads, Holds, t);
    LocalEnabled(m, s.h, s.threads[t], PENDING);
    var g := LocalStep(m, s.h, s.threads[t], PENDING);
    s' := State(g.h, s.threads[t := g.th]);
    var e := Advance(t, PENDING);
    assert EndsLoan(s, e) ==> BorrowsHold(s');
    assert Step(m, s, e) == Some(s');
    WorkShrinks(m, s, t, g.h, g.th);
    CountableKept(m, s, t, PENDING, g.h, g.th);
    StaysOpen(m, s, t, g.h, g.th);
    StepKeepsOwed(m, s, e, s');
  }

  lemma StepKeepsOwed(m: Mode, s: State, e: Event, s': State)
    requires Owed(s) && Step(m, s, e) == Some(s') && Serial(s, e) && Countable(m, s')
    requires !s'.h.completed && !PollBegins(s, e)
    ensures Inv(s') && SerialInv(s') && PollDue(s')
  {
    InvKept(m, s, e);
    SerialKept(m, s, e);
    PollDueKept(m, s, e);
  }

  lemma RunOnward(m: Mode, s: State) returns (s': State)
    requires Owed(s) && s.h.queued && forall i :: 0 <= i < |s.threads| ==> s.threads[i].Idle?
    ensures Onward(m, s, s')
  {
    var e := RunDpc(None);
    var th := Routine(DClear, Run(None, TimeUs, 0, 0));
    s' := Start(s, s.h.(queued := false), th);
    assert Step(m, s, e) == Some(s');
    SumOfZeros(s.threads, Active);
    SumAppend(s.threads, Holds, th);
    SumAppend(s.threads, Left, th);
    StepKeepsOwed(m, s, e, s');
  }

  lemma SomebodyGoesOn(m: Mode, s: State) returns (s': State)
    requires Owed(s) && forall i :: 0 <= i < |s.threads| ==> !BeginsPoll(s.threads[i])
    ensures Onward(m, s, s')
  {
    if t :| 0 <= t < |s.threads| && !s.threads[t].Idle? && !InPoll(s.threads[t]) {
      s' := AdvanceOnward(m, s, t);
    } else if t :| 0 <= t < |s.threads| && !s.threads[t].Idle? {
      forall i | 0 <= i < |s.threads| && i != t ensures s.threads[i].Idle? {
        SumTwo(s.threads, Active, if i < t then i else t, if i < t then t else i);
      }
      s' := AdvanceOnward(m, s, t);
    } else {
      s' := RunOnward(m, s);
    }
  }

  /** Some serial continuation of at most n steps brings a thread to the start of a poll. */
  ghost predicate CanPoll(m: Mode, s: State, n: nat)
    decreases n
  {
    || (exists t :: 0 <= t < |s.threads| && BeginsPoll(s.threads[t]))
    || (n > 0 && exists s' :: Next(m, s, s') && CanPoll(m, s', n - 1))
  }

  lemma NextCanPoll(m: Mode, s: State, s': State, n: nat)
    requires Next(m, s, s') && CanPoll(m, s', n)
    ensures CanPoll(m, s, n + 1)
  {
  }

  lemma {:induction false} OwedCanPoll(m: Mode, s: State, n: nat)
    requires Owed(s) && Work(s) <= n
    ensures CanPoll(m, s, n)
    decreases n
  {
    if t :| 0 <= t < |s.threads| && BeginsPoll(s.threads[t]) {
    } else {
      var s' := SomebodyGoesOn(m, s);
      OwedCanPoll(m, s', n - 1);
      NextCanPoll(m, s, s', n - 1);
    }
  }

  /** Whenever a poll is due, and until the future has answered `Ready`, some continuation
    * begins one, with activations that never overlap and a counter that has room for the
    * calls under way; it is no longer than the work these have left. */
  lemma DuePollCanBegin(m: Mode, ss: seq<State>, es: seq<Event>, k: nat)
    requires IsSerialRun(m, ss, es) && k < |ss| && PollDue(ss[k]) && !ss[k].h.completed && !ss[k].h.ready
    requires ss[k].h.refCount + Work(ss[k]) < MAX_REFCOUNT
    ensures CanPoll(m, ss[k], Work(ss[k]))
  {
    RunKeepsInv(m, ss, es, k);
    SerialRunKeepsInv(m, ss, es, k);
    OwedCanPoll(m, ss[k], Work(ss[k]));
  }
}
