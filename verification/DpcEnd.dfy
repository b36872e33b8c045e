/** That every task can be brought to its end: from every state of every run with activations that
  * do not overlap, some continuation of the same kind frees the block. */
module DpcEnd {
  import opened Basics
  import opened RefCount
  import opened DpcTask
  import opened DpcTaskProofs
  import opened DpcDue

  /** The future answers `Ready` when it is polled. */
  const READY := Choice(TimeUs, true, false)

  // ----- How much is left until everything has been given back -----

  const ACTIVATION := 25 // the weight of the queued entry: a whole activation with one poll
  const OWNER := 7       // the weight of a handle or waker that is still to be dropped

  function RoutineRest(d: RoutinePc): nat {
    match d
    case DClear => 24 case DLoad => 23 case DWaker => 22 case DSetSlot => 21 case DBudget => 20
    case DPoll => 18 case DPolling => 17 case DStore => 15 case DDrop => 14
    case DWoken => 42 case DSpend => 41 case DReset => 19 case DAddRef => 40 case DInsert => 39
    case DClearSlot => 13
  }

  /** At least the steps a thread takes until it returns, a poll being the last of its activation. */
  function Rest(th: Thread): nat {
    match th
    case Idle => 0
    case Spawning(_) => 44
    case MakingHandle => 43
    case Cancelling => 30
    case Scheduling(s, k) =>
      CallerLeft(k) + (match s case SLoad => 29 case SCas => 28 case SAddRef => 27 case SInsert => 26)
    case Releasing(r, k) => ReleaseLeft(r) + AfterLeft(k)
    case Routine(d, _) => RoutineRest(d)
  }

  function Kept(h: Header): nat {
    ACTIVATION * Bit(h.queued) + OWNER * (h.handles + h.wakers)
  }

  function Remains(s: State): nat {
    Sum(s.threads, Rest) + Kept(s.h)
  }

  predicate Shrinks(h: Header, th: Thread, h': Header, th': Thread) {
    Rest(th') + Kept(h') < Rest(th) + Kept(h)
  }

  lemma ScheduleShrinks(m: Mode, h: Header, s: SchedulePc, k: Caller, h': Header, th': Thread)
    requires ScheduleStep(m, h, s, k) == Goes(h', th')
    ensures Shrinks(h, Scheduling(s, k), h', th')
  {
    match s
    case SLoad => case SCas => case SAddRef => case SInsert =>
  }

  lemma ReleaseShrinks(m: Mode, h: Header, r: ReleasePc, k: After, h': Header, th': Thread)
    requires ReleaseStep(m, h, r, k) == Goes(h', th')
    ensures Shrinks(h, Releasing(r, k), h', th')
  {
    match r
    case RSub => case RLoad => case RStore => case RDrop => case RDealloc => case RTracker =>
  }

  lemma RoutineShrinks(m: Mode, h: Header, d: RoutinePc, r: Run, h': Header, th': Thread)
    requires RoutineStep(m, h, d, r, READY) == Goes(h', th')
    ensures Shrinks(h, Routine(d, r), h', th')
  {
    match d
    case DClear => case DLoad => case DWaker => case DSetSlot => case DBudget =>
    case DPoll => case DPolling => case DStore => case DDrop => case DWoken => case DSpend =>
    case DReset => case DAddRef => case DInsert => case DClearSlot =>
  }

  /** With a future that answers `Ready` every step of a thread leaves less. */
  lemma LocalShrinks(m: Mode, h: Header, th: Thread, h': Header, th': Thread)
    requires LocalStep(m, h, th, READY) == Goes(h', th')
    ensures Shrinks(h, th, h', th')
  {
    match th
    case Scheduling(s, k) => ScheduleShrinks(m, h, s, k, h', th');
    case Releasing(r, k) => ReleaseShrinks(m, h, r, k, h', th');
    case Routine(d, r) => RoutineShrinks(m, h, d, r, h', th');
    case Idle => case Spawning(_) => case MakingHandle => case Cancelling =>
  }

  // ----- Somebody can always go on -----

  /** A state of a run in which the counter has room for the calls under way. */
  ghost predicate Alive(s: State) {
    Inv(s) && SerialInv(s) && s.h.refCount + Remains(s) < MAX_REFCOUNT
  }

  ghost predicate AllReturned(s: State) {
    forall i :: 0 <= i < |s.threads| ==> s.threads[i].Idle?
  }

  /** Every call has returned, nobody owns a reference, and the block is freed. */
  ghost predicate Ended(s: State) {
    && AllReturned(s)
    && Outside(s.h) == 0
    && s.h.refCount == 0 && s.h.frees == 1 && s.h.drops == 1
  }

  ghost predicate Nearer(m: Mode, s: State, s': State) {
    Alive(s') && Remains(s') < Remains(s) && Next(m, s, s')
  }

  lemma StepKeepsAlive(m: Mode, s: State, e: Event, s': State)
    requires Alive(s) && Step(m, s, e) == Some(s') && Serial(s, e) && Countable(m, s')
    ensures Inv(s') && SerialInv(s')
  {
    InvKept(m, s, e);
    SerialKept(m, s, e);
  }

  lemma AdvanceShrinks(m: Mode, s: State, t: nat, h': Header, th': Thread)
    requires t < |s.threads| && LocalStep(m, s.h, s.threads[t], READY) == Goes(h', th')
    ensures Remains(State(h', s.threads[t := th'])) < Remains(s)
    ensures Holders(State(h', s.threads[t := th'])) <= Holders(s) + 1
  {
    LocalShrinks(m, s.h, s.threads[t], h', th');
    LocalHolds(m, s.h, s.threads[t], READY, h', th');
    SumUpdate(s.threads, Rest, t, th');
    SumUpdate(s.threads, Holds, t, th');
  }

  lemma AdvanceNearer(m: Mode, s: State, t: nat) returns (s': State)
    requires Alive(s) && t < |s.threads| && !s.threads[t].Idle?
    requires InPoll(s.threads[t]) ==> forall i :: 0 <= i < |s.threads| && i != t ==> s.threads[i].Idle?
    ensures Nearer(m, s, s')
  {
    SumAt(s.threads, Holds, t);
    LocalEnabled(m, s.h, s.threads[t], READY);
    var g := LocalStep(m, s.h, s.threads[t], READY);
    s' := State(g.h, s.threads[t := g.th]);
    var e := Advance(t, READY);
    assert EndsLoan(s, e) ==> BorrowsHold(s');
    assert Step(m, s, e) == Some(s');
    AdvanceShrinks(m, s, t, g.h, g.th);
    CountableKept(m, s, t, READY, g.h, g.th);
    StepKeepsAlive(m, s, e, s');
  }

  /** With every call returned, a call that takes over the reference of an owner leaves less. */
  lemma StartNearer(m: Mode, s: State, e: Event, h': Header, th: Thread) returns (s': State)
    requires Alive(s) && AllReturned(s) && Step(m, s, e) == Some(Start(s, h', th))
    requires Rest(th) + Kept(h') < Kept(s.h)
    requires Holds(th) + Outside(h') == Outside(s.h) && h'.refCount == s.h.refCount
    ensures Nearer(m, s, s')
  {
    s' := Start(s, h', th);
    SumAppend(s.threads, Holds, th);
    SumAppend(s.threads, Rest, th);
    SumOfZeros(s.threads, Active);
    StepKeepsAlive(m, s, e, s');
  }

  lemma RunNearer(m: Mode, s: State) returns (s': State)
    requires Alive(s) && AllReturned(s) && s.h.queued
    ensures Nearer(m, s, s')
  {
    var th := Routine(DClear, Run(None, TimeUs, 0, 0));
    s' := StartNearer(m, s, RunDpc(None), s.h.(queued := false), th);
  }

  lemma DropHandleNearer(m: Mode, s: State) returns (s': State)
    requires Alive(s) && AllReturned(s) && s.h.handles > 0
    ensures Nearer(m, s, s')
  {
    var h', th := s.h.(handles := s.h.handles - 1), Releasing(RSub, Return);
    assert BorrowsHold(Start(s, h', th));
    s' := StartNearer(m, s, DropHandle, h', th);
  }

  lemma DropWakerNearer(m: Mode, s: State) returns (s': State)
    requires Alive(s) && AllReturned(s) && s.h.wakers > 0
    ensures Nearer(m, s, s')
  {
    var h', th := s.h.(wakers := s.h.wakers - 1), Releasing(RSub, Return);
    assert BorrowsHold(Start(s, h', th));
    s' := StartNearer(m, s, DropWaker, h', th);
  }

  /** With nothing left to do, everything has been given back. */
  lemma NothingLeft(s: State)
    requires Inv(s) && SerialInv(s) && Outside(s.h) == 0
    requires AllReturned(s)
    ensures Ended(s)
  {
    SumOfZeros(s.threads, Holds);
    SumOfZeros(s.threads, Destroyer);
    SumOfZeros(s.threads, DropsNow);
  }

  lemma SomebodyEnds(m: Mode, s: State) returns (s': State)
    requires Alive(s) && !Ended(s)
    ensures Nearer(m, s, s')
  {
    if t :| 0 <= t < |s.threads| && !s.threads[t].Idle? && !InPoll(s.threads[t]) {
      s' := AdvanceNearer(m, s, t);
    } else if t :| 0 <= t < |s.threads| && !s.threads[t].Idle? {
      forall i | 0 <= i < |s.threads| && i != t ensures s.threads[i].Idle? {
        SumTwo(s.threads, Active, if i < t then i else t, if i < t then t else i);
      }
      s' := AdvanceNearer(m, s, t);
    } else if s.h.queued {
      s' := RunNearer(m, s);
    } else if s.h.handles > 0 {
      s' := DropHandleNearer(m, s);
    } else if s.h.wakers > 0 {
      s' := DropWakerNearer(m, s);
    } else {
      NothingLeft(s);
      assert false;
    }
  }

  /** Some serial continuation of at most n steps ends the task. */
  ghost predicate CanEnd(m: Mode, s: State, n: nat)
    decreases n
  {
    Ended(s) || (n > 0 && exists s' :: Next(m, s, s') && CanEnd(m, s', n - 1))
  }

  lemma NextCanEnd(m: Mode, s: State, s': State, n: nat)
    requires Next(m, s, s') && CanEnd(m, s', n)
    ensures CanEnd(m, s, n + 1)
  {
  }

  lemma {:induction false} AliveCanEnd(m: Mode, s: State, n: nat)
    requires Alive(s) && Remains(s) <= n
    ensures CanEnd(m, s, n)
    decreases n
  {
    if !Ended(s) {
      var s' := SomebodyEnds(m, s);
      AliveCanEnd(m, s', n - 1);
      NextCanEnd(m, s, s', n - 1);
    }
  }

  /** No run leaves the task where it cannot be ended: from each of its states, with a counter that
    * has room for the calls under way, some continuation lets every call return, gives every
    * reference back, drops the future once and frees the block once. */
  lemma EveryTaskCanEnd(m: Mode, ss: seq<State>, es: seq<Event>, k: nat)
    requires IsSerialRun(m, ss, es) && k < |ss|
    requires ss[k].h.refCount + Remains(ss[k]) < MAX_REFCOUNT
    ensures CanEnd(m, ss[k], Remains(ss[k]))
  {
    RunKeepsInv(m, ss, es, k);
    SerialRunKeepsInv(m, ss, es, k);
    AliveCanEnd(m, ss[k], Remains(ss[k]));
  }
}
