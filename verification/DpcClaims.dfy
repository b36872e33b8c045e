/** What the flags of the header decide over every run of a task: how wakes coalesce, which cancel
  * takes effect, that completion is final, and which calls the clients can make. */
module DpcClaims {
  import opened Basics
  import opened RefCount
  import opened DpcTask
  import opened DpcTaskProofs

  // ----- `scheduled`: wakes coalesce -----

  predicate AtExchange(th: Thread) {
    th.Scheduling? && th.s.SCas?
  }

  predicate Exchanges(s: State, e: Event) {
    e.Advance? && e.t < |s.threads| && AtExchange(s.threads[e.t])
  }

  /** A call of `schedule` goes on from its exchange to queue the entry. */
  predicate Claims(s: State, e: Event, s': State) {
    && Exchanges(s, e) && e.t < |s'.threads|
    && s'.threads[e.t].Scheduling? && s'.threads[e.t].s.SAddRef?
  }

  /** An activation stores false into `scheduled`, at its entry or before another round. */
  predicate Clears(s: State, e: Event) {
    && e.Advance? && e.t < |s.threads|
    && s.threads[e.t].Routine? && (s.threads[e.t].d.DClear? || s.threads[e.t].d.DReset?)
  }

  predicate ClaimMoves(h: Header, th: Thread, h': Header, th': Thread) {
    && (AtExchange(th) ==> h'.scheduled && (th'.Scheduling? && th'.s.SAddRef? <==> !h.scheduled))
    && (th.Routine? && (th.d.DClear? || th.d.DReset?) ==> !h'.scheduled)
    && (h'.scheduled != h.scheduled ==> AtExchange(th) || (th.Routine? && (th.d.DClear? || th.d.DReset?)))
  }

  lemma RoutineClaims(m: Mode, h: Header, d: RoutinePc, r: Run, c: Choice, h': Header, th': Thread)
    requires RoutineStep(m, h, d, r, c) == Goes(h', th')
    ensures ClaimMoves(h, Routine(d, r), h', th')
  {
    match d
    case DClear => case DLoad => case DWaker => case DSetSlot => case DBudget =>
    case DPoll => case DPolling => case DStore => case DDrop => case DWoken => case DSpend =>
    case DReset => case DAddRef => case DInsert => case DClearSlot =>
  }

  lemma ScheduleClaims(m: Mode, h: Header, s: SchedulePc, k: Caller, h': Header, th': Thread)
    requires ScheduleStep(m, h, s, k) == Goes(h', th')
    ensures ClaimMoves(h, Scheduling(s, k), h', th')
  {
    match s
    case SLoad => case SCas => case SAddRef => case SInsert =>
  }

  lemma ReleaseClaims(m: Mode, h: Header, r: ReleasePc, k: After, h': Header, th': Thread)
    requires ReleaseStep(m, h, r, k) == Goes(h', th')
    ensures ClaimMoves(h, Releasing(r, k), h', th')
  {
    match r
    case RSub => case RLoad => case RStore => case RDrop => case RDealloc => case RTracker =>
  }

  lemma LocalClaims(m: Mode, h: Header, th: Thread, c: Choice, h': Header, th': Thread)
    requires LocalStep(m, h, th, c) == Goes(h', th')
    ensures ClaimMoves(h, th, h', th')
  {
    match th
    case Scheduling(s, k) => ScheduleClaims(m, h, s, k, h', th');
    case Releasing(r, k) => ReleaseClaims(m, h, r, k, h', th');
    case Routine(d, r) => RoutineClaims(m, h, d, r, c, h', th');
    case Idle => case Spawning(_) => case MakingHandle => case Cancelling =>
  }

  lemma ClaimStep(m: Mode, s: State, e: Event, s': State)
    requires Step(m, s, e) == Some(s')
    ensures Exchanges(s, e) ==> (Claims(s, e, s') <==> !s.h.scheduled)
    ensures s'.h.scheduled <==> !Clears(s, e) && (s.h.scheduled || Claims(s, e, s'))
  {
    match e
    case Advance(t, c) => LocalClaims(m, s.h, s.threads[t], c, s'.h, s'.threads[t]);
    case RunDpc(_) => case CloneWaker => case TakeRequest(_) => case Wake =>
    case WakeByRef => case DropWaker => case Cancel => case DropHandle =>
  }

  /** Step `i` claimed the entry, and no activation has cleared the flag since. */
  ghost predicate Stands(ss: seq<State>, es: seq<Event>, i: nat, k: nat)
    requires |ss| == |es| + 1 && i < k <= |es|
  {
    Claims(ss[i], es[i], ss[i + 1]) && forall j :: i < j < k ==> !Clears(ss[j], es[j])
  }

  lemma {:induction false} FlagIsStandingClaim(m: Mode, ss: seq<State>, es: seq<Event>, k: nat)
    requires IsRun(m, ss, es) && k < |ss|
    ensures ss[k].h.scheduled <==> exists i :: 0 <= i < k && Stands(ss, es, i, k)
  {
    if k == 0 {
      var wantsHandle :| ss[0] == Init(wantsHandle);
    } else {
      var p := k - 1;
      FlagIsStandingClaim(m, ss, es, p);
      assert Follows(m, ss, es, p);
      ClaimStep(m, ss[p], es[p], ss[p + 1]);
      if ss[k].h.scheduled {
        if ss[p].h.scheduled {
          var i :| 0 <= i < p && Stands(ss, es, i, p);
          assert Stands(ss, es, i, k);
        } else {
          assert Stands(ss, es, p, k);
        }
      }
      forall i | 0 <= i < k && Stands(ss, es, i, k) ensures ss[k].h.scheduled {
        assert i < p ==> Stands(ss, es, i, p) && !Clears(ss[p], es[p]);
      }
    }
  }

  /** Wakes and cancels coalesce, exactly: a call of `schedule` that comes to its exchange goes on to
    * queue the entry if and only if no earlier one did since an activation last cleared the flag. */
  lemma WakesCoalesce(m: Mode, ss: seq<State>, es: seq<Event>, k: nat)
    requires IsRun(m, ss, es) && k < |es| && Exchanges(ss[k], es[k])
    ensures Claims(ss[k], es[k], ss[k + 1]) <==> !exists i :: 0 <= i < k && Stands(ss, es, i, k)
  {
    FlagIsStandingClaim(m, ss, es, k);
    assert Follows(m, ss, es, k);
    ClaimStep(m, ss[k], es[k], ss[k + 1]);
  }

  // ----- `cancel_requested`: one cancel takes effect -----

  /** A call of `cancel` makes its exchange. */
  predicate Cancels(s: State, e: Event) {
    e.Advance? && e.t < |s.threads| && s.threads[e.t].Cancelling?
  }

  /** It goes on into `schedule`. */
  predicate TakesEffect(s: State, e: Event, s': State) {
    Cancels(s, e) && e.t < |s'.threads| && s'.threads[e.t] == Scheduling(SLoad, Canceller)
  }

  lemma CancelStep(m: Mode, s: State, e: Event, s': State)
    requires Step(m, s, e) == Some(s')
    ensures s.h.cancelRequested > 0 ==> s'.h.cancelRequested > 0
    ensures Cancels(s, e) ==> s'.h.cancelRequested > 0
    ensures s.h.cancelRequested == 0 && s'.h.cancelRequested > 0 ==> Cancels(s, e)
    ensures Cancels(s, e) ==> (TakesEffect(s, e, s') <==> s.h.cancelRequested == 0)
  {
    CancelMoves(m, s, e);
    if e.Advance? {
      StepShape(m, s, e);
    }
  }

  ghost predicate WasCancelled(ss: seq<State>, es: seq<Event>, k: nat)
    requires |ss| == |es| + 1 && k < |ss|
  {
    exists j :: 0 <= j < k && Cancels(ss[j], es[j])
  }

  lemma RequestStep(m: Mode, ss: seq<State>, es: seq<Event>, k: nat)
    requires IsRun(m, ss, es) && k < |es|
    ensures ss[k + 1].h.cancelRequested > 0 <==> ss[k].h.cancelRequested > 0 || Cancels(ss[k], es[k])
  {
    assert Follows(m, ss, es, k);
    CancelStep(m, ss[k], es[k], ss[k + 1]);
  }

  lemma {:induction false} RequestStays(m: Mode, ss: seq<State>, es: seq<Event>, k: nat)
    requires IsRun(m, ss, es) && k < |ss|
    ensures ss[k].h.cancelRequested > 0 <==> WasCancelled(ss, es, k)
  {
    if k == 0 {
      var wantsHandle :| ss[0] == Init(wantsHandle);
    } else {
      RequestStays(m, ss, es, k - 1);
      RequestStep(m, ss, es, k - 1);
    }
  }

  /** Exactly the first of all calls of `cancel` on a task goes on to schedule it, whoever has taken
    * the request meanwhile. */
  lemma FirstCancelTakesEffect(m: Mode, ss: seq<State>, es: seq<Event>, k: nat)
    requires IsRun(m, ss, es) && k < |es| && Cancels(ss[k], es[k])
    ensures TakesEffect(ss[k], es[k], ss[k + 1]) <==> !WasCancelled(ss, es, k)
  {
    RequestStays(m, ss, es, k);
    assert Follows(m, ss, es, k);
    CancelStep(m, ss[k], es[k], ss[k + 1]);
  }

  // ----- `completed`: completion is final -----

  /** The call is not on its way to queue the entry or to poll. */
  predicate Quiet(th: Thread) {
    && (th.Scheduling? ==> th.s.SLoad?)
    && (th.Routine? ==> th.d.DClear? || th.d.DLoad? || th.d.DDrop? || th.d.DClearSlot?)
  }

  predicate Over(s: State) {
    s.h.completed && forall i :: 0 <= i < |s.threads| ==> Quiet(s.threads[i])
  }

  predicate QuietMoves(h: Header, th: Thread, h': Header, th': Thread) {
    h'.completed && Quiet(th') && h'.polls == h.polls && h'.queued == h.queued
  }

  lemma QuietRoutine(m: Mode, h: Header, d: RoutinePc, r: Run, c: Choice, h': Header, th': Thread)
    requires RoutineStep(m, h, d, r, c) == Goes(h', th') && h.completed && Quiet(Routine(d, r))
    ensures QuietMoves(h, Routine(d, r), h', th')
  {
    match d
    case DClear => case DLoad => case DDrop => case DClearSlot =>
  }

  lemma QuietRelease(m: Mode, h: Header, r: ReleasePc, k: After, h': Header, th': Thread)
    requires ReleaseStep(m, h, r, k) == Goes(h', th') && h.completed
    ensures QuietMoves(h, Releasing(r, k), h', th')
  {
    match r
    case RSub => case RLoad => case RStore => case RDrop => case RDealloc => case RTracker =>
  }

  lemma QuietLocal(m: Mode, h: Header, th: Thread, c: Choice, h': Header, th': Thread)
    requires LocalStep(m, h, th, c) == Goes(h', th') && h.completed && Quiet(th)
    ensures QuietMoves(h, th, h', th')
  {
    match th
    case Scheduling(s, _) => assert s.SLoad?;
    case Releasing(r, k) => QuietRelease(m, h, r, k, h', th');
    case Routine(d, r) => QuietRoutine(m, h, d, r, c, h', th');
    case Idle => case Spawning(_) => case MakingHandle => case Cancelling =>
  }

  lemma OverStep(m: Mode, s: State, e: Event, s': State)
    requires Step(m, s, e) == Some(s') && Over(s)
    ensures Over(s') && s'.h.polls == s.h.polls && (s'.h.queued ==> s.h.queued)
  {
    match e
    case Advance(t, c) => QuietLocal(m, s.h, s.threads[t], c, s'.h, s'.threads[t]);
    case RunDpc(_) => case CloneWaker => case TakeRequest(_) => case Wake =>
    case WakeByRef => case DropWaker => case Cancel => case DropHandle =>
  }

  /** Once the task has completed and no call is on its way to the queue or to a poll, this stays so
    * for ever, whoever wakes or cancels: it is never polled again, and never queued again. */
  lemma {:induction false} CompletionIsFinal(m: Mode, ss: seq<State>, es: seq<Event>, i: nat, k: nat)
    requires IsRun(m, ss, es) && i <= k < |ss| && Over(ss[i])
    ensures Over(ss[k]) && ss[k].h.polls == ss[i].h.polls && (ss[k].h.queued ==> ss[i].h.queued)
    decreases k
  {
    if k > i {
      var p := k - 1;
      CompletionIsFinal(m, ss, es, i, p);
      assert Follows(m, ss, es, p);
      OverStep(m, ss[p], es[p], ss[p + 1]);
    }
  }

  // ----- what the clients can do -----

  predicate SomeUse(s: State, f: Thread -> bool) {
    exists i :: 0 <= i < |s.threads| && f(s.threads[i])
  }

  /** A waker can be consumed: another is left, the future has one lent to it, or no call is being
    * made through a borrow. */
  predicate WakerFree(s: State) {
    s.h.wakers > 0 && (s.h.wakers > 1 || SomeUse(s, InPoll) || !SomeUse(s, UsesWaker))
  }

  predicate HandleFree(s: State) {
    s.h.handles > 0 && (s.h.handles > 1 || !SomeUse(s, UsesHandle))
  }

  lemma BorrowsMean(s: State)
    ensures BorrowsHold(s) <==>
              && (SomeUse(s, UsesHandle) ==> s.h.handles > 0)
              && (SomeUse(s, UsesWaker) ==> s.h.wakers > 0 || SomeUse(s, InPoll))
  {
  }

  /** The borrow rule after a call starts that borrows nothing itself. */
  lemma BorrowsAfter(s: State, h': Header, th: Thread)
    requires !UsesHandle(th) && !UsesWaker(th) && !InPoll(th)
    ensures BorrowsHold(Start(s, h', th)) <==>
              && (SomeUse(s, UsesHandle) ==> h'.handles > 0)
              && (SomeUse(s, UsesWaker) ==> h'.wakers > 0 || SomeUse(s, InPoll))
  {
    var s' := Start(s, h', th);
    BorrowsMean(s');
    assert forall i :: 0 <= i < |s.threads| ==> s'.threads[i] == s.threads[i];
    UseAfter(s, h', th, UsesHandle);
    UseAfter(s, h', th, UsesWaker);
    UseAfter(s, h', th, InPoll);
  }

  lemma UseAfter(s: State, h': Header, th: Thread, f: Thread -> bool)
    requires !f(th)
    ensures SomeUse(Start(s, h', th), f) <==> SomeUse(s, f)
  {
    var s' := Start(s, h', th);
    if i :| 0 <= i < |s.threads| && f(s.threads[i]) {
      assert f(s'.threads[i]);
    }
  }

  /** What clients can do at every moment of a run: lend or copy a waker that is live, unless the
    * hardened counter is at its limit; cancel through any handle; and consume a waker or a handle
    * unless it is the last one and a call is still being made through a borrow of it. */
  lemma ClientsCanAct(m: Mode, ss: seq<State>, es: seq<Event>, k: nat)
    requires IsRun(m, ss, es) && k < |ss|
    ensures var s := ss[k];
            && (Step(m, s, WakeByRef).Some? <==> s.h.wakers > 0 || SomeUse(s, InPoll))
            && (Step(m, s, CloneWaker).Some? <==>
                  (s.h.wakers > 0 || SomeUse(s, InPoll)) && (m.Hardened? ==> s.h.refCount < 0x7FFF_FFFF))
            && (Step(m, s, Cancel).Some? <==> s.h.handles > 0)
            && (Step(m, s, Wake).Some? <==> WakerFree(s))
            && (Step(m, s, DropWaker).Some? <==> WakerFree(s))
            && (Step(m, s, DropHandle).Some? <==> HandleFree(s))
  {
    RunKeepsInv(m, ss, es, k);
    LendersCanAct(m, ss[k]);
    WakerCanGo(m, ss[k]);
    HandleCanGo(m, ss[k]);
  }

  lemma LendersCanAct(m: Mode, s: State)
    ensures Step(m, s, WakeByRef).Some? <==> s.h.wakers > 0 || SomeUse(s, InPoll)
    ensures Step(m, s, CloneWaker).Some? <==>
              (s.h.wakers > 0 || SomeUse(s, InPoll)) && (m.Hardened? ==> s.h.refCount < 0x7FFF_FFFF)
    ensures Step(m, s, Cancel).Some? <==> s.h.handles > 0
  {
  }

  lemma WakerCanGo(m: Mode, s: State)
    requires BorrowsHold(s)
    ensures Step(m, s, Wake).Some? <==> WakerFree(s)
    ensures Step(m, s, DropWaker).Some? <==> WakerFree(s)
  {
    BorrowsMean(s);
    if s.h.wakers > 0 {
      var h' := s.h.(wakers := s.h.wakers - 1);
      BorrowsAfter(s, h', Scheduling(SLoad, Waker));
      BorrowsAfter(s, h', Releasing(RSub, Return));
    }
  }

  lemma HandleCanGo(m: Mode, s: State)
    requires BorrowsHold(s)
    ensures Step(m, s, DropHandle).Some? <==> HandleFree(s)
  {
    BorrowsMean(s);
    if s.h.handles > 0 {
      BorrowsAfter(s, s.h.(handles := s.h.handles - 1), Releasing(RSub, Return));
    }
  }

  // ----- who owns handles and wakers -----

  function Clones(e: Event): nat {
    Bit(e.CloneWaker?)
  }

  function Consumes(e: Event): nat {
    Bit(e.Wake? || e.DropWaker?)
  }

  function DropsHandle(e: Event): nat {
    Bit(e.DropHandle?)
  }

  /** The handle that the spawn was asked for has still to be made. */
  function HandleDue(th: Thread): nat {
    Bit(th.MakingHandle? || th == Spawning(true))
  }

  predicate OwnerCountMoves(h: Header, th: Thread, h': Header, th': Thread) {
    h'.wakers == h.wakers && h'.handles + HandleDue(th') == h.handles + HandleDue(th)
  }

  lemma RoutineOwnerCount(m: Mode, h: Header, d: RoutinePc, r: Run, c: Choice, h': Header, th': Thread)
    requires RoutineStep(m, h, d, r, c) == Goes(h', th')
    ensures OwnerCountMoves(h, Routine(d, r), h', th')
  {
    match d
    case DClear => case DLoad => case DWaker => case DSetSlot => case DBudget =>
    case DPoll => case DPolling => case DStore => case DDrop => case DWoken => case DSpend =>
    case DReset => case DAddRef => case DInsert => case DClearSlot =>
  }

  lemma ScheduleOwnerCount(m: Mode, h: Header, s: SchedulePc, k: Caller, h': Header, th': Thread)
    requires ScheduleStep(m, h, s, k) == Goes(h', th')
    ensures OwnerCountMoves(h, Scheduling(s, k), h', th')
  {
    match s
    case SLoad => case SCas => case SAddRef => case SInsert =>
  }

  lemma ReleaseOwnerCount(m: Mode, h: Header, r: ReleasePc, k: After, h': Header, th': Thread)
    requires ReleaseStep(m, h, r, k) == Goes(h', th')
    ensures OwnerCountMoves(h, Releasing(r, k), h', th')
  {
    match r
    case RSub => case RLoad => case RStore => case RDrop => case RDealloc => case RTracker =>
  }

  lemma EntryOwnerCount(m: Mode, h: Header, th: Thread, c: Choice, h': Header, th': Thread)
    requires Entering(th) && LocalStep(m, h, th, c) == Goes(h', th')
    ensures OwnerCountMoves(h, th, h', th')
  {
    match th
    case Spawning(_) => case MakingHandle => case Cancelling =>
  }

  lemma LocalOwnerCount(m: Mode, h: Header, th: Thread, c: Choice, h': Header, th': Thread)
    requires LocalStep(m, h, th, c) == Goes(h', th')
    ensures OwnerCountMoves(h, th, h', th')
  {
    match th
    case Scheduling(s, k) => ScheduleOwnerCount(m, h, s, k, h', th');
    case Releasing(r, k) => ReleaseOwnerCount(m, h, r, k, h', th');
    case Routine(d, r) => RoutineOwnerCount(m, h, d, r, c, h', th');
    case Spawning(_) => EntryOwnerCount(m, h, th, c, h', th');
    case MakingHandle => EntryOwnerCount(m, h, th, c, h', th');
    case Cancelling => EntryOwnerCount(m, h, th, c, h', th');
  }

  lemma StartOwnerCount(m: Mode, s: State, e: Event, s': State)
    requires Step(m, s, e) == Some(s') && !e.Advance?
    ensures s'.h.wakers + Consumes(e) == s.h.wakers + Clones(e)
    ensures s'.h.handles + DropsHandle(e) == s.h.handles
    ensures Starts(e) ==> |s'.threads| == |s.threads| + 1 && HandleDue(s'.threads[|s.threads|]) == 0
  {
    match e
    case Advance(_, _) => case RunDpc(_) => case CloneWaker => case TakeRequest(_) => case Wake =>
    case WakeByRef => case DropWaker => case Cancel => case DropHandle =>
  }

  lemma OwnerCountStep(m: Mode, s: State, e: Event, s': State)
    requires Step(m, s, e) == Some(s')
    ensures s'.h.wakers + Consumes(e) == s.h.wakers + Clones(e)
    ensures s'.h.handles + DropsHandle(e) + Sum(s'.threads, HandleDue) == s.h.handles + Sum(s.threads, HandleDue)
  {
    StepShape(m, s, e);
    if e.Advance? {
      LocalOwnerCount(m, s.h, s.threads[e.t], e.choice, s'.h, s'.threads[e.t]);
      SumUpdate(s.threads, HandleDue, e.t, s'.threads[e.t]);
    } else {
      StartOwnerCount(m, s, e, s');
      if Starts(e) {
        SumAppend(s.threads, HandleDue, s'.threads[|s.threads|]);
      }
    }
  }

  /** No waker or handle is lost or made up: the wakers are those cloned and not consumed, and there
    * is one handle, once it is made and until it is dropped, exactly if the spawn was asked for one. */
  lemma {:induction false} OwnersCounted(m: Mode, ss: seq<State>, es: seq<Event>, wantsHandle: bool, k: nat)
    requires IsRun(m, ss, es) && ss[0] == Init(wantsHandle) && k < |ss|
    ensures ss[k].h.wakers + Sum(es[..k], Consumes) == Sum(es[..k], Clones)
    ensures ss[k].h.handles + Sum(es[..k], DropsHandle) + Sum(ss[k].threads, HandleDue) == if wantsHandle then 1 else 0
  {
    if k == 0 {
      SumOne(Spawning(wantsHandle), HandleDue);
    } else {
      var p := k - 1;
      OwnersCounted(m, ss, es, wantsHandle, p);
      assert Follows(m, ss, es, p);
      OwnerCountStep(m, ss[p], es[p], ss[p + 1]);
      SumPrefix(es, Clones, p);
      SumPrefix(es, Consumes, p);
      SumPrefix(es, DropsHandle, p);
    }
  }
}
