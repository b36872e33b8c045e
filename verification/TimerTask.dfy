/** A task whose future waits for a kernel timer: the waker that the timer stores is the task's, and
  * the wake of the timer's DPC routine is a wake of the task. */
module TimerTask {
  import opened Basics
  import opened RefCount
  import opened DpcTask
  import opened DpcTaskProofs
  import K = KernelTimer

  datatype Both = Both(s: State, k: K.State)

  datatype BothEvent = OfTask(e: Event) | OfTimer(te: K.Event)

  /** What a step of the timer does to the task: it stores a clone of the task's waker, dropping
    * the one it had; it wakes the task; or it drops its waker with the block. */
  datatype Errand = NoErrand | Clones(swaps: bool) | WakesTask | DropsWaker

  function ErrandOf(k: K.State, e: K.Event): Errand {
    if k.waker.None? then if e.Own? && k.owner.PollStore? then Clones(false) else NoErrand
    else if e.Own? && k.owner.PollStore? then Clones(true)
    else if e.Tick? && k.routine.WakeTask? then WakesTask
    else if (e.Own? && k.owner.DropFree?) || (e.Tick? && k.routine.Free?) then DropsWaker
    else NoErrand
  }

  function RunErrand(m: Mode, s: State, r: Errand): Option<State> {
    match r
    case NoErrand => Some(s)
    case WakesTask => Step(m, s, WakeByRef)
    case DropsWaker => Step(m, s, DropWaker)
    case Clones(swaps) =>
      match Step(m, s, CloneWaker)
      case None => None
      case Some(s') => if swaps then Step(m, s', DropWaker) else Some(s')
  }

  /** The waker in the timer's block, which nobody else may consume. */
  function TimerWaker(k: K.State): nat {
    Bit(k.waker.Some? && k.frees == 0)
  }

  /** A step of the task or of the timer. The one task that polls the timer is number 0. */
  function BothStep(m: Mode, b: Both, ev: BothEvent): Option<Both> {
    match ev
    case OfTask(e) =>
      if (e.Wake? || e.DropWaker?) && b.s.h.wakers <= TimerWaker(b.k) then None
      else (
        match Step(m, b.s, e)
        case None => None
        case Some(s') => Some(b.(s := s')))
    case OfTimer(e) =>
      if e.Poll? && e.task != 0 then None
      else
        match K.Step(m, b.k, e)
        case Stuck => None
        case To(k') =>
          match RunErrand(m, b.s, ErrandOf(b.k, e))
          case None => None
          case Some(s') => Some(Both(s', k'))
  }

  ghost predicate Follows(m: Mode, bs: seq<Both>, es: seq<BothEvent>, i: nat)
    requires |bs| == |es| + 1 && i < |es|
  {
    BothStep(m, bs[i], es[i]) == Some(bs[i + 1]) && Countable(m, bs[i + 1].s)
  }

  /** A new task, whatever its cancel flag, and a new timer. */
  predicate Starts(b: Both) {
    Fresh(b.s) && K.New(b.k)
  }

  lemma InitStarts(wantsHandle: bool)
    ensures Fresh(Init(wantsHandle)) && K.New(K.FRESH)
  {
  }

  ghost predicate IsBothRun(m: Mode, bs: seq<Both>, es: seq<BothEvent>) {
    && |bs| == |es| + 1
    && Starts(bs[0])
    && (forall i :: 0 <= i < |es| ==> Follows(m, bs, es, i))
  }

  // ----- What every step keeps -----

  predicate Sound(b: Both) {
    Inv(b.s) && K.Inv(b.k) && K.OnlyTask(b.k, 0) && b.s.h.wakers >= TimerWaker(b.k)
  }

  /** Only cloning, waking by value and dropping change the number of wakers. */
  lemma WakersMove(m: Mode, s: State, e: Event, s': State)
    requires Step(m, s, e) == Some(s')
    ensures s'.h.wakers == s.h.wakers + Bit(e.CloneWaker?) - Bit(e.Wake? || e.DropWaker?)
  {
    if e.Advance? {
      StepShape(m, s, e);
      LocalRefMoves(m, s.h, s.threads[e.t], e.choice, s'.h, s'.threads[e.t]);
    }
  }

  lemma DropKeepsHolders(m: Mode, s: State, s': State)
    requires Step(m, s, DropWaker) == Some(s')
    ensures Holders(s') == Holders(s)
  {
    StartHolds(m, s, DropWaker);
    StepShape(m, s, DropWaker);
    SumAppend(s.threads, Holds, s'.threads[|s.threads|]);
  }

  /** An errand keeps the task's invariant and leaves a due poll due. */
  lemma ErrandKeeps(m: Mode, s: State, r: Errand, s': State)
    requires Inv(s) && RunErrand(m, s, r) == Some(s') && Countable(m, s')
    ensures Inv(s') && (PollOwed(s) ==> PollOwed(s'))
    ensures s'.h.wakers == s.h.wakers + Bit(r.Clones?) - Bit(r.DropsWaker? || r == Clones(true))
  {
    match r
    case NoErrand =>
    case WakesTask => OneKeeps(m, s, WakeByRef, s');
    case DropsWaker => OneKeeps(m, s, DropWaker, s');
    case Clones(swaps) =>
      var mid := Step(m, s, CloneWaker).value;
      if swaps {
        DropKeepsHolders(m, mid, s');
        OneKeeps(m, s, CloneWaker, mid);
        OneKeeps(m, mid, DropWaker, s');
      } else {
        OneKeeps(m, s, CloneWaker, s');
      }
  }

  /** One step of the task that begins no poll. */
  lemma OneKeeps(m: Mode, s: State, e: Event, s': State)
    requires Inv(s) && Step(m, s, e) == Some(s') && Countable(m, s') && !PollBegins(s, e)
    ensures Inv(s') && (PollOwed(s) ==> PollOwed(s'))
    ensures s'.h.wakers == s.h.wakers + Bit(e.CloneWaker?) - Bit(e.Wake? || e.DropWaker?)
  {
    InvKept(m, s, e);
    CompletedStays(m, s, e);
    WakersMove(m, s, e, s');
    if PollOwed(s) && !s'.h.completed {
      PollDueKept(m, s, e);
    }
  }

  /** How the timer's waker moves with the errand of a step. */
  predicate WakerMoves(k: K.State, r: Errand, k': K.State) {
    && TimerWaker(k') + Bit(r.DropsWaker?) == TimerWaker(k) + Bit(r == Clones(false))
    && (r == Clones(true) || r.WakesTask? || r.DropsWaker? ==> TimerWaker(k) == 1)
  }

  lemma OwnerWakerMoves(m: Mode, k: K.State, k': K.State)
    requires K.Inv(k) && K.OwnerStep(m, k) == K.To(k')
    ensures WakerMoves(k, ErrandOf(k, K.Own), k')
  {
    match k.owner
    case PollLoad(_) => case PollStore(_) => case PollArm => case PollAddRef => case PollSet =>
    case DropMark => case DropCancel => case DropRemove(_) => case DropRelease(_) =>
    case DropReleaseTimer => case DropFree(_) =>
  }

  lemma RoutineWakerMoves(m: Mode, k: K.State, k': K.State)
    requires K.Inv(k) && K.RoutineStep(m, k) == K.To(k')
    ensures WakerMoves(k, ErrandOf(k, K.Tick), k')
  {
    match k.routine
    case StoreFired => case LoadCancelled => case WakeTask => case Release => case Free =>
  }

  lemma QuietWakerMoves(m: Mode, k: K.State, e: K.Event, k': K.State)
    requires K.Step(m, k, e) == K.To(k') && !e.Own? && !e.Tick?
    ensures ErrandOf(k, e).NoErrand? && k'.waker == k.waker && k'.frees == k.frees
  {
    match e
    case Poll(_) => case DropFuture => case Expire => case QueueDpc => case StartRoutine =>
  }

  /** The timer's waker appears when it is stored and goes with the block. */
  lemma TimerWakerMoves(m: Mode, k: K.State, e: K.Event, k': K.State)
    requires K.Inv(k) && K.Step(m, k, e) == K.To(k')
    ensures WakerMoves(k, ErrandOf(k, e), k')
  {
    if e.Own? {
      OwnerWakerMoves(m, k, k');
    } else if e.Tick? {
      RoutineWakerMoves(m, k, k');
    } else {
      QuietWakerMoves(m, k, e, k');
    }
  }

  lemma TaskStepSound(m: Mode, b: Both, e: Event, s': State)
    requires Sound(b) && Step(m, b.s, e) == Some(s') && Countable(m, s')
    requires e.Wake? || e.DropWaker? ==> b.s.h.wakers > TimerWaker(b.k)
    ensures Sound(b.(s := s'))
  {
    InvKept(m, b.s, e);
    WakersMove(m, b.s, e, s');
  }

  lemma TimerStepSound(m: Mode, b: Both, e: K.Event, b': Both)
    requires Sound(b) && (e.Poll? ==> e.task == 0) && K.Step(m, b.k, e) == K.To(b'.k)
    requires RunErrand(m, b.s, ErrandOf(b.k, e)) == Some(b'.s) && Countable(m, b'.s)
    ensures Sound(b')
  {
    K.InvKept(m, b.k, e);
    K.OnlyTaskKept(m, b.k, e, 0);
    TimerWakerMoves(m, b.k, e, b'.k);
    ErrandKeeps(m, b.s, ErrandOf(b.k, e), b'.s);
  }

  lemma SoundKept(m: Mode, b: Both, ev: BothEvent, b': Both)
    requires Sound(b) && BothStep(m, b, ev) == Some(b') && Countable(m, b'.s)
    ensures Sound(b')
  {
    match ev
    case OfTask(e) => TaskStepSound(m, b, e, b'.s);
    case OfTimer(e) => TimerStepSound(m, b, e, b');
  }

  lemma StartSound(b: Both)
    requires Fresh(b.s) && K.New(b.k)
    ensures Sound(b)
  {
    FreshInv(b.s);
    K.NewInv(b.k);
  }

  lemma RunStepSound(m: Mode, bs: seq<Both>, es: seq<BothEvent>, k: nat)
    requires IsBothRun(m, bs, es) && k < |bs| && (k > 0 ==> Sound(bs[k - 1]))
    ensures Sound(bs[k])
  {
    if k == 0 {
      StartSound(bs[k]);
    } else {
      assert Follows(m, bs, es, k - 1);
      SoundKept(m, bs[k - 1], es[k - 1], bs[k]);
    }
  }

  lemma {:induction false} RunSound(m: Mode, bs: seq<Both>, es: seq<BothEvent>, k: nat)
    requires IsBothRun(m, bs, es) && k < |bs|
    ensures Sound(bs[k])
  {
    if k > 0 {
      RunSound(m, bs, es, k - 1);
    }
    RunStepSound(m, bs, es, k);
  }

  /** The wake is never blocked: the timer's waker is there, and the routine can always wake. */
  lemma WakeNeverBlocked(m: Mode, bs: seq<Both>, es: seq<BothEvent>, k: nat)
    requires IsBothRun(m, bs, es) && k < |bs| && bs[k].k.routine.WakeTask?
    ensures bs[k].k.waker == Some(0) && BothStep(m, bs[k], OfTimer(K.Tick)).Some?
  {
    RunSound(m, bs, es, k);
  }

  // ----- Who owns the wakers -----

  /** What a step changes in the number of wakers that clients own besides the timer. */
  function ClientGain(ev: BothEvent): int {
    if ev.OfTimer? then 0
    else if ev.e.CloneWaker? then 1
    else if ev.e.Wake? || ev.e.DropWaker? then -1
    else 0
  }

  function ClientWakers(es: seq<BothEvent>, k: nat): int
    requires k <= |es|
  {
    if k == 0 then 0 else ClientWakers(es, k - 1) + ClientGain(es[k - 1])
  }

  lemma BalanceStep(m: Mode, b: Both, ev: BothEvent, b': Both)
    requires Sound(b) && BothStep(m, b, ev) == Some(b') && Countable(m, b'.s)
    ensures b'.s.h.wakers - TimerWaker(b'.k) == b.s.h.wakers - TimerWaker(b.k) + ClientGain(ev)
  {
    match ev
    case OfTask(e) => WakersMove(m, b.s, e, b'.s);
    case OfTimer(e) =>
      TimerWakerMoves(m, b.k, e, b'.k);
      ErrandKeeps(m, b.s, ErrandOf(b.k, e), b'.s);
  }

  lemma RunBalanceStep(m: Mode, bs: seq<Both>, es: seq<BothEvent>, k: nat)
    requires IsBothRun(m, bs, es) && k < |es|
    ensures bs[k + 1].s.h.wakers - TimerWaker(bs[k + 1].k) == bs[k].s.h.wakers - TimerWaker(bs[k].k) + ClientGain(es[k])
  {
    RunSound(m, bs, es, k);
    assert Follows(m, bs, es, k);
    BalanceStep(m, bs[k], es[k], bs[k + 1]);
  }

  /** No waker is lost or made up: those of the task are the ones its clients have cloned and not
    * consumed, and the one in the timer's block from the first `Pending` poll until the block is
    * freed, however often the timer stores a new one. */
  lemma {:induction false} WakersBalance(m: Mode, bs: seq<Both>, es: seq<BothEvent>, k: nat)
    requires IsBothRun(m, bs, es) && k < |bs|
    ensures bs[k].s.h.wakers == ClientWakers(es, k) + TimerWaker(bs[k].k)
  {
    if k > 0 {
      WakersBalance(m, bs, es, k - 1);
      RunBalanceStep(m, bs, es, k - 1);
    }
  }

  // ----- From the timer to the task -----

  /** The step by which the timer's routine wakes the task. */
  predicate Wakes(b: Both, ev: BothEvent) {
    ev.OfTimer? && K.Wakes(b.k, ev.te, 0)
  }

  predicate BeginsPollOf(b: Both, ev: BothEvent) {
    ev.OfTask? && PollBegins(b.s, ev.e)
  }

  /** The poll of the timer that finds it not fired. */
  predicate LooksInVain(b: Both, ev: BothEvent) {
    ev.OfTimer? && K.ChecksInVain(b.k, ev.te, 0)
  }

  /** The timer woke the task at j, and since then a poll has begun, or is due, or the task is
    * completed. */
  ghost predicate WokenAt(bs: seq<Both>, es: seq<BothEvent>, j: nat, k: nat)
    requires |bs| == |es| + 1 && k < |bs|
  {
    && j < k && Wakes(bs[j], es[j]) && bs[j].k.fired
    && (PollOwed(bs[k].s) || exists q :: j < q < k && BeginsPollOf(bs[q], es[q]))
  }

  ghost predicate WokenAfter(bs: seq<Both>, es: seq<BothEvent>, i: nat, k: nat)
    requires |bs| == |es| + 1 && k < |bs|
  {
    exists j :: i < j < k && WokenAt(bs, es, j, k)
  }

  lemma WakeMakesPollDue(m: Mode, b: Both, ev: BothEvent, b': Both)
    requires Sound(b) && BothStep(m, b, ev) == Some(b') && Wakes(b, ev)
    ensures PollOwed(b'.s) && b.k.fired
  {
    if !b'.s.h.completed {
      RequestMakesPollDue(m, b.s, WakeByRef);
    }
  }

  lemma PollStaysOwed(m: Mode, b: Both, ev: BothEvent, b': Both)
    requires Sound(b) && BothStep(m, b, ev) == Some(b') && Countable(m, b'.s)
    requires PollOwed(b.s) && !BeginsPollOf(b, ev)
    ensures PollOwed(b'.s)
  {
    match ev
    case OfTask(e) => OneKeeps(m, b.s, e, b'.s);
    case OfTimer(e) => ErrandKeeps(m, b.s, ErrandOf(b.k, e), b'.s);
  }

  lemma WokenStays(m: Mode, bs: seq<Both>, es: seq<BothEvent>, j: nat, k: nat)
    requires IsBothRun(m, bs, es) && k < |es| && WokenAt(bs, es, j, k)
    ensures WokenAt(bs, es, j, k + 1)
  {
    RunSound(m, bs, es, k);
    assert Follows(m, bs, es, k);
    if PollOwed(bs[k].s) && !BeginsPollOf(bs[k], es[k]) {
      PollStaysOwed(m, bs[k], es[k], bs[k + 1]);
    }
  }

  lemma CancelledStays(m: Mode, b: Both, ev: BothEvent, b': Both)
    requires BothStep(m, b, ev) == Some(b')
    ensures (b.k.cancelled ==> b'.k.cancelled) && (b.k.fired ==> b'.k.fired)
  {
    if ev.OfTimer? {
      K.CancelledStays(m, b.k, ev.te);
    }
  }

  /** One step: a wake that the timer owes stays owed, or is made and a poll of the task is due. */
  lemma OwedStep(m: Mode, bs: seq<Both>, es: seq<BothEvent>, k: nat)
    requires IsBothRun(m, bs, es) && k < |es| && K.WakeOwed(bs[k].k) && !bs[k + 1].k.cancelled
    ensures K.WakeOwed(bs[k + 1].k) || WokenAt(bs, es, k, k + 1)
  {
    RunSound(m, bs, es, k);
    assert Follows(m, bs, es, k);
    if es[k].OfTimer? {
      K.OwedKept(m, bs[k].k, es[k].te, 0);
      if Wakes(bs[k], es[k]) {
        WakeMakesPollDue(m, bs[k], es[k], bs[k + 1]);
      }
    }
  }

  lemma LookLeavesOwed(m: Mode, bs: seq<Both>, es: seq<BothEvent>, i: nat)
    requires IsBothRun(m, bs, es) && i < |es| && LooksInVain(bs[i], es[i])
    ensures K.WakeOwed(bs[i + 1].k)
  {
    assert Follows(m, bs, es, i);
  }

  lemma {:induction false} OwedOrWoken(m: Mode, bs: seq<Both>, es: seq<BothEvent>, i: nat, k: nat)
    requires IsBothRun(m, bs, es) && i < k < |bs| && LooksInVain(bs[i], es[i]) && !bs[k].k.cancelled
    ensures K.WakeOwed(bs[k].k) || WokenAfter(bs, es, i, k)
    decreases k
  {
    var p := k - 1;
    FiredStep(m, bs, es, p);
    if p == i {
      LookLeavesOwed(m, bs, es, i);
    } else {
      OwedOrWoken(m, bs, es, i, p);
      if WokenAfter(bs, es, i, p) {
        var j :| i < j < p && WokenAt(bs, es, j, p);
        WokenStays(m, bs, es, j, p);
      } else {
        OwedStep(m, bs, es, p);
      }
    }
  }

  lemma FiredStep(m: Mode, bs: seq<Both>, es: seq<BothEvent>, k: nat)
    requires IsBothRun(m, bs, es) && k < |es|
    ensures bs[k].k.fired ==> bs[k + 1].k.fired
    ensures bs[k].k.cancelled ==> bs[k + 1].k.cancelled
  {
    assert Follows(m, bs, es, k);
    CancelledStays(m, bs[k], es[k], bs[k + 1]);
  }

  lemma {:induction false} FiredStays(m: Mode, bs: seq<Both>, es: seq<BothEvent>, j: nat, k: nat)
    requires IsBothRun(m, bs, es) && j <= k < |bs| && bs[j].k.fired
    ensures bs[k].k.fired
    decreases k
  {
    if j < k {
      FiredStays(m, bs, es, j, k - 1);
      FiredStep(m, bs, es, k - 1);
    }
  }

  /** From a `Pending` poll of the timer to `Ready`: once the timer has fired, and unless it is
    * dropped, its routine is still on its way to the wake, or it has woken the task, and since then a
    * poll of the task is due until one begins, unless the task is completed. */
  lemma FiredTimerGetsPolled(m: Mode, bs: seq<Both>, es: seq<BothEvent>, i: nat, k: nat)
    requires IsBothRun(m, bs, es) && i < k < |bs| && LooksInVain(bs[i], es[i])
    requires bs[k].k.fired && !bs[k].k.cancelled
    ensures K.AboutToWake(bs[k].k) || WokenAfter(bs, es, i, k)
  {
    OwedOrWoken(m, bs, es, i, k);
  }

  /** And from the wake on every poll of the timer is `Ready` at its first look. */
  lemma ReadyAfterWake(m: Mode, bs: seq<Both>, es: seq<BothEvent>, j: nat, k: nat)
    requires IsBothRun(m, bs, es) && j <= k < |es| && Wakes(bs[j], es[j])
    requires es[k] == OfTimer(K.Own) && bs[k].k.owner.PollLoad?
    ensures bs[k + 1].k == bs[k].k.(owner := K.Waiting) && bs[k].k.fired
  {
    RunSound(m, bs, es, j);
    FiredStays(m, bs, es, j, k);
    assert Follows(m, bs, es, k);
  }
}
