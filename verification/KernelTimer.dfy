/** The kernel timer future of `executor.rs`: a block shared by the future's owner, the
  * kernel's timer and DPC queues, and the timer DPC routine. */
module KernelTimer {
  import opened Basics
  import opened RefCount

  /** Where the kernel has the timer. `Expired` is neither in the timer queue nor in the
    * DPC queue: the DPC is on its way and nothing can recall it. */
  datatype Kernel = Unset | InTimerQueue | Expired | DpcQueued | Gone

  /** The next atomic step of the owner, in `poll` by some task or in `Drop`. */
  datatype Owner =
    | Waiting
    | PollLoad(task: nat)
    | PollStore(task: nat)
    | PollArm
    | PollAddRef
    | PollSet
    | DropMark
    | DropCancel
    | DropRemove(reclaimed: bool)
    | DropRelease(reclaimed: bool)
    | DropReleaseTimer
    | DropFree(reclaimed: bool)
    | Over

  /** The next atomic step of `timer_dpc_routine`; the wake runs under the waker's lock. */
  datatype Routine = NotRunning | StoreFired | LoadCancelled | WakeTask | Release | Free | Finished

  /** The block's cells, and how often the timer's reference was taken and given back
    * and the block freed. */
  datatype State = State(
    refCount: u32,
    fired: bool,
    armed: bool,
    cancelled: bool,
    waker: Option<nat>,
    kernel: Kernel,
    owner: Owner,
    routine: Routine,
    timerAdds: nat,
    timerReleases: nat,
    frees: nat)

  datatype Event = Poll(task: nat) | DropFuture | Own | Expire | QueueDpc | StartRoutine | Tick

  const FRESH := State(1, false, false, false, None, Unset, Waiting, NotRunning, 0, 0, 0)

  datatype Post = Stuck | To(s: State)

  function OwnerStep(m: Mode, s: State): Post {
    match s.owner
    case PollLoad(task) => To(s.(owner := if s.fired then Waiting else PollStore(task)))
    case PollStore(task) => To(s.(waker := Some(task), owner := PollArm))
    case PollArm => if s.armed then To(s.(owner := Waiting)) else To(s.(armed := true, owner := PollAddRef))
    case PollAddRef =>
      (match Add(m, s.refCount)
       case Halted => Stuck
       case Now(n) => To(s.(refCount := n, timerAdds := s.timerAdds + 1, owner := PollSet)))
    case PollSet => To(s.(kernel := InTimerQueue, owner := Waiting))
    case DropMark => To(s.(cancelled := true, owner := DropCancel))
    case DropCancel =>
      if s.kernel.InTimerQueue? then To(s.(kernel := Gone, owner := DropRemove(true)))
      else To(s.(owner := DropRemove(false)))
    case DropRemove(reclaimed) =>
      if s.kernel.DpcQueued? then To(s.(kernel := Gone, owner := DropRelease(true)))
      else To(s.(owner := DropRelease(reclaimed)))
    case DropRelease(reclaimed) =>
      (match Sub(m, s.refCount)
       case Halted => Stuck
       case Now(n) =>
         To(s.(refCount := n,
               owner := if n == 0 then DropFree(reclaimed) else if reclaimed then DropReleaseTimer else Over)))
    case DropReleaseTimer =>
      (match Sub(m, s.refCount)
       case Halted => Stuck
       case Now(n) =>
         To(s.(refCount := n, timerReleases := s.timerReleases + 1, owner := if n == 0 then DropFree(false) else Over)))
    case DropFree(reclaimed) =>
      To(s.(frees := s.frees + 1, owner := if reclaimed then DropReleaseTimer else Over))
    case Waiting => Stuck
    case Over => Stuck
  }

  function RoutineStep(m: Mode, s: State): Post {
    match s.routine
    case StoreFired => To(s.(fired := true, routine := LoadCancelled))
    case LoadCancelled => To(s.(routine := if s.cancelled then Release else WakeTask))
    case WakeTask => To(s.(routine := Release))
    case Release =>
      (match Sub(m, s.refCount)
       case Halted => Stuck
       case Now(n) =>
         To(s.(refCount := n, timerReleases := s.timerReleases + 1, routine := if n == 0 then Free else Finished)))
    case Free => To(s.(frees := s.frees + 1, routine := Finished))
    case NotRunning => Stuck
    case Finished => Stuck
  }

  function Step(m: Mode, s: State, e: Event): Post {
    match e
    case Poll(task) => if s.owner.Waiting? then To(s.(owner := PollLoad(task))) else Stuck
    case DropFuture => if s.owner.Waiting? then To(s.(owner := DropMark)) else Stuck
    case Own => OwnerStep(m, s)
    case Expire => if s.kernel.InTimerQueue? then To(s.(kernel := Expired)) else Stuck
    case QueueDpc => if s.kernel.Expired? then To(s.(kernel := DpcQueued)) else Stuck
    case StartRoutine =>
      if s.kernel.Expired? || s.kernel.DpcQueued? then To(s.(kernel := Gone, routine := StoreFired)) else Stuck
    case Tick => RoutineStep(m, s)
  }

  // ----- The reference ledger -----

  /** The owner's reference, from allocation until `Drop` releases it. */
  predicate OwnerRef(s: State) {
    !s.owner.DropReleaseTimer? && !s.owner.DropFree? && !s.owner.Over?
  }

  /** The timer's reference: about to be handed to the kernel, with the kernel, with the
    * routine, or taken back by `Drop`. */
  predicate TimerRef(s: State) {
    || s.owner.PollSet?
    || s.kernel.InTimerQueue? || s.kernel.Expired? || s.kernel.DpcQueued?
    || (!s.routine.NotRunning? && !s.routine.Free? && !s.routine.Finished?)
    || (s.owner.DropRemove? && s.owner.reclaimed) || (s.owner.DropRelease? && s.owner.reclaimed)
    || s.owner.DropReleaseTimer?
  }

  /** The owner, the routine or the kernel may still read or write the block. */
  predicate InUse(s: State) {
    OwnerRef(s) || TimerRef(s) || s.owner.DropFree? || s.routine.Free?
  }

  /** `Drop` has called `KeCancelTimer`, and `KeRemoveQueueDpc` too. */
  predicate PastCancel(o: Owner) {
    o.DropRemove? || PastRemove(o)
  }

  predicate PastRemove(o: Owner) {
    o.DropRelease? || o.DropReleaseTimer? || o.DropFree? || o.Over?
  }

  /** How far the single arming has come. */
  predicate Stages(s: State) {
    && (!s.armed ==> s.kernel.Unset? && !s.owner.PollAddRef? && !s.owner.PollSet?)
    && (s.owner.PollAddRef? || s.owner.PollSet? ==> s.kernel.Unset?)
    && (s.kernel.Unset? && s.armed ==> s.owner.PollAddRef? || s.owner.PollSet?)
    && (!s.routine.NotRunning? ==> s.kernel.Gone?)
    && (s.fired <==> !s.routine.NotRunning? && !s.routine.StoreFired?)
    && ((s.owner.DropRemove? || s.owner.DropRelease?) && s.owner.reclaimed ==> s.kernel.Gone? && s.routine.NotRunning?)
    && (s.owner.DropReleaseTimer? ==> s.kernel.Gone? && s.routine.NotRunning?)
    && (s.armed ==> s.waker.Some?)
    && (s.owner.PollArm? ==> s.waker.Some?)
    && (s.cancelled <==> s.owner.DropCancel? || s.owner.DropRemove? || s.owner.DropRelease?
                         || s.owner.DropReleaseTimer? || s.owner.DropFree? || s.owner.Over?)
    && (PastCancel(s.owner) ==> !s.kernel.InTimerQueue?)
  }

  predicate Inv(s: State) {
    && Stages(s)
    && s.refCount == Bit(OwnerRef(s)) + Bit(TimerRef(s))
    && !(s.owner.DropFree? && s.routine.Free?)
    && !(s.owner.DropFree? && s.owner.reclaimed)
    && (s.owner.DropFree? || s.routine.Free? ==> s.refCount == 0)
    && s.frees == Bit(!InUse(s))
    && s.timerAdds == Bit(!s.kernel.Unset? || s.owner.PollSet?)
    && s.timerAdds == s.timerReleases + Bit(TimerRef(s))
  }

  /** Nothing has happened to the timer yet: the same as `FRESH`, said field by field. */
  predicate New(s: State) {
    && s.refCount == 1 && !s.fired && !s.armed && !s.cancelled && s.waker.None?
    && s.kernel.Unset? && s.owner.Waiting? && s.routine.NotRunning?
    && s.timerAdds == 0 && s.timerReleases == 0 && s.frees == 0
  }

  lemma NewInv(s: State)
    requires New(s)
    ensures Inv(s)
  {
  }

  lemma OwnerKeepsInv(m: Mode, s: State)
    requires Inv(s) && OwnerStep(m, s).To?
    ensures Inv(OwnerStep(m, s).s)
  {
    match s.owner
    case PollLoad(_) => case PollStore(_) => case PollArm => case PollAddRef => case PollSet =>
    case DropMark => case DropCancel => case DropRemove(_) => case DropRelease(_) =>
    case DropReleaseTimer => case DropFree(_) =>
  }

  lemma RoutineKeepsInv(m: Mode, s: State)
    requires Inv(s) && RoutineStep(m, s).To?
    ensures Inv(RoutineStep(m, s).s)
  {
    match s.routine
    case StoreFired => case LoadCancelled => case WakeTask => case Release => case Free =>
  }

  lemma InvKept(m: Mode, s: State, e: Event)
    requires Inv(s) && Step(m, s, e).To?
    ensures Inv(Step(m, s, e).s)
  {
    match e
    case Own => OwnerKeepsInv(m, s);
    case Tick => RoutineKeepsInv(m, s);
    case Poll(_) => case DropFuture => case Expire => case QueueDpc => case StartRoutine =>
  }

  lemma NoStepAfterFree(m: Mode, s: State, e: Event)
    requires Inv(s)
    ensures s.frees > 0 ==> Step(m, s, e).Stuck?
  {
    match e
    case Poll(_) => case DropFuture => case Own => case Expire => case QueueDpc => case StartRoutine => case Tick =>
  }

  // ----- Whole runs -----

  ghost predicate Follows(m: Mode, ss: seq<State>, es: seq<Event>, i: nat)
    requires |ss| == |es| + 1 && i < |es|
  {
    Step(m, ss[i], es[i]) == To(ss[i + 1])
  }

  ghost predicate IsRun(m: Mode, ss: seq<State>, es: seq<Event>) {
    && |ss| == |es| + 1 && ss[0] == FRESH
    && forall i :: 0 <= i < |es| ==> Follows(m, ss, es, i)
  }

  /** One more step of a run. */
  lemma RunGrows(m: Mode, ss: seq<State>, es: seq<Event>, e: Event, s': State)
    requires IsRun(m, ss, es) && Step(m, ss[|es|], e) == To(s')
    ensures IsRun(m, ss + [s'], es + [e])
  {
    var ss', es' := ss + [s'], es + [e];
    forall i | 0 <= i < |es'| ensures Follows(m, ss', es', i) {
      if i < |es| {
        assert Follows(m, ss, es, i);
      }
    }
  }

  lemma {:induction false} RunKeepsInv(m: Mode, ss: seq<State>, es: seq<Event>, k: nat)
    requires IsRun(m, ss, es) && k < |ss|
    ensures Inv(ss[k])
  {
    if k > 0 {
      RunKeepsInv(m, ss, es, k - 1);
      assert Follows(m, ss, es, k - 1);
      InvKept(m, ss[k - 1], es[k - 1]);
    }
  }

  /** The timer ledger, over every interleaving: the count is the owner's reference plus the
    * timer's, the timer's is given back at most as often as it was taken, which is at most
    * once, a timer that `Drop` recalled leaves it both references to give back, the block is
    * freed exactly when nothing uses it any more, exactly once, and no
    * step of the owner, the routine or the kernel is possible after that. */
  lemma LedgerHolds(m: Mode, ss: seq<State>, es: seq<Event>, k: nat)
    requires IsRun(m, ss, es) && k < |ss|
    ensures ss[k].refCount == Bit(OwnerRef(ss[k])) + Bit(TimerRef(ss[k]))
    ensures ss[k].timerReleases <= ss[k].timerAdds <= 1
    ensures ss[k].frees == (if InUse(ss[k]) then 0 else 1)
    ensures ss[k].frees == 1 ==> ss[k].timerReleases == ss[k].timerAdds && k == |es|
    ensures ss[k].owner.DropRelease? && ss[k].owner.reclaimed ==> ss[k].refCount == 2
  {
    RunKeepsInv(m, ss, es, k);
    if k < |es| {
      assert Follows(m, ss, es, k);
      NoStepAfterFree(m, ss[k], es[k]);
    }
  }

  // ----- What `Drop` recalls -----

  /** The step of `Drop` by which one of the kernel's queues hands the timer back. */
  predicate Recalls(s: State, e: Event) {
    e.Own? && ((s.owner.DropCancel? && s.kernel.InTimerQueue?) || (s.owner.DropRemove? && s.kernel.DpcQueued?))
  }

  ghost predicate Recalled(ss: seq<State>, es: seq<Event>, k: nat)
    requires |ss| == |es| + 1 && k < |ss|
  {
    exists q :: 0 <= q < k && Recalls(ss[q], es[q])
  }

  /** `Drop` only goes on, and never looks at the queues again. */
  lemma PastStays(m: Mode, s: State, e: Event)
    requires Step(m, s, e).To?
    ensures PastCancel(s.owner) ==> PastCancel(Step(m, s, e).s.owner)
    ensures PastRemove(s.owner) ==> PastRemove(Step(m, s, e).s.owner)
  {
    match s.owner
    case Waiting =>
    case PollLoad(_) => case PollStore(_) => case PollArm => case PollAddRef => case PollSet =>
    case DropMark => case DropCancel => case DropRemove(_) => case DropRelease(_) =>
    case DropReleaseTimer => case DropFree(_) => case Over =>
  }

  lemma {:induction false} PastCancelStays(m: Mode, ss: seq<State>, es: seq<Event>, i: nat, k: nat)
    requires IsRun(m, ss, es) && i < k < |ss| && es[i].Own? && ss[i].owner.DropCancel?
    ensures PastCancel(ss[k].owner)
    decreases k
  {
    assert Follows(m, ss, es, k - 1);
    if i < k - 1 {
      PastCancelStays(m, ss, es, i, k - 1);
      PastStays(m, ss[k - 1], es[k - 1]);
    }
  }

  /** `Drop` cancels the timer: from its `KeCancelTimer` on the timer is in no timer queue. */
  lemma DropCancelsTimer(m: Mode, ss: seq<State>, es: seq<Event>, i: nat, k: nat)
    requires IsRun(m, ss, es) && i < k < |ss| && es[i].Own? && ss[i].owner.DropCancel?
    ensures !ss[k].kernel.InTimerQueue?
  {
    PastCancelStays(m, ss, es, i, k);
    RunKeepsInv(m, ss, es, k);
  }

  /** What the owner's program point says of the recall. */
  predicate KnowsRecall(o: Owner, recalled: bool) {
    && (!PastCancel(o) ==> !recalled)
    && (o.DropRemove? || o.DropRelease? ==> o.reclaimed == recalled)
  }

  lemma RecallStep(m: Mode, s: State, e: Event, recalled: bool)
    requires Step(m, s, e).To? && KnowsRecall(s.owner, recalled)
    ensures KnowsRecall(Step(m, s, e).s.owner, recalled || Recalls(s, e))
  {
    match s.owner
    case Waiting =>
    case PollLoad(_) => case PollStore(_) => case PollArm => case PollAddRef => case PollSet =>
    case DropMark => case DropCancel => case DropRemove(_) => case DropRelease(_) =>
    case DropReleaseTimer => case DropFree(_) => case Over =>
  }

  lemma {:induction false} RecallKnown(m: Mode, ss: seq<State>, es: seq<Event>, k: nat)
    requires IsRun(m, ss, es) && k < |ss|
    ensures KnowsRecall(ss[k].owner, Recalled(ss, es, k))
  {
    if k > 0 {
      RecallKnown(m, ss, es, k - 1);
      assert Follows(m, ss, es, k - 1);
      RecallStep(m, ss[k - 1], es[k - 1], Recalled(ss, es, k - 1));
    }
  }

  /** The second release is due exactly when one of the two calls handed the timer back, and what
    * happens afterwards does not change that. */
  lemma {:induction false} RecallDecided(m: Mode, ss: seq<State>, es: seq<Event>, i: nat, k: nat)
    requires IsRun(m, ss, es) && i <= k < |ss| && ss[i].owner.DropRelease?
    ensures PastRemove(ss[k].owner) && (Recalled(ss, es, k) <==> ss[i].owner.reclaimed)
    decreases k
  {
    if i == k {
      RecallKnown(m, ss, es, k);
    } else {
      RecallDecided(m, ss, es, i, k - 1);
      assert Follows(m, ss, es, k - 1);
      PastStays(m, ss[k - 1], es[k - 1]);
    }
  }

  /** The routine has passed its wake. */
  predicate PastWake(r: Routine) {
    r.Release? || r.Free? || r.Finished?
  }

  /** A routine that finds the future being dropped never wakes anybody. */
  lemma {:induction false} NoWakeAfterDrop(m: Mode, ss: seq<State>, es: seq<Event>, i: nat, k: nat, task: nat)
    requires IsRun(m, ss, es) && i < k < |es| && es[i].Tick? && ss[i].routine.LoadCancelled? && ss[i].cancelled
    ensures !Wakes(ss[k], es[k], task) && PastWake(ss[k].routine)
    decreases k
  {
    assert Follows(m, ss, es, k - 1);
    RunKeepsInv(m, ss, es, k - 1);
    if i < k - 1 {
      NoWakeAfterDrop(m, ss, es, i, k - 1, task);
      PastWakeStays(m, ss[k - 1], es[k - 1]);
    }
  }

  lemma PastWakeStays(m: Mode, s: State, e: Event)
    requires Inv(s) && Step(m, s, e).To? && PastWake(s.routine)
    ensures PastWake(Step(m, s, e).s.routine)
  {
    match e
    case Poll(_) => case DropFuture => case Expire => case QueueDpc => case StartRoutine =>
    case Tick => match s.routine { case Release => case Free => case Finished => case _ => }
    case Own =>
      match s.owner {
        case PollLoad(_) => case PollStore(_) => case PollArm => case PollAddRef => case PollSet =>
        case DropMark => case DropCancel => case DropRemove(_) => case DropRelease(_) =>
        case DropReleaseTimer => case DropFree(_) =>
      }
  }

  // ----- The wake -----

  /** The owner's poll for `task` finds the timer not fired and will return `Pending`. */
  predicate ChecksInVain(s: State, e: Event, task: nat) {
    e.Own? && s.owner == PollLoad(task) && !s.fired
  }

  /** The routine wakes `task`. */
  predicate Wakes(s: State, e: Event, task: nat) {
    e.Tick? && s.routine.WakeTask? && s.waker == Some(task)
  }

  predicate AboutToWake(s: State) {
    s.routine.LoadCancelled? || s.routine.WakeTask?
  }

  predicate WakeOwed(s: State) {
    s.fired ==> AboutToWake(s)
  }

  /** Only one task polls the timer. */
  predicate PolledBy(es: seq<Event>, task: nat) {
    forall i :: 0 <= i < |es| && es[i].Poll? ==> es[i].task == task
  }

  predicate OnlyTask(s: State, task: nat) {
    && (s.waker.Some? ==> s.waker.value == task)
    && (s.owner.PollLoad? ==> s.owner.task == task)
    && (s.owner.PollStore? ==> s.owner.task == task)
  }

  lemma OnlyTaskKept(m: Mode, s: State, e: Event, task: nat)
    requires OnlyTask(s, task) && Step(m, s, e).To? && (e.Poll? ==> e.task == task)
    ensures OnlyTask(Step(m, s, e).s, task)
  {
    match s.owner
    case Waiting =>
    case PollLoad(_) => case PollStore(_) => case PollArm => case PollAddRef => case PollSet =>
    case DropMark => case DropCancel => case DropRemove(_) => case DropRelease(_) =>
    case DropReleaseTimer => case DropFree(_) => case Over =>
  }

  lemma {:induction false} RunKeepsOnlyTask(m: Mode, ss: seq<State>, es: seq<Event>, k: nat, task: nat)
    requires IsRun(m, ss, es) && PolledBy(es, task) && k < |ss|
    ensures OnlyTask(ss[k], task)
  {
    if k > 0 {
      RunKeepsOnlyTask(m, ss, es, k - 1, task);
      assert Follows(m, ss, es, k - 1);
      OnlyTaskKept(m, ss[k - 1], es[k - 1], task);
    }
  }

  /** One step: a routine that owes a wake still owes it, or wakes, unless `Drop` began. */
  lemma OwedKept(m: Mode, s: State, e: Event, task: nat)
    requires Inv(s) && OnlyTask(s, task) && Step(m, s, e).To?
    requires !Step(m, s, e).s.cancelled && WakeOwed(s)
    ensures Wakes(s, e, task) || WakeOwed(Step(m, s, e).s)
  {
    match s.owner
    case Waiting =>
    case PollLoad(_) => case PollStore(_) => case PollArm => case PollAddRef => case PollSet =>
    case DropMark => case DropCancel => case DropRemove(_) => case DropRelease(_) =>
    case DropReleaseTimer => case DropFree(_) => case Over =>
  }

  /** Timer wake, for a timer polled by one task: once the routine has set `fired`, every
    * poll that looked before that and went on to return `Pending` is followed by a wake
    * of the task, or the routine is still on its way to it; unless the future is dropped. */
  lemma PendingPollIsWoken(m: Mode, ss: seq<State>, es: seq<Event>, i: nat, k: nat, task: nat)
    requires IsRun(m, ss, es) && PolledBy(es, task) && i < k < |ss|
    requires ChecksInVain(ss[i], es[i], task) && !ss[k].cancelled
    ensures (exists j :: i < j < k && Wakes(ss[j], es[j], task)) || (ss[k].fired ==> AboutToWake(ss[k]))
  {
    WakeOwedOrDone(m, ss, es, i, k, task);
  }

  lemma OwedRunStep(m: Mode, ss: seq<State>, es: seq<Event>, k: nat, task: nat)
    requires IsRun(m, ss, es) && PolledBy(es, task) && k < |es|
    requires WakeOwed(ss[k]) && !ss[k + 1].cancelled
    ensures Wakes(ss[k], es[k], task) || WakeOwed(ss[k + 1])
  {
    RunKeepsInv(m, ss, es, k);
    RunKeepsOnlyTask(m, ss, es, k, task);
    assert Follows(m, ss, es, k);
    OwedKept(m, ss[k], es[k], task);
  }

  lemma {:induction false} WakeOwedOrDone(m: Mode, ss: seq<State>, es: seq<Event>, i: nat, k: nat, task: nat)
    requires IsRun(m, ss, es) && PolledBy(es, task) && i < k < |ss|
    requires ChecksInVain(ss[i], es[i], task) && !ss[k].cancelled
    ensures (exists j :: i < j < k && Wakes(ss[j], es[j], task)) || WakeOwed(ss[k])
    decreases k
  {
    assert Follows(m, ss, es, k - 1);
    CancelledStays(m, ss[k - 1], es[k - 1]);
    if k > i + 1 {
      WakeOwedOrDone(m, ss, es, i, k - 1, task);
    }
    if WakeOwed(ss[k - 1]) {
      OwedRunStep(m, ss, es, k - 1, task);
    }
  }

  lemma CancelledStays(m: Mode, s: State, e: Event)
    requires Step(m, s, e).To?
    ensures s.cancelled ==> Step(m, s, e).s.cancelled
    ensures s.fired ==> Step(m, s, e).s.fired
  {
    match s.owner
    case Waiting =>
    case PollLoad(_) => case PollStore(_) => case PollArm => case PollAddRef => case PollSet =>
    case DropMark => case DropCancel => case DropRemove(_) => case DropRelease(_) =>
    case DropReleaseTimer => case DropFree(_) => case Over =>
  }

  /** A poll that looks at `fired` after the routine set it returns `Ready` at once. */
  lemma {:induction false} ReadyAfterFired(m: Mode, ss: seq<State>, es: seq<Event>, j: nat, k: nat)
    requires IsRun(m, ss, es) && j <= k < |es| && ss[j].fired
    requires es[k].Own? && ss[k].owner.PollLoad?
    ensures ss[k].fired && ss[k + 1] == ss[k].(owner := Waiting)
  {
    FiredStays(m, ss, es, j, k);
    assert Follows(m, ss, es, k);
  }

  lemma {:induction false} FiredStays(m: Mode, ss: seq<State>, es: seq<Event>, j: nat, k: nat)
    requires IsRun(m, ss, es) && j <= k < |ss| && ss[j].fired
    ensures ss[k].fired
    decreases k
  {
    if j < k {
      FiredStays(m, ss, es, j, k - 1);
      assert Follows(m, ss, es, k - 1);
      CancelledStays(m, ss[k - 1], es[k - 1]);
    }
  }

  // ----- Two tasks: the wake can be lost -----

  ghost predicate NeverWoken(ss: seq<State>, es: seq<Event>, task: nat)
    requires |ss| == |es| + 1
  {
    forall j :: 0 <= j < |es| ==> !Wakes(ss[j], es[j], task)
  }

  /** Only these tasks poll the timer. */
  ghost predicate PolledAmong(es: seq<Event>, tasks: set<nat>) {
    forall i :: 0 <= i < |es| && es[i].Poll? ==> es[i].task in tasks
  }

  /** A run to s, polled by a and b alone, that never wakes b. */
  ghost predicate RunTo(ss: seq<State>, es: seq<Event>, s: State, a: nat, b: nat) {
    IsRun(Hardened, ss, es) && PolledAmong(es, {a, b}) && NeverWoken(ss, es, b) && ss[|es|] == s
  }

  lemma Extend(ss: seq<State>, es: seq<Event>, e: Event, s': State, a: nat, b: nat)
    returns (ss': seq<State>, es': seq<Event>)
    requires |ss| == |es| + 1 && RunTo(ss, es, ss[|es|], a, b) && (e.Poll? ==> e.task in {a, b})
    requires Step(Hardened, ss[|es|], e) == To(s') && !Wakes(ss[|es|], e, b)
    ensures RunTo(ss', es', s', a, b) && ss' == ss + [s'] && es' == es + [e]
  {
    ss', es' := ss + [s'], es + [e];
    RunGrows(Hardened, ss, es, e, s');
    forall i | 0 <= i < |es'| ensures !Wakes(ss'[i], es'[i], b) {
      assert i < |es| ==> ss'[i] == ss[i] && es'[i] == es[i];
    }
  }

  /** The timer once task a has armed it. */
  function Armed(a: nat): State {
    FRESH.(refCount := 2, armed := true, waker := Some(a), kernel := InTimerQueue, timerAdds := 1)
  }

  lemma ArmedByFirst(a: nat, b: nat) returns (ss: seq<State>, es: seq<Event>)
    ensures RunTo(ss, es, Armed(a), a, b)
  {
    ss, es := [FRESH], [];
    var s := FRESH.(owner := PollLoad(a));
    ss, es := Extend(ss, es, Poll(a), s, a, b);
    s := s.(owner := PollStore(a));
    ss, es := Extend(ss, es, Own, s, a, b);
    s := s.(waker := Some(a), owner := PollArm);
    ss, es := Extend(ss, es, Own, s, a, b);
    s := s.(armed := true, owner := PollAddRef);
    ss, es := Extend(ss, es, Own, s, a, b);
    s := s.(refCount := 2, timerAdds := 1, owner := PollSet);
    ss, es := Extend(ss, es, Own, s, a, b);
    ss, es := Extend(ss, es, Own, Armed(a), a, b);
  }

  /** The single task is needed: a poll by any second task b looks before `fired` is set,
    * stores its waker after the routine has woken task a, and is never woken though it
    * returned `Pending`. */
  lemma SecondTaskNotWoken(a: nat, b: nat) returns (ss: seq<State>, es: seq<Event>, i: nat)
    requires a != b
    ensures IsRun(Hardened, ss, es) && PolledAmong(es, {a, b}) && i < |es| && ChecksInVain(ss[i], es[i], b)
    ensures NeverWoken(ss, es, b)
    ensures var s := ss[|es|]; s.owner.Waiting? && !s.cancelled && s.fired && s.routine.Finished? && s.waker == Some(b)
  {
    ss, es := ArmedByFirst(a, b);
    var s := Armed(a).(owner := PollLoad(b));
    ss, es := Extend(ss, es, Poll(b), s, a, b);
    i := |es|;
    s := s.(owner := PollStore(b));
    ss, es := Extend(ss, es, Own, s, a, b);
    s := s.(kernel := Expired);
    ss, es := Extend(ss, es, Expire, s, a, b);
    s := s.(kernel := Gone, routine := StoreFired);
    ss, es := Extend(ss, es, StartRoutine, s, a, b);
    s := s.(fired := true, routine := LoadCancelled);
    ss, es := Extend(ss, es, Tick, s, a, b);
    s := s.(routine := WakeTask);
    ss, es := Extend(ss, es, Tick, s, a, b);
    s := s.(routine := Release);
    ss, es := Extend(ss, es, Tick, s, a, b);
    s := s.(refCount := 1, timerReleases := 1, routine := Finished);
    ss, es := Extend(ss, es, Tick, s, a, b);
    s := s.(waker := Some(b), owner := PollArm);
    ss, es := Extend(ss, es, Own, s, a, b);
    ss, es := Extend(ss, es, Own, s.(owner := Waiting), a, b);
  }

  /** A poll of the run that returned `Pending`, and a later moment before any drop. */
  ghost predicate PendingSince(ss: seq<State>, es: seq<Event>, i: nat, k: nat, task: nat) {
    IsRun(Hardened, ss, es) && i < k < |ss| && ChecksInVain(ss[i], es[i], task) && !ss[k].cancelled
  }

  ghost predicate WokenOrOwed(ss: seq<State>, es: seq<Event>, i: nat, k: nat, task: nat) {
    |ss| == |es| + 1 && k < |ss| &&
    ((exists j :: i < j < k && Wakes(ss[j], es[j], task)) || WakeOwed(ss[k]))
  }

  /** Every `Pending` poll by these tasks gets its wake. */
  ghost predicate EveryPollWoken(tasks: set<nat>) {
    forall ss, es, i, k, task :: PendingSince(ss, es, i, k, task) && PolledAmong(es, tasks) ==>
      WokenOrOwed(ss, es, i, k, task)
  }

  /** Exactly the timers polled by no more than one task keep the promise of a wake. */
  lemma WakeNeedsOneTask(tasks: set<nat>)
    ensures EveryPollWoken(tasks) <==> forall a, b :: a in tasks && b in tasks ==> a == b
  {
    if forall a, b :: a in tasks && b in tasks ==> a == b {
      forall ss, es, i, k, task | PendingSince(ss, es, i, k, task) && PolledAmong(es, tasks)
        ensures WokenOrOwed(ss, es, i, k, task)
      {
        OneTaskWoken(ss, es, i, k, task, tasks);
      }
    } else {
      var a, b :| a in tasks && b in tasks && a != b;
      var ss, es, i := SecondTaskNotWoken(a, b);
      assert PendingSince(ss, es, i, |es|, b) && PolledAmong(es, tasks);
      assert !WokenOrOwed(ss, es, i, |es|, b);
    }
  }

  lemma OneTaskWoken(ss: seq<State>, es: seq<Event>, i: nat, k: nat, task: nat, tasks: set<nat>)
    requires PendingSince(ss, es, i, k, task) && PolledAmong(es, tasks)
    requires forall a, b :: a in tasks && b in tasks ==> a == b
    ensures WokenOrOwed(ss, es, i, k, task)
  {
    var one :| tasks == {} || one in tasks;
    assert PolledBy(es, one);
    RunKeepsOnlyTask(Hardened, ss, es, i, one);
    WakeOwedOrDone(Hardened, ss, es, i, k, one);
  }
}
