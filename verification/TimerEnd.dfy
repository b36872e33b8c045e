/** Whom the kernel timer of `executor.rs` wakes when several tasks poll it, and that every timer
  * can be brought to its end. */
module TimerEnd {
  import opened Basics
  import opened RefCount
  import opened KernelTimer

  // ----- The stored waker -----

  /** A poll puts its waker into the block. */
  predicate Stores(s: State, e: Event) {
    e.Own? && s.owner.PollStore?
  }

  lemma OwnerStores(m: Mode, s: State, s': State)
    requires OwnerStep(m, s) == To(s')
    ensures s'.waker == if s.owner.PollStore? then Some(s.owner.task) else s.waker
  {
    match s.owner
    case PollLoad(_) => case PollStore(_) => case PollArm => case PollAddRef => case PollSet =>
    case DropMark => case DropCancel => case DropRemove(_) => case DropRelease(_) =>
    case DropReleaseTimer => case DropFree(_) =>
  }

  lemma StoreStep(m: Mode, s: State, e: Event, s': State)
    requires Step(m, s, e) == To(s')
    ensures s'.waker == if Stores(s, e) then Some(s.owner.task) else s.waker
  {
    match e
    case Own => OwnerStores(m, s, s');
    case Tick =>
      match s.routine { case StoreFired => case LoadCancelled => case WakeTask => case Release => case Free => }
    case Poll(_) => case DropFuture => case Expire => case QueueDpc => case StartRoutine =>
  }

  /** Step `i` stored the waker of `task`, and no poll has stored one since. */
  ghost predicate StoredLast(ss: seq<State>, es: seq<Event>, i: nat, k: nat, task: nat)
    requires |ss| == |es| + 1 && i < k <= |es|
  {
    Stores(ss[i], es[i]) && ss[i].owner.task == task && forall j :: i < j < k ==> !Stores(ss[j], es[j])
  }

  lemma {:induction false} WakerIsLast(m: Mode, ss: seq<State>, es: seq<Event>, k: nat, task: nat)
    requires IsRun(m, ss, es) && k < |ss|
    ensures ss[k].waker == Some(task) <==> exists i :: 0 <= i < k && StoredLast(ss, es, i, k, task)
  {
    if k > 0 {
      var p := k - 1;
      WakerIsLast(m, ss, es, p, task);
      assert Follows(m, ss, es, p);
      StoreStep(m, ss[p], es[p], ss[p + 1]);
      if ss[k].waker == Some(task) {
        if Stores(ss[p], es[p]) {
          assert StoredLast(ss, es, p, k, task);
        } else {
          var i :| 0 <= i < p && StoredLast(ss, es, i, p, task);
          assert StoredLast(ss, es, i, k, task);
        }
      }
      forall i | 0 <= i < k && StoredLast(ss, es, i, k, task) ensures ss[k].waker == Some(task) {
        assert i < p ==> StoredLast(ss, es, i, p, task) && !Stores(ss[p], es[p]);
      }
    }
  }

  /** The routine's wake goes to some task, and to exactly the one whose poll was the last to store
    * its waker. */
  lemma LastPollerIsWoken(m: Mode, ss: seq<State>, es: seq<Event>, k: nat, task: nat)
    requires IsRun(m, ss, es) && k < |es| && es[k].Tick? && ss[k].routine.WakeTask?
    ensures ss[k].waker.Some?
    ensures Wakes(ss[k], es[k], task) <==> exists i :: 0 <= i < k && StoredLast(ss, es, i, k, task)
  {
    RunKeepsInv(m, ss, es, k);
    WakerIsLast(m, ss, es, k, task);
  }

  // ----- How much is left -----

  function OwnerRest(o: Owner): nat {
    match o
    case PollLoad(_) => 18 case PollStore(_) => 17 case PollArm => 16 case PollAddRef => 15
    case PollSet => 14 case Waiting => 7
    case DropMark => 6 case DropCancel => 5 case DropRemove(_) => 4 case DropRelease(_) => 3
    case DropReleaseTimer => 2 case DropFree(_) => 1 case Over => 0
  }

  function KernelRest(k: Kernel): nat {
    match k
    case Unset => 0 case InTimerQueue => 6 case Expired => 6 case DpcQueued => 6 case Gone => 0
  }

  function RoutineRest(r: Routine): nat {
    match r
    case NotRunning => 0 case StoreFired => 5 case LoadCancelled => 4 case WakeTask => 3
    case Release => 2 case Free => 1 case Finished => 0
  }

  /** At least the steps until the block is freed, once nobody polls any more. */
  function Remains(s: State): nat {
    OwnerRest(s.owner) + KernelRest(s.kernel) + RoutineRest(s.routine)
  }

  ghost predicate Next(m: Mode, s: State, s': State) {
    exists e :: Step(m, s, e) == To(s')
  }

  lemma OwnerGoesOn(m: Mode, s: State)
    requires Inv(s) && !s.owner.Waiting? && !s.owner.Over?
    ensures OwnerStep(m, s).To? && Remains(OwnerStep(m, s).s) < Remains(s)
  {
    match s.owner
    case PollLoad(_) => case PollStore(_) => case PollArm => case PollAddRef => case PollSet =>
    case DropMark => case DropCancel => case DropRemove(_) => case DropRelease(_) =>
    case DropReleaseTimer => case DropFree(_) =>
  }

  lemma RoutineGoesOn(m: Mode, s: State)
    requires Inv(s) && !s.routine.NotRunning? && !s.routine.Finished?
    ensures RoutineStep(m, s).To? && Remains(RoutineStep(m, s).s) < Remains(s)
  {
    match s.routine
    case StoreFired => case LoadCancelled => case WakeTask => case Release => case Free =>
  }

  /** Who makes the next step: the owner, who drops the future between two polls, then the routine,
    * then the kernel. */
  function NextEvent(s: State): Event {
    if s.owner.Waiting? then DropFuture
    else if !s.owner.Over? then Own
    else if !s.routine.NotRunning? && !s.routine.Finished? then Tick
    else StartRoutine
  }

  lemma SomebodyGoesOn(m: Mode, s: State) returns (s': State)
    requires Inv(s) && s.frees == 0
    ensures Next(m, s, s') && Inv(s') && Remains(s') < Remains(s)
  {
    var e := NextEvent(s);
    if e.Own? {
      OwnerGoesOn(m, s);
    } else if e.Tick? {
      RoutineGoesOn(m, s);
    }
    InvKept(m, s, e);
    s' := Step(m, s, e).s;
  }

  /** Some continuation of at most n steps frees the block. */
  ghost predicate CanFree(m: Mode, s: State, n: nat)
    decreases n
  {
    s.frees == 1 || (n > 0 && exists s' :: Next(m, s, s') && CanFree(m, s', n - 1))
  }

  lemma NextCanFree(m: Mode, s: State, s': State, n: nat)
    requires Next(m, s, s') && CanFree(m, s', n)
    ensures CanFree(m, s, n + 1)
  {
  }

  lemma {:induction false} RemainsCanFree(m: Mode, s: State, n: nat)
    requires Inv(s) && Remains(s) <= n
    ensures CanFree(m, s, n)
    decreases n
  {
    if s.frees == 0 {
      var s' := SomebodyGoesOn(m, s);
      RemainsCanFree(m, s', n - 1);
      NextCanFree(m, s, s', n - 1);
    }
  }

  /** No run leaves the timer where its block cannot be freed, with either counter: from each of its
    * states some continuation of at most 24 steps frees it. */
  lemma EveryTimerCanEnd(m: Mode, ss: seq<State>, es: seq<Event>, k: nat)
    requires IsRun(m, ss, es) && k < |ss|
    ensures CanFree(m, ss[k], 24)
  {
    RunKeepsInv(m, ss, es, k);
    RemainsCanFree(m, ss[k], 24);
  }

  // ----- Both recalls happen -----

  /** The dropped timer of task a at `KeCancelTimer`, wherever the kernel has it. */
  function Marked(a: nat, k: Kernel): State {
    Armed(a).(cancelled := true, kernel := k, owner := DropCancel)
  }

  lemma DropOfArmed(a: nat, b: nat, queued: bool) returns (ss: seq<State>, es: seq<Event>)
    ensures RunTo(ss, es, Marked(a, if queued then DpcQueued else InTimerQueue), a, b)
  {
    ss, es := ArmedByFirst(a, b);
    var s := Armed(a);
    if queued {
      s := s.(kernel := Expired);
      ss, es := Extend(ss, es, Expire, s, a, b);
      s := s.(kernel := DpcQueued);
      ss, es := Extend(ss, es, QueueDpc, s, a, b);
    }
    s := s.(owner := DropMark);
    ss, es := Extend(ss, es, DropFuture, s, a, b);
    s := s.(cancelled := true, owner := DropCancel);
    ss, es := Extend(ss, es, Own, s, a, b);
  }

  /** Each of the two kernel queues can be the one that hands the timer back, and then the block is
    * freed by `Drop` without the routine ever running. */
  lemma EitherQueueRecalls(a: nat, queued: bool) returns (ss: seq<State>, es: seq<Event>, q: nat)
    ensures IsRun(Hardened, ss, es) && q < |es| && Recalls(ss[q], es[q])
    ensures if queued then ss[q].kernel.DpcQueued? else ss[q].kernel.InTimerQueue?
    ensures ss[|es|].frees == 1 && ss[|es|].owner.Over? && !ss[|es|].fired
  {
    var b := a + 1;
    ss, es := DropOfArmed(a, b, queued);
    var s := ss[|es|];
    q := if queued then |es| + 1 else |es|;
    s := s.(kernel := if queued then DpcQueued else Gone, owner := DropRemove(!queued));
    ss, es := Extend(ss, es, Own, s, a, b);
    s := s.(kernel := Gone, owner := DropRelease(true));
    ss, es := Extend(ss, es, Own, s, a, b);
    s := s.(refCount := 1, owner := DropReleaseTimer);
    ss, es := Extend(ss, es, Own, s, a, b);
    s := s.(refCount := 0, timerReleases := 1, owner := DropFree(false));
    ss, es := Extend(ss, es, Own, s, a, b);
    s := s.(frees := 1, owner := Over);
    ss, es := Extend(ss, es, Own, s, a, b);
  }
}
