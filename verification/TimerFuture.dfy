/** `KernelTimerFuture` as the programs it is: `poll`, `Drop` and the timer's DPC routine on
  * one shared block, with the kernel and the other side acting between any two accesses.
  * Every execution is a run of the timer machine. */
module TimerFuture {
  import opened Basics
  import opened RefCount
  import opened KernelTimer

  /** The other side's events leave this side where it is. */
  lemma OwnerStands(m: Mode, s: State, e: Event)
    requires Step(m, s, e).To? && !e.Own? && !s.owner.Waiting?
    ensures Step(m, s, e).s.owner == s.owner && Step(m, s, e).s.waker == s.waker
  {
    match e
    case Poll(_) => case DropFuture => case Own => case Expire => case QueueDpc => case StartRoutine =>
    case Tick =>
      match s.routine { case StoreFired => case LoadCancelled => case WakeTask => case Release => case Free => }
  }

  lemma RoutineStands(m: Mode, s: State, e: Event)
    requires Inv(s) && Step(m, s, e).To? && !e.Tick? && !s.routine.NotRunning?
    ensures Step(m, s, e).s.routine == s.routine
  {
    match e
    case Poll(_) => case DropFuture => case Expire => case QueueDpc => case StartRoutine => case Tick =>
    case Own =>
      match s.owner {
        case PollLoad(_) => case PollStore(_) => case PollArm => case PollAddRef => case PollSet =>
        case DropMark => case DropCancel => case DropRemove(_) => case DropRelease(_) =>
        case DropReleaseTimer => case DropFree(_) =>
      }
  }

  class Timer {
    const mode: Mode
    var s: State                     // the block's cells, updated one at a time
    var script: seq<Option<Event>>   // what the rest does: `None` hands the turn back
    ghost var ss: seq<State>
    ghost var es: seq<Event>

    ghost predicate Valid()
      reads this
    {
      IsRun(mode, ss, es) && ss[|es|] == s
    }

    /** `KernelTimerFuture::new`. */
    constructor (mode: Mode, script: seq<Option<Event>>)
      ensures Valid() && s == FRESH && this.mode == mode
    {
      this.mode, this.script, s := mode, script, FRESH;
      ss, es := [FRESH], [];
    }

    /** A step that has changed the cells is entered in the history. */
    ghost method Record(e: Event)
      requires IsRun(mode, ss, es) && Step(mode, ss[|es|], e) == To(s)
      modifies this`ss, this`es
      ensures Valid() && ss == old(ss) + [s] && es == old(es) + [e]
    {
      RunGrows(mode, ss, es, e, s);
      ss, es := ss + [s], es + [e];
    }

    /** Others act until they hand the turn back; a side in the middle of a call stays there. */
    method Interfere(owner: bool)
      requires Valid() && (if owner then !s.owner.Waiting? else !s.routine.NotRunning?)
      modifies this
      ensures Valid() && (if owner then s.owner == old(s.owner) else s.routine == old(s.routine))
      ensures old(ss) <= ss && old(es) <= es && (old(s.cancelled) ==> s.cancelled)
      ensures owner ==> s.waker == old(s.waker)
    {
      while script != [] && script[0].Some?
        invariant Valid() && (if owner then s.owner == old(s.owner) else s.routine == old(s.routine))
        invariant old(ss) <= ss && old(es) <= es && (old(s.cancelled) ==> s.cancelled)
        invariant owner ==> s.waker == old(s.waker)
        decreases |script|
      {
        var e := script[0].value;
        script := script[1..];
        var next := Step(mode, s, e);
        if next.To? && !(if owner then e.Own? else e.Tick?) {
          CancelledStays(mode, s, e);
          if owner {
            OwnerStands(mode, s, e);
          } else {
            RunKeepsInv(mode, ss, es, |es|);
            RoutineStands(mode, s, e);
          }
          s := next.s;
          Record(e);
        }
      }
      if script != [] {
        script := script[1..];
      }
    }

    /** `poll`: the first look decides. It is `Ready` exactly when that look finds the timer fired;
      * otherwise the waker is put in place and the timer armed. */
    method Poll(task: nat) returns (ready: bool, ghost at: nat)
      requires Valid() && s.owner.Waiting?
      modifies this
      ensures Valid() && old(ss) <= ss && s.owner.Waiting?
      ensures |old(es)| <= at < |es| && es[at] == Own && ss[at].owner == PollLoad(task)
      ensures ready <==> ss[at].fired
      ensures !ready ==> s.armed && s.waker == Some(task) && ChecksInVain(ss[at], es[at], task)
    {
      s := s.(owner := PollLoad(task));
      Record(KernelTimer.Event.Poll(task));
      Interfere(true);
      at := |es|;
      if s.fired {
        s := s.(owner := Waiting);
        Record(Own);
        return true, at;
      }
      s := s.(owner := PollStore(task));
      Record(Own);
      StoreWakerAndArm(task);
      ready := false;
    }

    method StoreWakerAndArm(task: nat)
      requires Valid() && s.owner == PollStore(task)
      modifies this
      ensures Valid() && old(ss) <= ss && old(es) <= es
      ensures s.owner.Waiting? && s.armed && s.waker == Some(task)
    {
      Interfere(true);
      s := s.(waker := Some(task), owner := PollArm);
      Record(Own);
      Interfere(true);
      if s.armed {
        s := s.(owner := Waiting);
        Record(Own);
        return;
      }
      s := s.(armed := true, owner := PollAddRef);
      Record(Own);
      SetTimer();
    }

    /** The timer's reference, which no counter refuses, and `KeSetTimer`. */
    method SetTimer()
      requires Valid() && s.owner.PollAddRef?
      modifies this
      ensures Valid() && old(ss) <= ss && old(es) <= es
      ensures s.owner.Waiting? && s.armed && s.waker == old(s.waker)
    {
      Interfere(true);
      RunKeepsInv(mode, ss, es, |es|);
      var n := s.refCount + 1;
      s := s.(refCount := n, timerAdds := s.timerAdds + 1, owner := PollSet);
      Record(Own);
      Interfere(true);
      s := s.(kernel := InTimerQueue, owner := Waiting);
      Record(Own);
      RunKeepsInv(mode, ss, es, |es|);
    }

    /** `Drop`: it ends with the timer in no timer queue. It reports a recall exactly when
      * `KeCancelTimer` found the timer in the timer queue or `KeRemoveQueueDpc` its DPC in the DPC
      * queue; then both references are given back and the block is freed. */
    method Drop() returns (reclaimed: bool)
      requires Valid() && s.owner.Waiting?
      modifies this
      ensures Valid() && old(ss) <= ss
      ensures s.owner.Over? && !s.kernel.InTimerQueue?
      ensures reclaimed <==> Recalled(ss, es, |es|)
      ensures reclaimed ==> s.frees == 1
      ensures !reclaimed && s.frees == 0 ==> TimerRef(s) || s.routine.Free?
    {
      s := s.(owner := DropMark);
      Record(DropFuture);
      Interfere(true);
      s := s.(cancelled := true, owner := DropCancel);
      Record(Own);
      reclaimed := RecallTimer();
      ghost var at := |es|;
      OwnerRelease(reclaimed);
      RecallDecided(mode, ss, es, at, |es|);
      RunKeepsInv(mode, ss, es, |es|);
    }

    /** `KeCancelTimer`, then `KeRemoveQueueDpc`. */
    method RecallTimer() returns (reclaimed: bool)
      requires Valid() && s.owner.DropCancel?
      modifies this
      ensures Valid() && old(ss) <= ss && s.owner == DropRelease(reclaimed)
    {
      Interfere(true);
      var cancelled := s.kernel.InTimerQueue?;
      s := s.(kernel := if cancelled then Gone else s.kernel, owner := DropRemove(cancelled));
      Record(Own);
      Interfere(true);
      var removed := s.kernel.DpcQueued?;
      reclaimed := cancelled || removed;
      s := s.(kernel := if removed then Gone else s.kernel, owner := DropRelease(reclaimed));
      Record(Own);
    }

    /** The owner's `release`, and the second one for a timer that was recalled: the first
      * never reaches zero then. */
    method OwnerRelease(reclaimed: bool)
      requires Valid() && s.owner == DropRelease(reclaimed)
      modifies this
      ensures Valid() && old(ss) <= ss && s.owner.Over?
      ensures reclaimed ==> s.frees == 1
    {
      Interfere(true);
      LedgerHolds(mode, ss, es, |es|);
      var n := s.refCount - 1;
      s := s.(refCount := n,
              owner := if n == 0 then DropFree(reclaimed) else if reclaimed then DropReleaseTimer else Over);
      Record(Own);
      if n == 0 {
        FreeBlock();
      }
      if reclaimed {
        SecondRelease();
      }
    }

    method SecondRelease()
      requires Valid() && s.owner.DropReleaseTimer?
      modifies this
      ensures Valid() && old(ss) <= ss && s.owner.Over? && s.frees == 1
    {
      Interfere(true);
      RunKeepsInv(mode, ss, es, |es|);
      var n := s.refCount - 1;
      s := s.(refCount := n, timerReleases := s.timerReleases + 1, owner := if n == 0 then DropFree(false) else Over);
      Record(Own);
      if n == 0 {
        FreeBlock();
      }
      RunKeepsInv(mode, ss, es, |es|);
    }

    method FreeBlock()
      requires Valid() && s.owner.DropFree?
      modifies this
      ensures Valid() && old(ss) <= ss && s.owner.Over? && s.frees == 1
    {
      Interfere(true);
      RunKeepsInv(mode, ss, es, |es|);
      s := s.(frees := s.frees + 1, owner := if s.owner.reclaimed then DropReleaseTimer else Over);
      Record(Own);
    }

    /** `timer_dpc_routine`: fire, look whether the future is being dropped, wake the task whose
      * waker is stored exactly when it is not, release. */
    method TimerDpcRoutine() returns (woken: Option<nat>, ghost look: nat, ghost wake: nat)
      requires Valid() && s.routine.StoreFired?
      modifies this
      ensures Valid() && old(ss) <= ss
      ensures s.routine.Finished? && s.fired
      ensures |old(es)| <= look < |es| && es[look] == Tick && ss[look].routine.LoadCancelled?
      ensures woken.None? <==> ss[look].cancelled
      ensures woken.Some? ==> look < wake < |es| && Wakes(ss[wake], es[wake], woken.value)
    {
      Interfere(false);
      s := s.(fired := true, routine := LoadCancelled);
      Record(Tick);
      Interfere(false);
      woken, look, wake := None, |es|, 0;
      if s.cancelled {
        s := s.(routine := Release);
        Record(Tick);
      } else {
        s := s.(routine := WakeTask);
        Record(Tick);
        woken := WakeStored();
        wake := |es| - 1;
      }
      RoutineRelease();
    }

    /** Under the waker's lock: the stored waker, which an armed timer always has, is woken. */
    method WakeStored() returns (woken: Option<nat>)
      requires Valid() && s.routine.WakeTask?
      modifies this
      ensures Valid() && old(ss) <= ss && old(es) <= es && |es| > |old(es)| && s.routine.Release?
      ensures woken.Some? && Wakes(ss[|es| - 1], es[|es| - 1], woken.value)
    {
      Interfere(false);
      RunKeepsInv(mode, ss, es, |es|);
      woken := s.waker;
      s := s.(routine := Release);
      Record(Tick);
    }

    method RoutineRelease()
      requires Valid() && s.routine.Release?
      modifies this
      ensures Valid() && old(ss) <= ss && old(es) <= es
      ensures s.routine.Finished? && s.fired && (old(s.cancelled) ==> s.cancelled)
    {
      Interfere(false);
      RunKeepsInv(mode, ss, es, |es|);
      var n := s.refCount - 1;
      s := s.(refCount := n, timerReleases := s.timerReleases + 1, routine := if n == 0 then Free else Finished);
      Record(Tick);
      if n == 0 {
        Interfere(false);
        s := s.(frees := s.frees + 1, routine := Finished);
        Record(Tick);
      }
      RunKeepsInv(mode, ss, es, |es|);
    }
  }
}
