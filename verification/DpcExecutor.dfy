/** The functions of the DPC executor as the programs they are: `schedule`, `queue_dpc`,
  * `release`, `cancel`, `dpc_routine`, the waker functions and the spawn, working on the
  * cells of one task while everybody else may act between any two atomic accesses. Every
  * execution is a run of the step machine, so what holds of its runs holds here. */
module DpcExecutor {
  import opened Basics
  import opened RefCount
  import opened DpcTask
  import opened DpcTaskProofs

  /** Where a thread goes once it has taken its reference. */
  function Added(th: Thread): Thread
    requires Adds(th)
  {
    match th
    case MakingHandle => Scheduling(SLoad, Spawner)
    case Scheduling(_, k) => Scheduling(SInsert, k)
    case Routine(d, r) => Routine(if d.DWaker? then DSetSlot else DInsert, r)
  }

  /** The locals of an activation once it has read its budget. */
  function Budgeted(run: Run, budget: Budget): Run {
    run.(budget := budget, left := if budget.Polls? then budget.n else 0)
  }

  lemma AddStep(m: Mode, h: Header, th: Thread)
    requires Adds(th) && h.refCount < 0xFFFF_FFFF && !(m.Hardened? && h.refCount >= MAX_REFCOUNT)
    ensures LocalStep(m, h, th, PENDING) ==
              Goes(h.(refCount := h.refCount + 1, handles := h.handles + Bit(th.MakingHandle?)), Added(th))
  {
    match th
    case MakingHandle => case Scheduling(_, _) => case Routine(_, _) =>
  }

  lemma SubStep(m: Mode, h: Header, after: After)
    requires h.refCount > 0
    ensures LocalStep(m, h, Releasing(RSub, after), PENDING) ==
              Goes(h.(refCount := h.refCount - 1), if h.refCount == 1 then Releasing(RLoad, after) else Resume(after))
  {
  }

  /** The only borrow that the end of a poll can break is one of the waker it lent. */
  lemma BorrowEnds(s: State, t: nat, h': Header, th: Thread)
    requires BorrowsHold(s) && t < |s.threads| && InPoll(s.threads[t]) && th.Routine?
    requires h'.wakers == s.h.wakers && h'.handles == s.h.handles && !BorrowsHold(State(h', s.threads[t := th]))
    ensures s.h.wakers == 0 && exists i :: 0 <= i < |s.threads| && i != t && UsesWaker(s.threads[i])
  {
    var s' := State(h', s.threads[t := th]);
    forall i | 0 <= i < |s'.threads| && UsesHandle(s'.threads[i]) ensures s'.h.handles > 0 {
      assert UsesHandle(s.threads[i]);
    }
    var i :| 0 <= i < |s'.threads| && UsesWaker(s'.threads[i]) && !LiveWaker(s');
    assert UsesWaker(s.threads[i]);
  }

  lemma TakeKeepsHolders(s': State, s: State)
    requires s' == s.(h := s.h.(cancelRequested := 2))
    ensures Holders(s') == Holders(s)
  {
  }

  lemma FirstRun(m: Mode, wantsHandle: bool)
    ensures IsRun(m, [Init(wantsHandle)], [])
  {
  }

  class Task {
    const mode: Mode

    var h: Header             // the cells, updated one at a time
    var threads: seq<Thread>

    // What everybody else is going to do: `None` hands the turn back to the thread.
    var script: seq<Option<Event>>

    ghost var ss: seq<State>
    ghost var es: seq<Event>

    function View(): State
      reads this
    {
      State(h, threads)
    }

    /** What has happened so far is a run of the step machine, and this is where it stands. */
    ghost predicate Valid()
      reads this
    {
      IsRun(mode, ss, es) && ss[|es|] == View()
    }

    constructor (mode: Mode, wantsHandle: bool, script: seq<Option<Event>>)
      ensures Valid() && this.mode == mode && threads == [Spawning(wantsHandle)] && es == []
    {
      this.mode, this.script := mode, script;
      h, threads := Init(wantsHandle).h, Init(wantsHandle).threads;
      ss, es := [Init(wantsHandle)], [];
      new;
      FirstRun(mode, wantsHandle);
    }

    /** A step that has changed the cells is entered in the history. */
    ghost method Record(e: Event)
      requires IsRun(mode, ss, es)
      requires Step(mode, ss[|es|], e) == Some(View()) && Countable(mode, View())
      modifies this`ss, this`es
      ensures Valid()
      ensures old(ss) <= ss && es == old(es) + [e]
    {
      RunGrows(mode, ss, es, e, View());
      ss, es := ss + [View()], es + [e];
    }

    /** The thread goes on after an atomic access, which has left its result in the cells. */
    method Moved(t: nat, th: Thread, ghost before: State, ghost c: Choice)
      requires IsRun(mode, ss, es) && ss[|es|] == before
      requires t < |threads| && threads == before.threads
      requires LocalStep(mode, before.h, threads[t], c) == Goes(h, th)
      requires Adds(threads[t]) ==> before.h.refCount < 0xFFFF_FFFF
      requires InPoll(threads[t]) ==> BorrowsHold(State(h, threads[t := th]))
      modifies this`threads, this`ss, this`es
      ensures Valid() && threads == old(threads)[t := th]
      ensures old(ss) <= ss
    {
      RunKeepsInv(mode, ss, es, |es|);
      CountableKept(mode, before, t, c, h, th);
      threads := threads[t := th];
      Record(Advance(t, c));
    }

    /** A step of the rest of the machine. */
    method Perform(e: Event) returns (ok: bool)
      requires Valid()
      modifies this
      ensures Valid() && script == old(script)
      ensures old(ss) <= ss
      ensures ok ==> Step(mode, old(View()), e) == Some(View())
      ensures !ok ==> View() == old(View())
    {
      var next := Step(mode, View(), e);
      if next.None? || !Countable(mode, next.value) {
        return false;
      }
      h, threads := next.value.h, next.value.threads;
      Record(e);
      ok := true;
    }

    /** Others act, until they hand the turn back: any cell may change, the thread stays. */
    method Interfere(t: nat)
      requires Valid() && t < |threads|
      modifies this
      ensures Valid() && t < |threads| && threads[t] == old(threads[t])
      ensures old(ss) <= ss
    {
      while script != [] && script[0].Some?
        invariant Valid() && t < |threads| && threads[t] == old(threads[t])
        invariant old(ss) <= ss
        decreases |script|
      {
        var e := script[0].value;
        script := script[1..];
        if !(e.Advance? && e.t == t) {
          ghost var s := View();
          var ok := Perform(e);
          if ok {
            StepShape(mode, s, e);
          }
        }
      }
      if script != [] {
        script := script[1..];
      }
    }

    /** The counter has no room for another reference: here the execution ends, with the hardened
      * counter because it stops the machine, with the plain one because clients never come so far. */
    ghost predicate AtLimit()
      reads this
    {
      h.refCount == 0xFFFF_FFFF || (mode.Hardened? && h.refCount >= MAX_REFCOUNT)
    }

    /** A call through a borrow of the waker that thread t lends outlasts its poll, which Rust does
      * not allow: here too the execution ends. */
    ghost predicate BorrowOutlasts(t: nat)
      reads this
    {
      && t < |threads| && InPoll(threads[t]) && h.wakers == 0
      && exists i :: 0 <= i < |threads| && i != t && UsesWaker(threads[i])
    }

    // ---- the functions of the source ----

    /** `TaskHeader::add_ref`; false where a counter at its limit ends the execution. */
    method AddRef(t: nat) returns (ok: bool)
      requires Valid() && t < |threads| && Adds(threads[t])
      modifies this
      ensures Valid() && t < |threads| && old(ss) <= ss
      ensures ok ==> threads[t] == Added(old(threads[t]))
      ensures !ok ==> AtLimit()
    {
      Interfere(t);
      ghost var before := View();
      if h.refCount == 0xFFFF_FFFF || (mode.Hardened? && h.refCount >= MAX_REFCOUNT) {
        return false;
      }
      AddStep(mode, h, threads[t]);
      h := h.(refCount := h.refCount + 1, handles := h.handles + Bit(threads[t].MakingHandle?));
      Moved(t, Added(threads[t]), before, PENDING);
      ok := true;
    }

    /** `TaskHeader::release`: the last reference drops what is left of the future, frees the
      * block and reports to the tracker. */
    method Release(t: nat, after: After)
      requires Valid() && t < |threads| && threads[t] == Releasing(RSub, after)
      modifies this
      ensures Valid() && t < |threads| && old(ss) <= ss
      ensures threads[t] == Resume(after)
    {
      Interfere(t);
      ghost var before := View();
      HasReference(mode, ss, es, t);
      SubStep(mode, h, after);
      h := h.(refCount := h.refCount - 1);
      if h.refCount != 0 {
        Moved(t, Resume(after), before, PENDING);
        return;
      }
      Moved(t, Releasing(RLoad, after), before, PENDING);
      Destroy(t, after);
    }

    method Destroy(t: nat, after: After)
      requires Valid() && t < |threads| && threads[t] == Releasing(RLoad, after)
      modifies this
      ensures Valid() && t < |threads| && old(ss) <= ss
      ensures threads[t] == Resume(after)
    {
      Interfere(t);
      ghost var before := View();
      if !h.completed {
        Moved(t, Releasing(RStore, after), before, PENDING);
        DropFuture(t, after);
      } else {
        Moved(t, Releasing(RDealloc, after), before, PENDING);
      }
      Free(t, after);
    }

    method Free(t: nat, after: After)
      requires Valid() && t < |threads| && threads[t] == Releasing(RDealloc, after)
      modifies this
      ensures Valid() && t < |threads| && old(ss) <= ss
      ensures threads[t] == Resume(after)
    {
      Interfere(t);
      ghost var before := View();
      h := h.(freed := true, frees := h.frees + 1);
      Moved(t, Releasing(RTracker, after), before, PENDING);
      Interfere(t);
      before := View();
      h := h.(reported := true);
      Moved(t, Resume(after), before, PENDING);
    }

    method DropFuture(t: nat, after: After)
      requires Valid() && t < |threads| && threads[t] == Releasing(RStore, after)
      modifies this
      ensures Valid() && t < |threads| && old(ss) <= ss
      ensures threads[t] == Releasing(RDealloc, after)
    {
      Interfere(t);
      ghost var before := View();
      h := h.(completed := true);
      Moved(t, Releasing(RDrop, after), before, PENDING);
      Interfere(t);
      before := View();
      h := h.(drops := h.drops + 1);
      Moved(t, Releasing(RDealloc, after), before, PENDING);
    }

    /** `KeInsertQueueDpc`, and the release of the extra reference when it refuses. */
    method InsertDpc(t: nat, after: After)
      requires Valid() && t < |threads|
      requires match after
               case ScheduleReturns(k) => threads[t] == Scheduling(SInsert, k)
               case QueueReturns(r) => threads[t] == Routine(DInsert, r)
               case _ => false
      modifies this
      ensures Valid() && t < |threads| && old(ss) <= ss
      ensures threads[t] == Resume(after)
    {
      Interfere(t);
      ghost var before := View();
      if h.queued {
        Moved(t, Releasing(RSub, after), before, PENDING);
        Release(t, after);
      } else {
        h := h.(queued := true);
        Moved(t, Resume(after), before, PENDING);
      }
    }

    /** `TaskHeader::schedule`. */
    method Schedule(t: nat, caller: Caller) returns (ok: bool)
      requires Valid() && t < |threads| && threads[t] == Scheduling(SLoad, caller)
      modifies this
      ensures Valid() && t < |threads| && old(ss) <= ss
      ensures ok ==> threads[t] == AfterSchedule(caller)
      ensures !ok ==> AtLimit()
    {
      Interfere(t);
      ghost var before := View();
      if h.completed {
        Moved(t, AfterSchedule(caller), before, PENDING);
        return true;
      }
      Moved(t, Scheduling(SCas, caller), before, PENDING);
      ok := Claim(t, caller);
    }

    /** The exchange of `scheduled`, and what its winner does. */
    method Claim(t: nat, caller: Caller) returns (ok: bool)
      requires Valid() && t < |threads| && threads[t] == Scheduling(SCas, caller)
      modifies this
      ensures Valid() && t < |threads| && old(ss) <= ss
      ensures ok ==> threads[t] == AfterSchedule(caller)
      ensures !ok ==> AtLimit()
    {
      Interfere(t);
      ghost var before := View();
      if h.scheduled {
        Moved(t, AfterSchedule(caller), before, PENDING);
        return true;
      }
      h := h.(scheduled := true);
      Moved(t, Scheduling(SAddRef, caller), before, PENDING);
      ok := AddRef(t);
      if ok {
        InsertDpc(t, ScheduleReturns(caller));
      }
    }

    /** `TaskHeader::cancel`. */
    method Cancel(t: nat) returns (ok: bool)
      requires Valid() && t < |threads| && threads[t] == Cancelling
      modifies this
      ensures Valid() && t < |threads| && old(ss) <= ss
      ensures ok ==> threads[t] == Idle
      ensures !ok ==> AtLimit()
    {
      Interfere(t);
      ghost var before := View();
      if h.cancelRequested != 0 {
        Moved(t, Idle, before, PENDING);
        return true;
      }
      h := h.(cancelRequested := 1);
      Moved(t, Scheduling(SLoad, Canceller), before, PENDING);
      ok := Schedule(t, Canceller);
    }

    /** `take_cancellation_request`, called by the future while thread t polls it: the one
      * exchange of 1 for 2 that can succeed, on a processor that has a slot. */
    method TakeCancellationRequest(t: nat) returns (taken: bool)
      requires Valid() && t < |threads| && InPoll(threads[t])
      modifies this
      ensures Valid() && t < |threads| && old(ss) <= ss && threads[t] == old(threads[t])
      ensures taken ==> h.cancelRequested == 2 && |es| > 0 && es[|es| - 1] == TakeRequest(t)
      ensures taken ==> ss[|es| - 1].h.cancelRequested == 1 && threads[t].run.cpu.Some?
      ensures !taken ==> threads[t].run.cpu.None? || h.cancelRequested != 1
    {
      Interfere(t);
      if threads[t].run.cpu.None? || h.cancelRequested != 1 {
        return false;
      }
      h := h.(cancelRequested := 2);
      TakeKeepsHolders(View(), ss[|es|]);
      RunKeepsInv(mode, ss, es, |es|);
      Record(TakeRequest(t));
      taken := true;
    }

    /** `wake_raw`: schedule, then release the reference of the waker. */
    method WakeRaw(t: nat) returns (ok: bool)
      requires Valid() && t < |threads| && threads[t] == Scheduling(SLoad, Waker)
      modifies this
      ensures Valid() && t < |threads| && old(ss) <= ss
      ensures ok ==> threads[t] == Idle
      ensures !ok ==> AtLimit()
    {
      ok := Schedule(t, Waker);
      if ok {
        Release(t, Return);
      }
    }

    /** `spawn_dpc_task*` after the allocation: tracker, handle, first schedule, release. */
    method Spawn(t: nat) returns (ok: bool)
      requires Valid() && t < |threads| && threads[t].Spawning?
      modifies this
      ensures Valid() && t < |threads| && old(ss) <= ss
      ensures ok ==> threads[t] == Idle
      ensures !ok ==> AtLimit()
    {
      Interfere(t);
      ghost var before := View();
      var wantsHandle := threads[t].wantsHandle;
      h := h.(begun := true);
      Moved(t, if wantsHandle then MakingHandle else Scheduling(SLoad, Spawner), before, PENDING);
      ok := true;
      if wantsHandle {
        ok := AddRef(t);
      }
      if ok {
        ok := Schedule(t, Spawner);
      }
      if ok {
        Release(t, Return);
      }
    }

    /** The head of `dpc_routine`, up to the first poll. */
    method EnterRoutine(t: nat, budget: Budget) returns (ok: bool)
      requires Valid() && t < |threads| && threads[t].Routine? && threads[t].d.DClear?
      modifies this
      ensures Valid() && t < |threads| && old(ss) <= ss
      ensures ok ==> threads[t] == Idle ||
                     threads[t] == Routine(DPoll, Budgeted(old(threads[t].run), budget))
      ensures !ok ==> AtLimit()
    {
      Interfere(t);
      ghost var before := View();
      var run := threads[t].run;
      h := h.(scheduled := false);
      Moved(t, Routine(DLoad, run), before, PENDING);
      Interfere(t);
      before := View();
      if h.completed {
        Moved(t, Releasing(RSub, Return), before, PENDING);
        Release(t, Return);
        return true;
      }
      Moved(t, Routine(DWaker, run), before, PENDING);
      ok := PreparePolls(t, budget);
    }

    /** The waker, the current task of this processor, and the budget. */
    method PreparePolls(t: nat, budget: Budget) returns (ok: bool)
      requires Valid() && t < |threads| && threads[t].Routine? && threads[t].d.DWaker?
      modifies this
      ensures Valid() && t < |threads| && old(ss) <= ss
      ensures ok ==> threads[t] == Routine(DPoll, Budgeted(old(threads[t].run), budget))
      ensures !ok ==> AtLimit()
    {
      var run := threads[t].run;
      ok := AddRef(t);
      if !ok {
        return;
      }
      Interfere(t);
      Moved(t, Routine(DBudget, run), View(), PENDING);
      Interfere(t);
      ghost var c := Choice(budget, false, false);
      Moved(t, Routine(DPoll, run.(budget := budget, left := if budget.Polls? then budget.n else 0)), View(), c);
    }

    /** One poll of the future, which may do anything meanwhile; false when it would return
      * while calls through a borrow of its waker are still going on. */
    method Poll(t: nat, answer: bool) returns (ok: bool)
      requires Valid() && t < |threads| && threads[t].Routine? && threads[t].d.DPoll?
      modifies this
      ensures Valid() && t < |threads| && old(ss) <= ss
      ensures ok ==> var run := old(threads[t].run);
                     threads[t] == Routine(if answer then DStore else DWoken, run.(polled := run.polled + 1))
      ensures !ok ==> BorrowOutlasts(t)
    {
      Interfere(t);
      ghost var before := View();
      var run := threads[t].run;
      run := run.(polled := run.polled + 1);
      h := h.(polls := h.polls + 1);
      Moved(t, Routine(DPolling, run), before, PENDING);
      Interfere(t);
      before := View();
      var th := Routine(if answer then DStore else DWoken, run);
      var h' := if answer then h.(ready := true) else h;
      if !BorrowsHold(State(h', threads[t := th])) {
        RunKeepsInv(mode, ss, es, |es|);
        BorrowEnds(View(), t, h', th);
        return false;
      }
      h := h';
      Moved(t, th, before, Choice(TimeUs, answer, false));
      ok := true;
    }

    /** After `Pending`: stop when nobody woke the task, or when the budget is spent, and then
      * queue the KDPC again; otherwise go round. */
    method AfterPending(t: nat, exhausted: bool) returns (ok: bool)
      requires Valid() && t < |threads| && threads[t].Routine? && threads[t].d.DWoken?
      modifies this
      ensures Valid() && t < |threads| && old(ss) <= ss
      ensures ok ==> threads[t].Routine? && (threads[t].d.DPoll? || threads[t].d.DClearSlot?)
      ensures ok && threads[t].d.DPoll? && old(threads[t].run.budget.Polls?) ==>
                var run := old(threads[t].run);
                run.left > 0 && threads[t].run == run.(left := run.left - 1)
      ensures !ok ==> AtLimit()
    {
      Interfere(t);
      var run := threads[t].run;
      if !h.scheduled {
        Moved(t, Routine(DClearSlot, run), View(), PENDING);
        return true;
      }
      Moved(t, Routine(DSpend, run), View(), PENDING);
      ok := SpendBudget(t, exhausted);
    }

    /** `TaskHeader::queue_dpc`. */
    method QueueDpc(t: nat, run: Run) returns (ok: bool)
      requires Valid() && t < |threads| && threads[t] == Routine(DAddRef, run)
      modifies this
      ensures Valid() && t < |threads| && old(ss) <= ss
      ensures ok ==> threads[t] == Routine(DClearSlot, run)
      ensures !ok ==> AtLimit()
    {
      ok := AddRef(t);
      if ok {
        InsertDpc(t, QueueReturns(run));
      }
    }

    method SpendBudget(t: nat, exhausted: bool) returns (ok: bool)
      requires Valid() && t < |threads| && threads[t].Routine? && threads[t].d.DSpend?
      modifies this
      ensures Valid() && t < |threads| && old(ss) <= ss
      ensures ok ==> threads[t].Routine? && (threads[t].d.DPoll? || threads[t].d.DClearSlot?)
      ensures ok && threads[t].d.DPoll? && old(threads[t].run.budget.Polls?) ==>
                var run := old(threads[t].run);
                run.left > 0 && threads[t].run == run.(left := run.left - 1)
      ensures !ok ==> AtLimit()
      ensures ok ==> var run := old(threads[t].run);
                     threads[t].d.DPoll? <==> if run.budget.Polls? then run.left > 0 else !exhausted
    {
      Interfere(t);
      var run := threads[t].run;
      ghost var c := Choice(TimeUs, false, exhausted);
      if (run.budget.Polls? && run.left == 0) || (run.budget.TimeUs? && exhausted) {
        Moved(t, Routine(DAddRef, run), View(), c);
        ok := QueueDpc(t, run);
        return;
      }
      if run.budget.Polls? {
        run := run.(left := run.left - 1);
      }
      Moved(t, Routine(DReset, run), View(), c);
      GoRound(t, run);
      ok := true;
    }

    method GoRound(t: nat, run: Run)
      requires Valid() && t < |threads| && threads[t] == Routine(DReset, run)
      modifies this
      ensures Valid() && t < |threads| && old(ss) <= ss
      ensures threads[t] == Routine(DPoll, run)
    {
      Interfere(t);
      ghost var before := View();
      h := h.(scheduled := false);
      Moved(t, Routine(DPoll, run), before, PENDING);
    }

    /** `Ready`: the task is completed and its future dropped. */
    method Finish(t: nat)
      requires Valid() && t < |threads| && threads[t].Routine? && threads[t].d.DStore?
      modifies this
      ensures Valid() && t < |threads| && old(ss) <= ss
      ensures threads[t] == Routine(DClearSlot, old(threads[t].run))
    {
      Interfere(t);
      ghost var before := View();
      var run := threads[t].run;
      h := h.(completed := true);
      Moved(t, Routine(DDrop, run), before, PENDING);
      Interfere(t);
      before := View();
      h := h.(drops := h.drops + 1);
      Moved(t, Routine(DClearSlot, run), before, PENDING);
    }

    /** `dpc_routine`, with what the budget setting, the polls and the clock will say; false
      * when these answers end before the routine does. */
    method DpcRoutine(t: nat, budget: Budget, answers: seq<Choice>) returns (ok: bool, rounds: nat)
      requires Valid() && t < |threads| && threads[t].Routine? && threads[t].d.DClear?
      modifies this
      ensures Valid() && t < |threads| && old(ss) <= ss
      ensures ok ==> threads[t] == Idle
      ensures budget.Polls? ==> rounds <= budget.n + 1
      ensures !ok ==> AtLimit() || BorrowOutlasts(t) || rounds == |answers|
    {
      rounds := 0;
      ok := EnterRoutine(t, budget);
      if !ok || threads[t].Idle? {
        return;
      }
      while threads[t].d.DPoll?
        invariant ok && Valid() && t < |threads| && old(ss) <= ss && rounds <= |answers|
        invariant threads[t].Routine? && (threads[t].d.DPoll? || threads[t].d.DClearSlot?)
        invariant budget.Polls? && threads[t].d.DPoll? ==>
                    threads[t].run.budget == budget && rounds + threads[t].run.left == budget.n
        invariant budget.Polls? ==> rounds <= budget.n + 1
        decreases |answers| - rounds
      {
        if rounds == |answers| {
          ok := false;
          return;
        }
        var answer := answers[rounds];
        rounds := rounds + 1;
        ok := Poll(t, answer.ready);
        if !ok {
          return;
        }
        if answer.ready {
          Finish(t);
        } else {
          ok := AfterPending(t, answer.exhausted);
          if !ok {
            return;
          }
        }
      }
      LeaveRoutine(t);
      ok := true;
    }

    /** The end of `dpc_routine`: the reference of the KDPC entry, then that of the waker. */
    method LeaveRoutine(t: nat)
      requires Valid() && t < |threads| && threads[t].Routine? && threads[t].d.DClearSlot?
      modifies this
      ensures Valid() && t < |threads| && old(ss) <= ss
      ensures threads[t] == Idle
    {
      Interfere(t);
      Moved(t, Releasing(RSub, RoutineDropsWaker), View(), PENDING);
      Release(t, RoutineDropsWaker);
      Release(t, Return);
    }
  }

  /** A thread about to give up a reference finds the count above zero. */
  lemma HasReference(m: Mode, ss: seq<State>, es: seq<Event>, t: nat)
    requires IsRun(m, ss, es) && t < |ss[|es|].threads|
    requires Holds(ss[|es|].threads[t]) > 0
    ensures ss[|es|].h.refCount > 0
  {
    RunKeepsInv(m, ss, es, |es|);
    SumAt(ss[|es|].threads, Holds, t);
  }
}
