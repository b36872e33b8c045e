/** Runs of the DPC task machine built step by step, for the examples that show where a property
  * fails or that a bound is reached. */
module DpcBuild {
  import opened Basics
  import opened RefCount
  import opened DpcTask
  import opened DpcTaskProofs

  /** A serial run that ends in s. */
  ghost predicate RunTo(ss: seq<State>, es: seq<Event>, s: State) {
    IsSerialRun(Hardened, ss, es) && ss[|es|] == s
  }

  lemma Extend(ss: seq<State>, es: seq<Event>, s: State, e: Event, s': State)
    returns (ss': seq<State>, es': seq<Event>)
    requires RunTo(ss, es, s) && Step(Hardened, s, e) == Some(s') && Serial(s, e)
    ensures RunTo(ss', es', s') && es' == es + [e] && ss' == ss + [s']
  {
    SerialRunGrows(Hardened, ss, es, e, s');
    ss', es' := ss + [s'], es + [e];
  }

  /** Thread t takes a step of its own, which ends no borrow. */
  lemma Go(ss: seq<State>, es: seq<Event>, s: State, t: nat, c: Choice, h': Header, th': Thread)
    returns (ss': seq<State>, es': seq<Event>, s': State)
    requires RunTo(ss, es, s) && t < |s.threads| && !InPoll(s.threads[t])
    requires LocalStep(Hardened, s.h, s.threads[t], c) == Goes(h', th')
    ensures RunTo(ss', es', s') && s' == State(h', s.threads[t := th'])
  {
    s' := State(h', s.threads[t := th']);
    ss', es' := Extend(ss, es, s, Advance(t, c), s');
  }

  /** No call through a borrowed waker or handle is under way. */
  predicate NoBorrows(s: State) {
    forall i :: 0 <= i < |s.threads| ==> !UsesWaker(s.threads[i]) && !UsesHandle(s.threads[i])
  }

  /** One activation, at the given point, of a task that nobody else has finished with. */
  predicate Alone(s: State, t: nat, th: Thread) {
    && t < |s.threads| && s.threads[t] == th && NoBorrows(s)
    && !s.h.completed && s.h.handles <= 1 && s.h.refCount == 3 + s.h.handles + Bit(s.h.queued)
  }

  lemma Handled(wantsHandle: bool) returns (ss: seq<State>, es: seq<Event>, s: State)
    ensures RunTo(ss, es, s) && s.threads == [Scheduling(SLoad, Spawner)]
    ensures s.h.handles == Bit(wantsHandle) && s.h.refCount == 1 + s.h.handles
    ensures !s.h.scheduled && !s.h.queued && !s.h.completed && s.h.cancelRequested == 0 && s.h.polls == 0
  {
    s := Init(wantsHandle);
    ss, es := [s], [];
    if wantsHandle {
      ss, es, s := Go(ss, es, s, 0, PENDING, s.h.(begun := true), MakingHandle);
      ss, es, s := Go(ss, es, s, 0, PENDING, s.h.(handles := 1, refCount := 2), Scheduling(SLoad, Spawner));
    } else {
      ss, es, s := Go(ss, es, s, 0, PENDING, s.h.(begun := true), Scheduling(SLoad, Spawner));
    }
  }

  lemma Spawned(wantsHandle: bool) returns (ss: seq<State>, es: seq<Event>, s: State)
    ensures RunTo(ss, es, s) && s.threads == [Releasing(RSub, Return)]
    ensures s.h.handles == Bit(wantsHandle) && s.h.refCount == 2 + s.h.handles
    ensures s.h.queued && !s.h.completed && s.h.cancelRequested == 0 && s.h.polls == 0
  {
    ss, es, s := Handled(wantsHandle);
    var n := s.h.refCount + 1;
    ss, es, s := Go(ss, es, s, 0, PENDING, s.h, Scheduling(SCas, Spawner));
    ss, es, s := Go(ss, es, s, 0, PENDING, s.h.(scheduled := true), Scheduling(SAddRef, Spawner));
    ss, es, s := Go(ss, es, s, 0, PENDING, s.h.(refCount := n), Scheduling(SInsert, Spawner));
    ss, es, s := Go(ss, es, s, 0, PENDING, s.h.(queued := true), Releasing(RSub, Return));
  }

  /** An activation enters: it has cleared `scheduled` and found the task not completed. */
  lemma Entered(wantsHandle: bool, r: Run) returns (ss: seq<State>, es: seq<Event>, s: State)
    requires r == Run(r.cpu, TimeUs, 0, 0)
    ensures RunTo(ss, es, s) && s.threads == [Releasing(RSub, Return), Routine(DWaker, r)]
    ensures s.h.handles == Bit(wantsHandle) && s.h.refCount == 2 + s.h.handles
    ensures !s.h.queued && !s.h.scheduled && !s.h.completed && s.h.cancelRequested == 0 && s.h.polls == 0
  {
    ss, es, s := Spawned(wantsHandle);
    var s' := Start(s, s.h.(queued := false), Routine(DClear, r));
    assert Sum(s.threads, Active) == 0 by { SumOne(s.threads[0], Active); }
    ss, es := Extend(ss, es, s, RunDpc(r.cpu), s');
    ss, es, s := Go(ss, es, s', 1, PENDING, s'.h.(scheduled := false), Routine(DLoad, r));
    ss, es, s := Go(ss, es, s, 1, PENDING, s.h, Routine(DWaker, r));
    assert s.threads == [Releasing(RSub, Return), Routine(DWaker, r)];
  }

  /** The first activation is about to poll, the spawning thread about to give up its reference. */
  lemma Started(budget: Budget, wantsHandle: bool, cpu: Option<nat>)
    returns (ss: seq<State>, es: seq<Event>, s: State)
    ensures var r := Run(cpu, budget, if budget.Polls? then budget.n else 0, 0);
            && RunTo(ss, es, s) && Alone(s, 1, Routine(DPoll, r))
            && s.threads == [Releasing(RSub, Return), Routine(DPoll, r)]
    ensures s.h.handles == Bit(wantsHandle) && !s.h.queued && !s.h.scheduled
    ensures s.h.cancelRequested == 0 && s.h.polls == 0
  {
    var r := Run(cpu, TimeUs, 0, 0);
    ss, es, s := Entered(wantsHandle, r);
    var n := s.h.refCount + 1;
    var left := if budget.Polls? then budget.n else 0;
    ss, es, s := Go(ss, es, s, 1, PENDING, s.h.(refCount := n), Routine(DSetSlot, r));
    ss, es, s := Go(ss, es, s, 1, PENDING, s.h, Routine(DBudget, r));
    ss, es, s := Go(ss, es, s, 1, Choice(budget, false, false), s.h, Routine(DPoll, Run(cpu, budget, left, 0)));
    assert s.threads == [Releasing(RSub, Return), Routine(DPoll, Run(cpu, budget, left, 0))];
  }

  /** The wake inside a poll comes to its insert. */
  lemma WakeArrives(ss: seq<State>, es: seq<Event>, s: State, t: nat)
    returns (ss': seq<State>, es': seq<Event>, s': State)
    requires RunTo(ss, es, s) && t < |s.threads| && InPoll(s.threads[t])
    requires !s.h.completed && !s.h.scheduled && s.h.refCount < 6
    ensures RunTo(ss', es', s')
    ensures s'.h == s.h.(scheduled := true, refCount := s.h.refCount + 1)
    ensures s'.threads == s.threads + [Scheduling(SInsert, WakerRef)]
  {
    var u := |s.threads|;
    s' := Start(s, s.h, Scheduling(SLoad, WakerRef));
    ss', es' := Extend(ss, es, s, WakeByRef, s');
    ss', es', s' := Go(ss', es', s', u, PENDING, s'.h, Scheduling(SCas, WakerRef));
    ss', es', s' := Go(ss', es', s', u, PENDING, s'.h.(scheduled := true), Scheduling(SAddRef, WakerRef));
    ss', es', s' := Go(ss', es', s', u, PENDING, s'.h.(refCount := s'.h.refCount + 1), Scheduling(SInsert, WakerRef));
    assert s'.threads == s.threads + [Scheduling(SInsert, WakerRef)];
  }

  /** While it is polled the future wakes itself: the first time the KDPC is queued, after
    * that the insert is refused and the extra reference released. */
  lemma WakesItself(ss: seq<State>, es: seq<Event>, s: State, t: nat, r: Run)
    returns (ss': seq<State>, es': seq<Event>, s': State)
    requires RunTo(ss, es, s) && Alone(s, t, Routine(DPolling, r)) && !s.h.scheduled
    ensures RunTo(ss', es', s') && Alone(s', t, Routine(DPolling, r)) && s'.h.scheduled && s'.h.queued
    ensures s'.threads == s.threads + [Idle] && s'.h.handles == s.h.handles
  {
    var u := |s.threads|;
    ss', es', s' := WakeArrives(ss, es, s, t);
    if s.h.queued {
      ss', es', s' := Go(ss', es', s', u, PENDING, s'.h, Releasing(RSub, ScheduleReturns(WakerRef)));
      ss', es', s' := Go(ss', es', s', u, PENDING, s'.h.(refCount := s'.h.refCount - 1), Idle);
    } else {
      ss', es', s' := Go(ss', es', s', u, PENDING, s'.h.(queued := true), Idle);
    }
    assert s'.threads == s.threads + [Idle];
  }

  /** A poll begins. */
  lemma PollBegun(ss: seq<State>, es: seq<Event>, s: State, t: nat, r: Run)
    returns (ss': seq<State>, es': seq<Event>, s': State)
    requires RunTo(ss, es, s) && Alone(s, t, Routine(DPoll, r))
    ensures RunTo(ss', es', s') && Alone(s', t, Routine(DPolling, r.(polled := r.polled + 1)))
    ensures s' == State(s.h.(polls := s.h.polls + 1), s.threads[t := Routine(DPolling, r.(polled := r.polled + 1))])
  {
    var r' := r.(polled := r.polled + 1);
    ss', es', s' := Go(ss, es, s, t, PENDING, s.h.(polls := s.h.polls + 1), Routine(DPolling, r'));
  }
}
