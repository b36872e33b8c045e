/** Why the theorems about a taken request speak of the operation's own `Cancellable`: a request
  * that a nested one takes is acknowledged all the same, and the operation can complete. */
module AsyncNested {
  import opened Basics
  import opened RefCount
  import opened DpcTask
  import opened DpcTaskProofs
  import opened AsyncTask
  import DpcBuild
  import O = AsyncOperation
  import C = Cancellable
  import G = ReleaseGuard

  ghost predicate RunTo<V>(js: seq<Joint<V>>, es: seq<JointEvent<V>>, j: Joint<V>) {
    IsJointRun(Hardened, js, es) && js[|es|] == j
  }

  lemma Extend<V>(js: seq<Joint<V>>, es: seq<JointEvent<V>>, j: Joint<V>, ev: JointEvent<V>, j': Joint<V>)
    returns (js': seq<Joint<V>>, es': seq<JointEvent<V>>)
    requires RunTo(js, es, j) && JointStep(Hardened, j, ev) == Some(j') && (ev.Exec? ==> Serial(j.s, ev.e))
    ensures RunTo(js', es', j') && es' == es + [ev]
  {
    JointRunGrows(Hardened, js, es, ev, j');
    js', es' := js + [j'], es + [ev];
  }

  function Nothing<V>(): C.Answers<V> {
    C.Answers(false, None, true)
  }

  lemma NobodyPolls(s: State)
    requires Inv(s) && s.h.polls == 0
    ensures forall i :: 0 <= i < |s.threads| ==> !InPoll(s.threads[i])
  {
    assert forall i :: 0 <= i < |s.threads| && InPoll(s.threads[i]) ==> HasPolled(s.threads[i]);
  }

  /** A step to a state in which no poll has begun does not touch the future. */
  lemma UntouchedStep<V>(s: State, x: Async<V>, e: Event, s': State)
    requires Inv(s) && Step(Hardened, s, e) == Some(s') && s'.h.polls == 0
    ensures s.h.polls == 0 && AsyncStep(s, x, e, false, Nothing()) == Some(x)
  {
    StepShape(Hardened, s, e);
    if e.Advance? {
      LocalFutureMoves(Hardened, s.h, s.threads[e.t], e.choice, s'.h, s'.threads[e.t]);
    } else {
      StartLeavesFuture(Hardened, s, e, s');
    }
    NobodyPolls(s);
  }

  /** Until the first poll a run of the task is a run of the call that it carries. */
  lemma {:induction false} Unpolled<V>(ss: seq<State>, ts: seq<Event>, k: nat, clients: nat)
    returns (js: seq<Joint<V>>, es: seq<JointEvent<V>>, x: Async<V>)
    requires IsSerialRun(Hardened, ss, ts) && k < |ss| && ss[k].h.polls == 0
    ensures RunTo(js, es, Joint(ss[k], x)) && x == Called<V>(false, clients).x
  {
    if k == 0 {
      var wantsHandle :| ss[0] == Init(wantsHandle);
      var j := Called<V>(wantsHandle, clients);
      js, es, x := [j], [], j.x;
    } else {
      assert Follows(Hardened, ss, ts, k - 1) && FollowsSerially(ss, ts, k - 1);
      RunKeepsInv(Hardened, ss, ts, k - 1);
      UntouchedStep(ss[k - 1], Called<V>(false, clients).x, ts[k - 1], ss[k]);
      js, es, x := Unpolled<V>(ss, ts, k - 1, clients);
      js, es := Extend(js, es, Joint(ss[k - 1], x), Exec(ts[k - 1], false, Nothing()), Joint(ss[k], x));
    }
  }

  /** A poll has begun on a processor with a slot, and its own `Cancellable` has asked in vain. */
  lemma AskedInVain<V>() returns (js: seq<Joint<V>>, es: seq<JointEvent<V>>, j: Joint<V>)
    ensures RunTo(js, es, j) && j.x == Called<V>(true, 1).x.(asked := {1}) && j.s.h.cancelRequested == 0
    ensures j.s.h.handles == 1 && |j.s.threads| == 2 && InPoll(j.s.threads[1]) && j.s.threads[1].run.cpu.Some?
    ensures j.s.threads[0] == Releasing(RSub, Return)
  {
    var ss, ts, s := DpcBuild.Started(TimeUs, true, Some(0));
    var x;
    js, es, x := Unpolled<V>(ss, ts, |ts|, 1);
    var r := s.threads[1].run.(polled := 1);
    var s' := State(s.h.(polls := 1), s.threads[1 := Routine(DPolling, r)]);
    assert Step(Hardened, s, Advance(1, PENDING)) == Some(s');
    assert x.asked - {1} == x.asked && x.took - {1} == x.took;
    js, es := Extend(js, es, Joint(s, x), Exec(Advance(1, PENDING), false, Nothing()), Joint(s', x));
    j := Joint(s', x.(asked := {1}));
    assert x.asked + {1} == {1};
    js, es := Extend(js, es, Joint(s', x), AskInVain(1), j);
  }

  /** The handle is cancelled after that. */
  lemma CancelledLate<V>() returns (js: seq<Joint<V>>, es: seq<JointEvent<V>>, j: Joint<V>)
    ensures RunTo(js, es, j) && j.x == Called<V>(true, 1).x.(asked := {1}) && j.s.h.cancelRequested == 1
    ensures j.s.h.handles == 1 && |j.s.threads| == 3 && InPoll(j.s.threads[1]) && j.s.threads[1].run.cpu.Some?
    ensures j.s.threads[0] == Releasing(RSub, Return) && j.s.threads[2] == Scheduling(SLoad, Canceller)
  {
    js, es, j := AskedInVain<V>();
    var j' := j.(s := Start(j.s, j.s.h, Cancelling));
    js, es := Extend(js, es, j, Exec(Cancel, false, Nothing()), j');
    j := j'.(s := State(j'.s.h.(cancelRequested := 1), j'.s.threads[2 := Scheduling(SLoad, Canceller)]));
    js, es := Extend(js, es, j', Exec(Advance(2, PENDING), false, Nothing()), j);
  }

  /** A nested `Cancellable` then takes the request and the future finishes with v: the operation is
    * Completed though its task's request was taken. */
  lemma NestedTakeCompletes<V>(v: V) returns (js: seq<Joint<V>>, es: seq<JointEvent<V>>, i: nat)
    ensures IsJointRun(Hardened, js, es) && i < |es| && TakesRequest(es[i]) && !es[i].own
    ensures js[|es|].x.op.cells == O.Stored(v)
  {
    var j;
    js, es, j := CancelledLate<V>();
    i := |es|;
    var j' := j.(s := j.s.(h := j.s.h.(cancelRequested := 2)));
    js, es := Extend(js, es, j, Exec(TakeRequest(1), false, Nothing()), j');
    var e := Advance(1, Choice(TimeUs, true, false));
    var a := C.Answers(false, Some(v), true);
    var s' := State(j'.s.h.(ready := true), j'.s.threads[1 := Routine(DStore, j'.s.threads[1].run)]);
    assert BorrowsHold(s');
    assert Step(Hardened, j'.s, e) == Some(s');
    Answered(j'.x, a);
    js, es := Extend(js, es, j', Exec(e, false, a), Joint(s', Polled(j'.x, 1, true, a).value));
  }

  lemma Answered<V>(x: Async<V>, a: C.Answers<V>)
    requires x == Called<V>(true, 1).x.(asked := {1}) && !a.requested && a.main.Some? && a.cleanup
    ensures Polled(x, 1, true, a).Some? && Polled(x, 1, true, a).value.op.cells == O.Stored(a.main.value)
  {
    G.PollMovesGuard(x.op.inner, a, false, false, x.target.guard);
  }
}
