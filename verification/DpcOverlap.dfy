/** Why the lifecycle theorem assumes that activations of one task do not overlap: an
  * overlapping run in which the future is polled after it was dropped. */
module DpcOverlap {
  import opened Basics
  import opened RefCount
  import opened DpcTask
  import opened DpcTaskProofs
  import DpcBuild

  /** A run that ends in s, whether or not activations overlap. */
  ghost predicate RunTo(ss: seq<State>, es: seq<Event>, s: State) {
    IsRun(Hardened, ss, es) && ss[|es|] == s
  }

  lemma Extend(ss: seq<State>, es: seq<Event>, s: State, e: Event, s': State)
    returns (ss': seq<State>, es': seq<Event>)
    requires RunTo(ss, es, s) && Step(Hardened, s, e) == Some(s')
    ensures RunTo(ss', es', s')
  {
    RunGrows(Hardened, ss, es, e, s');
    ss', es' := ss + [s'], es + [e];
  }

  lemma Go(ss: seq<State>, es: seq<Event>, s: State, t: nat, h': Header, th': Thread)
    returns (ss': seq<State>, es': seq<Event>, s': State)
    requires RunTo(ss, es, s) && t < |s.threads| && !InPoll(s.threads[t])
    requires LocalStep(Hardened, s.h, s.threads[t], PENDING) == Goes(h', th')
    ensures RunTo(ss', es', s') && s' == State(h', s.threads[t := th'])
  {
    s' := State(h', s.threads[t := th']);
    ss', es' := Extend(ss, es, s, Advance(t, PENDING), s');
  }

  const FIRST := Run(None, TimeUs, 0, 1)
  const SECOND := Run(None, TimeUs, 0, 0)

  /** The first activation is in its poll, and the future has woken itself. */
  lemma WokenDuringPoll() returns (ss: seq<State>, es: seq<Event>, s: State)
    ensures RunTo(ss, es, s) && DpcBuild.Alone(s, 1, Routine(DPolling, FIRST))
    ensures |s.threads| == 3 && s.h.queued && s.h.handles == 0
  {
    ss, es, s := DpcBuild.Started(TimeUs, false, None);
    ss, es, s := DpcBuild.PollBegun(ss, es, s, 1, SECOND);
    ss, es, s := DpcBuild.WakesItself(ss, es, s, 1, FIRST);
  }

  /** A second activation starts on another processor and comes to its poll. */
  lemma SecondArrives() returns (ss: seq<State>, es: seq<Event>, s: State)
    ensures RunTo(ss, es, s) && |s.threads| == 4 && DpcBuild.NoBorrows(s) && !s.h.completed
    ensures s.threads[1] == Routine(DPolling, FIRST) && s.threads[3] == Routine(DPoll, SECOND)
  {
    ss, es, s := WokenDuringPoll();
    var s' := Start(s, s.h.(queued := false), Routine(DClear, SECOND));
    ss, es := Extend(ss, es, s, RunDpc(None), s');
    ss, es, s := Go(ss, es, s', 3, s'.h.(scheduled := false), Routine(DLoad, SECOND));
    ss, es, s := Go(ss, es, s, 3, s.h, Routine(DWaker, SECOND));
    ss, es, s := Go(ss, es, s, 3, s.h.(refCount := 5), Routine(DSetSlot, SECOND));
    ss, es, s := Go(ss, es, s, 3, s.h, Routine(DBudget, SECOND));
    ss, es, s := Go(ss, es, s, 3, s.h, Routine(DPoll, SECOND));
  }

  /** The first poll returns `Ready`, its activation drops the future, and the second
    * activation then polls it. */
  lemma OverlapPollsAfterDrop() returns (ss: seq<State>, es: seq<Event>)
    ensures IsRun(Hardened, ss, es)
    ensures ss[|es|].h.drops > 0 && PollBegins(ss[|es|], Advance(3, PENDING))
  {
    var s;
    ss, es, s := SecondArrives();
    var s' := State(s.h.(ready := true), s.threads[1 := Routine(DStore, FIRST)]);
    assert DpcBuild.NoBorrows(s');
    ss, es := Extend(ss, es, s, Advance(1, Choice(TimeUs, true, false)), s');
    ss, es, s := Go(ss, es, s', 1, s'.h.(completed := true), Routine(DDrop, FIRST));
    ss, es, s := Go(ss, es, s, 1, s.h.(drops := s.h.drops + 1), Routine(DClearSlot, FIRST));
  }
}
