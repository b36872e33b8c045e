/** `task.rs`: a main future with an asynchronous cleanup that runs if the task is cancelled. */
module Cancellable {
  import opened Basics

  datatype CancellableState = RunningMain | RunningCleanup | Done

  /** What the two futures and the task's cancellation flag answer during one poll: whether
    * `take_cancellation_request` succeeds, what main returns (`None` is `Pending`), and
    * whether the cleanup is finished. */
  datatype Answers<V> = Answers(requested: bool, main: Option<V>, cleanup: bool)

  /** `Poll::Ready(Some(v))`, `Poll::Ready(None)`, `Poll::Pending`, or the panic of a poll
    * after completion. */
  datatype PollResult<V> = Value(v: V) | Cancelled | Pending | Panicked

  /** What happens to the two futures, in order. */
  datatype Act<V> =
    | Took
    | PolledMain(out: Option<V>)
    | PolledCleanup(done: bool)
    | DroppedMain
    | DroppedCleanup

  // ----- One poll, as a function -----

  function CleanupActs<V>(a: Answers<V>): seq<Act<V>> {
    if a.cleanup then [PolledCleanup(true), DroppedCleanup] else [PolledCleanup(false)]
  }

  function PollActs<V>(s: CancellableState, a: Answers<V>): seq<Act<V>> {
    match s
    case RunningMain =>
      if a.requested then [Took, DroppedMain] + CleanupActs(a)
      else if a.main.Some? then [PolledMain(a.main), DroppedMain, DroppedCleanup]
      else [PolledMain(a.main)]
    case RunningCleanup => CleanupActs(a)
    case Done => []
  }

  function PollState<V>(s: CancellableState, a: Answers<V>): CancellableState {
    if s.Done? || (s.RunningMain? && !a.requested && a.main.Some?) then Done
    else if s.RunningMain? && !a.requested then RunningMain
    else if a.cleanup then Done
    else RunningCleanup
  }

  function PollAnswer<V>(s: CancellableState, a: Answers<V>): PollResult<V> {
    if s.Done? then Panicked
    else if s.RunningMain? && !a.requested then if a.main.Some? then Value(a.main.value) else Pending
    else if a.cleanup then Cancelled
    else Pending
  }

  function DropActs<V>(s: CancellableState): seq<Act<V>> {
    match s
    case RunningMain => [DroppedMain, DroppedCleanup]
    case RunningCleanup => [DroppedCleanup]
    case Done => []
  }

  /** Any sequence of polls. */
  function RunState<V>(answers: seq<Answers<V>>): CancellableState {
    if answers == [] then RunningMain
    else PollState(RunState(answers[..|answers| - 1]), answers[|answers| - 1])
  }

  function RunActs<V>(answers: seq<Answers<V>>): seq<Act<V>> {
    if answers == [] then []
    else RunActs(answers[..|answers| - 1])
         + PollActs(RunState(answers[..|answers| - 1]), answers[|answers| - 1])
  }

  // ----- The rules, stated without the code -----

  /** Which of the two futures are still there, and whether the request was taken. */
  datatype Life = Life(main: bool, cleanup: bool, taken: bool)

  /** An act that breaks a rule: polling or dropping what is gone, taking twice, polling main
    * once the request was taken, polling the cleanup while main is there or not cancelled. */
  predicate Breaks<V>(l: Life, a: Act<V>) {
    match a
    case Took => l.taken
    case PolledMain(_) => !l.main || l.taken
    case PolledCleanup(_) => l.main || !l.cleanup || !l.taken
    case DroppedMain => !l.main
    case DroppedCleanup => !l.cleanup
  }

  function After<V>(l: Life, a: Act<V>): Life {
    match a
    case Took => l.(taken := true)
    case DroppedMain => l.(main := false)
    case DroppedCleanup => l.(cleanup := false)
    case _ => l
  }

  function AfterAll<V>(l: Life, acts: seq<Act<V>>): Life
    decreases acts
  {
    if acts == [] then l else AfterAll(After(l, acts[0]), acts[1..])
  }

  predicate Lawful<V>(l: Life, acts: seq<Act<V>>)
    decreases acts
  {
    acts == [] || (!Breaks(l, acts[0]) && Lawful(After(l, acts[0]), acts[1..]))
  }

  lemma {:induction false} LawfulConcat<V>(l: Life, p: seq<Act<V>>, q: seq<Act<V>>)
    ensures Lawful(l, p + q) <==> Lawful(l, p) && Lawful(AfterAll(l, p), q)
    ensures AfterAll(l, p + q) == AfterAll(AfterAll(l, p), q)
    decreases p
  {
    if p == [] {
      assert p + q == q;
    } else {
      assert (p + q)[1..] == p[1..] + q;
      LawfulConcat(After(l, p[0]), p[1..], q);
    }
  }

  lemma Single<V>(l: Life, a: Act<V>)
    ensures Lawful(l, [a]) <==> !Breaks(l, a)
    ensures AfterAll(l, [a]) == After(l, a)
  {
    assert [a][1..] == [];
  }

  lemma Double<V>(l: Life, a: Act<V>, b: Act<V>)
    ensures Lawful(l, [a, b]) <==> !Breaks(l, a) && !Breaks(After(l, a), b)
    ensures AfterAll(l, [a, b]) == After(After(l, a), b)
  {
    assert [a, b][1..] == [b];
    Single(After(l, a), b);
  }

  const BORN := Life(true, true, false)

  /** The futures left in each state; `Done` does not tell whether the request was taken. */
  predicate Fits(s: CancellableState, l: Life) {
    match s
    case RunningMain => l == BORN
    case RunningCleanup => l == Life(false, true, true)
    case Done => !l.main && !l.cleanup
  }

  lemma CleanupPollLawful<V>(a: Answers<V>, l: Life)
    requires Fits(RunningCleanup, l)
    ensures Lawful(l, CleanupActs(a))
    ensures Fits(PollState(RunningCleanup, a), AfterAll(l, CleanupActs(a)))
  {
    Single<V>(l, PolledCleanup(false));
    Double<V>(l, PolledCleanup(true), DroppedCleanup);
  }

  lemma PollLawful<V>(s: CancellableState, a: Answers<V>, l: Life)
    requires Fits(s, l)
    ensures Lawful(l, PollActs(s, a)) && Fits(PollState(s, a), AfterAll(l, PollActs(s, a)))
  {
    match s
    case Done =>
    case RunningCleanup => CleanupPollLawful(a, l);
    case RunningMain =>
      if a.requested {
        Double<V>(l, Took, DroppedMain);
        LawfulConcat(l, [Took, DroppedMain], CleanupActs(a));
        CleanupPollLawful(a, Life(false, true, true));
      } else {
        Single(l, PolledMain(a.main));
        Double<V>(l, DroppedMain, DroppedCleanup);
        LawfulConcat(l, [PolledMain(a.main)], [DroppedMain, DroppedCleanup]);
        assert [PolledMain(a.main)] + [DroppedMain, DroppedCleanup]
            == [PolledMain(a.main), DroppedMain, DroppedCleanup];
      }
  }

  /** For every sequence of polls, with any answers, no rule is broken. */
  lemma {:induction false} PollsLawful<V>(answers: seq<Answers<V>>)
    ensures Lawful(BORN, RunActs(answers)) && Fits(RunState(answers), AfterAll(BORN, RunActs(answers)))
  {
    if answers != [] {
      var before := answers[..|answers| - 1];
      PollsLawful(before);
      var l := AfterAll(BORN, RunActs(before));
      PollLawful(RunState(before), answers[|answers| - 1], l);
      LawfulConcat(BORN, RunActs(before), PollActs(RunState(before), answers[|answers| - 1]));
    }
  }

  /** Dropping after any sequence of polls also breaks no rule, and leaves neither future:
    * as each drop needs its future to be there, each is dropped exactly once. */
  lemma LifeEndsOnce<V>(answers: seq<Answers<V>>)
    ensures var all := RunActs(answers) + DropActs(RunState(answers));
            && Lawful(BORN, all) && !AfterAll(BORN, all).main && !AfterAll(BORN, all).cleanup
            && multiset(all)[DroppedMain] == 1 && multiset(all)[DroppedCleanup] == 1
  {
    PollsLawful(answers);
    var l := AfterAll(BORN, RunActs(answers));
    var drops: seq<Act<V>> := DropActs(RunState(answers));
    DropLawful(RunState(answers), l, drops);
    LawfulConcat(BORN, RunActs(answers), drops);
    DropCounts(BORN, RunActs(answers) + drops);
  }

  lemma DropLawful<V>(s: CancellableState, l: Life, drops: seq<Act<V>>)
    requires Fits(s, l) && drops == DropActs(s)
    ensures Lawful(l, drops) && !AfterAll(l, drops).main && !AfterAll(l, drops).cleanup
  {
    Double<V>(l, DroppedMain, DroppedCleanup);
    Single<V>(l, DroppedCleanup);
  }

  /** In a lawful history a future is dropped once if it is gone at the end, else never. */
  lemma {:induction false} DropCounts<V>(l: Life, acts: seq<Act<V>>)
    requires Lawful(l, acts)
    ensures multiset(acts)[DroppedMain] == Bit(l.main) - Bit(AfterAll(l, acts).main)
    ensures multiset(acts)[DroppedCleanup] == Bit(l.cleanup) - Bit(AfterAll(l, acts).cleanup)
    decreases acts
  {
    if acts != [] {
      DropCounts(After(l, acts[0]), acts[1..]);
      assert acts == [acts[0]] + acts[1..];
    }
  }

  /** A poll answers `Ready(None)` only if the request was taken, then or in an earlier poll,
    * and from then on no poll answers with a value. */
  lemma {:induction false} CancelledMeansTaken<V>(answers: seq<Answers<V>>, a: Answers<V>)
    ensures PollAnswer(RunState(answers), a).Cancelled? ==>
              a.requested || exists i :: 0 <= i < |answers| && answers[i].requested
    ensures RunState(answers).RunningCleanup? ==>
              !PollAnswer(RunState(answers), a).Value? && exists i :: 0 <= i < |answers| && answers[i].requested
  {
    if answers != [] {
      var n := |answers| - 1;
      CancelledMeansTaken(answers[..n], answers[n]);
      if i :| 0 <= i < |answers[..n]| && answers[..n][i].requested {
        assert answers[i].requested;
      }
    }
  }

  // ----- What one poll does and answers, stated without the code -----

  /** The poll finished the cleanup. */
  ghost predicate EndsCleanup<V>(acts: seq<Act<V>>) {
    |acts| >= 2 && acts[|acts| - 2..] == [PolledCleanup(true), DroppedCleanup]
  }

  /** While main is there the request is taken if there is one, and main is polled if there is none;
    * the cleanup is polled once main is gone, or goes in this poll because of the request. */
  ghost predicate ActsMean<V>(l: Life, acts: seq<Act<V>>, a: Answers<V>) {
    && (Took in acts <==> l.main && a.requested)
    && (l.main && !a.requested ==> PolledMain(a.main) in acts)
    && (forall i :: 0 <= i < |acts| && acts[i].PolledMain? ==> l.main && !a.requested && acts[i].out == a.main)
    && (forall done :: PolledCleanup(done) in acts <==>
          l.cleanup && (!l.main || a.requested) && done == a.cleanup)
  }

  /** The answer tells what happened: `Ready(None)` that the cleanup was finished in this poll,
    * `Ready(Some(v))` that main was, with v, `Pending` that a future is left, the panic that none
    * was left before. */
  ghost predicate AnswerMeans<V>(l: Life, acts: seq<Act<V>>, l': Life, result: PollResult<V>) {
    && (result.Cancelled? <==> EndsCleanup(acts))
    && (result.Value? ==> PolledMain(Some(result.v)) in acts)
    && (forall i :: 0 <= i < |acts| && acts[i].PolledMain? && acts[i].out.Some? ==> result == Value(acts[i].out.value))
    && (result.Panicked? <==> !l.main && !l.cleanup)
    && (result.Pending? <==> l'.main || l'.cleanup)
  }

  lemma CleanupMeans<V>(a: Answers<V>, l: Life)
    requires Fits(RunningCleanup, l)
    ensures ActsMean(l, CleanupActs(a), a)
    ensures AnswerMeans(l, CleanupActs(a), AfterAll(l, CleanupActs(a)), PollAnswer(RunningCleanup, a))
  {
    CleanupPollLawful(a, l);
  }

  lemma TakenMeans<V>(a: Answers<V>, l: Life)
    requires Fits(RunningMain, l) && a.requested
    ensures var acts := PollActs(RunningMain, a);
            ActsMean(l, acts, a) && AnswerMeans(l, acts, AfterAll(l, acts), PollAnswer(RunningMain, a))
  {
    PollLawful(RunningMain, a, l);
    var acts := PollActs(RunningMain, a);
    var tail := CleanupActs(a);
    assert acts == [Took, DroppedMain] + tail;
    assert acts[0] == Took && acts[|acts| - |tail|..] == tail;
    assert forall x :: x in acts <==> x in [Took, DroppedMain] || x in tail;
    if a.cleanup {
      assert acts[|acts| - 2..] == tail;
    } else {
      assert acts[|acts| - 1] == PolledCleanup(false);
    }
  }

  /** One poll, from any state and with any answers, does and answers just that. */
  lemma PollMeans<V>(s: CancellableState, a: Answers<V>, l: Life)
    requires Fits(s, l)
    ensures var acts := PollActs(s, a);
            ActsMean(l, acts, a) && AnswerMeans(l, acts, AfterAll(l, acts), PollAnswer(s, a))
  {
    match s
    case Done =>
    case RunningCleanup => CleanupMeans(a, l);
    case RunningMain =>
      if a.requested {
        TakenMeans(a, l);
      } else {
        PollLawful(s, a, l);
        assert PollActs(s, a)[0] == PolledMain(a.main);
      }
  }

  /** What a poll added to the log, and answered, tells what became of the futures. */
  ghost predicate PollTells<V>(before: seq<Act<V>>, log: seq<Act<V>>, a: Answers<V>, result: PollResult<V>)
    requires before <= log
  {
    var acts, life := log[|before|..], AfterAll(BORN, before);
    ActsMean(life, acts, a) && AnswerMeans(life, acts, AfterAll(BORN, log), result)
  }

  lemma NextPollTells<V>(answers: seq<Answers<V>>, a: Answers<V>)
    ensures PollTells(RunActs(answers), RunActs(answers) + PollActs(RunState(answers), a), a,
                      PollAnswer(RunState(answers), a))
  {
    var log, acts := RunActs(answers), PollActs(RunState(answers), a);
    var life := AfterAll(BORN, log);
    PollsLawful(answers);
    PollMeans(RunState(answers), a, life);
    PollLawful(RunState(answers), a, life);
    LawfulConcat(BORN, log, acts);
    assert (log + acts)[|log|..] == acts;
  }

  lemma NextPoll<V>(answers: seq<Answers<V>>, a: Answers<V>)
    ensures RunState(answers + [a]) == PollState(RunState(answers), a)
    ensures RunActs(answers + [a]) == RunActs(answers) + PollActs(RunState(answers), a)
  {
    assert (answers + [a])[..|answers|] == answers;
  }

  // ----- The code -----

  /** The struct and its `poll` loop and `Drop`; `log` records the acts in order, and `answers`
    * what the polls so far were answered. */
  class Cancellable<V> {
    var state: CancellableState
    ghost var log: seq<Act<V>>
    ghost var answers: seq<Answers<V>>

    ghost predicate Valid()
      reads this
    {
      state == RunState(answers) && log == RunActs(answers)
    }

    constructor ()
      ensures Valid() && state == RunningMain && log == [] && answers == []
    {
      state, log, answers := RunningMain, [], [];
    }

    /** One poll keeps all the rules, whatever came before and whatever is answered: nothing
      * gone is polled or dropped, the cleanup is polled only after a taken request, and what is
      * polled and what is returned tell what became of the futures. */
    method Poll(a: Answers<V>) returns (result: PollResult<V>, ghost rounds: nat)
      requires Valid()
      modifies this
      ensures Valid() && answers == old(answers) + [a]
      ensures Lawful(BORN, log) && old(log) <= log
      ensures Fits(state, AfterAll(BORN, log))
      ensures PollTells(old(log), log, a, result)
      ensures result == PollAnswer(old(state), a)
      ensures rounds <= 2
    {
      NextPoll(answers, a);
      NextPollTells(answers, a);
      result, rounds := PollLoop(a);
      answers := answers + [a];
      PollsLawful(answers);
    }

    method PollLoop(a: Answers<V>) returns (result: PollResult<V>, ghost rounds: nat)
      modifies this`state, this`log
      ensures state == PollState(old(state), a)
      ensures log == old(log) + PollActs(old(state), a)
      ensures result == PollAnswer(old(state), a)
      ensures rounds <= 2
    {
      rounds := 0;
      while true
        invariant rounds <= 1 && (rounds == 1 ==> state == RunningCleanup)
        invariant PollState(state, a) == PollState(old(state), a)
        invariant log + PollActs(state, a) == old(log) + PollActs(old(state), a)
        invariant PollAnswer(state, a) == PollAnswer(old(state), a)
        decreases 1 - rounds
      {
        rounds := rounds + 1;
        match state {
          case RunningMain =>
            if a.requested {
              log := log + [Took, DroppedMain];
              state := RunningCleanup;
              continue;
            }
            log := log + [PolledMain(a.main)];
            match a.main {
              case Some(value) =>
                log := log + [DroppedMain, DroppedCleanup];
                state := Done;
                return Value(value), rounds;
              case None => return Pending, rounds;
            }
          case RunningCleanup =>
            log := log + [PolledCleanup(a.cleanup)];
            if a.cleanup {
              log := log + [DroppedCleanup];
              state := Done;
              return Cancelled, rounds;
            }
            return Pending, rounds;
          case Done => return Panicked, rounds;
        }
      }
    }

    /** With the drop, after any polls, main and cleanup have each been dropped exactly once
      * and no rule was broken. */
    method Drop()
      requires Valid()
      modifies this`log
      ensures old(log) <= log && Lawful(BORN, log)
      ensures multiset(log)[DroppedMain] == 1 && multiset(log)[DroppedCleanup] == 1
    {
      LifeEndsOnce(answers);
      DropLeft();
    }

    method DropLeft()
      modifies this`log
      ensures log == old(log) + DropActs(state)
    {
      match state {
        case RunningMain =>
          log := log + [DroppedMain];
          log := log + [DroppedCleanup];
        case RunningCleanup => log := log + [DroppedCleanup];
        case Done =>
      }
    }
  }
}
