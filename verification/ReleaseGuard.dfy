/** The guard with which the shim of an `async fn` gives its reference back: it exists only from
  * the first poll of the future around it on. */
module ReleaseGuard {
  import opened Basics
  import C = Cancellable

  /** The async block of the shim around the user's future: it holds its `ReleaseGuard` from
    * its first poll until it returns or is dropped. */
  datatype Guard = Unborn | Held | Spent

  function GuardAfter<V>(g: Guard, a: C.Act<V>): Guard {
    match a
    case PolledMain(out) => if out.Some? then Spent else Held
    case DroppedMain => if g.Held? then Spent else g
    case _ => g
  }

  /** How often the guard's release function runs. */
  function Releases<V>(g: Guard, acts: seq<C.Act<V>>): nat
    decreases acts
  {
    if acts == [] then 0
    else Bit(!g.Spent? && GuardAfter(g, acts[0]).Spent?) + Releases(GuardAfter(g, acts[0]), acts[1..])
  }

  function GuardAfterAll<V>(g: Guard, acts: seq<C.Act<V>>): Guard
    decreases acts
  {
    if acts == [] then g else GuardAfterAll(GuardAfter(g, acts[0]), acts[1..])
  }

  lemma {:induction false} ReleasesConcat<V>(g: Guard, p: seq<C.Act<V>>, q: seq<C.Act<V>>)
    ensures Releases(g, p + q) == Releases(g, p) + Releases(GuardAfterAll(g, p), q)
    ensures GuardAfterAll(g, p + q) == GuardAfterAll(GuardAfterAll(g, p), q)
    decreases p
  {
    if p == [] {
      assert p + q == q;
    } else {
      assert (p + q)[1..] == p[1..] + q;
      ReleasesConcat(GuardAfter(g, p[0]), p[1..], q);
    }
  }

  lemma ReleasesOne<V>(g: Guard, a: C.Act<V>)
    ensures Releases(g, [a]) == Bit(!g.Spent? && GuardAfter(g, a).Spent?)
    ensures GuardAfterAll(g, [a]) == GuardAfter(g, a)
  {
    assert [a][1..] == [];
  }

  lemma ReleasesTwo<V>(g: Guard, a: C.Act<V>, b: C.Act<V>)
    ensures Releases(g, [a, b]) == Bit(!g.Spent? && GuardAfter(g, a).Spent?)
                                 + Bit(!GuardAfter(g, a).Spent? && GuardAfter(GuardAfter(g, a), b).Spent?)
    ensures GuardAfterAll(g, [a, b]) == GuardAfter(GuardAfter(g, a), b)
  {
    ReleasesOne(g, a);
    ReleasesOne(GuardAfter(g, a), b);
    ReleasesConcat(g, [a], [b]);
    assert [a] + [b] == [a, b];
  }

  /** Where the guard stands, given whether the first poll reached the main future. */
  predicate GuardFits(s: C.CancellableState, polled: bool, started: bool, g: Guard) {
    if !polled then s.RunningMain? && g.Unborn?
    else if !started then !s.RunningMain? && g.Unborn?
    else if s.RunningMain? then g.Held?
    else g.Spent?
  }

  lemma PollMovesGuard<V>(s: C.CancellableState, a: C.Answers<V>, polled: bool, started: bool, g: Guard)
    requires GuardFits(s, polled, started, g)
    ensures var started' := if polled then started else !a.requested;
            GuardFits(C.PollState(s, a), true, started', GuardAfterAll(g, C.PollActs(s, a)))
    ensures Releases(g, C.PollActs(s, a)) == Bit(!g.Spent? && GuardAfterAll(g, C.PollActs(s, a)).Spent?)
  {
    ReleasesOne(g, C.PolledMain(a.main));
    ReleasesOne<V>(g, C.PolledCleanup(false));
    ReleasesTwo<V>(g, C.PolledCleanup(true), C.DroppedCleanup);
    ReleasesTwo<V>(g, C.Took, C.DroppedMain);
    var g1 := GuardAfterAll<V>(g, [C.Took, C.DroppedMain]);
    ReleasesOne<V>(g1, C.PolledCleanup(false));
    ReleasesTwo<V>(g1, C.PolledCleanup(true), C.DroppedCleanup);
    ReleasesConcat(g, [C.Took, C.DroppedMain], C.CleanupActs(a));
    var g2 := GuardAfter(g, C.PolledMain(a.main));
    ReleasesTwo<V>(g2, C.DroppedMain, C.DroppedCleanup);
    ReleasesConcat(g, [C.PolledMain(a.main)], [C.DroppedMain, C.DroppedCleanup]);
    assert [C.PolledMain(a.main)] + [C.DroppedMain, C.DroppedCleanup]
        == [C.PolledMain(a.main), C.DroppedMain, C.DroppedCleanup];
  }

  lemma {:induction false} PollsMoveGuard<V>(answers: seq<C.Answers<V>>)
    ensures var g := GuardAfterAll(Unborn, C.RunActs(answers));
            && GuardFits(C.RunState(answers), answers != [], answers != [] && !answers[0].requested, g)
            && Releases(Unborn, C.RunActs(answers)) == Bit(g.Spent?)
  {
    if answers != [] {
      var n := |answers| - 1;
      var before := answers[..n];
      PollsMoveGuard(before);
      var g := GuardAfterAll(Unborn, C.RunActs(before));
      PollMovesGuard(C.RunState(before), answers[n], before != [], before != [] && !before[0].requested, g);
      ReleasesConcat(Unborn, C.RunActs(before), C.PollActs(C.RunState(before), answers[n]));
    }
  }

  lemma DropMovesGuard<V>(s: C.CancellableState, g: Guard)
    ensures Releases(g, C.DropActs<V>(s)) == Bit(g.Held? && s.RunningMain?)
  {
    ReleasesTwo<V>(g, C.DroppedMain, C.DroppedCleanup);
    ReleasesOne<V>(g, C.DroppedCleanup);
  }

  lemma DropSpendsGuard<V>(s: C.CancellableState, g: Guard)
    ensures GuardAfterAll(g, C.DropActs<V>(s)) == if g.Held? && s.RunningMain? then Spent else g
  {
    ReleasesTwo<V>(g, C.DroppedMain, C.DroppedCleanup);
    ReleasesOne<V>(g, C.DroppedCleanup);
  }

  /** For every sequence of polls followed by the drop, the guard inside the main future
    * gives its reference back exactly once if the task was polled and the first poll did not
    * take a cancellation request, and otherwise never, having never been made. */
  lemma GuardGivesBackOnce<V>(answers: seq<C.Answers<V>>)
    ensures Releases(Unborn, C.RunActs(answers) + C.DropActs(C.RunState(answers)))
            == (if answers != [] && !answers[0].requested then 1 else 0)
  {
    PollsMoveGuard(answers);
    var g := GuardAfterAll(Unborn, C.RunActs(answers));
    ReleasesConcat(Unborn, C.RunActs(answers), C.DropActs(C.RunState(answers)));
    DropMovesGuard<V>(C.RunState(answers), g);
  }
}
