/** The poll budget of one DPC activation: its bound, when it is reached, and that it is. */
module DpcBudget {
  import opened Basics
  import opened RefCount
  import opened DpcTask
  import opened DpcTaskProofs
  import opened DpcBuild

  /** Polls done and polls left always add up to the budget, one poll being free. */
  predicate Spent(r: Run, extra: nat) {
    r.budget.Polls? ==> r.polled + r.left == r.budget.n + extra
  }

  predicate BudgetKept(th: Thread) {
    match th
    case Routine(d, r) =>
      if d.DClear? || d.DLoad? || d.DWaker? || d.DSetSlot? || d.DBudget? then r.polled == 0
      else Spent(r, Bit(!d.DPoll? && !d.DReset?))
    case Releasing(_, k) => k.QueueReturns? ==> Spent(k.run, 1)
    case _ => true
  }

  predicate AllBudgetsKept(s: State) {
    forall i :: 0 <= i < |s.threads| ==> BudgetKept(s.threads[i])
  }

  lemma RoutineBudgetKept(m: Mode, h: Header, d: RoutinePc, r: Run, c: Choice, h': Header, th': Thread)
    requires RoutineStep(m, h, d, r, c) == Goes(h', th') && BudgetKept(Routine(d, r))
    ensures BudgetKept(th')
  {
    match d
    case DClear => case DLoad => case DWaker => case DSetSlot => case DBudget =>
    case DPoll => case DPolling => case DStore => case DDrop => case DWoken => case DSpend =>
    case DReset => case DAddRef => case DInsert => case DClearSlot =>
  }

  lemma ReleaseBudgetKept(m: Mode, h: Header, r: ReleasePc, k: After, h': Header, th': Thread)
    requires ReleaseStep(m, h, r, k) == Goes(h', th') && BudgetKept(Releasing(r, k))
    ensures BudgetKept(th')
  {
    match r
    case RSub => case RLoad => case RStore => case RDrop => case RDealloc => case RTracker =>
  }

  lemma LocalBudgetKept(m: Mode, h: Header, th: Thread, c: Choice, h': Header, th': Thread)
    requires LocalStep(m, h, th, c) == Goes(h', th') && BudgetKept(th)
    ensures BudgetKept(th')
  {
    match th
    case Releasing(r, k) => ReleaseBudgetKept(m, h, r, k, h', th');
    case Routine(d, r) => RoutineBudgetKept(m, h, d, r, c, h', th');
    case Scheduling(s, _) => match s { case SLoad => case SCas => case SAddRef => case SInsert => }
    case Idle => case Spawning(_) => case MakingHandle => case Cancelling =>
  }

  lemma BudgetsKept(m: Mode, s: State, e: Event)
    requires AllBudgetsKept(s) && Step(m, s, e).Some?
    ensures AllBudgetsKept(Step(m, s, e).value)
  {
    StepShape(m, s, e);
    if e.Advance? {
      var s' := Step(m, s, e).value;
      LocalBudgetKept(m, s.h, s.threads[e.t], e.choice, s'.h, s'.threads[e.t]);
    }
  }

  lemma {:induction false} RunKeepsBudgets(m: Mode, ss: seq<State>, es: seq<Event>, k: nat)
    requires IsRun(m, ss, es) && k < |ss|
    ensures AllBudgetsKept(ss[k])
  {
    if k > 0 {
      RunKeepsBudgets(m, ss, es, k - 1);
      assert Follows(m, ss, es, k - 1);
      BudgetsKept(m, ss[k - 1], es[k - 1]);
    }
  }

  /** The routine, out of budget, has just asked to be queued again. */
  predicate Requeues(s: State, e: Event) {
    e.Advance? && e.t < |s.threads| && s.threads[e.t].Routine? && s.threads[e.t].d.DInsert?
  }

  /** Under a budget of n polls no activation polls more than n + 1 times, and an
    * activation that stops for its budget leaves the KDPC queued. */
  lemma BudgetBound(m: Mode, ss: seq<State>, es: seq<Event>, k: nat, t: nat)
    requires IsRun(m, ss, es) && k < |ss| && t < |ss[k].threads|
    ensures ss[k].threads[t].Routine? && ss[k].threads[t].run.budget.Polls? ==>
              ss[k].threads[t].run.polled <= ss[k].threads[t].run.budget.n + 1
    ensures k < |es| && Requeues(ss[k], es[k]) ==> ss[k + 1].h.queued
  {
    RunKeepsBudgets(m, ss, es, k);
    assert BudgetKept(ss[k].threads[t]);
    if k < |es| {
      assert Follows(m, ss, es, k);
    }
  }

  // ----- When the last poll is made -----

  /** The step by which thread t, after poll p has returned `Pending`, finds itself woken. */
  predicate FindsWoken(s: State, e: Event, t: nat, p: nat) {
    && e.Advance? && e.t == t && t < |s.threads| && s.h.scheduled
    && s.threads[t].Routine? && s.threads[t].d.DWoken? && s.threads[t].run.polled == p
  }

  /** Poll p of the activation returned `Pending` and found `scheduled` set, before state k. */
  ghost predicate Found(ss: seq<State>, es: seq<Event>, k: nat, t: nat, p: nat)
    requires |ss| == |es| + 1 && k < |ss|
  {
    exists j :: 0 <= j < k && FindsWoken(ss[j], es[j], t, p)
  }

  lemma FoundStep(ss: seq<State>, es: seq<Event>, k: nat, t: nat, p: nat)
    requires |ss| == |es| + 1 && 0 < k < |ss|
    ensures Found(ss, es, k, t, p) <==> Found(ss, es, k - 1, t, p) || FindsWoken(ss[k - 1], es[k - 1], t, p)
  {
  }

  /** The routine has not polled since it last found itself woken. */
  predicate FoundLast(d: RoutinePc) {
    d.DSpend? || d.DReset? || d.DPoll? || d.DAddRef? || d.DInsert?
  }

  /** Which polls were found woken, as the thread's own locals tell: all before the last, and
    * the last one at some program points and not at others. */
  predicate FoundUpTo(th: Thread, p: nat, found: bool) {
    match th
    case Routine(d, r) =>
      && (r.polled > 0 || d.DClear? || d.DLoad? || d.DWaker? || d.DSetSlot? || d.DBudget? || d.DPoll?)
      && (1 <= p < r.polled ==> found)
      && (found ==> 1 <= p <= r.polled)
      && (FoundLast(d) && 1 <= p == r.polled ==> found)
      && (p == r.polled && !FoundLast(d) && !d.DClearSlot? ==> !found)
      && (p == r.polled && d.DClearSlot? && found && r.budget.Polls? ==> p == r.budget.n + 1)
      && (d.DAddRef? || d.DInsert? ==> r.budget.Polls? ==> r.left == 0 && r.polled == r.budget.n + 1)
    case Releasing(_, k) =>
      k.QueueReturns? ==> k.run.polled > 0 && (1 <= p <= k.run.polled <==> found)
                          && (k.run.budget.Polls? ==> k.run.polled == k.run.budget.n + 1)
    case _ => true
  }

  lemma RoutineFound(m: Mode, h: Header, d: RoutinePc, r: Run, c: Choice, h': Header, th': Thread, p: nat, found: bool)
    requires RoutineStep(m, h, d, r, c) == Goes(h', th') && BudgetKept(Routine(d, r))
    requires FoundUpTo(Routine(d, r), p, found)
    ensures FoundUpTo(th', p, found || (d.DWoken? && h.scheduled && r.polled == p))
  {
    match d
    case DClear => case DLoad => case DWaker => case DSetSlot => case DBudget =>
    case DPoll => case DPolling => case DStore => case DDrop => case DWoken => case DSpend =>
    case DReset => case DAddRef => case DInsert => case DClearSlot =>
  }

  /** Before its budget is set an activation has not polled, and no thread that is not in the
    * routine finds itself woken. */
  lemma LocalFound(m: Mode, h: Header, th: Thread, c: Choice, h': Header, th': Thread, p: nat, found: bool)
    requires LocalStep(m, h, th, c) == Goes(h', th') && BudgetKept(th) && FoundUpTo(th, p, found)
    ensures FoundUpTo(th', p, found || (th.Routine? && th.d.DWoken? && h.scheduled && th.run.polled == p))
  {
    match th
    case Releasing(r, k) =>
      match r { case RSub => case RLoad => case RStore => case RDrop => case RDealloc => case RTracker => }
    case Routine(d, r) => RoutineFound(m, h, d, r, c, h', th', p, found);
    case Scheduling(s, _) => match s { case SLoad => case SCas => case SAddRef => case SInsert => }
    case Idle => case Spawning(_) => case MakingHandle => case Cancelling =>
  }

  lemma StepFound(m: Mode, s: State, e: Event, s': State, t: nat, p: nat, found: bool)
    requires Step(m, s, e) == Some(s') && AllBudgetsKept(s)
    requires if t < |s.threads| then FoundUpTo(s.threads[t], p, found) else !found
    ensures var found' := found || FindsWoken(s, e, t, p);
            if t < |s'.threads| then FoundUpTo(s'.threads[t], p, found') else !found'
  {
    StepShape(m, s, e);
    if e.Advance? && e.t == t {
      assert BudgetKept(s.threads[t]);
      LocalFound(m, s.h, s.threads[t], e.choice, s'.h, s'.threads[t], p, found);
    }
  }

  lemma {:induction false} RunFound(m: Mode, ss: seq<State>, es: seq<Event>, k: nat, t: nat, p: nat)
    requires IsRun(m, ss, es) && k < |ss|
    ensures if t < |ss[k].threads| then FoundUpTo(ss[k].threads[t], p, Found(ss, es, k, t, p))
            else !Found(ss, es, k, t, p)
  {
    if k > 0 {
      RunFound(m, ss, es, k - 1, t, p);
      RunKeepsBudgets(m, ss, es, k - 1);
      assert Follows(m, ss, es, k - 1);
      StepFound(m, ss[k - 1], es[k - 1], ss[k], t, p, Found(ss, es, k - 1, t, p));
      FoundStep(ss, es, k, t, p);
    }
  }

  /** The activation has made its last poll. */
  predicate PollsOver(d: RoutinePc) {
    d.DStore? || d.DDrop? || d.DAddRef? || d.DInsert? || d.DClearSlot?
  }

  /** An activation under a budget of n polls makes poll n + 1 exactly when each of its first n
    * polls returned `Pending` and found `scheduled` set. */
  lemma LastPollExactly(m: Mode, ss: seq<State>, es: seq<Event>, k: nat, t: nat)
    requires IsRun(m, ss, es) && k < |ss| && t < |ss[k].threads|
    requires ss[k].threads[t].Routine? && PollsOver(ss[k].threads[t].d) && ss[k].threads[t].run.budget.Polls?
    ensures var r := ss[k].threads[t].run;
            r.polled == r.budget.n + 1 <==> forall p :: 1 <= p <= r.budget.n ==> Found(ss, es, k, t, p)
  {
    var r := ss[k].threads[t].run;
    BudgetBound(m, ss, es, k, t);
    forall p | 1 <= p <= r.budget.n && r.polled == r.budget.n + 1 ensures Found(ss, es, k, t, p) {
      RunFound(m, ss, es, k, t, p);
    }
    RunFound(m, ss, es, k, t, r.polled);
  }

  // ----- The bound is reached -----

  /** One round of the loop, from a poll to the look at the budget. */
  lemma Round(ss: seq<State>, es: seq<Event>, s: State, t: nat, r: Run)
    returns (ss': seq<State>, es': seq<Event>, s': State)
    requires RunTo(ss, es, s) && Alone(s, t, Routine(DPoll, r)) && !s.h.scheduled
    ensures RunTo(ss', es', s') && Alone(s', t, Routine(DSpend, r.(polled := r.polled + 1)))
  {
    var r' := r.(polled := r.polled + 1);
    ss', es', s' := PollBegun(ss, es, s, t, r);
    ss', es', s' := WakesItself(ss', es', s', t, r');
    ss', es', s' := PollReturns(ss', es', s', t, r');
  }

  /** The poll returns `Pending` and the routine finds itself woken. */
  lemma PollReturns(ss: seq<State>, es: seq<Event>, s: State, t: nat, r: Run)
    returns (ss': seq<State>, es': seq<Event>, s': State)
    requires RunTo(ss, es, s) && Alone(s, t, Routine(DPolling, r)) && s.h.scheduled
    ensures RunTo(ss', es', s') && Alone(s', t, Routine(DSpend, r))
  {
    var next := State(s.h, s.threads[t := Routine(DWoken, r)]);
    assert NoBorrows(next);
    ss', es' := Extend(ss, es, s, Advance(t, PENDING), next);
    ss', es', s' := Go(ss', es', next, t, PENDING, next.h, Routine(DSpend, r));
  }

  lemma GoesRound(ss: seq<State>, es: seq<Event>, s: State, t: nat, r: Run)
    returns (ss': seq<State>, es': seq<Event>, s': State)
    requires RunTo(ss, es, s) && Alone(s, t, Routine(DSpend, r)) && r.budget.Polls? && r.left > 0
    ensures RunTo(ss', es', s') && Alone(s', t, Routine(DPoll, r.(left := r.left - 1))) && !s'.h.scheduled
  {
    var r' := r.(left := r.left - 1);
    ss', es', s' := Go(ss, es, s, t, PENDING, s.h, Routine(DReset, r'));
    ss', es', s' := Go(ss', es', s', t, PENDING, s'.h.(scheduled := false), Routine(DPoll, r'));
  }

  lemma {:induction false} Rounds(ss: seq<State>, es: seq<Event>, s: State, t: nat, n: nat, left: nat)
    returns (ss': seq<State>, es': seq<Event>, s': State)
    requires left <= n && !s.h.scheduled
    requires RunTo(ss, es, s) && Alone(s, t, Routine(DPoll, Run(None, Polls(n), left, n - left)))
    ensures RunTo(ss', es', s') && Alone(s', t, Routine(DAddRef, Run(None, Polls(n), 0, n + 1)))
    decreases left
  {
    ss', es', s' := Round(ss, es, s, t, Run(None, Polls(n), left, n - left));
    var r := Run(None, Polls(n), left, n - left + 1);
    if left == 0 {
      ss', es', s' := Go(ss', es', s', t, PENDING, s'.h, Routine(DAddRef, r));
    } else {
      ss', es', s' := GoesRound(ss', es', s', t, r);
      ss', es', s' := Rounds(ss', es', s', t, n, left - 1);
    }
  }

  /** For every n the documented bound of n polls fails: there is a run, with activations that
    * do not overlap and no cancellation, in which a future that wakes itself in each poll is
    * polled n + 1 times by one activation before the routine queues itself again. */
  lemma BudgetReached(n: nat) returns (ss: seq<State>, es: seq<Event>, t: nat)
    ensures IsSerialRun(Hardened, ss, es) && t < |ss[|es|].threads|
    ensures ss[|es|].threads[t] == Routine(DAddRef, Run(None, Polls(n), 0, n + 1))
  {
    var s;
    ss, es, s := Started(Polls(n), false, None);
    t := 1;
    ss, es, s := Rounds(ss, es, s, 1, n, n);
  }
}
