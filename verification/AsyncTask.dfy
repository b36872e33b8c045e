/** An asynchronous operation together with the executor task that runs it and the object whose
  * method it is. The polls and the drop of the operation's future are those that the executor
  * makes, and a cancellation request is taken exactly when the executor's flag is exchanged, so
  * what the balance of references rests on is proved here and not assumed. */
module AsyncTask {
  import opened Basics
  import opened RefCount
  import opened DpcTask
  import opened DpcTaskProofs
  import O = AsyncOperation
  import C = Cancellable
  import G = ReleaseGuard

  /** The object whose method was called: its count, the references of its clients, the guard
    * that holds the call's own reference, whether the first poll reached that guard, how often
    * the reference was given back, and how often the object was freed. */
  datatype Target = Target(refCount: nat, clients: nat, guard: G.Guard, started: bool, givenBack: nat, frees: nat)

  /** What the task carries: `asked` are the threads in whose present poll the operation's own
    * `Cancellable` has asked for the request, which it does first of all, `took` those in which it
    * got it, and `taken` says whether it ever did. */
  datatype Async<V> = Async(op: O.Operation<V>, target: Target, asked: set<nat>, took: set<nat>, taken: bool)

  /** The guard does what it does when these acts happen to the future around it. */
  function Acted<V>(x: Target, acts: seq<C.Act<V>>): Option<Target> {
    var n := G.Releases(x.guard, acts);
    if n > x.refCount then None
    else Some(x.(refCount := x.refCount - n, guard := G.GuardAfterAll(x.guard, acts), givenBack := x.givenBack + n,
                 frees := x.frees + Bit(n > 0 && x.refCount == n)))
  }

  /** A poll returns: the operation's future took the request if this poll did, and is finished
    * if the executor sees `Ready`. */
  function Polled<V>(x: Async<V>, t: nat, ready: bool, a: C.Answers<V>): Option<Async<V>> {
    if t !in x.asked || a.requested != (t in x.took) then None
    else
      match O.OperationStep(x.op, O.PollTask(a))
      case None => None
      case Some(op) =>
        if ready != op.phase.Returned? then None
        else
          var started := if x.op.phase.Unresumed? then !a.requested else x.target.started;
          match Acted(x.target.(started := started), C.PollActs(x.op.inner, a))
          case None => None
          case Some(target) => Some(Async(op, target, x.asked - {t}, x.took - {t}, x.taken))
  }

  /** The executor drops the future. */
  function Dropped<V>(x: Async<V>): Option<Async<V>> {
    match O.OperationStep(x.op, O.DropTask)
    case None => None
    case Some(op) =>
      match Acted<V>(x.target, C.DropActs(x.op.inner))
      case None => None
      case Some(target) => Some(x.(op := op, target := target))
  }

  /** The operation's own `Cancellable` asks: once in a poll, before it polls anything. */
  function Asks<V>(x: Async<V>, t: nat, gets: bool): Option<Async<V>> {
    if t in x.asked then None
    else if gets then Some(x.(asked := x.asked + {t}, took := x.took + {t}, taken := true))
    else Some(x.(asked := x.asked + {t}))
  }

  /** What an executor step means for the operation. A request may also be taken by a
    * `Cancellable` nested inside the user's future, which is polled after the own one asked. */
  function AsyncStep<V>(s: State, x: Async<V>, e: Event, own: bool, a: C.Answers<V>): Option<Async<V>> {
    if e.TakeRequest? then if own then Asks(x, e.t, true) else if e.t in x.asked then Some(x) else None
    else if !e.Advance? || e.t >= |s.threads| then Some(x)
    else if BeginsPoll(s.threads[e.t]) then Some(x.(asked := x.asked - {e.t}, took := x.took - {e.t}))
    else if InPoll(s.threads[e.t]) then Polled(x, e.t, e.choice.ready, a)
    else if Dropping(s.threads[e.t]) then Dropped(x)
    else Some(x)
  }

  // ----- How the two stand together -----

  function Polling(th: Thread): nat {
    Bit(InPoll(th))
  }

  /** The future is where the executor has brought it. */
  predicate Placed<V>(s: State, x: Async<V>) {
    && (x.op.phase.Unresumed? ==> s.h.polls == Sum(s.threads, Polling))
    && (s.h.drops > 0 <==> x.op.phase.Dropped?)
    && (s.h.drops == 0 ==> (s.h.ready <==> x.op.phase.Returned?))
  }

  /** Every count is the references owned, and each object is freed once, at zero. */
  predicate Counted<V>(x: Async<V>) {
    && O.Balanced(x.op) && (x.op.phase.Returned? ==> x.op.inner.Done?)
    && x.target.refCount == x.target.clients + Bit(!x.target.guard.Spent?)
    && x.target.givenBack == Bit(x.target.guard.Spent?)
    && x.target.frees == Bit(x.target.refCount == 0)
    && if x.op.phase.Dropped? then x.target.guard == (if x.target.started then G.Spent else G.Unborn)
       else G.GuardFits(x.op.inner, !x.op.phase.Unresumed?, x.target.started, x.target.guard)
  }

  /** What is known of the cancellation request. */
  predicate Asked<V>(s: State, x: Async<V>) {
    && (forall t :: t in x.asked ==> t < |s.threads| && InPoll(s.threads[t])) && x.took <= x.asked
    && (x.taken ==> s.h.cancelRequested == 2)
    && (x.taken <==> x.op.cells.status.Canceled? || x.took != {})
    && (x.op.phase.Returned? ==> x.op.cells.status.Canceled? || x.op.cells.status.Completed?)
    && (O.TaskHolds(x.op.phase) ==> x.op.cells.status.Started?)
    && (!x.op.phase.Unresumed? && !x.target.started ==> x.taken)
  }

  predicate Fits<V>(s: State, x: Async<V>) {
    Placed(s, x) && Counted(x) && Asked(s, x)
  }

  // ----- What a thread's step does to the future -----

  predicate FutureMoves(h: Header, th: Thread, c: Choice, h': Header, th': Thread) {
    && (InPoll(th') <==> BeginsPoll(th))
    && h'.polls == h.polls + Bit(BeginsPoll(th))
    && h'.drops == h.drops + Bit(Dropping(th))
    && h'.ready == (h.ready || (InPoll(th) && c.ready))
  }

  lemma RoutineFutureMoves(m: Mode, h: Header, d: RoutinePc, r: Run, c: Choice, h': Header, th': Thread)
    requires RoutineStep(m, h, d, r, c) == Goes(h', th')
    ensures FutureMoves(h, Routine(d, r), c, h', th')
  {
    match d
    case DClear => case DLoad => case DWaker => case DSetSlot => case DBudget =>
    case DPoll => case DPolling => case DStore => case DDrop => case DWoken => case DSpend =>
    case DReset => case DAddRef => case DInsert => case DClearSlot =>
  }

  lemma ReleaseFutureMoves(m: Mode, h: Header, r: ReleasePc, k: After, c: Choice, h': Header, th': Thread)
    requires ReleaseStep(m, h, r, k) == Goes(h', th')
    ensures FutureMoves(h, Releasing(r, k), c, h', th')
  {
    match r
    case RSub => case RLoad => case RStore => case RDrop => case RDealloc => case RTracker =>
  }

  lemma ScheduleFutureMoves(m: Mode, h: Header, s: SchedulePc, k: Caller, c: Choice, h': Header, th': Thread)
    requires ScheduleStep(m, h, s, k) == Goes(h', th')
    ensures FutureMoves(h, Scheduling(s, k), c, h', th')
  {
    match s
    case SLoad => case SCas => case SAddRef => case SInsert =>
  }

  lemma LocalFutureMoves(m: Mode, h: Header, th: Thread, c: Choice, h': Header, th': Thread)
    requires LocalStep(m, h, th, c) == Goes(h', th')
    ensures FutureMoves(h, th, c, h', th')
  {
    match th
    case Scheduling(s, k) => ScheduleFutureMoves(m, h, s, k, c, h', th');
    case Releasing(r, k) => ReleaseFutureMoves(m, h, r, k, c, h', th');
    case Routine(d, r) => RoutineFutureMoves(m, h, d, r, c, h', th');
    case Idle => case Spawning(_) => case MakingHandle => case Cancelling =>
  }

  /** A thread that is about to drop the future finds it polled before, and not dropped. */
  lemma DropComesAfterPoll<V>(s: State, x: Async<V>, t: nat)
    requires Inv(s) && SerialInv(s) && Placed(s, x) && t < |s.threads| && Dropping(s.threads[t])
    ensures !x.op.phase.Unresumed? && !x.op.phase.Dropped?
  {
    assert Knows(s.h, s.threads[t]);
    if s.threads[t].Releasing? {
      SumAt(s.threads, Destroyer, t);
      ZeroMeansPolled(s);
      forall i | 0 <= i < |s.threads| ensures Polling(s.threads[i]) == 0 {
        ZeroMeansOver(s, i);
      }
      SumOfZeros(s.threads, Polling);
    }
  }

  /** A thread that polls the future finds it neither finished nor dropped. */
  lemma PollFindsFuture<V>(s: State, x: Async<V>, t: nat)
    requires SerialInv(s) && Placed(s, x) && t < |s.threads| && UsesFuture(s.threads[t])
    requires BeginsPoll(s.threads[t]) || InPoll(s.threads[t])
    ensures s.h.drops == 0 && O.TaskHolds(x.op.phase)
  {
    assert Knows(s.h, s.threads[t]);
  }

  // ----- Every step keeps them together -----

  lemma PollKeepsCounted<V>(x: Async<V>, t: nat, ready: bool, a: C.Answers<V>, x': Async<V>)
    requires Counted(x) && O.TaskHolds(x.op.phase) && Polled(x, t, ready, a) == Some(x')
    ensures Counted(x') && x'.op.phase == (if ready then O.Returned else O.Suspended)
    ensures a.requested ==> x'.op.cells.status.Canceled?
    ensures ready && !a.requested ==> x'.op.cells.status.Completed?
    ensures !ready ==> x'.op.cells == x.op.cells && !a.requested
    ensures ready ==> if a.requested then x'.op.cells == O.StoredCanceled(x.op.cells)
                      else a.main.Some? && x'.op.cells == O.Stored(a.main.value)
    ensures x'.target.started == if x.op.phase.Unresumed? then !a.requested else x.target.started
  {
    O.BalancedKept(x.op, O.PollTask(a));
    G.PollMovesGuard(x.op.inner, a, !x.op.phase.Unresumed?, x.target.started, x.target.guard);
  }

  lemma DropKeepsCounted<V>(x: Async<V>, x': Async<V>)
    requires Counted(x) && !x.op.phase.Unresumed? && Dropped(x) == Some(x')
    ensures Counted(x') && x'.op.phase.Dropped? && x'.op.cells == x.op.cells && x'.target.started == x.target.started
  {
    O.BalancedKept(x.op, O.DropTask);
    G.DropMovesGuard<V>(x.op.inner, x.target.guard);
    G.DropSpendsGuard<V>(x.op.inner, x.target.guard);
  }

  lemma PollKeepsFits<V>(
    s: State, x: Async<V>, t: nat, c: Choice, a: C.Answers<V>, h': Header, th': Thread, x': Async<V>)
    requires SerialInv(s) && Fits(s, x) && t < |s.threads| && InPoll(s.threads[t])
    requires FutureMoves(s.h, s.threads[t], c, h', th') && h'.cancelRequested == s.h.cancelRequested
    requires Polled(x, t, c.ready, a) == Some(x')
    ensures Fits(State(h', s.threads[t := th']), x')
  {
    PollFindsFuture(s, x, t);
    PollKeepsCounted(x, t, c.ready, a, x');
    forall i | i in x.asked ensures i == t {
      if i != t {
        SumTwo(s.threads, Active, if i < t then i else t, if i < t then t else i);
      }
    }
    assert x'.took == {} && x'.asked == {};
  }

  lemma DropKeepsFits<V>(s: State, x: Async<V>, t: nat, c: Choice, h': Header, th': Thread, x': Async<V>)
    requires Inv(s) && SerialInv(s) && Fits(s, x) && t < |s.threads| && Dropping(s.threads[t])
    requires FutureMoves(s.h, s.threads[t], c, h', th') && h'.cancelRequested == s.h.cancelRequested
    requires Dropped(x) == Some(x')
    ensures Fits(State(h', s.threads[t := th']), x')
  {
    DropComesAfterPoll(s, x, t);
    DropKeepsCounted(x, x');
  }

  /** A thread's step that neither ends a poll nor drops the future. */
  lemma OtherKeepsFits<V>(s: State, x: Async<V>, t: nat, c: Choice, h': Header, th': Thread, x': Async<V>)
    requires SerialInv(s) && Fits(s, x) && t < |s.threads| && !InPoll(s.threads[t]) && !Dropping(s.threads[t])
    requires FutureMoves(s.h, s.threads[t], c, h', th')
    requires s.h.cancelRequested == 2 ==> h'.cancelRequested == 2
    requires x' == if BeginsPoll(s.threads[t]) then x.(asked := x.asked - {t}, took := x.took - {t}) else x
    ensures Fits(State(h', s.threads[t := th']), x')
  {
    assert t !in x.asked && t !in x.took;
    assert x.took - {t} == x.took && x.asked - {t} == x.asked;
    SumUpdate(s.threads, Polling, t, th');
  }

  lemma AdvanceKeepsFits<V>(
    m: Mode, s: State, x: Async<V>, e: Event, own: bool, a: C.Answers<V>, s': State, x': Async<V>)
    requires Inv(s) && SerialInv(s) && Fits(s, x) && e.Advance?
    requires Step(m, s, e) == Some(s') && AsyncStep(s, x, e, own, a) == Some(x')
    ensures Fits(s', x')
  {
    var t := e.t;
    StepShape(m, s, e);
    CancelMoves(m, s, e);
    LocalFutureMoves(m, s.h, s.threads[t], e.choice, s'.h, s'.threads[t]);
    assert s' == State(s'.h, s.threads[t := s'.threads[t]]);
    if InPoll(s.threads[t]) {
      PollKeepsFits(s, x, t, e.choice, a, s'.h, s'.threads[t], x');
    } else if Dropping(s.threads[t]) {
      DropKeepsFits(s, x, t, e.choice, s'.h, s'.threads[t], x');
    } else {
      OtherKeepsFits(s, x, t, e.choice, s'.h, s'.threads[t], x');
    }
  }

  /** What starts a call, clones a waker or takes a request leaves the future where it is. */
  lemma StartLeavesFuture(m: Mode, s: State, e: Event, s': State)
    requires Effect(m, s, e) == Some(s') && !e.Advance?
    ensures s'.h.polls == s.h.polls && s'.h.drops == s.h.drops && s'.h.ready == s.h.ready
    ensures Starts(e) ==> |s'.threads| == |s.threads| + 1 && Polling(s'.threads[|s.threads|]) == 0
  {
    match e
    case Advance(_, _) => case RunDpc(_) => case CloneWaker => case TakeRequest(_) => case Wake =>
    case WakeByRef => case DropWaker => case Cancel => case DropHandle =>
  }

  lemma TakeKeepsFits<V>(m: Mode, s: State, x: Async<V>, e: Event, own: bool, a: C.Answers<V>, s': State, x': Async<V>)
    requires SerialInv(s) && Fits(s, x) && e.TakeRequest?
    requires Step(m, s, e) == Some(s') && AsyncStep(s, x, e, own, a) == Some(x')
    ensures Fits(s', x')
  {
    if own {
      PollFindsFuture(s, x, e.t);
      assert e.t in x'.took;
    }
  }

  lemma StartKeepsFits<V>(m: Mode, s: State, x: Async<V>, e: Event, s': State)
    requires Fits(s, x) && !e.Advance? && !e.TakeRequest? && Step(m, s, e) == Some(s')
    ensures Fits(s', x)
  {
    StepShape(m, s, e);
    StartLeavesFuture(m, s, e, s');
    CancelMoves(m, s, e);
    if Starts(e) {
      SumAppend(s.threads, Polling, s'.threads[|s.threads|]);
    }
    forall t | t in x.asked ensures t < |s'.threads| && s'.threads[t] == s.threads[t] {}
  }

  lemma StepKeepsFits<V>(m: Mode, s: State, x: Async<V>, e: Event, own: bool, a: C.Answers<V>, s': State, x': Async<V>)
    requires Inv(s) && SerialInv(s) && Fits(s, x)
    requires Step(m, s, e) == Some(s') && AsyncStep(s, x, e, own, a) == Some(x')
    ensures Fits(s', x')
  {
    if e.Advance? {
      AdvanceKeepsFits(m, s, x, e, own, a, s', x');
    } else if e.TakeRequest? {
      TakeKeepsFits(m, s, x, e, own, a, s', x');
    } else {
      StartKeepsFits(m, s, x, e, s');
    }
  }

  /** How the futures behave: a request is taken for the operation exactly when it had not asked
    * before; a poll ends after it has asked, with the answers that the executor's step shows. The
    * cleanup of an operation is an empty block. */
  predicate Consistent<V>(s: State, x: Async<V>, e: Event, own: bool, a: C.Answers<V>) {
    && (e.TakeRequest? ==> own == (e.t !in x.asked))
    && (e.Advance? && e.t < |s.threads| && InPoll(s.threads[e.t]) ==>
          && e.t in x.asked && a.cleanup && a.requested == (e.t in x.took)
          && e.choice.ready == (a.requested || a.main.Some?))
  }

  /** Whatever the executor does the operation can follow: no release finds a count at zero and
    * no future is polled after it is finished or dropped. */
  lemma NeverBlocked<V>(m: Mode, s: State, x: Async<V>, e: Event, own: bool, a: C.Answers<V>)
    requires Inv(s) && SerialInv(s) && Fits(s, x) && Step(m, s, e).Some? && Consistent(s, x, e, own, a)
    ensures AsyncStep(s, x, e, own, a).Some?
  {
    if e.Advance? && InPoll(s.threads[e.t]) {
      PollFindsFuture(s, x, e.t);
      G.PollMovesGuard(x.op.inner, a, !x.op.phase.Unresumed?, x.target.started, x.target.guard);
    } else if e.Advance? && Dropping(s.threads[e.t]) {
      DropComesAfterPoll(s, x, e.t);
      G.DropMovesGuard<V>(x.op.inner, x.target.guard);
    }
  }

  // ----- Whole runs -----

  datatype Joint<V> = Joint(s: State, x: Async<V>)

  /** A step of the executor on the task; the operation's own `Cancellable` asking in vain; or a
    * client adding or giving up a reference to the operation or to the target. */
  datatype JointEvent<V> =
    | Exec(e: Event, own: bool, a: C.Answers<V>)
    | AskInVain(t: nat)
    | Client(up: bool, onTarget: bool)

  function ClientOnTarget(x: Target, up: bool): Option<Target> {
    if x.clients == 0 || x.refCount == 0 then None
    else if up then Some(x.(refCount := x.refCount + 1, clients := x.clients + 1))
    else Some(x.(refCount := x.refCount - 1, clients := x.clients - 1, frees := x.frees + Bit(x.refCount == 1)))
  }

  function ClientStep<V>(x: Async<V>, up: bool, onTarget: bool): Option<Async<V>> {
    if onTarget then
      match ClientOnTarget(x.target, up)
      case None => None
      case Some(target) => Some(x.(target := target))
    else
      match O.OperationStep(x.op, if up then O.ClientAddRef else O.ClientRelease)
      case None => None
      case Some(op) => Some(x.(op := op))
  }

  /** `take_cancellation_request` fails in this poll: no request is pending, or the processor has no
    * slot. */
  predicate Refused(s: State, t: nat) {
    t < |s.threads| && InPoll(s.threads[t]) && (s.h.cancelRequested != 1 || s.threads[t].run.cpu.None?)
  }

  /** What an event does to the operation and its target. */
  function PartStep<V>(s: State, x: Async<V>, ev: JointEvent<V>): Option<Async<V>> {
    match ev
    case Exec(e, own, a) => AsyncStep(s, x, e, own, a)
    case AskInVain(t) => if Refused(s, t) then Asks(x, t, false) else None
    case Client(up, onTarget) => ClientStep(x, up, onTarget)
  }

  function JointStep<V>(m: Mode, j: Joint<V>, ev: JointEvent<V>): Option<Joint<V>> {
    match PartStep(j.s, j.x, ev)
    case None => None
    case Some(x') =>
      if !ev.Exec? then Some(Joint(j.s, x'))
      else
        match Step(m, j.s, ev.e)
        case None => None
        case Some(s') => Some(Joint(s', x'))
  }

  /** The spawn has just succeeded: the caller and the task own one reference each to the
    * operation, and the call one to the target beside those of its clients. */
  function Called<V>(wantsHandle: bool, clients: nat): Joint<V> {
    Joint(Init(wantsHandle), Async(O.Spawned(), Target(clients + 1, clients, G.Unborn, false, 0, 0), {}, {}, false))
  }

  ghost predicate JointFollows<V>(m: Mode, js: seq<Joint<V>>, es: seq<JointEvent<V>>, i: nat)
    requires |js| == |es| + 1 && i < |es|
  {
    && JointStep(m, js[i], es[i]) == Some(js[i + 1]) && Countable(m, js[i + 1].s)
    && (es[i].Exec? ==> Serial(js[i].s, es[i].e))
  }

  ghost predicate IsJointRun<V>(m: Mode, js: seq<Joint<V>>, es: seq<JointEvent<V>>) {
    && |js| == |es| + 1
    && (exists wantsHandle, clients :: js[0] == Called(wantsHandle, clients))
    && (forall i :: 0 <= i < |es| ==> JointFollows(m, js, es, i))
  }

  lemma JointRunGrows<V>(m: Mode, js: seq<Joint<V>>, es: seq<JointEvent<V>>, ev: JointEvent<V>, j': Joint<V>)
    requires IsJointRun(m, js, es) && JointStep(m, js[|es|], ev) == Some(j') && Countable(m, j'.s)
    requires ev.Exec? ==> Serial(js[|es|].s, ev.e)
    ensures IsJointRun(m, js + [j'], es + [ev])
  {
    var js', es' := js + [j'], es + [ev];
    assert js'[0] == js[0];
    forall i | 0 <= i < |es'| ensures JointFollows(m, js', es', i) {
      if i < |es| {
        assert JointFollows(m, js, es, i);
      }
    }
  }

  /** The task of a call makes a serial run, so `FutureLifecycle` holds of it. */
  lemma {:induction false} TaskOfCallRuns<V>(m: Mode, js: seq<Joint<V>>, es: seq<JointEvent<V>>, k: nat)
    returns (ss: seq<State>, ts: seq<Event>)
    requires IsJointRun(m, js, es) && k < |js|
    ensures IsSerialRun(m, ss, ts) && ss[|ts|] == js[k].s
  {
    if k == 0 {
      var wantsHandle, clients :| js[0] == Called(wantsHandle, clients);
      ss, ts := [js[0].s], [];
      assert ss[0] == Init(wantsHandle);
    } else {
      ss, ts := TaskOfCallRuns(m, js, es, k - 1);
      assert JointFollows(m, js, es, k - 1);
      if es[k - 1].Exec? {
        SerialRunGrows(m, ss, ts, es[k - 1].e, js[k].s);
        ss, ts := ss + [js[k].s], ts + [es[k - 1].e];
      }
    }
  }

  lemma CallTaskInv<V>(m: Mode, js: seq<Joint<V>>, es: seq<JointEvent<V>>, k: nat)
    requires IsJointRun(m, js, es) && k < |js|
    ensures Inv(js[k].s) && SerialInv(js[k].s)
    ensures js[k].s.h.freed ==> js[k].s.h.drops == 1
  {
    var ss, ts := TaskOfCallRuns(m, js, es, k);
    RunKeepsInv(m, ss, ts, |ts|);
    SerialRunKeepsInv(m, ss, ts, |ts|);
    FutureLifecycle(m, ss, ts, |ts|);
  }

  lemma ClientKeepsFits<V>(s: State, x: Async<V>, up: bool, onTarget: bool, x': Async<V>)
    requires Fits(s, x) && ClientStep(x, up, onTarget) == Some(x')
    ensures Fits(s, x')
  {
    if !onTarget {
      O.BalancedKept(x.op, if up then O.ClientAddRef else O.ClientRelease);
    }
  }

  lemma AskKeepsFits<V>(s: State, x: Async<V>, t: nat, x': Async<V>)
    requires Fits(s, x) && t < |s.threads| && InPoll(s.threads[t]) && Asks(x, t, false) == Some(x')
    ensures Fits(s, x')
  {
  }

  lemma CalledFits<V>(j: Joint<V>, wantsHandle: bool, clients: nat)
    requires j == Called(wantsHandle, clients)
    ensures Fits(j.s, j.x)
  {
    SumOne(j.s.threads[0], Polling);
  }

  lemma JointStepKeepsFits<V>(m: Mode, j: Joint<V>, ev: JointEvent<V>, j': Joint<V>)
    requires Inv(j.s) && SerialInv(j.s) && Fits(j.s, j.x) && JointStep(m, j, ev) == Some(j')
    ensures Fits(j'.s, j'.x)
  {
    match ev
    case Exec(e, own, a) => StepKeepsFits(m, j.s, j.x, e, own, a, j'.s, j'.x);
    case AskInVain(t) => AskKeepsFits(j.s, j.x, t, j'.x);
    case Client(up, onTarget) => ClientKeepsFits(j.s, j.x, up, onTarget, j'.x);
  }

  lemma {:induction false} CallFits<V>(m: Mode, js: seq<Joint<V>>, es: seq<JointEvent<V>>, k: nat)
    requires IsJointRun(m, js, es) && k < |js|
    ensures Fits(js[k].s, js[k].x)
  {
    if k == 0 {
      var wantsHandle, clients :| js[0] == Called(wantsHandle, clients);
      CalledFits(js[0], wantsHandle, clients);
    } else {
      CallFits(m, js, es, k - 1);
      CallTaskInv(m, js, es, k - 1);
      assert JointFollows(m, js, es, k - 1);
      JointStepKeepsFits(m, js[k - 1], es[k - 1], js[k]);
    }
  }

  /** The operation of a call makes a run of the operation machine, in which the future is
    * polled before it is dropped: the executor's guarantee is what `TaskReferenceBalance`
    * rests on. */
  lemma {:induction false} OperationOfCallRuns<V>(m: Mode, js: seq<Joint<V>>, es: seq<JointEvent<V>>, k: nat)
    returns (os: seq<O.Operation<V>>, oes: seq<O.OperationEvent<V>>)
    requires IsJointRun(m, js, es) && k < |js|
    ensures O.IsOperationRun(os, oes) && os[|oes|] == js[k].x.op
  {
    if k == 0 {
      os, oes := [js[0].x.op], [];
    } else {
      os, oes := OperationOfCallRuns(m, js, es, k - 1);
      assert JointFollows(m, js, es, k - 1);
      CallFits(m, js, es, k - 1);
      CallTaskInv(m, js, es, k - 1);
      var oe := OperationEventOf(js[k - 1].s, js[k - 1].x, es[k - 1], js[k].x);
      if oe.Some? {
        O.OperationRunGrows(os, oes, oe.value, js[k].x.op);
        os, oes := os + [js[k].x.op], oes + [oe.value];
      }
    }
  }

  /** What a step is for the operation alone. */
  lemma OperationEventOf<V>(
    s: State, x: Async<V>, ev: JointEvent<V>, x': Async<V>)
    returns (oe: Option<O.OperationEvent<V>>)
    requires Inv(s) && SerialInv(s) && Fits(s, x)
    requires PartStep(s, x, ev) == Some(x')
    ensures match oe
            case None => x'.op == x.op
            case Some(v) => O.OperationStep(x.op, v) == Some(x'.op) && O.PolledFirst(x.op, v)
  {
    oe := None;
    match ev
    case AskInVain(_) =>
    case Client(up, onTarget) =>
      if !onTarget {
        oe := Some(if up then O.ClientAddRef else O.ClientRelease);
      }
    case Exec(e, own, a) =>
      if e.Advance? && e.t < |s.threads| {
        if InPoll(s.threads[e.t]) {
          oe := Some(O.PollTask(a));
        } else if Dropping(s.threads[e.t]) {
          DropComesAfterPoll(s, x, e.t);
          oe := Some(O.DropTask);
        }
      }
  }

  // ----- No handle, no cancellation -----

  /** Nobody cancels: the handle stays inside `spawn_raw`, which drops it. */
  ghost predicate NeverCancelled<V>(es: seq<JointEvent<V>>) {
    forall i :: 0 <= i < |es| && es[i].Exec? ==> !es[i].e.Cancel?
  }

  predicate Uncancelled(s: State) {
    s.h.cancelRequested == 0 && forall i :: 0 <= i < |s.threads| ==> !s.threads[i].Cancelling?
  }

  lemma LocalNeverCancels(m: Mode, h: Header, th: Thread, c: Choice, h': Header, th': Thread)
    requires LocalStep(m, h, th, c) == Goes(h', th')
    ensures !th'.Cancelling?
  {
    match th
    case Scheduling(s, _) => match s { case SLoad => case SCas => case SAddRef => case SInsert => }
    case Releasing(r, _) =>
      match r { case RSub => case RLoad => case RStore => case RDrop => case RDealloc => case RTracker => }
    case Routine(d, _) =>
      match d { case DClear => case DLoad => case DWaker => case DSetSlot => case DBudget =>
        case DPoll => case DPolling => case DStore => case DDrop => case DWoken => case DSpend =>
        case DReset => case DAddRef => case DInsert => case DClearSlot => }
    case Idle => case Spawning(_) => case MakingHandle => case Cancelling =>
  }

  lemma UncancelledKept(m: Mode, s: State, e: Event, s': State)
    requires Uncancelled(s) && Step(m, s, e) == Some(s') && !e.Cancel?
    ensures Uncancelled(s')
  {
    StepShape(m, s, e);
    CancelMoves(m, s, e);
    if e.Advance? {
      LocalNeverCancels(m, s.h, s.threads[e.t], e.choice, s'.h, s'.threads[e.t]);
    }
  }

  lemma {:induction false} CallUncancelled<V>(m: Mode, js: seq<Joint<V>>, es: seq<JointEvent<V>>, k: nat)
    requires IsJointRun(m, js, es) && NeverCancelled(es) && k < |js|
    ensures Uncancelled(js[k].s)
  {
    if k > 0 {
      CallUncancelled(m, js, es, k - 1);
      assert JointFollows(m, js, es, k - 1);
      if es[k - 1].Exec? {
        UncancelledKept(m, js[k - 1].s, es[k - 1].e, js[k].s);
      }
    }
  }

  // ----- The theorems -----

  /** Each count is the references of the clients and the one that the call still owns; each of
    * these two is given back at most once; each object is freed exactly once, exactly when its
    * count is zero, whoever gave the last reference back. When the task's block is freed the
    * operation's reference has been given back, and so has the target's if and only if the
    * first poll did not take a cancellation request. */
  predicate InBalance<V>(s: State, x: Async<V>) {
    && x.op.refCount == x.op.clients + 1 - x.op.givenBack && x.op.givenBack <= 1
    && x.op.frees == (if x.op.refCount == 0 then 1 else 0)
    && x.target.refCount == x.target.clients + 1 - x.target.givenBack && x.target.givenBack <= 1
    && x.target.frees == (if x.target.refCount == 0 then 1 else 0)
    && (s.h.freed ==> x.op.givenBack == 1 && (x.target.givenBack == 1 <==> x.target.started))
  }

  /** The balance of an asynchronous call, from the spawn to the end of its task and beyond, with
    * clients of the operation and of the target acting at any time. Where nobody cancels, as in
    * a method call, whose handle is dropped at once, the target's reference too has been given
    * back when the task's block is freed. */
  lemma AsyncCallBalance<V>(m: Mode, js: seq<Joint<V>>, es: seq<JointEvent<V>>, k: nat)
    requires IsJointRun(m, js, es) && k < |js|
    ensures InBalance(js[k].s, js[k].x)
    ensures js[k].s.h.freed && NeverCancelled(es) ==> js[k].x.target.givenBack == 1
  {
    CallFits(m, js, es, k);
    CallTaskInv(m, js, es, k);
    if NeverCancelled(es) {
      CallUncancelled(m, js, es, k);
    }
    var os, oes := OperationOfCallRuns(m, js, es, k);
    O.TaskReferenceBalance(os, oes, |oes|);
  }

  // ----- What the clients of a call own -----

  function Adds<V>(ev: JointEvent<V>): nat {
    Bit(ev == Client(true, true))
  }

  function GivesUp<V>(ev: JointEvent<V>): nat {
    Bit(ev == Client(false, true))
  }

  lemma ClientsStep<V>(m: Mode, j: Joint<V>, ev: JointEvent<V>, j': Joint<V>)
    requires JointStep(m, j, ev) == Some(j')
    ensures j'.x.target.clients + GivesUp(ev) == j.x.target.clients + Adds(ev)
  {
    match ev
    case Exec(e, own, a) => case AskInVain(_) => case Client(up, onTarget) =>
  }

  /** The clients of the target own the references they began with and those they added, less those
    * they gave up, whatever the call does; and as long as they own one they can add and release. */
  lemma {:induction false} TargetClientsCounted<V>(m: Mode, js: seq<Joint<V>>, es: seq<JointEvent<V>>, k: nat)
    requires IsJointRun(m, js, es) && k < |js|
    ensures js[k].x.target.clients + Sum(es[..k], GivesUp) == js[0].x.target.clients + Sum(es[..k], Adds)
    ensures JointStep(m, js[k], Client(true, true)).Some? <==> js[k].x.target.clients > 0
    ensures JointStep(m, js[k], Client(false, true)).Some? <==> js[k].x.target.clients > 0
  {
    CallFits(m, js, es, k);
    if k > 0 {
      var p := k - 1;
      TargetClientsCounted(m, js, es, p);
      assert JointFollows(m, js, es, p);
      ClientsStep(m, js[p], es[p], js[p + 1]);
      SumPrefix(es, Adds, p);
      SumPrefix(es, GivesUp, p);
    }
  }

  // ----- What a call answers -----

  /** The end of a poll in which the user's future finished with v. */
  ghost predicate FinishesCall<V>(j: Joint<V>, ev: JointEvent<V>, v: V) {
    && ev.Exec? && ev.e.Advance? && ev.e.t < |j.s.threads| && InPoll(j.s.threads[ev.e.t])
    && !ev.a.requested && ev.a.main == Some(v)
  }

  ghost predicate CallFinished<V>(js: seq<Joint<V>>, es: seq<JointEvent<V>>, k: nat, v: V)
    requires |js| == |es| + 1 && k < |js|
  {
    exists q :: 0 <= q < k && FinishesCall(js[q], es[q], v)
  }

  /** What the cells of a call hold. */
  ghost predicate CallTells<V>(js: seq<Joint<V>>, es: seq<JointEvent<V>>, k: nat)
    requires |js| == |es| + 1 && k < |js|
  {
    var c := js[k].x.op.cells;
    match c.status
    case Started => c == O.NewState()
    case Completed => c.result.Some? && c == O.Stored(c.result.value) && CallFinished(js, es, k, c.result.value)
    case Canceled => c == O.StoredCanceled(O.NewState())
    case Error => false
  }

  /** Only the end of a poll writes the cells. */
  lemma CellsMove<V>(m: Mode, j: Joint<V>, ev: JointEvent<V>, j': Joint<V>)
    requires Inv(j.s) && SerialInv(j.s) && Fits(j.s, j.x) && JointStep(m, j, ev) == Some(j')
    ensures || j'.x.op.cells == j.x.op.cells
            || (j.x.op.cells.status.Started? && j'.x.op.cells == O.StoredCanceled(j.x.op.cells))
            || (j.x.op.cells.status.Started? && ev.Exec? && ev.a.main.Some? && FinishesCall(j, ev, ev.a.main.value)
                && j'.x.op.cells == O.Stored(ev.a.main.value))
  {
    if ev.Exec? && ev.e.Advance? && ev.e.t < |j.s.threads| {
      var t := ev.e.t;
      if InPoll(j.s.threads[t]) {
        PollFindsFuture(j.s, j.x, t);
        PollKeepsCounted(j.x, t, ev.e.choice.ready, ev.a, j'.x);
      } else if Dropping(j.s.threads[t]) {
        DropComesAfterPoll(j.s, j.x, t);
        DropKeepsCounted(j.x, j'.x);
      }
    }
  }

  lemma CallTellsStep<V>(m: Mode, js: seq<Joint<V>>, es: seq<JointEvent<V>>, k: nat)
    requires IsJointRun(m, js, es) && k < |es| && CallTells(js, es, k)
    ensures CallTells(js, es, k + 1)
    ensures !js[k].x.op.cells.status.Started? ==> js[k + 1].x.op.cells == js[k].x.op.cells
  {
    assert JointFollows(m, js, es, k);
    CallFits(m, js, es, k);
    CallTaskInv(m, js, es, k);
    CellsMove(m, js[k], es[k], js[k + 1]);
    var c := js[k].x.op.cells;
    if c.status.Completed? {
      var q :| 0 <= q < k && FinishesCall(js[q], es[q], c.result.value);
      assert FinishesCall(js[q], es[q], c.result.value);
    }
  }

  lemma {:induction false} CallCells<V>(m: Mode, js: seq<Joint<V>>, es: seq<JointEvent<V>>, k: nat)
    requires IsJointRun(m, js, es) && k < |js|
    ensures CallTells(js, es, k)
  {
    if k > 0 {
      CallCells(m, js, es, k - 1);
      CallTellsStep(m, js, es, k - 1);
      assert k - 1 + 1 == k;
    }
  }

  lemma {:induction false} CallCellsStay<V>(m: Mode, js: seq<Joint<V>>, es: seq<JointEvent<V>>, i: nat, k: nat)
    requires IsJointRun(m, js, es) && i <= k < |js| && !js[i].x.op.cells.status.Started?
    ensures js[k].x.op.cells == js[i].x.op.cells
    decreases k
  {
    if i < k {
      CallCellsStay(m, js, es, i, k - 1);
      CallCells(m, js, es, k - 1);
      CallTellsStep(m, js, es, k - 1);
    }
  }

  /** What a client of an asynchronous call gets, whenever it looks and whenever it reads on: the
    * value with which the user's future finished exactly when it saw Completed, STATUS_CANCELLED
    * when it saw Canceled, STATUS_PENDING before; never one that nobody wrote. */
  lemma CallAnswers<V>(m: Mode, js: seq<Joint<V>>, es: seq<JointEvent<V>>, i: nat, k: nat)
    requires IsJointRun(m, js, es) && i <= k < |js|
    ensures var out := O.GetResult(O.ShimGetResult(js[i].x.op.cells, js[k].x.op.cells));
            match js[i].x.op.cells.status
            case Completed => out.Value? && CallFinished(js, es, i, out.v)
            case Canceled => out == O.Failed(O.STATUS_CANCELLED)
            case Started => out == O.Failed(O.STATUS_PENDING)
            case Error => false
  {
    CallCells(m, js, es, i);
    if !js[i].x.op.cells.status.Started? {
      CallCellsStay(m, js, es, i, k);
    }
  }

  // ----- What a take decides -----

  /** A successful take of the task's request, by the operation's own `Cancellable` or a nested one. */
  predicate TakesRequest<V>(ev: JointEvent<V>) {
    ev.Exec? && ev.e.TakeRequest?
  }

  /** The request is gone: a later take finds 2, so what `taken` says is final. */
  predicate Gone<V>(s: State, x: Async<V>, own: bool) {
    s.h.cancelRequested == 2 && x.taken == own
  }

  lemma TakeLeavesGone<V>(m: Mode, s: State, x: Async<V>, e: Event, own: bool, a: C.Answers<V>, s': State, x': Async<V>)
    requires Fits(s, x) && e.TakeRequest? && Step(m, s, e) == Some(s') && AsyncStep(s, x, e, own, a) == Some(x')
    ensures Gone(s', x', own)
  {
  }

  lemma GoneKept<V>(
    m: Mode, s: State, x: Async<V>, e: Event, own: bool, a: C.Answers<V>, s': State, x': Async<V>, mine: bool)
    requires Gone(s, x, mine) && Step(m, s, e) == Some(s') && AsyncStep(s, x, e, own, a) == Some(x')
    ensures Gone(s', x', mine)
  {
    CancelMoves(m, s, e);
    StepShape(m, s, e);
  }

  lemma JointKeepsGone<V>(m: Mode, j: Joint<V>, ev: JointEvent<V>, j': Joint<V>, mine: bool)
    requires Gone(j.s, j.x, mine) && JointStep(m, j, ev) == Some(j')
    ensures Gone(j'.s, j'.x, mine)
  {
    if ev.Exec? {
      GoneKept(m, j.s, j.x, ev.e, ev.own, ev.a, j'.s, j'.x, mine);
    }
  }

  /** What follows from a request that is gone, in every state that a call can be in. */
  lemma GoneDecides<V>(s: State, x: Async<V>, own: bool)
    requires SerialInv(s) && Fits(s, x) && Gone(s, x, own)
    ensures if own then !x.op.cells.status.Completed? else !x.op.cells.status.Canceled?
    ensures s.h.drops > 0 ==> (x.op.cells.status.Canceled? <==> own)
  {
    if t :| t in x.took {
      PollFindsFuture(s, x, t);
    }
  }

  lemma {:induction false} GoneFromThenOn<V>(m: Mode, js: seq<Joint<V>>, es: seq<JointEvent<V>>, i: nat, k: nat)
    requires IsJointRun(m, js, es) && i < k < |js| && TakesRequest(es[i])
    ensures Gone(js[k].s, js[k].x, es[i].own)
    decreases k
  {
    assert JointFollows(m, js, es, k - 1);
    var j, ev, j' := js[k - 1], es[k - 1], js[k];
    if i == k - 1 {
      CallFits(m, js, es, i);
      TakeLeavesGone(m, j.s, j.x, ev.e, ev.own, ev.a, j'.s, j'.x);
    } else {
      GoneFromThenOn(m, js, es, i, k - 1);
      JointKeepsGone(m, j, ev, j', es[i].own);
    }
  }

  /** A successful take decides the fate of the operation: taken by its own `Cancellable` it never
    * completes, taken by a nested one it is never Canceled; and when the task's block is freed it
    * is Canceled if and only if the take was its own. */
  lemma TakeDecides<V>(m: Mode, js: seq<Joint<V>>, es: seq<JointEvent<V>>, i: nat, k: nat)
    requires IsJointRun(m, js, es) && i < k < |js| && TakesRequest(es[i])
    ensures es[i].own ==> !js[k].x.op.cells.status.Completed?
    ensures !es[i].own ==> !js[k].x.op.cells.status.Canceled?
    ensures js[k].s.h.freed ==> (js[k].x.op.cells.status.Canceled? <==> es[i].own)
  {
    GoneFromThenOn(m, js, es, i, k);
    CallFits(m, js, es, k);
    CallTaskInv(m, js, es, k);
    GoneDecides(js[k].s, js[k].x, es[i].own);
  }

  // ----- A cancel takes effect -----

  /** A poll that will find the request or has found it: nobody can have asked in vain. */
  predicate WillTake<V>(s: State, x: Async<V>, t: nat) {
    && t < |s.threads| && InPoll(s.threads[t]) && s.threads[t].run.cpu.Some?
    && (t in x.took || (t !in x.asked && s.h.cancelRequested == 1))
  }

  /** The step by which thread t begins a poll with the request pending and a slot to find it in. */
  predicate BeginsCancelled(s: State, e: Event, t: nat) {
    && e.Advance? && e.t == t && t < |s.threads| && BeginsPoll(s.threads[t])
    && s.threads[t].run.cpu.Some? && s.h.cancelRequested == 1
  }

  lemma BeginWillTake<V>(
    m: Mode, s: State, x: Async<V>, e: Event, own: bool, a: C.Answers<V>, s': State, x': Async<V>, t: nat)
    requires BeginsCancelled(s, e, t) && Step(m, s, e) == Some(s') && AsyncStep(s, x, e, own, a) == Some(x')
    ensures WillTake(s', x', t)
  {
    StepShape(m, s, e);
    assert LocalStep(m, s.h, s.threads[t], e.choice) == RoutineStep(m, s.h, DPoll, s.threads[t].run, e.choice);
  }

  /** Until the poll ends, only its own thread could take the request, and asks first. */
  lemma WillTakeKept<V>(
    m: Mode, s: State, x: Async<V>, e: Event, own: bool, a: C.Answers<V>, s': State, x': Async<V>, t: nat)
    requires SerialInv(s) && WillTake(s, x, t) && !(e.Advance? && e.t == t)
    requires Step(m, s, e) == Some(s') && AsyncStep(s, x, e, own, a) == Some(x')
    ensures WillTake(s', x', t)
  {
    StepShape(m, s, e);
    CancelMoves(m, s, e);
    if e.TakeRequest? && e.t != t {
      SumTwo(s.threads, Active, if e.t < t then e.t else t, if e.t < t then t else e.t);
    }
    if e.Advance? && InPoll(s.threads[e.t]) {
      SumTwo(s.threads, Active, if e.t < t then e.t else t, if e.t < t then t else e.t);
    }
  }

  lemma JointKeepsWillTake<V>(m: Mode, j: Joint<V>, ev: JointEvent<V>, j': Joint<V>, t: nat)
    requires SerialInv(j.s) && WillTake(j.s, j.x, t) && !AdvancesThread(ev, t) && JointStep(m, j, ev) == Some(j')
    ensures WillTake(j'.s, j'.x, t)
  {
    if ev.Exec? {
      WillTakeKept(m, j.s, j.x, ev.e, ev.own, ev.a, j'.s, j'.x, t);
    }
  }

  lemma {:induction false} CallWillTake<V>(m: Mode, js: seq<Joint<V>>, es: seq<JointEvent<V>>, i: nat, k: nat, t: nat)
    requires IsJointRun(m, js, es) && i < k < |js| && es[i].Exec? && BeginsCancelled(js[i].s, es[i].e, t)
    requires forall q :: i < q < k ==> !AdvancesThread(es[q], t)
    ensures WillTake(js[k].s, js[k].x, t)
    decreases k
  {
    assert JointFollows(m, js, es, k - 1);
    var j, ev, j' := js[k - 1], es[k - 1], js[k];
    if i == k - 1 {
      BeginWillTake(m, j.s, j.x, ev.e, ev.own, ev.a, j'.s, j'.x, t);
    } else {
      CallWillTake(m, js, es, i, k - 1, t);
      assert !AdvancesThread(es[k - 1], t);
      CallTaskInv(m, js, es, k - 1);
      JointKeepsWillTake(m, j, ev, j', t);
    }
  }

  predicate AdvancesThread<V>(ev: JointEvent<V>, t: nat) {
    ev.Exec? && ev.e.Advance? && ev.e.t == t
  }

  /** The end of a poll that will take the request. */
  lemma PollEndsCanceled<V>(m: Mode, j: Joint<V>, ev: JointEvent<V>, j': Joint<V>, t: nat)
    requires Inv(j.s) && SerialInv(j.s) && Fits(j.s, j.x) && WillTake(j.s, j.x, t)
    requires AdvancesThread(ev, t) && JointStep(m, j, ev) == Some(j')
    ensures j'.x.op.cells.status.Canceled? && j'.s.h.ready
  {
    PollFindsFuture(j.s, j.x, t);
    PollKeepsCounted(j.x, t, ev.e.choice.ready, ev.a, j'.x);
    StepShape(m, j.s, ev.e);
    LocalFutureMoves(m, j.s.h, j.s.threads[t], ev.e.choice, j'.s.h, j'.s.threads[t]);
  }

  /** A cancel takes effect: a poll that begins while the request is pending, on a processor with a
    * slot, ends with the operation Canceled and the executor told that it is ready; no nested
    * `Cancellable` can come before its own. */
  lemma CancelTakesEffect<V>(m: Mode, js: seq<Joint<V>>, es: seq<JointEvent<V>>, i: nat, k: nat, t: nat)
    requires IsJointRun(m, js, es) && i < k < |es| && es[i].Exec? && BeginsCancelled(js[i].s, es[i].e, t)
    requires AdvancesThread(es[k], t) && forall q :: i < q < k ==> !AdvancesThread(es[q], t)
    ensures js[k + 1].x.op.cells.status.Canceled? && js[k + 1].s.h.ready
  {
    CallWillTake(m, js, es, i, k, t);
    CallFits(m, js, es, k);
    CallTaskInv(m, js, es, k);
    assert JointFollows(m, js, es, k);
    PollEndsCanceled(m, js[k], es[k], js[k + 1], t);
  }
}
