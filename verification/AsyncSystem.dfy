/** The tasks of a driver with the asynchronous operations that some of them carry: what a
  * cancelled handle has to do with a cancelled operation. */
module AsyncSystem {
  import opened Basics
  import opened RefCount
  import opened DpcTask
  import opened DpcTaskProofs
  import opened DpcSystem
  import opened AsyncTask
  import C = Cancellable

  /** The operation, if any, that each task carries. */
  datatype Carrying<V> = Carrying(y: System, xs: seq<Option<Async<V>>>)

  /** A spawn, of a task that carries no operation or of one for a target with so many clients;
    * any other step of the system; or a client of the operation or target of task i. */
  datatype CarryEvent<V> =
    | Begin(tracked: bool, wantsHandle: bool, clients: Option<nat>)
    | Sys(e: SystemEvent, own: bool, a: C.Answers<V>)
    | Client(i: nat, up: bool, onTarget: bool)

  function SystemPart<V>(ev: CarryEvent<V>): SystemEvent {
    match ev
    case Begin(tracked, wantsHandle, _) => Spawn(tracked, wantsHandle)
    case Sys(e, _, _) => e
    case Client(_, _, _) => Elsewhere
  }

  /** The step of a call that an event is for the operation of task i, if any. A take that fails, by
    * the operation's own `Cancellable`, is an ask in vain. */
  ghost function CallPart<V>(y: System, ev: CarryEvent<V>, i: nat): Option<JointEvent<V>> {
    match ev
    case Begin(_, _, _) => None
    case Client(j, up, onTarget) => if j == i then Some(AsyncTask.JointEvent.Client(up, onTarget)) else None
    case Sys(e, own, a) =>
      match TaskEvent(y, e, i)
      case Some(te) => Some(Exec(te, own, a))
      case None => if e.Take? && e.i == i && own then Some(AskInVain(e.t)) else None
  }

  /** What becomes of the operation of task i. */
  ghost function Carried<V>(y: System, x: Option<Async<V>>, i: nat, ev: CarryEvent<V>): Option<Option<Async<V>>> {
    var part := CallPart(y, ev, i);
    if x.None? || part.None? then Some(x)
    else if i >= |y.tasks| then None
    else
      match PartStep(y.tasks[i].s, x.value, part.value)
      case None => None
      case Some(x') => Some(Some(x'))
  }

  ghost predicate CarryStep<V>(m: Mode, z: Carrying<V>, ev: CarryEvent<V>, z': Carrying<V>) {
    && SystemStep(m, z.y, SystemPart(ev)) == Some(z'.y) && SystemCountable(m, z'.y)
    && (ev.Sys? ==> !ev.e.Spawn?)
    && |z.xs| == |z.y.tasks| && |z'.xs| == |z.xs| + (if ev.Begin? then 1 else 0)
    && (forall i :: 0 <= i < |z.xs| ==> Carried(z.y, z.xs[i], i, ev) == Some(z'.xs[i]))
    && (ev.Begin? ==> z'.xs[|z.xs|] == (if ev.clients.None? then None
                                        else Some(Called<V>(ev.wantsHandle, ev.clients.value).x)))
  }

  /** Task i carries an operation. */
  predicate Carries<V>(z: Carrying<V>, i: nat) {
    i < |z.xs| && i < |z.y.tasks| && z.xs[i].Some?
  }

  function At<V>(z: Carrying<V>, i: nat): Joint<V>
    requires Carries(z, i)
  {
    Joint(z.y.tasks[i].s, z.xs[i].value)
  }

  /** Every step of the system is a step of the call that task i carries, or leaves it alone. */
  lemma StepOfCall<V>(m: Mode, z: Carrying<V>, ev: CarryEvent<V>, z': Carrying<V>, i: nat)
    requires SystemInv(z.y) && CarryStep(m, z, ev, z') && Carries(z, i)
    ensures Carries(z', i)
    ensures match CallPart(z.y, ev, i)
            case None => At(z', i) == At(z, i)
            case Some(part) => JointStep(m, At(z, i), part) == Some(At(z', i))
  {
    assert Carried(z.y, z.xs[i], i, ev) == Some(z'.xs[i]);
    TaskMoves(m, z.y, SystemPart(ev), z'.y, i);
  }

  ghost predicate CarryFollows<V>(m: Mode, zs: seq<Carrying<V>>, es: seq<CarryEvent<V>>, i: nat)
    requires |zs| == |es| + 1 && i < |es|
  {
    CarryStep(m, zs[i], es[i], zs[i + 1])
  }

  ghost predicate IsCarryRun<V>(m: Mode, zs: seq<Carrying<V>>, es: seq<CarryEvent<V>>) {
    && |zs| == |es| + 1 && zs[0] == Carrying(EMPTY, [])
    && forall i :: 0 <= i < |es| ==> CarryFollows(m, zs, es, i)
  }

  ghost function Systems<V>(zs: seq<Carrying<V>>): seq<System> {
    seq(|zs|, i requires 0 <= i < |zs| => zs[i].y)
  }

  ghost function Parts<V>(es: seq<CarryEvent<V>>): seq<SystemEvent> {
    seq(|es|, i requires 0 <= i < |es| => SystemPart(es[i]))
  }

  /** Without what they carry, the tasks make a run of the system. */
  lemma SystemOfCarryRuns<V>(m: Mode, zs: seq<Carrying<V>>, es: seq<CarryEvent<V>>)
    requires IsCarryRun(m, zs, es)
    ensures IsSystemRun(m, Systems(zs), Parts(es))
  {
    forall i | 0 <= i < |es| ensures SystemFollows(m, Systems(zs), Parts(es), i) {
      assert CarryFollows(m, zs, es, i);
    }
  }

  /** A take fails in the system exactly when the operation's ask is refused. */
  lemma FailedTakeIsRefused(y: System, i: nat, t: nat)
    requires SystemInv(y) && ValidThread(y, i, t) && InPoll(DpcSystem.At(y, i, t))
    ensures Takes(y, i, t) <==> !Refused(y.tasks[i].s, t)
  {
    TakerTarget(y, i, t);
  }

  lemma SystemInvAt<V>(m: Mode, zs: seq<Carrying<V>>, es: seq<CarryEvent<V>>, k: nat)
    requires IsCarryRun(m, zs, es) && k < |zs|
    ensures SystemInv(zs[k].y)
  {
    SystemOfCarryRuns(m, zs, es);
    SystemRunKeepsInv(m, Systems(zs), Parts(es), k);
  }

  /** An operation that a task carries was there one step before, or has just been begun. */
  lemma CarriedBefore<V>(m: Mode, z: Carrying<V>, ev: CarryEvent<V>, z': Carrying<V>, i: nat)
    requires CarryStep(m, z, ev, z') && i < |z'.xs| && z'.xs[i].Some?
    ensures i < |z'.y.tasks|
    ensures Carries(z, i) || (ev.Begin? && ev.clients.Some? && At(z', i) == Called<V>(ev.wantsHandle, ev.clients.value))
  {
    assert |z'.y.tasks| == |z.y.tasks| + Bit(ev.Begin?);
    if i < |z.xs| {
      assert Carried(z.y, z.xs[i], i, ev) == Some(z'.xs[i]);
    }
  }

  // ----- Canceled only if a handle was cancelled: over every run -----

  /** An operation is Canceled only by a request that was taken for it, and then the task's flag
    * shows it. */
  predicate Traced<V>(j: Joint<V>) {
    && !j.x.op.inner.RunningCleanup? && (j.x.took != {} ==> j.x.taken)
    && (j.x.op.cells.status.Canceled? ==> j.x.taken) && (j.x.taken ==> j.s.h.cancelRequested == 2)
  }

  lemma StepKeepsTraced<V>(m: Mode, j: Joint<V>, ev: JointEvent<V>, j': Joint<V>)
    requires Traced(j) && JointStep(m, j, ev) == Some(j')
    ensures Traced(j')
  {
    if ev.Exec? {
      CancelMoves(m, j.s, ev.e);
      StepShape(m, j.s, ev.e);
    }
  }

  lemma {:induction false} CarryTraced<V>(m: Mode, zs: seq<Carrying<V>>, es: seq<CarryEvent<V>>, k: nat, i: nat)
    requires IsCarryRun(m, zs, es) && k < |zs| && i < |zs[k].xs| && zs[k].xs[i].Some?
    ensures Carries(zs[k], i) && Traced(At(zs[k], i))
  {
    assert CarryFollows(m, zs, es, k - 1);
    var z, ev, z' := zs[k - 1], es[k - 1], zs[k];
    CarriedBefore(m, z, ev, z', i);
    if Carries(z, i) {
      CarryTraced(m, zs, es, k - 1, i);
      SystemInvAt(m, zs, es, k - 1);
      StepOfCall(m, z, ev, z', i);
      var part := CallPart(z.y, ev, i);
      if part.Some? {
        StepKeepsTraced(m, At(z, i), part.value, At(z', i));
      }
    }
  }

  /** Over every run of the system an operation is Canceled only if a handle of the very task that
    * runs it was cancelled before. */
  lemma CanceledOnlyIfCancelled<V>(m: Mode, zs: seq<Carrying<V>>, es: seq<CarryEvent<V>>, k: nat, i: nat)
    requires IsCarryRun(m, zs, es) && k < |zs| && i < |zs[k].xs| && zs[k].xs[i].Some?
    requires zs[k].xs[i].value.op.cells.status.Canceled?
    ensures exists j :: 0 <= j < k && CancelsTask(zs[j].y, SystemPart(es[j]), i)
  {
    CarryTraced(m, zs, es, k, i);
    SystemOfCarryRuns(m, zs, es);
    var ys, ps := Systems(zs), Parts(es);
    TakenOnlyAfterCancel(m, ys, ps, k, i);
    var j :| 0 <= j < k && CancelsTask(ys[j], ps[j], i);
    assert CancelsTask(zs[j].y, SystemPart(es[j]), i);
  }

  // ----- When activations do not overlap -----

  ghost predicate CarrySerial<V>(zs: seq<Carrying<V>>, es: seq<CarryEvent<V>>)
    requires |zs| == |es| + 1
  {
    AllSerial(Systems(zs), Parts(es))
  }

  lemma TaskInvAt<V>(m: Mode, zs: seq<Carrying<V>>, es: seq<CarryEvent<V>>, k: nat, i: nat)
    requires IsCarryRun(m, zs, es) && CarrySerial(zs, es) && k < |zs| && i < |zs[k].y.tasks|
    ensures var s := zs[k].y.tasks[i].s; Inv(s) && SerialInv(s) && (s.h.freed ==> s.h.drops == 1)
  {
    SystemOfCarryRuns(m, zs, es);
    var ss, ts := TaskOfSystemRuns(m, Systems(zs), Parts(es), k, i);
    RunKeepsInv(m, ss, ts, |ts|);
    SerialRunKeepsInv(m, ss, ts, |ts|);
    FutureLifecycle(m, ss, ts, |ts|);
  }

  lemma {:induction false} CarryFits<V>(m: Mode, zs: seq<Carrying<V>>, es: seq<CarryEvent<V>>, k: nat, i: nat)
    requires IsCarryRun(m, zs, es) && CarrySerial(zs, es) && k < |zs| && i < |zs[k].xs| && zs[k].xs[i].Some?
    ensures Carries(zs[k], i) && Fits(At(zs[k], i).s, At(zs[k], i).x)
  {
    assert CarryFollows(m, zs, es, k - 1);
    var z, ev, z' := zs[k - 1], es[k - 1], zs[k];
    CarriedBefore(m, z, ev, z', i);
    if !Carries(z, i) {
      CalledFits(At(z', i), ev.wantsHandle, ev.clients.value);
    } else {
      CarryFits(m, zs, es, k - 1, i);
      TaskInvAt(m, zs, es, k - 1, i);
      SystemInvAt(m, zs, es, k - 1);
      StepOfCall(m, z, ev, z', i);
      var part := CallPart(z.y, ev, i);
      if part.Some? {
        JointStepKeepsFits(m, At(z, i), part.value, At(z', i));
      }
    }
  }

  /** The balance of `AsyncCallBalance` holds of every operation that a task of the system
    * carries, and of its target. */
  lemma CarriedBalance<V>(m: Mode, zs: seq<Carrying<V>>, es: seq<CarryEvent<V>>, k: nat, i: nat)
    requires IsCarryRun(m, zs, es) && CarrySerial(zs, es) && k < |zs| && i < |zs[k].xs| && zs[k].xs[i].Some?
    ensures Carries(zs[k], i) && InBalance(At(zs[k], i).s, At(zs[k], i).x)
  {
    CarryFits(m, zs, es, k, i);
    TaskInvAt(m, zs, es, k, i);
  }

  /** The successful take of the request of task i, which carries an operation. */
  ghost predicate TakesCarried<V>(z: Carrying<V>, ev: CarryEvent<V>, i: nat) {
    ev.Sys? && TakesFrom(z.y, ev.e, i) && Carries(z, i)
  }

  lemma TakeIsOfCall<V>(m: Mode, z: Carrying<V>, ev: CarryEvent<V>, z': Carrying<V>, i: nat)
    requires SystemInv(z.y) && CarryStep(m, z, ev, z') && TakesCarried(z, ev, i)
    ensures CallPart(z.y, ev, i) == Some(Exec(TakeRequest(ev.e.t), ev.own, ev.a))
  {
    TakerTarget(z.y, ev.e.i, ev.e.t);
  }

  lemma TakeMakesGone<V>(m: Mode, z: Carrying<V>, ev: CarryEvent<V>, z': Carrying<V>, i: nat)
    requires SystemInv(z.y) && CarryStep(m, z, ev, z') && TakesCarried(z, ev, i) && Fits(At(z, i).s, At(z, i).x)
    ensures Carries(z', i) && Gone(At(z', i).s, At(z', i).x, ev.own)
  {
    TakeIsOfCall(m, z, ev, z', i);
    StepOfCall(m, z, ev, z', i);
    TakeLeavesGone(m, At(z, i).s, At(z, i).x, TakeRequest(ev.e.t), ev.own, ev.a, At(z', i).s, At(z', i).x);
  }

  lemma StepKeepsGone<V>(m: Mode, z: Carrying<V>, ev: CarryEvent<V>, z': Carrying<V>, i: nat, mine: bool)
    requires SystemInv(z.y) && CarryStep(m, z, ev, z') && Carries(z, i) && Gone(At(z, i).s, At(z, i).x, mine)
    ensures Carries(z', i) && Gone(At(z', i).s, At(z', i).x, mine)
  {
    StepOfCall(m, z, ev, z', i);
    var part := CallPart(z.y, ev, i);
    if part.Some? {
      JointKeepsGone(m, At(z, i), part.value, At(z', i), mine);
    }
  }

  ghost predicate GoneAt<V>(z: Carrying<V>, i: nat, mine: bool) {
    Carries(z, i) && Gone(At(z, i).s, At(z, i).x, mine)
  }

  lemma CarriedGoneStep<V>(m: Mode, zs: seq<Carrying<V>>, es: seq<CarryEvent<V>>, k: nat, i: nat, mine: bool)
    requires IsCarryRun(m, zs, es) && CarrySerial(zs, es) && k < |es|
    requires GoneAt(zs[k], i, mine) || (TakesCarried(zs[k], es[k], i) && mine == es[k].own)
    ensures GoneAt(zs[k + 1], i, mine)
  {
    assert CarryFollows(m, zs, es, k);
    SystemInvAt(m, zs, es, k);
    if GoneAt(zs[k], i, mine) {
      StepKeepsGone(m, zs[k], es[k], zs[k + 1], i, mine);
    } else {
      CarryFits(m, zs, es, k, i);
      TakeMakesGone(m, zs[k], es[k], zs[k + 1], i);
    }
  }

  lemma {:induction false} CarriedGone<V>(m: Mode, zs: seq<Carrying<V>>, es: seq<CarryEvent<V>>, j: nat, k: nat, i: nat)
    requires IsCarryRun(m, zs, es) && CarrySerial(zs, es) && j < k < |zs| && TakesCarried(zs[j], es[j], i)
    ensures GoneAt(zs[k], i, es[j].own)
    decreases k
  {
    var p, mine := k - 1, es[j].own;
    if j < p {
      CarriedGone(m, zs, es, j, p, i);
    }
    CarriedGoneStep(m, zs, es, p, i, mine);
    assert zs[p + 1] == zs[k];
  }

  /** Any successful take of a task's request decides the fate of its operation, as `TakeDecides`
    * says: by its own `Cancellable` it never completes, by a nested one it is never Canceled, and at
    * the freed block it is Canceled if and only if the take was its own. */
  lemma CarriedTakeDecides<V>(m: Mode, zs: seq<Carrying<V>>, es: seq<CarryEvent<V>>, j: nat, k: nat, i: nat)
    requires IsCarryRun(m, zs, es) && CarrySerial(zs, es) && j < k < |zs| && TakesCarried(zs[j], es[j], i)
    ensures Carries(zs[k], i)
    ensures es[j].own ==> !zs[k].xs[i].value.op.cells.status.Completed?
    ensures !es[j].own ==> !zs[k].xs[i].value.op.cells.status.Canceled?
    ensures zs[k].y.tasks[i].s.h.freed ==> (zs[k].xs[i].value.op.cells.status.Canceled? <==> es[j].own)
  {
    CarriedGone(m, zs, es, j, k, i);
    CarryFits(m, zs, es, k, i);
    TaskInvAt(m, zs, es, k, i);
    GoneDecides(At(zs[k], i).s, At(zs[k], i).x, es[j].own);
  }

  /** An event is the next step of thread t of task i. */
  predicate Advances<V>(ev: CarryEvent<V>, i: nat, t: nat) {
    ev.Sys? && ev.e.On? && ev.e.i == i && ev.e.e.Advance? && ev.e.e.t == t
  }

  /** Thread t of task i begins a poll with the request pending and its slot set. */
  predicate BeginsPollCancelled<V>(z: Carrying<V>, ev: CarryEvent<V>, i: nat, t: nat) {
    Advances(ev, i, t) && Carries(z, i) && BeginsCancelled(z.y.tasks[i].s, ev.e.e, t)
  }

  lemma StepBeginsWillTake<V>(m: Mode, z: Carrying<V>, ev: CarryEvent<V>, z': Carrying<V>, i: nat, t: nat)
    requires SystemInv(z.y) && CarryStep(m, z, ev, z') && BeginsPollCancelled(z, ev, i, t)
    ensures Carries(z', i) && WillTake(At(z', i).s, At(z', i).x, t)
  {
    StepOfCall(m, z, ev, z', i);
    BeginWillTake(m, At(z, i).s, At(z, i).x, ev.e.e, ev.own, ev.a, At(z', i).s, At(z', i).x, t);
  }

  lemma StepKeepsWillTake<V>(m: Mode, z: Carrying<V>, ev: CarryEvent<V>, z': Carrying<V>, i: nat, t: nat)
    requires SystemInv(z.y) && CarryStep(m, z, ev, z') && Carries(z, i) && SerialInv(At(z, i).s)
    requires WillTake(At(z, i).s, At(z, i).x, t) && !Advances(ev, i, t)
    ensures Carries(z', i) && WillTake(At(z', i).s, At(z', i).x, t)
  {
    StepOfCall(m, z, ev, z', i);
    var part := CallPart(z.y, ev, i);
    if part.Some? {
      JointKeepsWillTake(m, At(z, i), part.value, At(z', i), t);
    }
  }

  ghost predicate WillTakeAt<V>(z: Carrying<V>, i: nat, t: nat) {
    Carries(z, i) && WillTake(At(z, i).s, At(z, i).x, t)
  }

  lemma CarriedWillTakeStep<V>(m: Mode, zs: seq<Carrying<V>>, es: seq<CarryEvent<V>>, k: nat, i: nat, t: nat)
    requires IsCarryRun(m, zs, es) && CarrySerial(zs, es) && k < |es|
    requires BeginsPollCancelled(zs[k], es[k], i, t) || (WillTakeAt(zs[k], i, t) && !Advances(es[k], i, t))
    ensures WillTakeAt(zs[k + 1], i, t)
  {
    assert CarryFollows(m, zs, es, k);
    SystemInvAt(m, zs, es, k);
    if BeginsPollCancelled(zs[k], es[k], i, t) {
      StepBeginsWillTake(m, zs[k], es[k], zs[k + 1], i, t);
    } else {
      TaskInvAt(m, zs, es, k, i);
      StepKeepsWillTake(m, zs[k], es[k], zs[k + 1], i, t);
    }
  }

  lemma {:induction false} CarriedWillTake<V>(
    m: Mode, zs: seq<Carrying<V>>, es: seq<CarryEvent<V>>, j: nat, k: nat, i: nat, t: nat)
    requires IsCarryRun(m, zs, es) && CarrySerial(zs, es) && j < k < |zs| && BeginsPollCancelled(zs[j], es[j], i, t)
    requires forall q :: j < q < k ==> !Advances(es[q], i, t)
    ensures WillTakeAt(zs[k], i, t)
    decreases k
  {
    var p := k - 1;
    if j < p {
      CarriedWillTake(m, zs, es, j, p, i, t);
      assert !Advances(es[p], i, t);
    }
    CarriedWillTakeStep(m, zs, es, p, i, t);
    assert zs[p + 1] == zs[k];
  }

  /** A cancel takes effect in the system too: the poll that begins after it, on a processor with a
    * slot, ends with the operation Canceled. */
  lemma CarriedCancelTakesEffect<V>(
    m: Mode, zs: seq<Carrying<V>>, es: seq<CarryEvent<V>>, j: nat, k: nat, i: nat, t: nat)
    requires IsCarryRun(m, zs, es) && CarrySerial(zs, es) && j < k < |es| && BeginsPollCancelled(zs[j], es[j], i, t)
    requires Advances(es[k], i, t) && forall q :: j < q < k ==> !Advances(es[q], i, t)
    ensures Carries(zs[k + 1], i) && zs[k + 1].xs[i].value.op.cells.status.Canceled?
  {
    CarriedWillTake(m, zs, es, j, k, i, t);
    CarryFits(m, zs, es, k, i);
    TaskInvAt(m, zs, es, k, i);
    SystemInvAt(m, zs, es, k);
    assert CarryFollows(m, zs, es, k);
    StepOfCall(m, zs[k], es[k], zs[k + 1], i);
    PollEndsCanceled(m, At(zs[k], i), CallPart(zs[k].y, es[k], i).value, At(zs[k + 1], i), t);
  }
}
