/** `async_com.rs`: what an asynchronous operation publishes, and who holds references to it. */
module AsyncOperation {
  import opened Basics
  import Cancellable

  const STATUS_SUCCESS := 0
  const STATUS_PENDING := 0x103
  const STATUS_UNSUCCESSFUL := 0xC000_0001 - 0x1_0000_0000
  const STATUS_CANCELLED := 0xC000_0120 - 0x1_0000_0000
  const STATUS_INSUFFICIENT_RESOURCES := 0xC000_009A - 0x1_0000_0000

  datatype AsyncStatus = Started | Completed | Canceled | Error

  /** The three cells of an operation; `result` is `None` until it is written. */
  datatype Cells<V> = Cells(status: AsyncStatus, error: int, result: Option<V>)

  function NewState<V>(): Cells<V> {
    Cells(Started, STATUS_UNSUCCESSFUL, None)
  }

  function Stored<V>(v: V): Cells<V> {
    Cells(Completed, STATUS_SUCCESS, Some(v))
  }

  function StoredError<V>(c: Cells<V>, code: int): Cells<V> {
    Cells(Error, code, c.result)
  }

  function StoredCanceled<V>(c: Cells<V>): Cells<V> {
    Cells(Canceled, STATUS_CANCELLED, c.result)
  }

  // ----- Publication, store by store -----

  /** The next store of `store_result`, `store_canceled` or `store_error`. */
  datatype Writer<V> =
    | Quiet
    | WriteResult(v: V)
    | WriteSuccess
    | WriteCompleted
    | WriteCancelled
    | WriteCanceled
    | WriteError(code: int)
    | WriteErrored
    | Written

  datatype Publication<V> = Publication(cells: Cells<V>, writer: Writer<V>)

  /** The task's future finishes with a value or cancelled, or `spawn_error_raw` makes an error
    * operation; the writer's next store runs; or somebody else acts: a reader between its
    * loads, say. */
  datatype PublicationEvent<V> = Finish(v: V) | FinishCancelled | Fail(code: int) | Write | Elsewhere

  function PublishStep<V>(p: Publication<V>, e: PublicationEvent<V>): Option<Publication<V>> {
    match e
    case Finish(v) => if p.writer.Quiet? then Some(p.(writer := WriteResult(v))) else None
    case FinishCancelled => if p.writer.Quiet? then Some(p.(writer := WriteCancelled)) else None
    case Fail(code) => if p.writer.Quiet? then Some(p.(writer := WriteError(code))) else None
    case Elsewhere => Some(p)
    case Write =>
      match p.writer
      case WriteResult(v) => Some(Publication(p.cells.(result := Some(v)), WriteSuccess))
      case WriteSuccess => Some(Publication(p.cells.(error := STATUS_SUCCESS), WriteCompleted))
      case WriteCompleted => Some(Publication(p.cells.(status := Completed), Written))
      case WriteCancelled => Some(Publication(p.cells.(error := STATUS_CANCELLED), WriteCanceled))
      case WriteCanceled => Some(Publication(p.cells.(status := Canceled), Written))
      case WriteError(code) => Some(Publication(p.cells.(error := code), WriteErrored))
      case WriteErrored => Some(Publication(p.cells.(status := Error), Written))
      case Quiet => None
      case Written => None
  }

  ghost predicate Follows<V>(ps: seq<Publication<V>>, es: seq<PublicationEvent<V>>, i: nat)
    requires |ps| == |es| + 1 && i < |es|
  {
    PublishStep(ps[i], es[i]) == Some(ps[i + 1])
  }

  ghost predicate IsRun<V>(ps: seq<Publication<V>>, es: seq<PublicationEvent<V>>) {
    && |ps| == |es| + 1 && ps[0] == Publication(NewState(), Quiet)
    && forall i :: 0 <= i < |es| ==> Follows(ps, es, i)
  }

  /** One more step of a run. */
  lemma RunGrows<V>(ps: seq<Publication<V>>, es: seq<PublicationEvent<V>>, e: PublicationEvent<V>, p: Publication<V>)
    requires IsRun(ps, es) && PublishStep(ps[|es|], e) == Some(p)
    ensures IsRun(ps + [p], es + [e])
  {
    var ps', es' := ps + [p], es + [e];
    forall i | 0 <= i < |es'| ensures Follows(ps', es', i) {
      if i < |es| {
        assert Follows(ps, es, i);
      }
    }
  }

  /** What `shim_get_result` returns and writes through `out_result`, its load of the status
    * seeing `first` and its second read the cells as they are later. */
  datatype Answer<V> = Answer(code: int, out: Option<V>)

  function ShimGetResult<V>(first: Cells<V>, later: Cells<V>): Answer<V> {
    match first.status
    case Completed => Answer(STATUS_SUCCESS, later.result)
    case Started => Answer(STATUS_PENDING, None)
    case Canceled => Answer(later.error, None)
    case Error => Answer(later.error, None)
  }

  /** What the caller of `get_result_raw` ends up with; `Unwritten` is a value that nothing
    * ever stored. */
  datatype Outcome<V> = Value(v: V) | Failed(code: int) | Unwritten

  function GetResult<V>(a: Answer<V>): Outcome<V> {
    if a.code != STATUS_SUCCESS then Failed(a.code)
    else if a.out.Some? then Value(a.out.value)
    else Unwritten
  }

  /** Some earlier event of the run finished the future with v. */
  ghost predicate FinishedWith<V>(es: seq<PublicationEvent<V>>, k: nat, v: V) {
    exists i :: 0 <= i < k && i < |es| && es[i] == Finish(v)
  }

  /** The operation was made with this error. */
  ghost predicate FailedWith<V>(es: seq<PublicationEvent<V>>, k: nat, code: int) {
    exists i :: 0 <= i < k && i < |es| && es[i] == Fail(code)
  }

  predicate Failing<V>(w: Writer<V>) {
    w.WriteError? || w.WriteErrored?
  }

  /** The order of the stores, seen in every state of a run. */
  ghost predicate Ordered<V>(p: Publication<V>, es: seq<PublicationEvent<V>>, k: nat) {
    && (p.cells.status.Started? <==> !p.writer.Written?)
    && (p.cells.status.Completed? ==> p.cells.result.Some? && p.cells.error == STATUS_SUCCESS)
    && (p.cells.status.Canceled? ==> p.cells.error == STATUS_CANCELLED)
    && (p.cells.status.Error? ==> p.cells.result.None? && FailedWith(es, k, p.cells.error))
    && (p.writer.Quiet? || Failing(p.writer) ==> p.cells.result.None?)
    && (p.writer.WriteError? ==> FailedWith(es, k, p.writer.code))
    && (p.writer.WriteErrored? ==> FailedWith(es, k, p.cells.error))
    && (p.writer.WriteResult? ==> FinishedWith(es, k, p.writer.v))
    && (p.cells.result.Some? ==> FinishedWith(es, k, p.cells.result.value))
    && (p.writer.WriteSuccess? || p.writer.WriteCompleted? ==> p.cells.result.Some?)
    && (p.writer.WriteCompleted? ==> p.cells.error == STATUS_SUCCESS)
    && (p.writer.WriteCanceled? ==> p.cells.error == STATUS_CANCELLED)
  }

  lemma {:induction false} RunOrdered<V>(ps: seq<Publication<V>>, es: seq<PublicationEvent<V>>, k: nat)
    requires IsRun(ps, es) && k < |ps|
    ensures Ordered(ps[k], es, k)
  {
    if k > 0 {
      RunOrdered(ps, es, k - 1);
      assert Follows(ps, es, k - 1);
      assert es[k - 1].Finish? ==> FinishedWith(es, k, es[k - 1].v);
      assert es[k - 1].Fail? ==> FailedWith(es, k, es[k - 1].code);
    }
  }

  /** Once the status is terminal nothing changes any more. */
  lemma {:induction false} TerminalStays<V>(ps: seq<Publication<V>>, es: seq<PublicationEvent<V>>, i: nat, j: nat)
    requires IsRun(ps, es) && i <= j < |ps| && !ps[i].cells.status.Started?
    ensures ps[j] == ps[i]
    decreases j
  {
    RunOrdered(ps, es, i);
    if i < j {
      TerminalStays(ps, es, i, j - 1);
      assert Follows(ps, es, j - 1);
    }
  }

  /** Publication: whenever a reader loads the status and whenever it then reads on, it gets
    * the stored value exactly when it saw `Completed`, STATUS_CANCELLED when it saw
    * `Canceled`, STATUS_PENDING when it saw `Started`, and for an error operation the code it
    * was made with, unless that is STATUS_SUCCESS. */
  lemma ReaderGetsWhatWasStored<V>(ps: seq<Publication<V>>, es: seq<PublicationEvent<V>>, i: nat, j: nat)
    requires IsRun(ps, es) && i <= j < |ps|
    ensures var out := GetResult(ShimGetResult(ps[i].cells, ps[j].cells));
            match ps[i].cells.status
            case Completed => out.Value? && FinishedWith(es, i, out.v)
            case Canceled => out == Failed(STATUS_CANCELLED)
            case Started => out == Failed(STATUS_PENDING)
            case Error =>
              var code := ps[i].cells.error;
              FailedWith(es, i, code) && out == if code == STATUS_SUCCESS then Unwritten else Failed(code)
  {
    RunOrdered(ps, es, i);
    if !ps[i].cells.status.Started? {
      TerminalStays(ps, es, i, j);
    }
  }

  /** Where an operation made with this error stands: it is the only thing ever stored. */
  predicate Carries<V>(p: Publication<V>, code: int) {
    || p.writer == WriteError(code)
    || (p.writer.WriteErrored? && p.cells.error == code)
    || (p.writer.Written? && p.cells.status.Error? && p.cells.error == code)
  }

  lemma {:induction false} FailureSticks<V>(ps: seq<Publication<V>>, es: seq<PublicationEvent<V>>, k: nat, code: int)
    requires IsRun(ps, es) && k < |ps| && FailedWith(es, k, code)
    ensures Carries(ps[k], code)
  {
    assert Follows(ps, es, k - 1);
    if es[k - 1] != Fail(code) {
      FailureSticks(ps, es, k - 1, code);
    }
  }

  /** A reader takes a value that nobody wrote exactly when the operation was made as an error
    * operation with STATUS_SUCCESS and has been published. */
  lemma UnwrittenExactly<V>(ps: seq<Publication<V>>, es: seq<PublicationEvent<V>>, i: nat, j: nat)
    requires IsRun(ps, es) && i <= j < |ps|
    ensures GetResult(ShimGetResult(ps[i].cells, ps[j].cells)).Unwritten? <==>
              FailedWith(es, i, STATUS_SUCCESS) && !ps[i].cells.status.Started?
    ensures GetResult(ShimGetResult(ps[i].cells, ps[j].cells)).Unwritten? <==>
              ps[i].cells.status.Error? && ps[i].cells.error == STATUS_SUCCESS
  {
    ReaderGetsWhatWasStored(ps, es, i, j);
    RunOrdered(ps, es, i);
    if FailedWith(es, i, STATUS_SUCCESS) {
      FailureSticks(ps, es, i, STATUS_SUCCESS);
    }
  }

  /** And such operations are made: `spawn_error_raw` refuses no code. */
  lemma ErrorOperation<V>(code: int) returns (ps: seq<Publication<V>>, es: seq<PublicationEvent<V>>)
    ensures IsRun(ps, es) && ps[|es|].cells == StoredError(NewState<V>(), code)
    ensures var out := GetResult(ShimGetResult(ps[|es|].cells, ps[|es|].cells));
            (out.Unwritten? <==> code == STATUS_SUCCESS) && (code != STATUS_SUCCESS ==> out == Failed(code))
  {
    var p := Publication(NewState<V>(), Quiet);
    ps, es := [p], [];
    p := p.(writer := WriteError(code));
    RunGrows(ps, es, Fail(code), p);
    ps, es := ps + [p], es + [Fail(code)];
    p := Publication(p.cells.(error := code), WriteErrored);
    RunGrows(ps, es, Write, p);
    ps, es := ps + [p], es + [Write];
    p := Publication(p.cells.(status := Error), Written);
    RunGrows(ps, es, Write, p);
    ps, es := ps + [p], es + [Write];
    UnwrittenExactly(ps, es, |es|, |es|);
    ReaderGetsWhatWasStored(ps, es, |es|, |es|);
  }

  /** A terminal answer never changes. */
  lemma AnswerNeverChanges<V>(ps: seq<Publication<V>>, es: seq<PublicationEvent<V>>, i: nat, j: nat, i': nat, j': nat)
    requires IsRun(ps, es) && i <= j < |ps| && i <= i' <= j' < |ps| && !ps[i].cells.status.Started?
    ensures ShimGetResult(ps[i'].cells, ps[j'].cells) == ShimGetResult(ps[i].cells, ps[j].cells)
  {
    TerminalStays(ps, es, i, j);
    TerminalStays(ps, es, i, i');
    TerminalStays(ps, es, i, j');
  }

  // ----- References -----

  /** The async block that `spawn_raw_cancellable` spawns: its guard exists only from the
    * first poll on. */
  datatype Phase = Unresumed | Suspended | Returned | Dropped

  /** An operation with its count, the references its clients own, and how often the task's
    * reference was given back and the object freed. */
  datatype Operation<V> = Operation(
    refCount: nat,
    clients: nat,
    givenBack: nat,
    frees: nat,
    phase: Phase,
    inner: Cancellable.CancellableState,
    cells: Cells<V>)

  datatype OperationEvent<V> =
    | ClientAddRef
    | ClientRelease
    | PollTask(a: Cancellable.Answers<V>)
    | DropTask

  /** `shim_release`: the object goes with its last reference. */
  function Released<V>(o: Operation<V>): Operation<V>
    requires o.refCount > 0
  {
    o.(refCount := o.refCount - 1, frees := o.frees + Bit(o.refCount == 1))
  }

  /** The guard is dropped. */
  function GuardDropped<V>(o: Operation<V>): Operation<V>
    requires o.refCount > 0
  {
    Released(o.(givenBack := o.givenBack + 1))
  }

  /** `spawn_raw_cancellable` after both allocations: one reference for the caller, one for
    * the task. */
  function Spawned<V>(): Operation<V> {
    Operation(2, 1, 0, 0, Unresumed, Cancellable.RunningMain, NewState())
  }

  /** The cleanup is `async {}`, so it is finished at its first poll. */
  function OperationStep<V>(o: Operation<V>, e: OperationEvent<V>): Option<Operation<V>> {
    match e
    case ClientAddRef => if o.clients == 0 then None else Some(o.(refCount := o.refCount + 1, clients := o.clients + 1))
    case ClientRelease =>
      if o.clients == 0 || o.refCount == 0 then None else Some(Released(o.(clients := o.clients - 1)))
    case PollTask(a) =>
      if o.phase.Returned? || o.phase.Dropped? || !a.cleanup || o.refCount == 0 then None
      else
        var o' := o.(inner := Cancellable.PollState(o.inner, a));
        (match Cancellable.PollAnswer(o.inner, a)
         case Value(v) => Some(GuardDropped(o'.(phase := Returned, cells := Stored(v))))
         case Cancelled => Some(GuardDropped(o'.(phase := Returned, cells := StoredCanceled(o.cells))))
         case Pending => Some(o'.(phase := Suspended))
         case Panicked => None)
    case DropTask =>
      match o.phase
      case Unresumed => Some(o.(phase := Dropped))
      case Suspended => if o.refCount == 0 then None else Some(GuardDropped(o.(phase := Dropped)))
      case Returned => Some(o.(phase := Dropped))
      case Dropped => None
  }

  /** What the executor guarantees: the future is not dropped before its first poll. */
  predicate PolledFirst<V>(o: Operation<V>, e: OperationEvent<V>) {
    e.DropTask? ==> !o.phase.Unresumed?
  }

  predicate TaskHolds(p: Phase) {
    p.Unresumed? || p.Suspended?
  }

  predicate Balanced<V>(o: Operation<V>) {
    && o.refCount == o.clients + Bit(TaskHolds(o.phase))
    && o.givenBack == Bit(!TaskHolds(o.phase))
    && o.frees == Bit(o.refCount == 0)
    && (TaskHolds(o.phase) ==> o.inner.RunningMain?)
  }

  lemma BalancedKept<V>(o: Operation<V>, e: OperationEvent<V>)
    requires Balanced(o) && OperationStep(o, e).Some? && PolledFirst(o, e)
    ensures Balanced(OperationStep(o, e).value)
  {
    match e
    case ClientAddRef => case ClientRelease => case PollTask(_) => case DropTask =>
  }

  ghost predicate OperationFollows<V>(os: seq<Operation<V>>, es: seq<OperationEvent<V>>, i: nat)
    requires |os| == |es| + 1 && i < |es|
  {
    OperationStep(os[i], es[i]) == Some(os[i + 1]) && PolledFirst(os[i], es[i])
  }

  ghost predicate IsOperationRun<V>(os: seq<Operation<V>>, es: seq<OperationEvent<V>>) {
    && |os| == |es| + 1 && os[0] == Spawned()
    && forall i :: 0 <= i < |es| ==> OperationFollows(os, es, i)
  }

  lemma OperationRunGrows<V>(os: seq<Operation<V>>, es: seq<OperationEvent<V>>, e: OperationEvent<V>, o: Operation<V>)
    requires IsOperationRun(os, es) && OperationStep(os[|es|], e) == Some(o) && PolledFirst(os[|es|], e)
    ensures IsOperationRun(os + [o], es + [e])
  {
    var os', es' := os + [o], es + [e];
    forall i | 0 <= i < |es'| ensures OperationFollows(os', es', i) {
      if i < |es| {
        assert OperationFollows(os, es, i);
      }
    }
  }

  /** Over any interleaving of client references with polls and the drop of the task, the
    * count is the clients' references plus the task's, the task's is given back exactly
    * once, when the task returns or is dropped, and the object is freed once, at zero. */
  lemma {:induction false} TaskReferenceBalance<V>(os: seq<Operation<V>>, es: seq<OperationEvent<V>>, k: nat)
    requires IsOperationRun(os, es) && k < |os|
    ensures os[k].refCount == os[k].clients + Bit(TaskHolds(os[k].phase))
    ensures os[k].givenBack == (if TaskHolds(os[k].phase) then 0 else 1)
    ensures os[k].frees == (if os[k].refCount == 0 then 1 else 0)
    ensures Balanced(os[k])
  {
    if k > 0 {
      TaskReferenceBalance(os, es, k - 1);
      assert OperationFollows(os, es, k - 1);
      BalancedKept(os[k - 1], es[k - 1]);
    }
  }

  function Adds<V>(e: OperationEvent<V>): nat {
    Bit(e.ClientAddRef?)
  }

  function Drops<V>(e: OperationEvent<V>): nat {
    Bit(e.ClientRelease?)
  }

  lemma ClientsStep<V>(o: Operation<V>, e: OperationEvent<V>, o': Operation<V>)
    requires OperationStep(o, e) == Some(o')
    ensures o'.clients + Drops(e) == o.clients + Adds(e)
  {
    match e
    case ClientAddRef => case ClientRelease => case PollTask(_) => case DropTask =>
  }

  /** The clients own the reference that the spawn handed out and those they added, less those they
    * gave up; as long as they own one they can add and release, whatever the task does. */
  lemma {:induction false} ClientsCounted<V>(os: seq<Operation<V>>, es: seq<OperationEvent<V>>, k: nat)
    requires IsOperationRun(os, es) && k < |os|
    ensures os[k].clients + Sum(es[..k], Drops) == 1 + Sum(es[..k], Adds)
    ensures OperationStep(os[k], ClientAddRef).Some? <==> os[k].clients > 0
    ensures OperationStep(os[k], ClientRelease).Some? <==> os[k].clients > 0
  {
    TaskReferenceBalance(os, es, k);
    if k > 0 {
      var p := k - 1;
      ClientsCounted(os, es, p);
      assert OperationFollows(os, es, p);
      ClientsStep(os[p], es[p], os[p + 1]);
      SumPrefix(es, Adds, p);
      SumPrefix(es, Drops, p);
    }
  }

  /** A run in which the task may be dropped before its first poll. */
  ghost predicate FreeFollows<V>(os: seq<Operation<V>>, es: seq<OperationEvent<V>>, i: nat)
    requires |os| == |es| + 1 && i < |es|
  {
    OperationStep(os[i], es[i]) == Some(os[i + 1])
  }

  ghost predicate IsFreeRun<V>(os: seq<Operation<V>>, es: seq<OperationEvent<V>>) {
    && |os| == |es| + 1 && os[0] == Spawned()
    && forall i :: 0 <= i < |es| ==> FreeFollows(os, es, i)
  }

  ghost predicate WasPolled<V>(es: seq<OperationEvent<V>>, k: nat) {
    exists i :: 0 <= i < k && i < |es| && es[i].PollTask?
  }

  /** How the task's reference stands, given whether the task was ever polled. */
  predicate Owes<V>(o: Operation<V>, polled: bool) {
    && o.refCount == o.clients + 1 - o.givenBack && o.givenBack <= 1
    && o.frees == Bit(o.refCount == 0)
    && (o.givenBack == 1 <==> o.phase.Returned? || (o.phase.Dropped? && polled))
    && (o.phase.Unresumed? ==> !polled) && (o.phase.Suspended? || o.phase.Returned? ==> polled)
    && (TaskHolds(o.phase) ==> o.inner.RunningMain?)
  }

  lemma OwesKept<V>(o: Operation<V>, e: OperationEvent<V>, polled: bool)
    requires Owes(o, polled) && OperationStep(o, e).Some?
    ensures Owes(OperationStep(o, e).value, polled || e.PollTask?)
  {
    match e
    case ClientAddRef => case ClientRelease => case PollTask(_) => case DropTask =>
  }

  lemma {:induction false} FreeRunOwes<V>(os: seq<Operation<V>>, es: seq<OperationEvent<V>>, k: nat)
    requires IsFreeRun(os, es) && k < |os|
    ensures Owes(os[k], WasPolled(es, k))
  {
    if k > 0 {
      FreeRunOwes(os, es, k - 1);
      assert FreeFollows(os, es, k - 1);
      OwesKept(os[k - 1], es[k - 1], WasPolled(es, k - 1));
    }
  }

  /** The executor's guarantee is needed: over every run that does without it, a dropped task has
    * given its reference back if and only if it was polled before; one that was not leaks it, and
    * then the operation is never freed, whatever its clients do. */
  lemma UnpolledTaskLeaks<V>(os: seq<Operation<V>>, es: seq<OperationEvent<V>>, k: nat)
    requires IsFreeRun(os, es) && k < |os| && os[k].phase.Dropped?
    ensures os[k].givenBack == (if WasPolled(es, k) then 1 else 0)
    ensures !WasPolled(es, k) ==> os[k].refCount == os[k].clients + 1 && os[k].frees == 0
  {
    FreeRunOwes(os, es, k);
  }

  /** The poll by which the main future finished with v. */
  ghost predicate FinishesWith<V>(e: OperationEvent<V>, v: V) {
    e.PollTask? && !e.a.requested && e.a.main == Some(v)
  }

  ghost predicate PollFinished<V>(es: seq<OperationEvent<V>>, k: nat, v: V) {
    exists i :: 0 <= i < k && i < |es| && FinishesWith(es[i], v)
  }

  /** What the cells of an operation hold. */
  ghost predicate CellsTell<V>(o: Operation<V>, es: seq<OperationEvent<V>>, k: nat) {
    match o.cells.status
    case Started => o.cells == NewState()
    case Completed => o.cells.result.Some? && o.cells == Stored(o.cells.result.value)
                      && PollFinished(es, k, o.cells.result.value)
    case Canceled => o.cells == StoredCanceled(NewState())
    case Error => false
  }

  lemma CellsStep<V>(o: Operation<V>, e: OperationEvent<V>, o': Operation<V>)
    requires Balanced(o) && OperationStep(o, e) == Some(o')
    requires TaskHolds(o.phase) ==> o.cells == NewState()
    ensures o'.cells == o.cells || o'.cells == StoredCanceled(NewState())
            || (e.PollTask? && e.a.main.Some? && FinishesWith(e, e.a.main.value) && o'.cells == Stored(e.a.main.value))
    ensures !TaskHolds(o.phase) ==> o'.cells == o.cells
    ensures TaskHolds(o'.phase) ==> o'.cells == NewState()
  {
    match e
    case ClientAddRef => case ClientRelease => case PollTask(_) => case DropTask =>
  }

  /** Over every run: a completed operation holds the value with which a poll finished the future,
    * a canceled one STATUS_CANCELLED, and one that is neither nothing. */
  lemma {:induction false} CellsHold<V>(os: seq<Operation<V>>, es: seq<OperationEvent<V>>, k: nat)
    requires IsOperationRun(os, es) && k < |os|
    ensures CellsTell(os[k], es, k) && (TaskHolds(os[k].phase) ==> os[k].cells == NewState())
  {
    if k > 0 {
      CellsHold(os, es, k - 1);
      TaskReferenceBalance(os, es, k - 1);
      assert OperationFollows(os, es, k - 1);
      CellsStep(os[k - 1], es[k - 1], os[k]);
      if PollFinishedSome(os[k - 1], es, k - 1) {
        KeepsFinished(os[k - 1].cells.result.value, es, k - 1);
      }
    }
  }

  ghost predicate PollFinishedSome<V>(o: Operation<V>, es: seq<OperationEvent<V>>, k: nat) {
    o.cells.result.Some? && PollFinished(es, k, o.cells.result.value)
  }

  lemma KeepsFinished<V>(v: V, es: seq<OperationEvent<V>>, k: nat)
    requires PollFinished(es, k, v)
    ensures PollFinished(es, k + 1, v)
  {
  }

  /** An operation is Completed exactly when some poll finished its future without a request. */
  lemma {:induction false} CompletedExactly<V>(os: seq<Operation<V>>, es: seq<OperationEvent<V>>, k: nat)
    requires IsOperationRun(os, es) && k < |os|
    ensures os[k].cells.status.Completed? <==>
              exists i :: 0 <= i < k && es[i].PollTask? && !es[i].a.requested && es[i].a.main.Some?
  {
    if k > 0 {
      CompletedExactly(os, es, k - 1);
      CellsHold(os, es, k - 1);
      TaskReferenceBalance(os, es, k - 1);
      assert OperationFollows(os, es, k - 1);
      CellsStep(os[k - 1], es[k - 1], os[k]);
    }
  }

  lemma {:induction false} TerminalCellsStay<V>(os: seq<Operation<V>>, es: seq<OperationEvent<V>>, i: nat, j: nat)
    requires IsOperationRun(os, es) && i <= j < |os| && !os[i].cells.status.Started?
    ensures os[j].cells == os[i].cells
    decreases j
  {
    if i < j {
      TerminalCellsStay(os, es, i, j - 1);
      CellsHold(os, es, j - 1);
      TaskReferenceBalance(os, es, j - 1);
      assert OperationFollows(os, es, j - 1);
      CellsStep(os[j - 1], es[j - 1], os[j]);
    }
  }

  /** What a reader of an operation gets, whenever it looks and whenever it reads on: the value with
    * which a poll finished the future exactly when it saw Completed, STATUS_CANCELLED when it saw
    * Canceled, STATUS_PENDING before. */
  lemma OperationAnswers<V>(os: seq<Operation<V>>, es: seq<OperationEvent<V>>, i: nat, j: nat)
    requires IsOperationRun(os, es) && i <= j < |os|
    ensures var out := GetResult(ShimGetResult(os[i].cells, os[j].cells));
            match os[i].cells.status
            case Completed => out.Value? && PollFinished(es, i, out.v)
            case Canceled => out == Failed(STATUS_CANCELLED)
            case Started => out == Failed(STATUS_PENDING)
            case Error => false
  {
    CellsHold(os, es, i);
    if !os[i].cells.status.Started? {
      TerminalCellsStay(os, es, i, j);
    }
  }

  /** The cells of an operation at any moment are those of a run of the publication machine, store
    * by store, so that `ReaderGetsWhatWasStored` speaks of them too. */
  lemma OperationIsPublished<V>(os: seq<Operation<V>>, es: seq<OperationEvent<V>>, k: nat)
    returns (ps: seq<Publication<V>>, pes: seq<PublicationEvent<V>>)
    requires IsOperationRun(os, es) && k < |os|
    ensures IsRun(ps, pes) && ps[|pes|].cells == os[k].cells
    ensures os[k].cells.status.Completed? ==>
              os[k].cells.result.Some? && pes == [Finish(os[k].cells.result.value), Write, Write, Write]
  {
    CellsHold(os, es, k);
    match os[k].cells.status
    case Started => ps, pes := [Publication(NewState<V>(), Quiet)], [];
    case Completed => ps, pes := PublishValue(os[k].cells.result.value);
    case Canceled => ps, pes := PublishCanceled<V>();
  }

  lemma PublishValue<V>(v: V) returns (ps: seq<Publication<V>>, pes: seq<PublicationEvent<V>>)
    ensures IsRun(ps, pes) && ps[|pes|].cells == Stored(v) && pes == [Finish(v), Write, Write, Write]
  {
    var c := NewState<V>();
    ps := [Publication(c, Quiet), Publication(c, WriteResult(v)), Publication(c.(result := Some(v)), WriteSuccess),
           Publication(Cells(Started, STATUS_SUCCESS, Some(v)), WriteCompleted), Publication(Stored(v), Written)];
    pes := [Finish(v), Write, Write, Write];
  }

  lemma PublishCanceled<V>() returns (ps: seq<Publication<V>>, pes: seq<PublicationEvent<V>>)
    ensures IsRun(ps, pes) && ps[|pes|].cells == StoredCanceled(NewState<V>())
  {
    var c := NewState<V>();
    ps := [Publication(c, Quiet), Publication(c, WriteCancelled),
           Publication(c.(error := STATUS_CANCELLED), WriteCanceled), Publication(StoredCanceled(c), Written)];
    pes := [FinishCancelled, Write, Write];
  }

  /** The status of an operation is `Canceled` only if a poll took the request, and once a
    * request was taken the operation never completes. */
  lemma {:induction false} CanceledOnlyIfTaken<V>(os: seq<Operation<V>>, es: seq<OperationEvent<V>>, k: nat)
    requires IsOperationRun(os, es) && k < |os|
    ensures os[k].cells.status.Canceled? <==> exists i :: 0 <= i < k && es[i].PollTask? && es[i].a.requested
    ensures os[k].cells.status.Canceled? ==> os[k].phase.Returned? || os[k].phase.Dropped?
    ensures !os[k].cells.status.Started? ==> !TaskHolds(os[k].phase)
  {
    if k > 0 {
      CanceledOnlyIfTaken(os, es, k - 1);
      TaskReferenceBalance(os, es, k - 1);
      assert OperationFollows(os, es, k - 1);
      if es[k - 1].PollTask? && es[k - 1].a.requested {
        assert os[k].cells.status.Canceled?;
      }
    }
  }
}
