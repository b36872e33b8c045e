/** The code that creates asynchronous operations: the cells of `AsyncOperationTask` and its
  * spawn paths (`async_com.rs`), and the method shim that `declare_com_interface!` generates
  * for an `async fn`. */
module AsyncShim {
  import opened Basics
  import opened RefCount
  import opened AsyncOperation
  import T = AsyncTask

  // ----- The cells -----

  /** The cells, written store by store. The history says that the stores come in the order
    * in which readers may rely on them: what holds of every run of the publication machine
    * holds whenever a reader looks. */
  class AsyncOperationTask<V> {
    var status: AsyncStatus
    var error: int
    var result: Option<V>

    ghost var writer: Writer<V>
    ghost var ps: seq<Publication<V>>
    ghost var es: seq<PublicationEvent<V>>

    function View(): Cells<V>
      reads this
    {
      Cells(status, error, result)
    }

    ghost predicate Valid()
      reads this
    {
      IsRun(ps, es) && ps[|es|] == Publication(View(), writer)
    }

    constructor NewState()
      ensures Valid() && View() == AsyncOperation.NewState<V>() && writer == Quiet && es == []
    {
      status, error, result := Started, STATUS_UNSUCCESSFUL, None;
      writer := Quiet;
      ps, es := [Publication(AsyncOperation.NewState<V>(), Quiet)], [];
    }

    /** One store is one step of the publication, and a reader may come after it. */
    ghost method Record(e: PublicationEvent<V>, next: Writer<V>)
      requires IsRun(ps, es) && PublishStep(ps[|es|], e) == Some(Publication(View(), next))
      modifies this`writer, this`ps, this`es
      ensures Valid() && writer == next && es == old(es) + [e]
    {
      var p := Publication(View(), next);
      RunGrows(ps, es, e, p);
      writer, ps, es := next, ps + [p], es + [e];
    }

    method StoreResult(value: V)
      requires Valid() && writer.Quiet?
      modifies this
      ensures Valid() && writer.Written? && View() == Stored(value)
    {
      Record(Finish(value), WriteResult(value));
      result := Some(value);
      Record(Write, WriteSuccess);
      error := STATUS_SUCCESS;
      Record(Write, WriteCompleted);
      status := Completed;
      Record(Write, Written);
    }

    method StoreCanceled()
      requires Valid() && writer.Quiet?
      modifies this
      ensures Valid() && writer.Written? && View() == StoredCanceled(old(View()))
    {
      Record(FinishCancelled, WriteCancelled);
      error := STATUS_CANCELLED;
      Record(Write, WriteCanceled);
      status := Canceled;
      Record(Write, Written);
    }

    /** What `spawn_error_raw` stores. */
    method StoreError(code: int)
      requires Valid() && writer.Quiet?
      modifies this
      ensures Valid() && writer.Written? && View() == StoredError(old(View()), code)
    {
      Record(Fail(code), WriteError(code));
      error := code;
      Record(Write, WriteErrored);
      status := Error;
      Record(Write, Written);
    }

    /** `shim_get_result`, then what `get_result_raw` makes of it: the stored value exactly
      * when the operation completed, and one that nobody stored exactly when it is an error
      * operation made with STATUS_SUCCESS. */
    method GetResult() returns (outcome: Outcome<V>)
      requires Valid()
      ensures outcome.Value? <==> status.Completed?
      ensures outcome.Value? ==> FinishedWith(es, |es|, outcome.v)
      ensures status.Canceled? ==> outcome == Failed(STATUS_CANCELLED)
      ensures status.Started? ==> outcome == Failed(STATUS_PENDING)
      ensures outcome.Unwritten? <==> status.Error? && error == STATUS_SUCCESS
      ensures status.Error? && error != STATUS_SUCCESS ==> outcome == Failed(error)
    {
      ReaderGetsWhatWasStored(ps, es, |es|, |es|);
      var code, out := STATUS_PENDING, None;
      match status {
        case Completed =>
          out := result;
          code := STATUS_SUCCESS;
        case Started => code := STATUS_PENDING;
        case _ => code := error;
      }
      outcome := AsyncOperation.GetResult(Answer(code, out));
    }
  }

  // ----- Counted objects and the spawn paths -----

  /** A COM object seen through its count. */
  class Counted {
    var refCount: nat
    var frees: nat

    constructor New()
      ensures refCount == 1 && frees == 0
    {
      refCount, frees := 1, 0;
    }

    /** The object is where the operation machine has it. */
    ghost predicate Stands<V>(o: Operation<V>)
      reads this
    {
      refCount == o.refCount && frees == o.frees
    }

    method AddRef()
      modifies this
      ensures refCount == old(refCount) + 1 && frees == old(frees)
    {
      refCount := refCount + 1;
    }

    method Release()
      requires refCount > 0
      modifies this
      ensures refCount == old(refCount) - 1
      ensures frees == old(frees) + Bit(refCount == 0)
    {
      refCount := refCount - 1;
      if refCount == 0 {
        frees := frees + 1;
      }
    }
  }

  datatype SpawnResult = Ok(op: Counted) | Err(code: int)

  /** Every path of `spawn_raw_cancellable`: without memory for the operation nothing is
    * left; without memory for the task both references are given back, which frees the
    * operation once; otherwise the caller has one reference and the task one. */
  method SpawnRawCancellable(operationAllocated: bool, taskAllocated: bool) returns (r: SpawnResult, made: Counted?)
    ensures r.Ok? <==> operationAllocated && taskAllocated
    ensures r.Ok? ==> fresh(r.op) && r.op == made && r.op.Stands(Spawned<()>())
    ensures r.Err? ==> r.code == STATUS_INSUFFICIENT_RESOURCES
    ensures (made != null <==> operationAllocated) && (made != null ==> fresh(made))
    ensures r.Err? && made != null ==> made.refCount == 0 && made.frees == 1
  {
    made := null;
    if !operationAllocated {
      return Err(STATUS_INSUFFICIENT_RESOURCES), made;
    }
    var op := new Counted.New();
    made := op;
    op.AddRef();
    if !taskAllocated {
      op.Release();
      op.Release();
      return Err(STATUS_INSUFFICIENT_RESOURCES), made;
    }
    r := Ok(op);
  }

  /** The two objects of a call are where the machine of the call has them. */
  ghost predicate StandAt<V>(op: Counted, target: Counted, j: T.Joint<V>)
    reads op, target
  {
    op.Stands(j.x.op) && target.refCount == j.x.target.refCount && target.frees == j.x.target.frees
  }

  datatype ShimResult = NullPointer | Running(op: Counted) | Failing(code: int)

  /** The shim of an `async fn` on a `ComObject`: its AddRef on the target stays out only
    * when the task was spawned, and is otherwise given back before the shim returns. */
  method AsyncMethodShim(target: Counted?, initError: Option<int>, errorAllocated: bool,
                         operationAllocated: bool, taskAllocated: bool)
    returns (r: ShimResult)
    requires target != null ==> target.refCount > 0
    modifies target
    ensures target == null ==> r == NullPointer
    ensures target != null ==> target.frees == old(target.frees)
    ensures target != null ==> target.refCount == old(target.refCount) + Bit(r.Running?)
    ensures r.Running? ==> target != null && fresh(r.op)
    ensures r.Running? && old(target.frees) == 0 ==> StandAt(r.op, target, T.Called<()>(true, old(target.refCount)))
    ensures target != null ==> (r.Running? <==> initError.None? && operationAllocated && taskAllocated)
    ensures target != null && initError.None? && !(operationAllocated && taskAllocated) ==> r == NullPointer
    ensures target != null && initError.Some? ==> r == if errorAllocated then Failing(initError.value) else NullPointer
  {
    if target == null {
      return NullPointer;
    }
    target.AddRef();
    match initError {
      case Some(code) =>
        target.Release();
        return if errorAllocated then Failing(code) else NullPointer;
      case None =>
    }
    var spawned, made := SpawnRawCancellable(operationAllocated, taskAllocated);
    match spawned {
      case Ok(op) => return Running(op);
      case Err(_) =>
        target.Release();
        return NullPointer;
    }
  }

  /** A call of an `async fn`, with any run of what may follow where the shim leaves off, in which
    * nobody cancels since the shim drops the handle: unless the task runs the target is as it was;
    * otherwise the two objects stand where that run begins, so that at each of its moments the
    * balance of `AsyncCallBalance` holds, and both references of the call have been given back once
    * the block of the task is freed. */
  method AsyncMethodCall<V>(m: Mode, target: Counted, initError: Option<int>, errorAllocated: bool,
                            operationAllocated: bool, taskAllocated: bool,
                            ghost js: seq<T.Joint<V>>, ghost es: seq<T.JointEvent<V>>)
    returns (r: ShimResult)
    requires target.refCount > 0 && target.frees == 0
    requires T.IsJointRun(m, js, es) && T.NeverCancelled(es) && js[0] == T.Called(true, target.refCount)
    modifies target
    ensures !r.Running? ==> target.refCount == old(target.refCount) && target.frees == 0
    ensures r.Running? ==> StandAt(r.op, target, js[0])
    ensures forall k :: 0 <= k < |js| ==>
              && T.InBalance(js[k].s, js[k].x)
              && (js[k].s.h.freed ==> js[k].x.op.givenBack == 1 && js[k].x.target.givenBack == 1)
  {
    r := AsyncMethodShim(target, initError, errorAllocated, operationAllocated, taskAllocated);
    forall k | 0 <= k < |js|
      ensures T.InBalance(js[k].s, js[k].x)
      ensures js[k].s.h.freed ==> js[k].x.op.givenBack == 1 && js[k].x.target.givenBack == 1
    {
      T.AsyncCallBalance(m, js, es, k);
    }
  }
}
