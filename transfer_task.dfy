/** The transfer task of the storage provider (transferTask.ts): a download or
    upload whose state moves between IN_PROGRESS, PAUSED, CANCELED, SUCCESS and
    ERROR under `cancel`, `pause`, `resume` and the outcome of its job. The job,
    `isCancelError` and the caller's callbacks are not part of this model: the
    job's outcome is an input, each error carries whether it is a cancel error,
    and the task records which callbacks it invoked, in order. */
module TransferTask {
  import opened Wrappers

  datatype TransferTaskState = IN_PROGRESS | PAUSED | CANCELED | SUCCESS | ERROR

  /** The states `cancel` leaves alone. */
  predicate Terminal(s: TransferTaskState) {
    s == CANCELED || s == SUCCESS || s == ERROR
  }

  datatype TaskError = TaskError(name: string, isCancelError: bool)

  datatype Callback = OnCancel(abortErrorOverwrite: Option<TaskError>) | OnPause | OnResume

  /** A download task (`createDownloadTask`) has no `pause`/`resume`; an upload
      task records whether it is multipart and which optional callbacks it was given. */
  datatype TaskKind = Download | Upload(isMultipartUpload: bool, hasOnPause: bool, hasOnResume: bool)

  /** The visible state, the recorded abort error and the callbacks invoked so far. */
  datatype Snapshot = Snapshot(state: TransferTaskState, abortErrorOverwriteRecord: Option<TaskError>,
                               callbacks: seq<Callback>)

  const Initial := Snapshot(IN_PROGRESS, None, [])

  /** `cancel(abortErrorOverwrite)`: always records the given error; only a task
      that is still running or paused becomes CANCELED and calls `onCancel`. */
  function AfterCancel(t: Snapshot, abortErrorOverwrite: Option<TaskError>): (u: Snapshot)
    ensures u.abortErrorOverwriteRecord == abortErrorOverwrite
    ensures Terminal(t.state) ==> u.state == t.state && u.callbacks == t.callbacks
    ensures !Terminal(t.state) ==> u.state == CANCELED && u.callbacks == t.callbacks + [OnCancel(abortErrorOverwrite)]
  {
    var recorded := t.(abortErrorOverwriteRecord := abortErrorOverwrite);
    if Terminal(t.state) then recorded
    else recorded.(state := CANCELED, callbacks := t.callbacks + [OnCancel(abortErrorOverwrite)])
  }

  /** `pause()`: only a multipart upload in progress pauses, calling `onPause` if given. */
  function AfterPause(t: Snapshot, kind: TaskKind): (u: Snapshot)
    requires kind.Upload?
    ensures kind.isMultipartUpload && t.state == IN_PROGRESS ==>
      u == t.(state := PAUSED, callbacks := t.callbacks + if kind.hasOnPause then [OnPause] else [])
    ensures !(kind.isMultipartUpload && t.state == IN_PROGRESS) ==> u == t
  {
    if !kind.isMultipartUpload || t.state != IN_PROGRESS then t
    else t.(state := PAUSED, callbacks := t.callbacks + if kind.hasOnPause then [OnPause] else [])
  }

  /** `resume()`: only a paused multipart upload resumes, calling `onResume` if given. */
  function AfterResume(t: Snapshot, kind: TaskKind): (u: Snapshot)
    requires kind.Upload?
    ensures kind.isMultipartUpload && t.state == PAUSED ==>
      u == t.(state := IN_PROGRESS, callbacks := t.callbacks + if kind.hasOnResume then [OnResume] else [])
    ensures !(kind.isMultipartUpload && t.state == PAUSED) ==> u == t
  {
    if !kind.isMultipartUpload || t.state != PAUSED then t
    else t.(state := IN_PROGRESS, callbacks := t.callbacks + if kind.hasOnResume then [OnResume] else [])
  }

  datatype JobOutcome<R> = Resolved(value: R) | Rejected(error: TaskError)

  /** The job wrapper: the outcome sets the state whatever it was. A cancel error
      is replaced by the recorded abort error, if any; other errors pass through. */
  function AfterJob<R>(t: Snapshot, outcome: JobOutcome<R>): (r: (Snapshot, Result<R, TaskError>))
    ensures r.0.abortErrorOverwriteRecord == t.abortErrorOverwriteRecord && r.0.callbacks == t.callbacks
    ensures outcome.Resolved? ==> r.0.state == SUCCESS && r.1 == Success(outcome.value)
    ensures outcome.Rejected? && outcome.error.isCancelError ==>
      r.0.state == CANCELED && r.1 == Failure(t.abortErrorOverwriteRecord.GetOr(outcome.error))
    ensures outcome.Rejected? && !outcome.error.isCancelError ==>
      r.0.state == ERROR && r.1 == Failure(outcome.error)
  {
    match outcome
    case Resolved(v) => (t.(state := SUCCESS), Success(v))
    case Rejected(e) =>
      if e.isCancelError then (t.(state := CANCELED), Failure(t.abortErrorOverwriteRecord.GetOr(e)))
      else (t.(state := ERROR), Failure(e))
  }

  // ---------------------------------------------------------------------------
  // onCancel is called at most once

  function CancelCount(callbacks: seq<Callback>): nat
    decreases |callbacks|
  {
    if callbacks == [] then 0
    else CancelCount(callbacks[..|callbacks| - 1]) + if callbacks[|callbacks| - 1].OnCancel? then 1 else 0
  }

  /** Appending callbacks other than `onCancel` leaves the count alone. */
  lemma {:induction false} CancelCountAppend(callbacks: seq<Callback>, more: seq<Callback>)
    requires forall i :: 0 <= i < |more| ==> !more[i].OnCancel?
    ensures CancelCount(callbacks + more) == CancelCount(callbacks)
    decreases |more|
  {
    if more == [] {
      assert callbacks + more == callbacks;
    } else {
      var all := callbacks + more;
      assert all[..|all| - 1] == callbacks + more[..|more| - 1];
      assert all[|all| - 1] == more[|more| - 1];
      CancelCountAppend(callbacks, more[..|more| - 1]);
    }
  }

  /** `onCancel` has been called at most once, and only a task that can no longer be cancelled has called it. */
  predicate Inv(t: Snapshot) {
    CancelCount(t.callbacks) <= 1 && (CancelCount(t.callbacks) == 1 ==> Terminal(t.state))
  }

  /** `cancel` keeps the invariant: it calls `onCancel` only on a task that had not called it. */
  lemma InvAfterCancel(t: Snapshot, abortErrorOverwrite: Option<TaskError>)
    requires Inv(t)
    ensures Inv(AfterCancel(t, abortErrorOverwrite))
  {
    var c := AfterCancel(t, abortErrorOverwrite);
    if !Terminal(t.state) {
      assert c.callbacks[..|c.callbacks| - 1] == t.callbacks;
    }
  }

  /** `pause` keeps the invariant: it never calls `onCancel`. */
  lemma InvAfterPause(t: Snapshot, kind: TaskKind)
    requires Inv(t) && kind.Upload?
    ensures Inv(AfterPause(t, kind))
  {
    if kind.isMultipartUpload && t.state == IN_PROGRESS {
      var more: seq<Callback> := if kind.hasOnPause then [OnPause] else [];
      CancelCountAppend(t.callbacks, more);
      assert AfterPause(t, kind).callbacks == t.callbacks + more;
    }
  }

  /** `resume` keeps the invariant: it never calls `onCancel`. */
  lemma InvAfterResume(t: Snapshot, kind: TaskKind)
    requires Inv(t) && kind.Upload?
    ensures Inv(AfterResume(t, kind))
  {
    if kind.isMultipartUpload && t.state == PAUSED {
      var more: seq<Callback> := if kind.hasOnResume then [OnResume] else [];
      CancelCountAppend(t.callbacks, more);
      assert AfterResume(t, kind).callbacks == t.callbacks + more;
    }
  }

  /** One call on the task: `cancel`, `pause`, `resume`, or the job settling. */
  datatype Op<R> = CancelOp(abortErrorOverwrite: Option<TaskError>) | PauseOp | ResumeOp | SettleOp(outcome: JobOutcome<R>)

  /** A download task has no `pause` or `resume`. */
  predicate Offered<R>(kind: TaskKind, op: Op<R>) {
    kind.Upload? || !(op.PauseOp? || op.ResumeOp?)
  }

  function Step<R>(t: Snapshot, kind: TaskKind, op: Op<R>): Snapshot
    requires Offered(kind, op)
  {
    match op
    case CancelOp(e) => AfterCancel(t, e)
    case PauseOp => AfterPause(t, kind)
    case ResumeOp => AfterResume(t, kind)
    case SettleOp(outcome) => AfterJob(t, outcome).0
  }

  /** The snapshot after a sequence of calls. */
  function Apply<R>(t: Snapshot, kind: TaskKind, ops: seq<Op<R>>): Snapshot
    requires forall i :: 0 <= i < |ops| ==> Offered(kind, ops[i])
    decreases |ops|
  {
    if ops == [] then t else Apply(Step(t, kind, ops[0]), kind, ops[1..])
  }

  /** Whatever calls a caller makes, `onCancel` runs at most once, and only on a
      task that has stopped; the callbacks invoked only ever grow. */
  lemma {:induction false} OnCancelAtMostOnce<R>(t: Snapshot, kind: TaskKind, ops: seq<Op<R>>)
    requires Inv(t)
    requires forall i :: 0 <= i < |ops| ==> Offered(kind, ops[i])
    ensures Inv(Apply(t, kind, ops))
    ensures t.callbacks <= Apply(t, kind, ops).callbacks
    decreases |ops|
  {
    if ops != [] {
      var u := Step(t, kind, ops[0]);
      match ops[0] {
        case CancelOp(e) => InvAfterCancel(t, e);
        case PauseOp => InvAfterPause(t, kind);
        case ResumeOp => InvAfterResume(t, kind);
        case SettleOp(outcome) =>
      }
      assert t.callbacks <= u.callbacks;
      OnCancelAtMostOnce(u, kind, ops[1..]);
    }
  }

  /** Once SUCCESS, ERROR or CANCELED, only the job's outcome changes the state; no callback is called again. */
  lemma TerminalIsFinal(t: Snapshot, kind: TaskKind, abortErrorOverwrite: Option<TaskError>)
    requires Terminal(t.state)
    ensures AfterCancel(t, abortErrorOverwrite).state == t.state
    ensures AfterCancel(t, abortErrorOverwrite).callbacks == t.callbacks
    ensures kind.Upload? ==> AfterPause(t, kind) == t && AfterResume(t, kind) == t
  {
  }

  /** Pausing and then resuming a running multipart upload brings it back to IN_PROGRESS. */
  lemma PauseResume(t: Snapshot, kind: TaskKind)
    requires kind.Upload? && kind.isMultipartUpload && t.state == IN_PROGRESS
    ensures AfterResume(AfterPause(t, kind), kind).state == IN_PROGRESS
    ensures AfterResume(AfterPause(t, kind), kind).callbacks ==
      t.callbacks + (if kind.hasOnPause then [OnPause] else []) + (if kind.hasOnResume then [OnResume] else [])
  {
  }

  /** The task object: the state field, the closure's abort-error record, and the callback log. */
  class Task {
    const kind: TaskKind
    var state: TransferTaskState
    var abortErrorOverwriteRecord: Option<TaskError>
    var callbacks: seq<Callback>

    function Snap(): Snapshot
      reads this
    {
      Snapshot(state, abortErrorOverwriteRecord, callbacks)
    }

    predicate Valid()
      reads this
    {
      Inv(Snap())
    }

    /** `createDownloadTask` */
    constructor CreateDownloadTask()
      ensures kind == Download && Snap() == Initial && Valid()
    {
      kind := Download;
      state, abortErrorOverwriteRecord, callbacks := IN_PROGRESS, None, [];
    }

    /** `createUploadTask` */
    constructor CreateUploadTask(isMultipartUpload: bool, hasOnPause: bool, hasOnResume: bool)
      ensures kind == Upload(isMultipartUpload, hasOnPause, hasOnResume) && Snap() == Initial && Valid()
    {
      kind := Upload(isMultipartUpload, hasOnPause, hasOnResume);
      state, abortErrorOverwriteRecord, callbacks := IN_PROGRESS, None, [];
    }

    method Cancel(abortErrorOverwrite: Option<TaskError>)
      requires Valid()
      modifies this
      ensures Valid() && Snap() == AfterCancel(old(Snap()), abortErrorOverwrite)
    {
      InvAfterCancel(Snap(), abortErrorOverwrite);
      abortErrorOverwriteRecord := abortErrorOverwrite;
      if state == CANCELED || state == ERROR || state == SUCCESS {
        return;
      }
      state := CANCELED;
      callbacks := callbacks + [OnCancel(abortErrorOverwrite)];
    }

    method Pause()
      requires Valid() && kind.Upload?
      modifies this
      ensures Valid() && Snap() == AfterPause(old(Snap()), kind)
    {
      InvAfterPause(Snap(), kind);
      if !kind.isMultipartUpload || state != IN_PROGRESS {
        return;
      }
      state := PAUSED;
      if kind.hasOnPause {
        callbacks := callbacks + [OnPause];
      }
    }

    method Resume()
      requires Valid() && kind.Upload?
      modifies this
      ensures Valid() && Snap() == AfterResume(old(Snap()), kind)
    {
      InvAfterResume(Snap(), kind);
      if !kind.isMultipartUpload || state != PAUSED {
        return;
      }
      state := IN_PROGRESS;
      if kind.hasOnResume {
        callbacks := callbacks + [OnResume];
      }
    }

    /** The wrapped job promise settling with the job's outcome. */
    method Settle<R>(outcome: JobOutcome<R>) returns (r: Result<R, TaskError>)
      requires Valid()
      modifies this
      ensures Valid() && (Snap(), r) == AfterJob(old(Snap()), outcome)
    {
      match outcome {
        case Resolved(v) =>
          state := SUCCESS;
          r := Success(v);
        case Rejected(e) =>
          if e.isCancelError {
            state := CANCELED;
            r := Failure(if abortErrorOverwriteRecord.Some? then abortErrorOverwriteRecord.value else e);
          } else {
            state := ERROR;
            r := Failure(e);
          }
      }
    }
  }
}
