/** Applications for which the verdicts of checkpoint calls are right whatever signals arrive
    and however the calls follow each other: those that have declared no callbacks, and those
    without a worker thread, whose handler does everything one signal after the other. */
module CallbackSerial {
  import opened CallbackProtocol
  import opened CallbackSchedules

  // ---------------------------------------------------------------- no declared callbacks

  predicate NoCheckpoint(pending: seq<Hook>) {
    forall k :: 0 <= k < |pending| ==> pending[k] != Checkpoint
  }

  /** No checkpoint signal has been sent, and nobody runs checkpoint callbacks. */
  predicate Undeclared(s: State) {
    && !s.app.declared && (s.c.Detect? || s.c == Done(0)) && s.ran == {} && NoCheckpoint(s.pending)
    && (s.mutexFree || !s.h.Idle? ==> s.hook != Checkpoint)
    && (s.h.Running? ==> s.h.picked != Checkpoint) && (s.w.Working? ==> s.w.wpicked != Checkpoint)
  }

  lemma UndeclaredRuns(s: State, fails: bool)
    requires Undeclared(s)
    ensures s.h.Running? ==> Undeclared(StepH(s, fails))
    ensures s.w.Working? ==> Undeclared(StepW(s, fails))
  {
    if s.h.Running? { HandlerEntry(s, fails); }
    if s.w.Working? { WorkerEntry(s, fails); }
  }

  lemma UndeclaredHandler(s: State, fails: bool)
    requires Undeclared(s)
    ensures Undeclared(StepH(s, fails))
  {
    match s.h {
      case Idle =>
      case Running(_, _) => UndeclaredRuns(s, fails);
      case Sending(_) =>
      case Waking =>
    }
  }

  lemma UndeclaredWorker(s: State, fails: bool)
    requires Undeclared(s)
    ensures Undeclared(StepW(s, fails))
  {
    match s.w {
      case Locking =>
      case Working(_, _) => UndeclaredRuns(s, fails);
      case Reporting(_) =>
    }
  }

  lemma UndeclaredKept(s: State, a: Actor)
    requires Undeclared(s) && May(a, Signals)
    ensures Undeclared(Step(s, a))
  {
    match a {
      case Checkpointer =>
      case Handler(fails) => UndeclaredHandler(s, fails);
      case Worker(fails) => UndeclaredWorker(s, fails);
      case Raise(_) =>
      case NextCall =>
    }
  }

  lemma UndeclaredIsRight(s: State)
    requires Undeclared(s)
    ensures AlwaysRight(s, Signals)
  {
    forall x: State, a: Actor | Undeclared(x) && May(a, Signals)
      ensures Undeclared(Step(x, a))
    {
      UndeclaredKept(x, a);
    }
    KeptMeansRight(s, Signals, x => Undeclared(x));
  }

  // ---------------------------------------------------------------- no worker

  function Outstanding(pending: seq<Hook>): nat {
    multiset(pending)[Checkpoint]
  }

  /** The handler is between taking a checkpoint signal and its report. */
  predicate Handling(s: State) {
    (s.h.Running? || s.h.Sending?) && s.hook == Checkpoint
  }

  /** The checkpoint signals that have not been answered. */
  function Open(s: State): nat {
    Outstanding(s.pending) + if Handling(s) then 1 else 0
  }

  ghost predicate Truthful(s: State, m: Msg) {
    m == ChkptApp <==> EveryCallbackGood(s)
  }

  /** Where the call is. */
  ghost predicate CallInv(s: State) {
    match s.c
    case Detect => Open(s) == 0 && s.queue.NoQueue? && !s.signalFailed
    case GetQueue => Open(s) == 0 && s.queue.NoQueue? && !s.signalFailed
    case Kill => Open(s) == 0 && s.queue == Queue([]) && !s.signalFailed
    case Receive =>
      || (Open(s) == 1 && s.queue == Queue([]) && (!Handling(s) ==> !s.signalFailed))
      || (Open(s) == 0 && s.queue.Queue? && |s.queue.msgs| == 1 && Truthful(s, s.queue.msgs[0]))
    case RemoveQueue(m) => Open(s) == 0 && Truthful(s, m)
    case Done(r) => Open(s) == 0 && s.queue.NoQueue? && (r == 0 <==> EveryCallbackGood(s))
  }

  /** Where the handler is. */
  ghost predicate PassInv(s: State) {
    && (s.h.Running? ==> s.h.picked == s.hook)
    && (s.h.Running? && s.hook == Checkpoint ==> !s.signalFailed && RanBelow(s, Signal, s.h.i))
    && (s.h.Sending? && s.hook == Checkpoint ==>
          s.h.bad == s.signalFailed && (!s.signalFailed ==> AllRan(s, Signal)))
  }

  ghost predicate Serial(s: State) {
    && s.app.declared && !s.app.threadRunning && ThreadImpliesWorker(s) && s.w.Locking? && !s.threadFailed
    && CallInv(s) && PassInv(s)
  }

  lemma SerialCheckpointer(s: State)
    requires Serial(s)
    ensures Serial(StepC(s))
  {
    match s.c {
      case Detect =>
      case GetQueue =>
      case Kill =>
      case Receive =>
      case RemoveQueue(_) =>
      case Done(_) =>
    }
  }

  lemma SerialStarts(s: State, fails: bool)
    requires Serial(s) && s.h.Idle?
    ensures Serial(StepH(s, fails))
  {
    if s.pending != [] { assert s.pending == [s.pending[0]] + s.pending[1..]; }
  }

  lemma SerialRuns(s: State, fails: bool)
    requires Serial(s) && s.h.Running?
    ensures Serial(StepH(s, fails))
  {
    HandlerEntry(s, fails);
  }

  lemma SignalsAreAll(s: State)
    requires ThreadImpliesWorker(s) && !s.app.threadRunning && !s.threadFailed
    ensures EveryCallbackGood(s) <==> !s.signalFailed && AllRan(s, Signal)
  {
    forall k | 0 <= k < |s.app.tables.chkpt| && s.app.tables.chkpt[k].func
      ensures Eligible(s.app.tables.chkpt[k], Signal)
    {
      assert !Eligible(s.app.tables.chkpt[k], Thread);
    }
  }

  lemma SerialSends(s: State, fails: bool)
    requires Serial(s) && s.h.Sending?
    ensures Serial(StepH(s, fails))
  {
    if s.hook == Checkpoint { SignalsAreAll(s); }
  }

  lemma SerialHandler(s: State, fails: bool)
    requires Serial(s)
    ensures Serial(StepH(s, fails))
  {
    match s.h {
      case Idle => SerialStarts(s, fails);
      case Running(_, _) => SerialRuns(s, fails);
      case Sending(_) => SerialSends(s, fails);
      case Waking =>
    }
  }

  lemma SerialKept(s: State, a: Actor)
    requires Serial(s) && May(a, Signals)
    ensures Serial(Step(s, a))
  {
    match a {
      case Checkpointer => SerialCheckpointer(s);
      case Handler(fails) => SerialHandler(s, fails);
      case Worker(fails) => assert StepW(s, fails) == s;
      case Raise(_) =>
      case NextCall =>
    }
  }

  lemma SerialIsRight(s: State)
    requires Serial(s)
    ensures AlwaysRight(s, Signals)
  {
    forall x: State, a: Actor | Serial(x) && May(a, Signals)
      ensures Serial(Step(x, a))
    {
      SerialKept(x, a);
    }
    KeptMeansRight(s, Signals, x => Serial(x));
  }

  /** Without declared callbacks or without a worker, nothing can mislead a call. */
  lemma NoWorkerIsRight(s: State)
    requires Quiet(s) && (!s.app.declared || !s.app.threadRunning)
    ensures AlwaysRight(s, Signals)
  {
    if s.app.declared {
      SerialIsRight(s);
    } else {
      UndeclaredIsRight(s);
    }
  }
}
