/** The checkpoint callback protocol of libs/libkrgcb/libkrgcb.c as a system of
    interleaved steps: the checkpointing process, the signal handler and the worker thread
    of the application. They share `current_hook`, the mutex, which serves as a binary
    semaphore because the handler unlocks what the worker has locked, and a message queue
    from which the oldest message is taken first.

    System calls work, and signals are handled one at a time. A schedule is any sequence of
    actors; an actor that is blocked or has nothing to do changes nothing. */
module CallbackProtocol {

  datatype Hook = Checkpoint | Restart | Continue

  datatype Context = Signal | Thread

  /** What a callback can return; one that can return both may do so in any order. */
  datatype Result = Zero | Nonzero | Either

  /** One registered entry; `func` says that its function is not null. */
  datatype Callback = Callback(func: bool, context: Context, result: Result)

  datatype Tables = Tables(chkpt: seq<Callback>, rst: seq<Callback>, cnt: seq<Callback>)

  /** What the application has set up before the first call. */
  datatype Application = Application(declared: bool, threadRunning: bool, tables: Tables)

  datatype Msg = ChkptApp | Err

  datatype Queue = NoQueue | Queue(msgs: seq<Msg>)

  /** cr_execute_chkpt_callbacks: the call about to be made. */
  datatype Cpc = Detect | GetQueue | Kill | Receive | RemoveQueue(got: Msg) | Done(r: int)

  /** handle_signal. `picked` is the hook whose entries run_callbacks has picked. */
  datatype Hpc = Idle | Running(picked: Hook, i: nat) | Sending(bad: bool) | Waking

  /** worker_thread */
  datatype Wpc = Locking | Working(wpicked: Hook, j: nat) | Reporting(wbad: bool)

  datatype Counts = Counts(wakes: nat, passes: nat, lost: nat)

  /** A callback that was run: in which pass, from the array of which hook and from which
      place in it, and whether it failed. */
  datatype Invocation = Invoked(context: Context, hook: Hook, index: nat, entry: Callback, bad: bool)

  /** The fields from `trail` on are history: all callbacks run since the call began, in
      order, the checkpoint callbacks among them, whether a run of one of those for the
      handler or for the worker has failed, the messages queued, whether handler and worker
      are past their reports, and how often the worker has been woken, has come through the
      lock, and was woken in vain because it was free already. No step reads them. */
  datatype State = State(
    app: Application,
    queue: Queue,
    mutexFree: bool,
    hook: Hook,
    pending: seq<Hook>,
    c: Cpc,
    h: Hpc,
    w: Wpc,
    trail: seq<Invocation>,
    ran: set<nat>,
    signalFailed: bool,
    threadFailed: bool,
    log: seq<Msg>,
    handled: bool,
    passed: bool,
    counts: Counts)

  /** Who moves: one of the three parties, somebody who sends the application a signal, or
      somebody who starts the next checkpoint after one is done. `fails` is what becomes of
      the callback that is run in the step, if it can return both. */
  datatype Actor = Checkpointer | Handler(fails: bool) | Worker(fails: bool) | Raise(sig: Hook) | NextCall

  function TableOf(t: Tables, hook: Hook): seq<Callback> {
    match hook
    case Checkpoint => t.chkpt
    case Restart => t.rst
    case Continue => t.cnt
  }

  function Table(s: State, hook: Hook): seq<Callback> {
    TableOf(s.app.tables, hook)
  }

  /** Entry `i` of the array of `hook`; behind the registered ones the array is zero. */
  function Entry(s: State, hook: Hook, i: nat): Callback {
    if i < |Table(s, hook)| then Table(s, hook)[i] else Callback(false, Signal, Zero)
  }

  predicate Eligible(c: Callback, context: Context) {
    c.func && c.context == context
  }

  /** What a run of a callback comes to. */
  predicate Fails(c: Callback, fails: bool) {
    c.result.Nonzero? || (c.result.Either? && fails)
  }

  /** `ran` after entry `i` of `picked` has run. */
  function WithRun(ran: set<nat>, picked: Hook, i: nat): set<nat> {
    if picked == Checkpoint then ran + {i} else ran
  }

  /** send_message: without a queue, msgget fails and nothing is sent. */
  function Send(s: State, m: Msg): State {
    match s.queue
    case NoQueue => s
    case Queue(q) => s.(queue := Queue(q + [m]), log := s.log + [m])
  }

  function CountWake(n: Counts, free: bool): Counts {
    n.(wakes := n.wakes + 1, lost := n.lost + if free then 1 else 0)
  }

  function StepC(s: State): State {
    match s.c
    case Detect => s.(c := if s.app.declared then GetQueue else Done(0))
    case GetQueue => s.(queue := if s.queue.NoQueue? then Queue([]) else s.queue, c := Kill)
    case Kill => s.(pending := s.pending + [Checkpoint], c := Receive)
    case Receive =>
      if s.queue.Queue? && s.queue.msgs != []
      then s.(queue := Queue(s.queue.msgs[1..]), c := RemoveQueue(s.queue.msgs[0]))
      else s
    case RemoveQueue(m) => s.(queue := NoQueue, c := Done(if m == Err then -1 else 0))
    case Done(_) => s
  }

  function StepH(s: State, fails: bool): State {
    match s.h
    case Idle =>
      if s.pending == [] then s
      else s.(hook := s.pending[0], pending := s.pending[1..], h := Running(s.pending[0], 0))
    case Running(picked, i) =>
      if i >= |Table(s, s.hook)| then s.(h := Sending(false))
      else if !Eligible(Entry(s, picked, i), Signal) then s.(h := Running(picked, i + 1))
      else
        var bad := Fails(Entry(s, picked, i), fails);
        s.(trail := s.trail + [Invoked(Signal, picked, i, Entry(s, picked, i), bad)],
           ran := WithRun(s.ran, picked, i), signalFailed := s.signalFailed || (bad && picked == Checkpoint),
           h := if bad then Sending(true) else Running(picked, i + 1))
    case Sending(bad) =>
      var s' := if s.hook != Checkpoint then s
                else if bad then Send(s, Err)
                else if !s.app.threadRunning then Send(s, ChkptApp)
                else s;
      s'.(h := Waking, handled := true)
    case Waking =>
      if s.app.threadRunning
      then s.(mutexFree := true, counts := CountWake(s.counts, s.mutexFree), h := Idle)
      else s.(h := Idle)
  }

  function StepW(s: State, fails: bool): State {
    match s.w
    case Locking =>
      if s.app.threadRunning && s.mutexFree
      then s.(mutexFree := false, counts := s.counts.(passes := s.counts.passes + 1), w := Working(s.hook, 0))
      else s
    case Working(picked, j) =>
      if j >= |Table(s, s.hook)| then s.(w := Reporting(false))
      else if !Eligible(Entry(s, picked, j), Thread) then s.(w := Working(picked, j + 1))
      else
        var bad := Fails(Entry(s, picked, j), fails);
        s.(trail := s.trail + [Invoked(Thread, picked, j, Entry(s, picked, j), bad)],
           ran := WithRun(s.ran, picked, j), threadFailed := s.threadFailed || (bad && picked == Checkpoint),
           w := if bad then Reporting(true) else Working(picked, j + 1))
    case Reporting(bad) =>
      var s' := if s.hook != Checkpoint then s else Send(s, if bad then Err else ChkptApp);
      s'.(w := Locking, passed := true)
  }

  function Step(s: State, a: Actor): State {
    match a
    case Checkpointer => StepC(s)
    case Handler(fails) => StepH(s, fails)
    case Worker(fails) => StepW(s, fails)
    case Raise(hook) => s.(pending := s.pending + [hook])
    case NextCall =>
      if s.c.Done?
      then s.(c := Detect, trail := [], ran := {}, signalFailed := false, threadFailed := false, log := [],
              handled := false, passed := false)
      else s
  }

  function Run(s: State, schedule: seq<Actor>): State {
    if schedule == [] then s
    else Step(Run(s, schedule[..|schedule| - 1]), schedule[|schedule| - 1])
  }

  // ---------------------------------------------------------------- one entry of a pass

  /** What is run in a step of the handler's pass. */
  lemma HandlerTrail(s: State, fails: bool)
    requires s.h.Running?
    ensures var c := Entry(s, s.h.picked, s.h.i);
            StepH(s, fails).trail == s.trail +
            if s.h.i < |Table(s, s.hook)| && Eligible(c, Signal)
            then [Invoked(Signal, s.h.picked, s.h.i, c, Fails(c, fails))] else []
  {
  }

  /** One entry of the handler's pass. */
  lemma HandlerEntry(s: State, fails: bool)
    requires s.h.Running?
    ensures var m, c := StepH(s, fails), Entry(s, s.h.picked, s.h.i);
            var runs := s.h.i < |Table(s, s.hook)| && Eligible(c, Signal);
            && m == s.(h := m.h, trail := m.trail, ran := m.ran, signalFailed := m.signalFailed)
            && m.h == (if s.h.i >= |Table(s, s.hook)| then Sending(false)
                       else if runs && Fails(c, fails) then Sending(true)
                       else Running(s.h.picked, s.h.i + 1))
            && m.ran == (if runs then WithRun(s.ran, s.h.picked, s.h.i) else s.ran)
            && (m.signalFailed <==> s.signalFailed || (runs && Fails(c, fails) && s.h.picked == Checkpoint))
  {
  }

  /** What is run in a step of the worker's pass. */
  lemma WorkerTrail(s: State, fails: bool)
    requires s.w.Working?
    ensures var c := Entry(s, s.w.wpicked, s.w.j);
            StepW(s, fails).trail == s.trail +
            if s.w.j < |Table(s, s.hook)| && Eligible(c, Thread)
            then [Invoked(Thread, s.w.wpicked, s.w.j, c, Fails(c, fails))] else []
  {
  }

  /** One entry of the worker's pass. */
  lemma WorkerEntry(s: State, fails: bool)
    requires s.w.Working?
    ensures var m, c := StepW(s, fails), Entry(s, s.w.wpicked, s.w.j);
            var runs := s.w.j < |Table(s, s.hook)| && Eligible(c, Thread);
            && m == s.(w := m.w, trail := m.trail, ran := m.ran, threadFailed := m.threadFailed)
            && m.w == (if s.w.j >= |Table(s, s.hook)| then Reporting(false)
                       else if runs && Fails(c, fails) then Reporting(true)
                       else Working(s.w.wpicked, s.w.j + 1))
            && m.ran == (if runs then WithRun(s.ran, s.w.wpicked, s.w.j) else s.ran)
            && (m.threadFailed <==> s.threadFailed || (runs && Fails(c, fails) && s.w.wpicked == Checkpoint))
  {
  }

  // ---------------------------------------------------------------- wake-ups

  /** The worker is at its lock and has nothing to wake up for. */
  predicate Resting(s: State) {
    s.w.Locking? && !s.mutexFree
  }

  predicate Accounted(n: Counts, free: bool) {
    n.wakes == n.passes + n.lost + if free then 1 else 0
  }

  lemma WakingCounts(s: State, fails: bool)
    requires s.h.Waking?
    ensures var e := StepH(s, fails);
            if s.app.threadRunning then e.counts == CountWake(s.counts, s.mutexFree) && e.mutexFree
            else e.counts == s.counts && e.mutexFree == s.mutexFree
  {
  }

  lemma OthersDoNotCount(s: State, fails: bool)
    requires !s.h.Waking?
    ensures StepH(s, fails).counts == s.counts && StepH(s, fails).mutexFree == s.mutexFree
  {
    match s.h {
      case Idle =>
      case Running(_, _) => HandlerEntry(s, fails);
      case Sending(_) =>
    }
  }

  lemma HandlerAccounts(s: State, fails: bool)
    requires Accounted(s.counts, s.mutexFree)
    ensures Accounted(StepH(s, fails).counts, StepH(s, fails).mutexFree)
  {
    if s.h.Waking? {
      WakingCounts(s, fails);
    } else {
      OthersDoNotCount(s, fails);
    }
  }

  lemma WorkerAccounts(s: State, fails: bool)
    requires Accounted(s.counts, s.mutexFree)
    ensures Accounted(StepW(s, fails).counts, StepW(s, fails).mutexFree)
  {
    match s.w {
      case Locking =>
      case Working(_, _) => WorkerEntry(s, fails);
      case Reporting(_) =>
    }
  }

  lemma StepAccounts(s: State, a: Actor)
    requires Accounted(s.counts, s.mutexFree)
    ensures Accounted(Step(s, a).counts, Step(s, a).mutexFree)
  {
    match a {
      case Checkpointer => assert StepC(s).counts == s.counts && StepC(s).mutexFree == s.mutexFree;
      case Handler(fails) => HandlerAccounts(s, fails);
      case Worker(fails) => WorkerAccounts(s, fails);
      case Raise(_) =>
      case NextCall =>
    }
  }

  /** Wake-up accounting, over every run with any signals and any number of calls: each
      wake-up has let the worker through the lock once, is still unconsumed, or found an
      earlier one unconsumed. */
  lemma {:induction false} WakeUpsAreAccounted(s: State, schedule: seq<Actor>)
    requires Accounted(s.counts, s.mutexFree)
    ensures Accounted(Run(s, schedule).counts, Run(s, schedule).mutexFree)
    decreases |schedule|
  {
    if schedule != [] {
      WakeUpsAreAccounted(s, schedule[..|schedule| - 1]);
      StepAccounts(Run(s, schedule[..|schedule| - 1]), schedule[|schedule| - 1]);
    }
  }

  /** So passes never exceed wake-ups, and when the worker rests the two are equal exactly
      if no wake-up was issued while an earlier one was unconsumed. */
  lemma PassesMatchWakeUps(s: State, schedule: seq<Actor>)
    requires s.counts == Counts(0, 0, 0) && !s.mutexFree
    ensures var e, n := Run(s, schedule), Run(s, schedule).counts;
            n.passes <= n.wakes && (Resting(e) ==> (n.passes == n.wakes <==> n.lost == 0))
  {
    WakeUpsAreAccounted(s, schedule);
  }

  // ---------------------------------------------------------------- one call

  predicate ThreadImpliesWorker(s: State) {
    forall i :: 0 <= i < |s.app.tables.chkpt| && Eligible(s.app.tables.chkpt[i], Thread) ==> s.app.threadRunning
  }

  /** A call begins and nothing of an earlier one is left: no signal pending, handler and
      worker at rest, no queue. Thread entries imply a worker. */
  predicate Quiet(s: State) {
    && s.c.Detect? && s.h.Idle? && s.pending == [] && Resting(s) && s.queue.NoQueue?
    && s.trail == [] && s.ran == {} && !s.signalFailed && !s.threadFailed && s.log == [] && !s.handled && !s.passed
    && ThreadImpliesWorker(s)
  }

  predicate Party(a: Actor) {
    a.Checkpointer? || a.Handler? || a.Worker?
  }

  /** All entries of a context below `i` have run. */
  ghost predicate RanBelow(s: State, context: Context, i: nat) {
    forall k :: 0 <= k < i && k < |s.app.tables.chkpt| && Eligible(s.app.tables.chkpt[k], context) ==> k in s.ran
  }

  ghost predicate AllRan(s: State, context: Context) {
    RanBelow(s, context, |s.app.tables.chkpt|)
  }

  /** Every non-null checkpoint callback has run, and none of the runs has failed. */
  ghost predicate EveryCallbackGood(s: State) {
    && !s.signalFailed && !s.threadFailed
    && forall k :: 0 <= k < |s.app.tables.chkpt| && s.app.tables.chkpt[k].func ==> k in s.ran
  }

  predicate Killed(s: State) {
    s.c.Receive? || s.c.RemoveQueue? || (s.c.Done? && s.app.declared)
  }

  /** What the handler has reported by the time it is past its report. */
  function HandlerReport(s: State): seq<Msg> {
    if !s.handled then [] else if s.signalFailed then [Err] else if !s.app.threadRunning then [ChkptApp] else []
  }

  function WorkerReport(s: State): Msg {
    if s.threadFailed then Err else ChkptApp
  }

  /** The first message of the call, whoever sends it. */
  function FirstReport(s: State): Msg {
    if s.signalFailed then Err else if !s.app.threadRunning then ChkptApp else WorkerReport(s)
  }

  ghost predicate HandlerInv(s: State) {
    && (s.pending == [] || (s.pending == [Checkpoint] && s.h.Idle? && !s.handled && Killed(s)))
    && (!Killed(s) ==> s.h.Idle? && !s.handled && s.pending == [])
    && (!s.h.Idle? ==> s.hook == Checkpoint)
    && (s.h.Idle? && !s.handled ==> !s.signalFailed)
    && (s.h.Running? ==> s.h.picked == Checkpoint && !s.handled && !s.signalFailed && RanBelow(s, Signal, s.h.i))
    && (s.h.Sending? ==> !s.handled && s.h.bad == s.signalFailed && (!s.signalFailed ==> AllRan(s, Signal)))
    && (s.h.Waking? ==> s.handled)
    && (s.handled ==> s.hook == Checkpoint && (!s.signalFailed ==> AllRan(s, Signal)))
    && (s.h.Idle? && Killed(s) && s.pending == [] ==> s.handled)
  }

  ghost predicate WorkerInv(s: State) {
    && (!s.app.threadRunning ==> Resting(s) && !s.passed)
    && (s.app.threadRunning && (!s.handled || s.h.Waking?) ==> Resting(s) && !s.passed)
    && (s.app.threadRunning && s.handled && s.h.Idle? && Resting(s) ==> s.passed)
    && (s.mutexFree ==> s.w.Locking? && !s.passed)
    && (s.w.Locking? && !s.passed ==> !s.threadFailed)
    && (s.w.Working? ==> s.w.wpicked == Checkpoint && !s.passed && !s.threadFailed && RanBelow(s, Thread, s.w.j))
    && (s.w.Reporting? ==> !s.passed && s.w.wbad == s.threadFailed && (!s.threadFailed ==> AllRan(s, Thread)))
    && (s.passed ==> !s.threadFailed ==> AllRan(s, Thread))
  }

  ghost predicate QueueInv(s: State) {
    && (s.c.Detect? || s.c.GetQueue? ==> s.queue.NoQueue? && s.log == [])
    && (s.c.Kill? ==> s.queue == Queue([]) && s.log == [])
    && (s.c.Receive? ==> s.queue == Queue(s.log))
    && (s.c.RemoveQueue? ==> s.log != [] && s.c.got == s.log[0] && s.queue.Queue?)
    && (s.c.Done? ==> s.queue.NoQueue?)
    && (s.c.Done? && s.app.declared ==> s.log != [] && s.c.r == if s.log[0] == Err then -1 else 0)
    && (s.c.Receive? || s.c.RemoveQueue? ==>
          s.log == HandlerReport(s) + if s.passed then [WorkerReport(s)] else [])
    && (s.log != [] ==> s.handled && s.log[0] == FirstReport(s))
    && (s.log != [] && !s.signalFailed && s.app.threadRunning ==> s.passed)
  }

  ghost predicate Inv(s: State) {
    && HandlerInv(s) && WorkerInv(s) && QueueInv(s) && ThreadImpliesWorker(s)
    && (!s.app.declared ==> s.c.Detect? || s.c == Done(0))
  }

  lemma CallSignals(s: State)
    requires Inv(s) && s.c.Kill?
    ensures Inv(StepC(s))
  {
  }

  lemma CallReceives(s: State)
    requires Inv(s) && s.c.Receive?
    ensures Inv(StepC(s))
  {
  }

  lemma CallReturns(s: State)
    requires Inv(s) && s.c.RemoveQueue?
    ensures Inv(StepC(s))
  {
  }

  lemma CheckpointerKeepsInv(s: State)
    requires Inv(s)
    ensures Inv(StepC(s))
  {
    match s.c {
      case Detect =>
      case GetQueue =>
      case Kill => CallSignals(s);
      case Receive => CallReceives(s);
      case RemoveQueue(_) => CallReturns(s);
      case Done(_) =>
    }
  }

  lemma HandlerStarts(s: State, fails: bool)
    requires Inv(s) && s.h.Idle?
    ensures Inv(StepH(s, fails))
  {
  }

  lemma HandlerRunsEntry(s: State, fails: bool)
    requires Inv(s) && s.h.Running?
    requires s.h.i < |s.app.tables.chkpt| && Eligible(s.app.tables.chkpt[s.h.i], Signal)
    ensures Inv(StepH(s, fails))
  {
  }

  lemma HandlerSkipsEntry(s: State, fails: bool)
    requires Inv(s) && s.h.Running?
    requires s.h.i < |s.app.tables.chkpt| ==> !Eligible(s.app.tables.chkpt[s.h.i], Signal)
    ensures Inv(StepH(s, fails))
  {
  }

  lemma HandlerRuns(s: State, fails: bool)
    requires Inv(s) && s.h.Running?
    ensures Inv(StepH(s, fails))
  {
    if s.h.i < |s.app.tables.chkpt| && Eligible(s.app.tables.chkpt[s.h.i], Signal) {
      HandlerRunsEntry(s, fails);
    } else {
      HandlerSkipsEntry(s, fails);
    }
  }

  lemma HandlerSends(s: State, fails: bool)
    requires Inv(s) && s.h.Sending?
    ensures Inv(StepH(s, fails))
  {
  }

  lemma HandlerWakes(s: State, fails: bool)
    requires Inv(s) && s.h.Waking?
    ensures Inv(StepH(s, fails))
  {
  }

  lemma HandlerKeepsInv(s: State, fails: bool)
    requires Inv(s)
    ensures Inv(StepH(s, fails))
  {
    match s.h {
      case Idle => HandlerStarts(s, fails);
      case Running(_, _) => HandlerRuns(s, fails);
      case Sending(_) => HandlerSends(s, fails);
      case Waking => HandlerWakes(s, fails);
    }
  }

  lemma WorkerLocks(s: State, fails: bool)
    requires Inv(s) && s.w.Locking?
    ensures Inv(StepW(s, fails))
  {
  }

  lemma WorkerRunsEntry(s: State, fails: bool)
    requires Inv(s) && s.w.Working?
    requires s.w.j < |s.app.tables.chkpt| && Eligible(s.app.tables.chkpt[s.w.j], Thread)
    ensures Inv(StepW(s, fails))
  {
  }

  lemma WorkerSkipsEntry(s: State, fails: bool)
    requires Inv(s) && s.w.Working?
    requires s.w.j < |s.app.tables.chkpt| ==> !Eligible(s.app.tables.chkpt[s.w.j], Thread)
    ensures Inv(StepW(s, fails))
  {
  }

  lemma WorkerWorks(s: State, fails: bool)
    requires Inv(s) && s.w.Working?
    ensures Inv(StepW(s, fails))
  {
    if s.w.j < |s.app.tables.chkpt| && Eligible(s.app.tables.chkpt[s.w.j], Thread) {
      WorkerRunsEntry(s, fails);
    } else {
      WorkerSkipsEntry(s, fails);
    }
  }

  lemma WorkerReports(s: State, fails: bool)
    requires Inv(s) && s.w.Reporting?
    ensures Inv(StepW(s, fails))
  {
  }

  lemma WorkerKeepsInv(s: State, fails: bool)
    requires Inv(s)
    ensures Inv(StepW(s, fails))
  {
    match s.w {
      case Locking => WorkerLocks(s, fails);
      case Working(_, _) => WorkerWorks(s, fails);
      case Reporting(_) => WorkerReports(s, fails);
    }
  }

  lemma QuietInv(s: State)
    requires Quiet(s)
    ensures Inv(s)
  {
  }

  lemma StepKeepsInv(s: State, a: Actor)
    requires Inv(s) && Party(a)
    ensures Inv(Step(s, a))
  {
    match a {
      case Checkpointer => CheckpointerKeepsInv(s);
      case Handler(fails) => HandlerKeepsInv(s, fails);
      case Worker(fails) => WorkerKeepsInv(s, fails);
    }
  }

  lemma CheckpointerKeepsApplication(s: State)
    ensures StepC(s).app == s.app
  {
    match s.c {
      case Detect =>
      case GetQueue =>
      case Kill =>
      case Receive =>
      case RemoveQueue(_) =>
      case Done(_) =>
    }
  }

  lemma HandlerKeepsApplication(s: State, fails: bool)
    ensures StepH(s, fails).app == s.app
  {
    match s.h {
      case Idle =>
      case Running(_, _) => HandlerEntry(s, fails);
      case Sending(_) =>
      case Waking =>
    }
  }

  lemma WorkerKeepsApplication(s: State, fails: bool)
    ensures StepW(s, fails).app == s.app
  {
    match s.w {
      case Locking =>
      case Working(_, _) => WorkerEntry(s, fails);
      case Reporting(_) =>
    }
  }

  lemma StepKeepsApplication(s: State, a: Actor)
    ensures Step(s, a).app == s.app
  {
    match a {
      case Checkpointer => CheckpointerKeepsApplication(s);
      case Handler(fails) => HandlerKeepsApplication(s, fails);
      case Worker(fails) => WorkerKeepsApplication(s, fails);
      case Raise(_) =>
      case NextCall =>
    }
  }

  lemma {:induction false} RunKeepsInv(s: State, schedule: seq<Actor>)
    requires Inv(s) && forall k :: 0 <= k < |schedule| ==> Party(schedule[k])
    ensures Inv(Run(s, schedule)) && Run(s, schedule).app == s.app
    decreases |schedule|
  {
    if schedule != [] {
      var front, a := schedule[..|schedule| - 1], schedule[|schedule| - 1];
      RunKeepsInv(s, front);
      StepKeepsInv(Run(s, front), a);
      StepKeepsApplication(Run(s, front), a);
    }
  }

  /** A verdict is right: 0 exactly if every non-null callback of both contexts has run and
      returned 0. Without declared callbacks the verdict is 0 and nothing runs. */
  ghost predicate VerdictIsRight(s: State)
    requires s.c.Done?
  {
    if s.app.declared then s.c.r == 0 <==> EveryCallbackGood(s)
    else s.c.r == 0 && s.ran == {}
  }

  lemma InvVerdict(s: State)
    requires Inv(s) && s.c.Done? && s.app.declared
    ensures s.c.r == 0 <==> EveryCallbackGood(s)
  {
    assert s.log[0] == FirstReport(s);
    if s.c.r == 0 {
      forall k | 0 <= k < |s.app.tables.chkpt| && s.app.tables.chkpt[k].func
        ensures k in s.ran
      {
        var context := s.app.tables.chkpt[k].context;
        assert Eligible(s.app.tables.chkpt[k], context);
        assert AllRan(s, context);
      }
    }
  }

  lemma {:induction false} UndeclaredRunsNothing(s: State, schedule: seq<Actor>)
    requires Quiet(s) && !s.app.declared && forall k :: 0 <= k < |schedule| ==> Party(schedule[k])
    ensures Run(s, schedule).ran == {}
    decreases |schedule|
  {
    if schedule != [] {
      var front := schedule[..|schedule| - 1];
      UndeclaredRunsNothing(s, front);
      QuietInv(s);
      RunKeepsInv(s, front);
    }
  }

  /** In every interleaving of a call that begins quiet, the verdict is right. */
  lemma CheckpointVerdict(s: State, schedule: seq<Actor>)
    requires Quiet(s) && forall k :: 0 <= k < |schedule| ==> Party(schedule[k])
    ensures var e := Run(s, schedule); e.c.Done? ==> VerdictIsRight(e)
  {
    QuietInv(s);
    RunKeepsInv(s, schedule);
    var e := Run(s, schedule);
    if e.c.Done? {
      if e.app.declared {
        InvVerdict(e);
      } else {
        UndeclaredRunsNothing(s, schedule);
      }
    }
  }

  /** Whatever the order of steps, an error of a signal callback is the first message in
      the queue, although the worker reports as well. */
  lemma SignalErrorComesFirst(s: State, schedule: seq<Actor>)
    requires Quiet(s) && forall k :: 0 <= k < |schedule| ==> Party(schedule[k])
    ensures var e := Run(s, schedule); e.signalFailed && e.log != [] ==> e.log[0] == Err
  {
    QuietInv(s);
    RunKeepsInv(s, schedule);
  }

  // ---------------------------------------------------------------- after the call

  /** Nobody can move. */
  ghost predicate Stuck(s: State) {
    StepC(s) == s && forall fails :: StepH(s, fails) == s && StepW(s, fails) == s
  }

  /** The protocol does not hang: when nobody can move, the call is done, and nothing of it
      is left that could disturb the next one. */
  lemma StuckMeansDone(s: State, schedule: seq<Actor>)
    requires Quiet(s) && forall k :: 0 <= k < |schedule| ==> Party(schedule[k])
    ensures var e := Run(s, schedule); Stuck(e) ==> e.c.Done? && Quiet(Step(e, NextCall))
  {
    QuietInv(s);
    RunKeepsInv(s, schedule);
    var e := Run(s, schedule);
    if Stuck(e) {
      assert StepH(e, false) == e && StepW(e, false) == e;
      assert e.h.Idle? && e.pending == [];
      assert e.w.Locking? && Resting(e);
      assert e.c.Done? || e.c.Receive?;
    }
  }

  function RankC(c: Cpc): nat {
    match c
    case Detect => 5
    case GetQueue => 4
    case Kill => 3
    case Receive => 2
    case RemoveQueue(_) => 1
    case Done(_) => 0
  }

  function RankH(h: Hpc, l: nat): nat {
    match h
    case Idle => 0
    case Running(_, i) => 2 * l + 10 - if i <= l then i else l
    case Sending(_) => l + 9
    case Waking => l + 8
  }

  function RankW(w: Wpc, l: nat): nat {
    match w
    case Locking => 0
    case Working(_, j) => l + 3 - if j <= l then j else l
    case Reporting(_) => 1
  }

  /** An upper bound on the steps the three parties can still make in a call. */
  function Rank(s: State): nat {
    var l := |s.app.tables.chkpt|;
    RankC(s.c) * (2 * l + 20) + |s.pending| * (2 * l + 15) + RankH(s.h, l) +
    RankW(s.w, l) + if s.mutexFree then l + 4 else 0
  }

  lemma CheckpointerLowersRank(s: State)
    requires Inv(s) && StepC(s) != s
    ensures Rank(StepC(s)) < Rank(s)
  {
    match s.c {
      case Detect =>
      case GetQueue =>
      case Kill =>
      case Receive =>
      case RemoveQueue(_) =>
      case Done(_) =>
    }
  }

  lemma HandlerLowersRank(s: State, fails: bool)
    requires Inv(s) && StepH(s, fails) != s
    ensures Rank(StepH(s, fails)) < Rank(s)
  {
    match s.h {
      case Idle =>
      case Running(_, _) => HandlerEntry(s, fails);
      case Sending(_) =>
      case Waking =>
    }
  }

  lemma WorkerLowersRank(s: State, fails: bool)
    requires Inv(s) && StepW(s, fails) != s
    ensures Rank(StepW(s, fails)) < Rank(s)
  {
    match s.w {
      case Locking =>
      case Working(_, _) => WorkerEntry(s, fails);
      case Reporting(_) =>
    }
  }

  /** A schedule in which every step changes something. */
  predicate Moving(s: State, schedule: seq<Actor>)
    decreases |schedule|
  {
    schedule == [] ||
    (var front, a := schedule[..|schedule| - 1], schedule[|schedule| - 1];
     Moving(s, front) && Party(a) && Step(Run(s, front), a) != Run(s, front))
  }

  /** Every call comes to an end: from a quiet state the parties can make no more steps than
      this, and StuckMeansDone says where that leaves them. */
  lemma {:induction false} CallEnds(s: State, schedule: seq<Actor>)
    requires Quiet(s) && Moving(s, schedule) && forall k :: 0 <= k < |schedule| ==> Party(schedule[k])
    ensures |schedule| + Rank(Run(s, schedule)) <= Rank(s)
    decreases |schedule|
  {
    if schedule != [] {
      var front, a := schedule[..|schedule| - 1], schedule[|schedule| - 1];
      CallEnds(s, front);
      QuietInv(s);
      RunKeepsInv(s, front);
      match a {
        case Checkpointer => CheckpointerLowersRank(Run(s, front));
        case Handler(fails) => HandlerLowersRank(Run(s, front), fails);
        case Worker(fails) => WorkerLowersRank(Run(s, front), fails);
        case Raise(_) =>
        case NextCall =>
      }
    }
  }
}
