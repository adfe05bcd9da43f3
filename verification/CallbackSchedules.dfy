/** Schedules of the callback protocol: the states they lead to, whole passes of handler and
    worker, and what a call can and cannot be told. */
module CallbackSchedules {
  import opened CallbackProtocol

  // ---------------------------------------------------------------- reachable states

  /** Who is about besides the three parties of one call: nobody, callers that begin the next
      call as soon as one has returned, or also senders of restart and continue signals. */
  datatype Company = OneCall | Retries | Signals

  predicate May(a: Actor, company: Company) {
    Party(a) || (company != OneCall && a.NextCall?) || (company == Signals && a.Raise? && a.sig != Checkpoint)
  }

  predicate Includes(company: Company, also: Company) {
    also == OneCall || also == company || company == Signals
  }

  ghost predicate Leads(s: State, e: State, company: Company) {
    exists schedule: seq<Actor> ::
      Run(s, schedule) == e && forall k :: 0 <= k < |schedule| ==> May(schedule[k], company)
  }

  /** In every interleaving, every call that has returned has returned the right verdict. */
  ghost predicate AlwaysRight(s: State, company: Company) {
    forall e :: Leads(s, e, company) && e.c.Done? ==> VerdictIsRight(e)
  }

  lemma {:induction false} RunConcat(s: State, a: seq<Actor>, b: seq<Actor>)
    ensures Run(s, a + b) == Run(Run(s, a), b)
    decreases |b|
  {
    if b == [] {
      assert a + b == a;
    } else {
      RunConcat(s, a, b[..|b| - 1]);
      assert (a + b)[..|a + b| - 1] == a + b[..|b| - 1];
    }
  }

  lemma RunOne(s: State, a: Actor)
    ensures Run(s, [a]) == Step(s, a)
  {
    assert [a][..0] == [];
  }

  lemma LeadsOn(s: State, m: State, a: Actor, company: Company)
    requires Leads(s, m, company) && May(a, company)
    ensures Leads(s, Step(m, a), company)
  {
    var schedule: seq<Actor> :|
      Run(s, schedule) == m && forall k :: 0 <= k < |schedule| ==> May(schedule[k], company);
    RunConcat(s, schedule, [a]);
    RunOne(m, a);
    var longer := schedule + [a];
    assert forall k :: 0 <= k < |longer| ==> May(longer[k], company);
  }

  lemma LeadsHere(s: State, company: Company)
    ensures Leads(s, s, company)
  {
    assert Run(s, []) == s;
  }

  lemma LeadsFurther(s: State, m: State, e: State, company: Company, also: Company)
    requires Leads(s, m, company) && Leads(m, e, also) && Includes(company, also)
    ensures Leads(s, e, company)
  {
    var a: seq<Actor> :| Run(s, a) == m && forall k :: 0 <= k < |a| ==> May(a[k], company);
    var b: seq<Actor> :| Run(m, b) == e && forall k :: 0 <= k < |b| ==> May(b[k], also);
    RunConcat(s, a, b);
    assert forall k :: 0 <= k < |a + b| ==> May((a + b)[k], company);
  }

  lemma LeadsInMore(s: State, e: State, company: Company, also: Company)
    requires Leads(s, e, also) && Includes(company, also)
    ensures Leads(s, e, company)
  {
    LeadsHere(s, company);
    LeadsFurther(s, s, e, company, also);
  }

  lemma StepLeads(s: State, a: Actor, company: Company)
    requires May(a, company)
    ensures Leads(s, Step(s, a), company)
  {
    LeadsHere(s, company);
    LeadsOn(s, s, a, company);
  }

  lemma ThreeLead(s: State, a: Actor, b: Actor, c: Actor)
    requires Party(a) && Party(b) && Party(c)
    ensures Leads(s, Step(Step(Step(s, a), b), c), OneCall)
  {
    StepLeads(s, a, OneCall);
    LeadsOn(s, Step(s, a), b, OneCall);
    LeadsOn(s, Step(Step(s, a), b), c, OneCall);
  }

  /** What every step keeps holds in every state a schedule leads to. */
  lemma {:induction false} RunKeeps(s: State, schedule: seq<Actor>, company: Company, P: State -> bool)
    requires P(s) && forall k :: 0 <= k < |schedule| ==> May(schedule[k], company)
    requires forall x: State, a: Actor :: P(x) && May(a, company) ==> P(Step(x, a))
    ensures P(Run(s, schedule))
    decreases |schedule|
  {
    if schedule != [] { RunKeeps(s, schedule[..|schedule| - 1], company, P); }
  }

  /** So if it also makes verdicts right, they always are. */
  lemma KeptMeansRight(s: State, company: Company, P: State -> bool)
    requires P(s)
    requires forall x: State, a: Actor :: P(x) && May(a, company) ==> P(Step(x, a))
    requires forall x: State :: P(x) && x.c.Done? ==> VerdictIsRight(x)
    ensures AlwaysRight(s, company)
  {
    forall e | Leads(s, e, company) && e.c.Done?
      ensures VerdictIsRight(e)
    {
      var schedule: seq<Actor> :|
        Run(s, schedule) == e && forall k :: 0 <= k < |schedule| ==> May(schedule[k], company);
      RunKeeps(s, schedule, company, P);
    }
  }

  lemma RightInLess(s: State, company: Company, also: Company)
    requires AlwaysRight(s, company) && Includes(company, also)
    ensures AlwaysRight(s, also)
  {
    forall e | Leads(s, e, also) && e.c.Done?
      ensures VerdictIsRight(e)
    {
      LeadsInMore(s, e, company, also);
    }
  }

  lemma WrongFrom(s: State, e: State, company: Company)
    requires Leads(s, e, company) && e.c.Done? && !VerdictIsRight(e)
    ensures !AlwaysRight(s, company)
  {
  }

  // ---------------------------------------------------------------- what passes can come to

  /** A pass from entry `i` on that ends behind `n` entries fails, if every callback that can
      return both fails or none does, as `fails` says. */
  predicate PassFails(t: seq<Callback>, context: Context, i: nat, n: nat, fails: bool) {
    exists k :: i <= k < n && k < |t| && Eligible(t[k], context) && Fails(t[k], fails)
  }

  /** The signal pass over the checkpoint callbacks can fail. */
  predicate SignalCanFail(s: State) {
    var t := s.app.tables.chkpt;
    PassFails(t, Signal, 0, |t|, true)
  }

  /** The thread pass over the checkpoint callbacks can succeed. */
  predicate ThreadCanPass(s: State) {
    var t := s.app.tables.chkpt;
    !PassFails(t, Thread, 0, |t|, false)
  }

  lemma FailsHereOrLater(t: seq<Callback>, context: Context, i: nat, n: nat, fails: bool)
    ensures PassFails(t, context, i, n, fails) <==>
            i < n && ((i < |t| && Eligible(t[i], context) && Fails(t[i], fails)) ||
                      PassFails(t, context, i + 1, n, fails))
  {
  }

  predicate NoCallback(t: seq<Callback>) {
    forall k :: 0 <= k < |t| ==> !t[k].func
  }

  predicate AllCanPass(t: seq<Callback>) {
    forall k :: 0 <= k < |t| && t[k].func ==> !t[k].result.Nonzero?
  }

  // ---------------------------------------------------------------- whole passes

  ghost predicate RanFrom(s: State, context: Context, i: nat) {
    forall k: nat :: i <= k < |s.app.tables.chkpt| && Eligible(s.app.tables.chkpt[k], context) ==> k in s.ran
  }

  lemma RanHereAndLater(s: State, context: Context, i: nat)
    requires RanFrom(s, context, i + 1)
    requires i < |s.app.tables.chkpt| && Eligible(s.app.tables.chkpt[i], context) ==> i in s.ran
    ensures RanFrom(s, context, i)
  {
  }

  /** The worker alone finishes the pass it is on. */
  function WorkerDone(s: State, fails: bool): State
    requires s.w.Working?
    decreases |Table(s, s.hook)| - s.w.j
  {
    WorkerEntry(s, fails);
    if StepW(s, fails).w.Working? then WorkerDone(StepW(s, fails), fails) else StepW(s, fails)
  }

  lemma {:induction false} WorkerDoneLeads(s: State, fails: bool)
    requires s.w.Working?
    ensures Leads(s, WorkerDone(s, fails), OneCall)
    decreases |Table(s, s.hook)| - s.w.j
  {
    WorkerEntry(s, fails);
    StepLeads(s, Worker(fails), OneCall);
    if StepW(s, fails).w.Working? {
      WorkerDoneLeads(StepW(s, fails), fails);
      LeadsFurther(s, StepW(s, fails), WorkerDone(s, fails), OneCall, OneCall);
    }
  }

  lemma {:induction false} WorkerDoneState(s: State, fails: bool)
    requires s.w.Working?
    ensures var e, bad := WorkerDone(s, fails),
                          PassFails(Table(s, s.w.wpicked), Thread, s.w.j, |Table(s, s.hook)|, fails);
            && e == s.(w := Reporting(bad), trail := e.trail, ran := e.ran, threadFailed := e.threadFailed)
            && (e.threadFailed <==> s.threadFailed || (bad && s.w.wpicked == Checkpoint))
    decreases |Table(s, s.hook)| - s.w.j
  {
    FailsHereOrLater(Table(s, s.w.wpicked), Thread, s.w.j, |Table(s, s.hook)|, fails);
    WorkerEntry(s, fails);
    if StepW(s, fails).w.Working? { WorkerDoneState(StepW(s, fails), fails); }
  }

  lemma {:induction false} WorkerDoneRan(s: State, fails: bool)
    requires s.w.Working?
    ensures var e := WorkerDone(s, fails);
            && s.ran <= e.ran && (s.w.wpicked != Checkpoint ==> e.ran == s.ran)
            && (s.w.wpicked == s.hook == Checkpoint && e.w == Reporting(false) ==> RanFrom(e, Thread, s.w.j))
    decreases |Table(s, s.hook)| - s.w.j
  {
    WorkerEntry(s, fails);
    WorkerDoneState(s, fails);
    var m, e := StepW(s, fails), WorkerDone(s, fails);
    if m.w.Working? {
      WorkerDoneRan(m, fails);
      if s.w.wpicked == s.hook == Checkpoint && !e.w.wbad { RanHereAndLater(e, Thread, s.w.j); }
    }
  }

  /** The handler alone finishes the pass it is on. */
  function HandlerDone(s: State, fails: bool): State
    requires s.h.Running?
    decreases |Table(s, s.hook)| - s.h.i
  {
    HandlerEntry(s, fails);
    if StepH(s, fails).h.Running? then HandlerDone(StepH(s, fails), fails) else StepH(s, fails)
  }

  lemma {:induction false} HandlerDoneLeads(s: State, fails: bool)
    requires s.h.Running?
    ensures Leads(s, HandlerDone(s, fails), OneCall)
    decreases |Table(s, s.hook)| - s.h.i
  {
    HandlerEntry(s, fails);
    StepLeads(s, Handler(fails), OneCall);
    if StepH(s, fails).h.Running? {
      HandlerDoneLeads(StepH(s, fails), fails);
      LeadsFurther(s, StepH(s, fails), HandlerDone(s, fails), OneCall, OneCall);
    }
  }

  lemma {:induction false} HandlerDoneState(s: State, fails: bool)
    requires s.h.Running?
    ensures var e, bad := HandlerDone(s, fails),
                          PassFails(Table(s, s.h.picked), Signal, s.h.i, |Table(s, s.hook)|, fails);
            && e == s.(h := Sending(bad), trail := e.trail, ran := e.ran, signalFailed := e.signalFailed)
            && (e.signalFailed <==> s.signalFailed || (bad && s.h.picked == Checkpoint))
    decreases |Table(s, s.hook)| - s.h.i
  {
    FailsHereOrLater(Table(s, s.h.picked), Signal, s.h.i, |Table(s, s.hook)|, fails);
    HandlerEntry(s, fails);
    if StepH(s, fails).h.Running? { HandlerDoneState(StepH(s, fails), fails); }
  }

  lemma {:induction false} HandlerDoneRan(s: State, fails: bool)
    requires s.h.Running?
    ensures var e := HandlerDone(s, fails);
            && s.ran <= e.ran && (s.h.picked != Checkpoint ==> e.ran == s.ran)
            && (s.h.picked == s.hook == Checkpoint && e.h == Sending(false) ==> RanFrom(e, Signal, s.h.i))
    decreases |Table(s, s.hook)| - s.h.i
  {
    HandlerEntry(s, fails);
    HandlerDoneState(s, fails);
    var m, e := StepH(s, fails), HandlerDone(s, fails);
    if m.h.Running? {
      HandlerDoneRan(m, fails);
      if s.h.picked == s.hook == Checkpoint && !e.h.bad { RanHereAndLater(e, Signal, s.h.i); }
    }
  }

  // ---------------------------------------------------------------- steps of a call

  /** A call can begin: nothing is pending, and there is no queue. */
  predicate Fresh(s: State) {
    s.c.Detect? && s.app.declared && s.queue.NoQueue? && s.h.Idle? && s.pending == []
  }

  /** The call has sent its signal, the handler has just taken it. */
  function Begun(s: State): State {
    s.(c := Receive, queue := Queue([]), hook := Checkpoint, h := Running(Checkpoint, 0))
  }

  lemma BeginLeads(s: State)
    requires Fresh(s)
    ensures Leads(s, Begun(s), OneCall)
  {
    var m := s.(c := Receive, queue := Queue([]), pending := [Checkpoint]);
    assert StepC(StepC(StepC(s))) == m by {
      assert StepC(s) == s.(c := GetQueue);
      assert StepC(s.(c := GetQueue)) == s.(c := Kill, queue := Queue([]));
    }
    ThreeLead(s, Checkpointer, Checkpointer, Checkpointer);
    assert [Checkpoint][1..] == [];
    LeadsOn(s, m, Handler(false), OneCall);
  }

  function MessageOf(bad: bool): Msg {
    if bad then Err else ChkptApp
  }

  /** The worker has reported and the call has returned what it said. */
  function Answered(s: State, bad: bool): State {
    s.(c := Done(if bad then -1 else 0), queue := NoQueue, w := Locking, passed := true,
       log := s.log + [MessageOf(bad)])
  }

  lemma ReportStep(s: State)
    requires s.queue == Queue([]) && s.hook == Checkpoint && s.w.Reporting?
    ensures StepW(s, false) == s.(queue := Queue([MessageOf(s.w.wbad)]), log := s.log + [MessageOf(s.w.wbad)],
                                  w := Locking, passed := true)
  {
    assert [] + [MessageOf(s.w.wbad)] == [MessageOf(s.w.wbad)];
  }

  lemma TakeSteps(s: State, m: Msg)
    requires s.c.Receive? && s.queue == Queue([m])
    ensures StepC(StepC(s)) == s.(queue := NoQueue, c := Done(if m == Err then -1 else 0))
  {
    assert [m][1..] == [];
    assert StepC(s) == s.(queue := Queue([]), c := RemoveQueue(m));
  }

  lemma AnswerLeads(s: State)
    requires s.c.Receive? && s.queue == Queue([]) && s.hook == Checkpoint && s.w.Reporting?
    ensures Leads(s, Answered(s, s.w.wbad), OneCall)
  {
    ReportStep(s);
    TakeSteps(StepW(s, false), MessageOf(s.w.wbad));
    ThreeLead(s, Worker(false), Checkpointer, Checkpointer);
  }

  /** The worker has come through the lock. */
  function Locked(s: State): State {
    s.(mutexFree := false, counts := s.counts.(passes := s.counts.passes + 1), w := Working(s.hook, 0))
  }

  lemma LockLeads(s: State)
    requires s.w.Locking? && s.mutexFree && s.app.threadRunning
    ensures Leads(s, Locked(s), OneCall)
  {
    assert StepW(s, false) == Locked(s);
    StepLeads(s, Worker(false), OneCall);
  }

  /** The worker has locked and gone through its pass. */
  lemma PassLeads(s: State, fails: bool) returns (e: State)
    requires s.w.Locking? && s.mutexFree && s.app.threadRunning
    ensures Leads(s, e, OneCall)
    ensures var bad := PassFails(Table(s, s.hook), Thread, 0, |Table(s, s.hook)|, fails);
            && e == Locked(s).(w := Reporting(bad), trail := e.trail, ran := e.ran, threadFailed := e.threadFailed)
            && (e.threadFailed <==> s.threadFailed || (bad && s.hook == Checkpoint))
            && s.ran <= e.ran && (s.hook == Checkpoint && !bad ==> RanFrom(e, Thread, 0))
  {
    LockLeads(s);
    var l := Locked(s);
    WorkerDoneLeads(l, fails);
    WorkerDoneState(l, fails);
    WorkerDoneRan(l, fails);
    e := WorkerDone(l, fails);
    LeadsFurther(s, l, e, OneCall, OneCall);
  }

  /** The handler has finished, and nobody has received a message from it. */
  function Woken(s: State): State {
    s.(h := Idle, handled := true, mutexFree := true, counts := CountWake(s.counts, s.mutexFree))
  }

  lemma WakeLeads(s: State)
    requires s.app.threadRunning && s.h.Sending?
    requires s.hook == Checkpoint && s.h.bad ==> s.queue.NoQueue?
    ensures Leads(s, Woken(s), OneCall)
  {
    assert StepH(s, false) == s.(h := Waking, handled := true);
    assert StepH(StepH(s, false), false) == Woken(s);
    StepLeads(s, Handler(false), OneCall);
    LeadsOn(s, StepH(s, false), Handler(false), OneCall);
  }

  lemma BothRan(e: State, d: State)
    requires e.app == d.app && d.ran <= e.ran && !e.signalFailed && !e.threadFailed
    requires RanFrom(d, Signal, 0) && RanFrom(e, Thread, 0)
    ensures EveryCallbackGood(e)
  {
    forall k | 0 <= k < |e.app.tables.chkpt| && e.app.tables.chkpt[k].func
      ensures k in e.ran
    {
      assert Eligible(e.app.tables.chkpt[k], e.app.tables.chkpt[k].context);
    }
  }

  /** After an answer the callbacks go on, and may all succeed. */
  lemma AllRun(s: State) returns (e: State)
    requires s.h == Running(Checkpoint, 0) && s.hook == Checkpoint && s.w.Locking? && s.app.threadRunning
    requires AllCanPass(s.app.tables.chkpt) && !s.signalFailed && !s.threadFailed
    ensures Leads(s, e, OneCall) && e.c == s.c && e.app == s.app && EveryCallbackGood(e)
  {
    HandlerDoneLeads(s, false);
    HandlerDoneState(s, false);
    HandlerDoneRan(s, false);
    var d := HandlerDone(s, false);
    WakeLeads(d);
    LeadsFurther(s, d, Woken(d), OneCall, OneCall);
    e := PassLeads(Woken(d), false);
    LeadsFurther(s, Woken(d), e, OneCall, OneCall);
    BothRan(e, d);
  }

  // ---------------------------------------------------------------- a call too early

  /** A call begins while the worker has still to report on a pass that is no concern of the
      call, whatever the hook is. */
  predicate Hasty(s: State) {
    && Fresh(s) && s.w.Reporting? && s.app.threadRunning && s.ran == {} && !s.signalFailed && !s.threadFailed
  }

  /** A late success is taken for the answer: the call can return 0 before any of its
      callbacks has run. */
  lemma LateSuccessFools(s: State) returns (e: State)
    requires Hasty(s) && !s.w.wbad && !NoCallback(s.app.tables.chkpt)
    ensures Leads(s, e, OneCall) && e.c == Done(0) && e.ran == {} && !VerdictIsRight(e)
  {
    BeginLeads(s);
    AnswerLeads(Begun(s));
    e := Answered(Begun(s), false);
    LeadsFurther(s, Begun(s), e, OneCall, OneCall);
  }

  /** So is a late error: the call can return -1 although all its callbacks succeed. */
  lemma LateErrorFools(s: State) returns (e: State)
    requires Hasty(s) && s.w.wbad && AllCanPass(s.app.tables.chkpt)
    ensures Leads(s, e, OneCall) && e.c == Done(-1) && EveryCallbackGood(e) && !VerdictIsRight(e)
  {
    BeginLeads(s);
    AnswerLeads(Begun(s));
    var m := Answered(Begun(s), true);
    LeadsFurther(s, Begun(s), m, OneCall, OneCall);
    e := AllRun(m);
    LeadsFurther(s, m, e, OneCall, OneCall);
  }

  // ---------------------------------------------------------------- one kind of message

  predicate AllAre(msgs: seq<Msg>, m: Msg) {
    forall k :: 0 <= k < |msgs| ==> msgs[k] == m
  }

  /** Nothing but `m` can be received or has been. */
  predicate Speaks(s: State, m: Msg) {
    && (s.queue.Queue? ==> AllAre(s.queue.msgs, m))
    && (s.c.RemoveQueue? ==> s.c.got == m)
    && (s.c.Done? && s.app.declared ==> s.c.r == if m == Err then -1 else 0)
  }

  lemma ReceiverSpeaks(s: State, m: Msg)
    requires Speaks(s, m) && s.c.Receive?
    ensures var e := StepC(s); Speaks(e, m) && e == s.(c := e.c, queue := e.queue)
  {
  }

  lemma CheckpointerSpeaks(s: State, m: Msg)
    requires s.app.declared && Speaks(s, m)
    ensures var e := StepC(s); Speaks(e, m) && e == s.(c := e.c, queue := e.queue, pending := e.pending)
    ensures StepC(s).pending == if s.c.Kill? then s.pending + [Checkpoint] else s.pending
  {
    match s.c {
      case Detect =>
      case GetQueue =>
      case Kill =>
      case Receive => ReceiverSpeaks(s, m);
      case RemoveQueue(_) =>
      case Done(_) =>
    }
  }

  lemma HandlerStartSpeaks(s: State, m: Msg, fails: bool)
    requires Speaks(s, m) && s.h.Idle?
    ensures var e := StepH(s, fails);
            Speaks(e, m) &&
            (if s.pending == [] then e == s
             else e == s.(hook := s.pending[0], pending := s.pending[1..], h := Running(s.pending[0], 0)))
  {
  }

  lemma HandlerSendSpeaks(s: State, m: Msg, fails: bool)
    requires s.app.threadRunning && Speaks(s, m) && s.h.Sending? && (s.hook == Checkpoint && s.h.bad ==> m == Err)
    ensures var e := StepH(s, fails);
            Speaks(e, m) && e == s.(queue := e.queue, log := e.log, h := Waking, handled := true)
  {
  }

  lemma HandlerWakeSpeaks(s: State, m: Msg, fails: bool)
    requires s.app.threadRunning && Speaks(s, m) && s.h.Waking?
    ensures var e := StepH(s, fails); Speaks(e, m) && e == s.(mutexFree := true, counts := e.counts, h := Idle)
  {
  }

  lemma WorkerLockSpeaks(s: State, m: Msg, fails: bool)
    requires s.app.threadRunning && Speaks(s, m) && s.w.Locking?
    ensures var e := StepW(s, fails);
            Speaks(e, m) && e == s.(mutexFree := false, counts := e.counts, w := e.w) &&
            e.w == if s.mutexFree then Working(s.hook, 0) else Locking
  {
  }

  lemma WorkerReportSpeaks(s: State, m: Msg, fails: bool)
    requires Speaks(s, m) && s.w.Reporting? && m == MessageOf(s.w.wbad)
    ensures var e := StepW(s, fails);
            Speaks(e, m) && e == s.(queue := e.queue, log := e.log, w := Locking, passed := true)
  {
  }

  // ---------------------------------------------------------------- nothing but errors

  /** The pass from entry `j` of `picked` on fails, whichever of the hooks is current when it
      looks how many entries there are. */
  ghost predicate SureToFail(t: Tables, picked: Hook, j: nat, hooks: set<Hook>) {
    forall q :: q in hooks ==> PassFails(TableOf(t, picked), Thread, j, |TableOf(t, q)|, false)
  }

  /** No thread pass for one of the hooks can succeed. */
  ghost predicate CannotPass(t: Tables, hooks: set<Hook>) {
    forall p :: p in hooks ==> SureToFail(t, p, 0, hooks)
  }

  /** A thread callback that cannot succeed. */
  predicate Hopeless(t: seq<Callback>, k: nat) {
    k < |t| && Eligible(t[k], Thread) && t[k].result.Nonzero?
  }

  /** If the worker reports, it reports an error. */
  ghost predicate WorkerFails(w: Wpc, t: Tables, hooks: set<Hook>) {
    match w
    case Locking => true
    case Working(picked, j) => SureToFail(t, picked, j, hooks)
    case Reporting(bad) => bad
  }

  ghost predicate AllIn(pending: seq<Hook>, hooks: set<Hook>) {
    forall k :: 0 <= k < |pending| ==> pending[k] in hooks
  }

  /** Hopeless callbacks are not run unnoticed. */
  ghost predicate Noticed(t: seq<Callback>, ran: set<nat>, failed: bool) {
    forall k :: k in ran && Hopeless(t, k) ==> failed
  }

  /** Whatever happens, a call of this application returns -1. */
  ghost predicate Doomed(s: State, hooks: set<Hook>) {
    && s.app.declared && s.app.threadRunning && Checkpoint in hooks && CannotPass(s.app.tables, hooks)
    && Speaks(s, Err) && Noticed(s.app.tables.chkpt, s.ran, s.threadFailed) && AllIn(s.pending, hooks)
    && WorkerFails(s.w, s.app.tables, hooks)
    && (s.mutexFree || !s.h.Idle? || s.w.Working? ==> s.hook in hooks)
  }

  lemma StillSureToFail(t: Tables, picked: Hook, j: nat, hooks: set<Hook>)
    requires SureToFail(t, picked, j, hooks) && !(j < |TableOf(t, picked)| && Hopeless(TableOf(t, picked), j))
    ensures SureToFail(t, picked, j + 1, hooks)
  {
    forall q | q in hooks
      ensures PassFails(TableOf(t, picked), Thread, j + 1, |TableOf(t, q)|, false)
    {
      FailsHereOrLater(TableOf(t, picked), Thread, j, |TableOf(t, q)|, false);
    }
  }

  lemma NotOverYet(t: Tables, picked: Hook, j: nat, hooks: set<Hook>, hook: Hook)
    requires SureToFail(t, picked, j, hooks) && hook in hooks
    ensures j < |TableOf(t, hook)|
  {
    assert PassFails(TableOf(t, picked), Thread, j, |TableOf(t, hook)|, false);
  }

  lemma DoomedWorks(s: State, hooks: set<Hook>, fails: bool)
    requires Doomed(s, hooks) && s.w.Working?
    ensures Doomed(StepW(s, fails), hooks)
  {
    WorkerEntry(s, fails);
    NotOverYet(s.app.tables, s.w.wpicked, s.w.j, hooks, s.hook);
    if StepW(s, fails).w.Working? { StillSureToFail(s.app.tables, s.w.wpicked, s.w.j, hooks); }
  }

  lemma DoomedWorker(s: State, hooks: set<Hook>, fails: bool)
    requires Doomed(s, hooks)
    ensures Doomed(StepW(s, fails), hooks)
  {
    match s.w {
      case Locking => WorkerLockSpeaks(s, Err, fails);
      case Working(_, _) => DoomedWorks(s, hooks, fails);
      case Reporting(_) => WorkerReportSpeaks(s, Err, fails);
    }
  }

  lemma DoomedRuns(s: State, hooks: set<Hook>, fails: bool)
    requires Doomed(s, hooks) && s.h.Running?
    ensures Doomed(StepH(s, fails), hooks)
  {
    HandlerEntry(s, fails);
  }

  lemma DoomedHandler(s: State, hooks: set<Hook>, fails: bool)
    requires Doomed(s, hooks)
    ensures Doomed(StepH(s, fails), hooks)
  {
    match s.h {
      case Idle => HandlerStartSpeaks(s, Err, fails);
      case Running(_, _) => DoomedRuns(s, hooks, fails);
      case Sending(_) => HandlerSendSpeaks(s, Err, fails);
      case Waking => HandlerWakeSpeaks(s, Err, fails);
    }
  }

  /** Callbacks that fail stay failing over any number of calls, with restart and continue
      signals if those hooks are among the ones that cannot succeed. */
  lemma DoomedKept(s: State, hooks: set<Hook>, a: Actor, company: Company)
    requires Doomed(s, hooks) && May(a, company) && (company == Signals ==> hooks == {Checkpoint, Restart, Continue})
    ensures Doomed(Step(s, a), hooks)
  {
    match a {
      case Checkpointer => CheckpointerSpeaks(s, Err);
      case Handler(fails) => DoomedHandler(s, hooks, fails);
      case Worker(fails) => DoomedWorker(s, hooks, fails);
      case Raise(_) =>
      case NextCall =>
    }
  }

  lemma DoomedVerdict(s: State, hooks: set<Hook>)
    requires Doomed(s, hooks) && s.c.Done?
    ensures VerdictIsRight(s)
  {
    var t := s.app.tables;
    assert SureToFail(t, Checkpoint, 0, hooks);
    assert PassFails(t.chkpt, Thread, 0, |TableOf(t, Checkpoint)|, false);
    var k :| 0 <= k < |t.chkpt| && Eligible(t.chkpt[k], Thread) && Fails(t.chkpt[k], false);
    assert Hopeless(t.chkpt, k);
  }

  lemma DoomedIsRight(s: State, hooks: set<Hook>, company: Company)
    requires Doomed(s, hooks) && (company == Signals ==> hooks == {Checkpoint, Restart, Continue})
    ensures AlwaysRight(s, company)
  {
    forall x: State, a: Actor | Doomed(x, hooks) && May(a, company)
      ensures Doomed(Step(x, a), hooks)
    {
      DoomedKept(x, hooks, a, company);
    }
    forall x: State | Doomed(x, hooks) && x.c.Done?
      ensures VerdictIsRight(x)
    {
      DoomedVerdict(x, hooks);
    }
    KeptMeansRight(s, company, x => Doomed(x, hooks));
  }
}
