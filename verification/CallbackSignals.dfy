/** Verdicts of the callback protocol when restart and continue signals arrive at any time.
    The worker looks at `current_hook` when it picks the array, when it looks how many entries
    there are, and again when it reports, so it can run the callbacks of one hook, as many as
    there are for another, and report on them to a checkpoint call. */
module CallbackSignals {
  import opened CallbackProtocol
  import opened CallbackSchedules
  import opened CallbackSerial

  // ---------------------------------------------------------------- how a call meets a pass

  /** The handler has just taken a signal. */
  function Taken(s: State, sig: Hook): State {
    s.(hook := sig, h := Running(sig, 0))
  }

  lemma TakeStep(s: State, sig: Hook)
    requires s.h.Idle? && s.pending == []
    ensures StepH(s.(pending := [sig]), false) == Taken(s, sig)
  {
    assert [sig][1..] == [];
  }

  lemma RaiseLeads(s: State, sig: Hook)
    requires s.pending == [] && sig != Checkpoint
    ensures Leads(s, s.(pending := [sig]), Signals)
  {
    StepLeads(s, Raise(sig), Signals);
  }

  lemma TakeLeads(s: State, sig: Hook)
    requires s.h.Idle? && s.pending == [] && sig != Checkpoint
    ensures Leads(s, Taken(s, sig), Signals)
  {
    var r := s.(pending := [sig]);
    RaiseLeads(s, sig);
    TakeStep(s, sig);
    assert Step(r, Handler(false)) == Taken(s, sig);
    LeadsOn(s, r, Handler(false), Signals);
  }

  /** The handler finishes with a signal and wakes the worker, with nobody listening. */
  lemma FinishLeads(s: State) returns (e: State)
    requires s.app.threadRunning && s.h == Running(s.hook, 0) && (s.hook == Checkpoint ==> s.queue.NoQueue?)
    ensures Leads(s, e, OneCall)
    ensures e == Woken(s).(trail := e.trail, ran := e.ran, signalFailed := e.signalFailed)
  {
    HandlerDoneLeads(s, false);
    HandlerDoneState(s, false);
    var d := HandlerDone(s, false);
    WakeLeads(d);
    e := Woken(d);
    LeadsFurther(s, d, e, OneCall, OneCall);
  }

  /** A restart or continue signal is handled, and the worker is woken. */
  lemma SignalLeads(s: State, sig: Hook) returns (e: State)
    requires s.h.Idle? && s.pending == [] && sig != Checkpoint && s.app.threadRunning
    ensures Leads(s, e, Signals)
    ensures e == Woken(s).(hook := sig, trail := e.trail, ran := e.ran, signalFailed := e.signalFailed)
  {
    TakeLeads(s, sig);
    e := FinishLeads(Taken(s, sig));
    LeadsFurther(s, Taken(s, sig), e, Signals, OneCall);
  }

  /** A call is over and nothing is pending. */
  predicate Over(s: State) {
    s.c.Done? && s.app.declared && s.app.threadRunning && s.queue.NoQueue? && s.h.Idle? && s.pending == []
  }

  /** The worker was woken for another signal: it begins with the checkpoint callbacks before
      the handler has, and answers the call. */
  lemma EarlyAnswer(s: State) returns (e: State)
    requires Fresh(s) && s.app.threadRunning && s.w.Locking? && s.mutexFree
    ensures Leads(s, e, OneCall) && e.app == s.app
    ensures e.h == Running(Checkpoint, 0) && e.hook == Checkpoint && e.w.Locking? && Over(e.(h := Idle))
    ensures e.c == Done(if ThreadCanPass(s) then 0 else -1)
  {
    BeginLeads(s);
    var b := Begun(s);
    var d := PassLeads(b, false);
    LeadsFurther(s, b, d, OneCall, OneCall);
    AnswerLeads(d);
    e := Answered(d, d.w.wbad);
    LeadsFurther(s, d, e, OneCall, OneCall);
  }

  /** So a call can be over although the worker has a pass over the checkpoint callbacks
      before it. */
  lemma PassLeftOver(s: State) returns (e: State)
    requires Quiet(s) && s.app.declared && s.app.threadRunning
    ensures Leads(s, e, Signals) && e.app == s.app
    ensures Over(e) && e.hook == Checkpoint && e.w.Locking? && e.mutexFree
  {
    var a := SignalLeads(s, Continue);
    var b := EarlyAnswer(a);
    LeadsFurther(s, a, b, Signals, OneCall);
    e := FinishLeads(b);
    LeadsFurther(s, b, e, Signals, OneCall);
  }

  /** The worker is at the beginning of a pass over the callbacks of `picked`. */
  predicate Beginning(s: State, picked: Hook) {
    Over(s) && s.hook == picked && s.w == Working(picked, 0)
  }

  lemma LockBegins(s: State)
    requires Over(s) && s.w.Locking? && s.mutexFree
    ensures Leads(s, Locked(s), OneCall) && Beginning(Locked(s), s.hook)
  {
    LockLeads(s);
  }

  lemma OtherHook(s: State, picked: Hook) returns (e: State)
    requires Over(s) && s.hook == Checkpoint && s.w.Locking? && s.mutexFree
    ensures Leads(s, e, Signals) && e.app == s.app
    ensures Over(e) && e.hook == picked && e.w.Locking? && e.mutexFree
  {
    if picked == Checkpoint {
      LeadsHere(s, Signals);
      e := s;
    } else {
      e := SignalLeads(s, picked);
    }
  }

  /** Any pass can be the one. */
  lemma PassBegins(s: State, picked: Hook) returns (e: State)
    requires Quiet(s) && s.app.declared && s.app.threadRunning
    ensures Leads(s, e, Signals) && e.app == s.app && Beginning(e, picked)
  {
    var a := PassLeftOver(s);
    var b := OtherHook(a, picked);
    LeadsFurther(s, a, b, Signals, Signals);
    LockBegins(b);
    e := Locked(b);
    LeadsFurther(s, b, e, Signals, OneCall);
  }

  // ---------------------------------------------------------------- how it does harm

  lemma NextIsHasty(s: State)
    requires Over(s) && s.w.Reporting?
    ensures var e := Step(s, NextCall); Leads(s, e, Signals) && Hasty(e) && e.app == s.app && e.w == s.w
  {
    StepLeads(s, NextCall, Signals);
  }

  /** The pass ends, with the hook it began with, before the next call begins. */
  lemma PassEnds(s: State, picked: Hook, fails: bool) returns (e: State)
    requires Beginning(s, picked)
    ensures Leads(s, e, Signals) && Hasty(e) && e.app == s.app
    ensures e.w == Reporting(PassFails(Table(s, picked), Thread, 0, |Table(s, picked)|, fails))
  {
    WorkerDoneLeads(s, fails);
    WorkerDoneState(s, fails);
    var d := WorkerDone(s, fails);
    LeadsInMore(s, d, Signals, OneCall);
    NextIsHasty(d);
    e := Step(d, NextCall);
    LeadsFurther(s, d, e, Signals, Signals);
  }

  /** A restart or continue signal comes during the pass, which ends with the number of
      entries of that hook. */
  lemma PassEndsOtherwise(s: State, picked: Hook, q: Hook) returns (e: State)
    requires Beginning(s, picked) && q != Checkpoint
    ensures Leads(s, e, Signals) && Hasty(e) && e.app == s.app
    ensures e.w == Reporting(PassFails(Table(s, picked), Thread, 0, |Table(s, q)|, false))
  {
    TakeLeads(s, q);
    var a := Taken(s, q);
    WorkerDoneLeads(a, false);
    WorkerDoneState(a, false);
    var b := WorkerDone(a, false);
    LeadsFurther(s, a, b, Signals, OneCall);
    var c := FinishLeads(b);
    LeadsFurther(s, b, c, Signals, OneCall);
    NextIsHasty(c);
    e := Step(c, NextCall);
    LeadsFurther(s, c, e, Signals, Signals);
  }

  lemma NextBegins(s: State) returns (e: State)
    requires Over(s)
    ensures Leads(s, e, Signals) && e.app == s.app && e.w == s.w && e.h == Running(Checkpoint, 0)
    ensures e.c.Receive? && e.queue == Queue([]) && e.hook == Checkpoint && e.ran == {}
  {
    StepLeads(s, NextCall, Signals);
    var n := Step(s, NextCall);
    BeginLeads(n);
    e := Begun(n);
    LeadsFurther(s, n, e, Signals, OneCall);
  }

  /** The checkpoint signal of the next call comes during the pass. */
  lemma PassMeetsCall(s: State, picked: Hook) returns (e: State)
    requires Beginning(s, picked) && picked != Checkpoint
    requires !PassFails(Table(s, picked), Thread, 0, |Table(s, Checkpoint)|, false)
    ensures Leads(s, e, Signals) && e.c == Done(0) && e.ran == {} && e.app == s.app
  {
    var b := NextBegins(s);
    WorkerDoneLeads(b, false);
    WorkerDoneState(b, false);
    WorkerDoneRan(b, false);
    var d := WorkerDone(b, false);
    LeadsFurther(s, b, d, Signals, OneCall);
    AnswerLeads(d);
    e := Answered(d, false);
    LeadsFurther(s, d, e, Signals, OneCall);
  }

  /** If a pass over the callbacks of `p` can succeed when it ends with the number of entries
      of `q`, a call can return 0 with none of its callbacks run. */
  lemma SuccessFools(s: State, p: Hook, q: Hook) returns (e: State)
    requires Quiet(s) && s.app.declared && s.app.threadRunning && !NoCallback(s.app.tables.chkpt)
    requires !PassFails(Table(s, p), Thread, 0, |Table(s, q)|, false)
    ensures Leads(s, e, Signals) && e.c == Done(0) && e.ran == {} && !VerdictIsRight(e)
  {
    var b := PassBegins(s, p);
    if q == Checkpoint != p {
      e := PassMeetsCall(b, p);
      LeadsFurther(s, b, e, Signals, Signals);
    } else {
      var m;
      if p == q {
        m := PassEnds(b, p, false);
      } else {
        m := PassEndsOtherwise(b, p, q);
      }
      LeadsFurther(s, b, m, Signals, Signals);
      e := LateSuccessFools(m);
      LeadsFurther(s, m, e, Signals, OneCall);
    }
  }

  /** If a pass can fail and all checkpoint callbacks can succeed, a call can return -1
      although they all do. */
  lemma FailureFools(s: State, p: Hook) returns (e: State)
    requires Quiet(s) && s.app.declared && s.app.threadRunning && AllCanPass(s.app.tables.chkpt)
    requires PassFails(Table(s, p), Thread, 0, |Table(s, p)|, true)
    ensures Leads(s, e, Signals) && e.c == Done(-1) && EveryCallbackGood(e) && !VerdictIsRight(e)
  {
    var b := PassBegins(s, p);
    var m := PassEnds(b, p, true);
    LeadsFurther(s, b, m, Signals, Signals);
    e := LateErrorFools(m);
    LeadsFurther(s, m, e, Signals, OneCall);
  }

  /** If the thread pass can succeed, a call can return 0 before the handler has run a single
      callback. */
  lemma EarlyPassFools(s: State) returns (e: State)
    requires Quiet(s) && s.app.declared && s.app.threadRunning && ThreadCanPass(s)
    ensures Leads(s, e, Signals) && e.c == Done(0) && e.h == Running(Checkpoint, 0)
  {
    var a := SignalLeads(s, Continue);
    e := EarlyAnswer(a);
    LeadsFurther(s, a, e, Signals, OneCall);
  }

  // ---------------------------------------------------------------- when it does none

  predicate NoThreadFails(t: Tables) {
    forall p: Hook :: !PassFails(TableOf(t, p), Thread, 0, |TableOf(t, p)|, true)
  }

  /** Nothing can report an error, and there is nothing to run. */
  ghost predicate Carefree(s: State) {
    && s.app.declared && s.app.threadRunning && NoCallback(s.app.tables.chkpt) && NoThreadFails(s.app.tables)
    && Speaks(s, ChkptApp) && !s.signalFailed && !s.threadFailed
    && (s.h.Running? ==> s.h.picked == s.hook) && (s.h.Sending? && s.hook == Checkpoint ==> !s.h.bad)
    && (s.w.Reporting? ==> !s.w.wbad)
  }

  lemma CarefreeHandler(s: State, fails: bool)
    requires Carefree(s)
    ensures Carefree(StepH(s, fails))
  {
    match s.h {
      case Idle => HandlerStartSpeaks(s, ChkptApp, fails);
      case Running(_, _) => HandlerEntry(s, fails);
      case Sending(_) => HandlerSendSpeaks(s, ChkptApp, fails);
      case Waking => HandlerWakeSpeaks(s, ChkptApp, fails);
    }
  }

  lemma NoEntryFails(t: Tables, p: Hook, j: nat, fails: bool)
    requires NoThreadFails(t) && j < |TableOf(t, p)| && Eligible(TableOf(t, p)[j], Thread)
    ensures !Fails(TableOf(t, p)[j], fails)
  {
    assert !PassFails(TableOf(t, p), Thread, 0, |TableOf(t, p)|, true);
  }

  lemma CarefreeWorks(s: State, fails: bool)
    requires Carefree(s) && s.w.Working?
    ensures Carefree(StepW(s, fails))
  {
    WorkerEntry(s, fails);
    if s.w.j < |Table(s, s.w.wpicked)| && Eligible(Table(s, s.w.wpicked)[s.w.j], Thread) {
      NoEntryFails(s.app.tables, s.w.wpicked, s.w.j, fails);
    }
  }

  lemma CarefreeWorker(s: State, fails: bool)
    requires Carefree(s)
    ensures Carefree(StepW(s, fails))
  {
    match s.w {
      case Locking => WorkerLockSpeaks(s, ChkptApp, fails);
      case Working(_, _) => CarefreeWorks(s, fails);
      case Reporting(_) => WorkerReportSpeaks(s, ChkptApp, fails);
    }
  }

  lemma CarefreeKept(s: State, a: Actor)
    requires Carefree(s) && May(a, Signals)
    ensures Carefree(Step(s, a))
  {
    match a {
      case Checkpointer => CheckpointerSpeaks(s, ChkptApp);
      case Handler(fails) => CarefreeHandler(s, fails);
      case Worker(fails) => CarefreeWorker(s, fails);
      case Raise(_) =>
      case NextCall =>
    }
  }

  lemma CarefreeIsRight(s: State)
    requires Carefree(s)
    ensures AlwaysRight(s, Signals)
  {
    forall x: State, a: Actor | Carefree(x) && May(a, Signals)
      ensures Carefree(Step(x, a))
    {
      CarefreeKept(x, a);
    }
    KeptMeansRight(s, Signals, x => Carefree(x));
  }

  // ---------------------------------------------------------------- the exact condition

  /** There is no worker, there is nothing to run or to fail, or no pass can succeed whatever
      hook it begins and ends with. */
  ghost predicate NeverMisled(app: Application) {
    || !app.declared || !app.threadRunning
    || (NoCallback(app.tables.chkpt) && NoThreadFails(app.tables))
    || (forall p: Hook, q: Hook :: PassFails(TableOf(app.tables, p), Thread, 0, |TableOf(app.tables, q)|, false))
  }

  lemma NeverMisledIsRight(s: State)
    requires Quiet(s) && NeverMisled(s.app)
    ensures AlwaysRight(s, Signals)
  {
    if !s.app.declared || !s.app.threadRunning {
      NoWorkerIsRight(s);
    } else if NoCallback(s.app.tables.chkpt) && NoThreadFails(s.app.tables) {
      CarefreeIsRight(s);
    } else {
      var all := {Checkpoint, Restart, Continue};
      assert CannotPass(s.app.tables, all);
      DoomedIsRight(s, all, Signals);
    }
  }

  /** Calls that follow each other in any way, restart and continue signals at any time, and
      callbacks that may return something else each time: all verdicts are right in every
      interleaving if and only if the application can never be misled. */
  lemma VerdictsRightWithSignalsExactly(s: State)
    requires Quiet(s)
    ensures AlwaysRight(s, Signals) <==> NeverMisled(s.app)
  {
    if NeverMisled(s.app) {
      NeverMisledIsRight(s);
    } else {
      var e;
      if NoCallback(s.app.tables.chkpt) {
        var p: Hook :| PassFails(TableOf(s.app.tables, p), Thread, 0, |TableOf(s.app.tables, p)|, true);
        e := FailureFools(s, p);
      } else {
        var p: Hook, q: Hook :| !PassFails(TableOf(s.app.tables, p), Thread, 0, |TableOf(s.app.tables, q)|, false);
        e := SuccessFools(s, p, q);
      }
      WrongFrom(s, e, Signals);
    }
  }
}
