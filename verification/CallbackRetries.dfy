/** Verdicts of the callback protocol when calls follow each other at once. */
module CallbackRetries {
  import opened CallbackProtocol
  import opened CallbackSchedules
  import opened CallbackSerial

  // ---------------------------------------------------------------- calls that leave nothing behind

  /** The invariant of one call holds, and no signal callback can make the call return before
      the thread pass is over. */
  ghost predicate Orderly(s: State) {
    Inv(s) && s.app.declared && s.app.threadRunning && !SignalCanFail(s) && !s.signalFailed
  }

  lemma OrderlyHandler(s: State, fails: bool)
    requires Orderly(s)
    ensures Orderly(StepH(s, fails))
  {
    HandlerKeepsInv(s, fails);
    HandlerKeepsApplication(s, fails);
    if s.h.Running? { HandlerEntry(s, fails); }
  }

  lemma OrderlyNext(s: State)
    requires Orderly(s) && s.c.Done?
    ensures Orderly(Step(s, NextCall))
  {
    assert s.handled && s.passed;
    assert s.h.Idle? && s.pending == [] && Resting(s);
    QuietInv(Step(s, NextCall));
  }

  lemma OrderlyKept(s: State, a: Actor)
    requires Orderly(s) && May(a, Retries)
    ensures Orderly(Step(s, a))
  {
    match a {
      case Checkpointer => CheckpointerKeepsInv(s);
      case Handler(fails) => OrderlyHandler(s, fails);
      case Worker(fails) =>
        WorkerKeepsInv(s, fails);
        WorkerKeepsApplication(s, fails);
      case NextCall => if s.c.Done? { OrderlyNext(s); }
    }
  }

  lemma OrderlyIsRight(s: State)
    requires Orderly(s)
    ensures AlwaysRight(s, Retries)
  {
    forall x: State, a: Actor | Orderly(x) && May(a, Retries)
      ensures Orderly(Step(x, a))
    {
      OrderlyKept(x, a);
    }
    forall x: State | Orderly(x) && x.c.Done?
      ensures VerdictIsRight(x)
    {
      InvVerdict(x);
    }
    KeptMeansRight(s, Retries, x => Orderly(x));
  }

  // ---------------------------------------------------------------- a call too early

  /** The handler has reported an error and woken the worker; the call has returned. */
  function GivenUp(s: State): State {
    s.(c := Done(-1), queue := NoQueue, h := Idle, handled := true, log := s.log + [Err],
       mutexFree := true, counts := CountWake(s.counts, s.mutexFree))
  }

  lemma GiveUpLeads(s: State)
    requires s.c.Receive? && s.queue == Queue([]) && s.hook == Checkpoint && s.h == Sending(true)
    requires s.app.threadRunning
    ensures Leads(s, GivenUp(s), OneCall)
  {
    assert [] + [Err] == [Err];
    var a := StepH(s, false);
    assert a == s.(queue := Queue([Err]), log := s.log + [Err], h := Waking, handled := true);
    var b := StepH(a, false);
    assert b == a.(mutexFree := true, counts := CountWake(s.counts, s.mutexFree), h := Idle);
    TakeSteps(b, Err);
    ThreeLead(s, Handler(false), Handler(false), Checkpointer);
    LeadsOn(s, StepC(b), Checkpointer, OneCall);
  }

  /** The call can return -1 before the worker has begun its pass. */
  lemma FailureLeads(s: State) returns (e: State)
    requires Fresh(s) && s.app.threadRunning && SignalCanFail(s)
    ensures Leads(s, e, OneCall)
    ensures e == GivenUp(Begun(s)).(trail := e.trail, ran := e.ran, signalFailed := e.signalFailed)
  {
    var b := Begun(s);
    BeginLeads(s);
    HandlerDoneLeads(b, true);
    HandlerDoneState(b, true);
    var d := HandlerDone(b, true);
    LeadsFurther(s, b, d, OneCall, OneCall);
    GiveUpLeads(d);
    e := GivenUp(d);
    LeadsFurther(s, d, e, OneCall, OneCall);
  }

  lemma NextIsHasty(s: State, fails: bool) returns (e: State)
    requires s.c == Done(-1) && s.app.declared && s.app.threadRunning && s.queue.NoQueue? && s.hook == Checkpoint
    requires s.w.Locking? && s.mutexFree && s.h.Idle? && s.pending == []
    ensures Leads(s, e, Retries) && Hasty(e) && e.app == s.app
    ensures var t := s.app.tables.chkpt; e.w.wbad == PassFails(t, Thread, 0, |t|, fails)
  {
    var w := PassLeads(s, fails);
    LeadsInMore(s, w, Retries, OneCall);
    LeadsOn(s, w, NextCall, Retries);
    e := Step(w, NextCall);
  }

  /** A call can be hasty: if a signal callback fails, the call returns before the worker
      begins its pass, and the next one can begin before the worker reports. The report is an
      error or a success, whatever the thread callbacks can come to. */
  lemma RetryCanBeHasty(s: State, fails: bool) returns (e: State)
    requires Quiet(s) && s.app.declared && s.app.threadRunning && SignalCanFail(s)
    ensures Leads(s, e, Retries) && Hasty(e) && e.app == s.app
    ensures var t := s.app.tables.chkpt; e.w.wbad == PassFails(t, Thread, 0, |t|, fails)
  {
    var m := FailureLeads(s);
    e := NextIsHasty(m, fails);
    LeadsInMore(s, m, Retries, OneCall);
    LeadsFurther(s, m, e, Retries, Retries);
  }

  /** Calls that follow each other in any way, with callbacks that may return something else
      each time: all verdicts are right in every interleaving if and only if it is not the
      case that a signal callback can fail while a worker is running whose pass can succeed. */
  lemma VerdictsRightExactly(s: State)
    requires Quiet(s)
    ensures AlwaysRight(s, Retries) <==>
            !(s.app.declared && s.app.threadRunning && SignalCanFail(s) && ThreadCanPass(s))
  {
    QuietInv(s);
    if !s.app.declared || !s.app.threadRunning {
      NoWorkerIsRight(s);
      RightInLess(s, Signals, Retries);
    } else if !ThreadCanPass(s) {
      DoomedIsRight(s, {Checkpoint}, Retries);
    } else if !SignalCanFail(s) {
      OrderlyIsRight(s);
    } else {
      var m := RetryCanBeHasty(s, false);
      var e := LateSuccessFools(m);
      LeadsFurther(s, m, e, Retries, OneCall);
      WrongFrom(s, e, Retries);
    }
  }
}
