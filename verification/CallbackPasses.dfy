/** What a restart or continue signal runs: the entries that were registered for it, first
    those for the handler and then those for the worker. */
module CallbackPasses {
  import opened CallbackProtocol

  // ---------------------------------------------------------------- passes over an array

  /** Entry `k` of an array is to be run in this context. */
  predicate Due(t: seq<Callback>, context: Context, k: nat) {
    k < |t| && t[k].func && t[k].context == context
  }

  ghost predicate WasRun(runs: seq<Invocation>, k: nat) {
    exists n :: 0 <= n < |runs| && runs[n].index == k
  }

  /** The runs are those of the entries below `upto` that are due, each once and in order. */
  ghost predicate RunsBelow(runs: seq<Invocation>, hook: Hook, t: seq<Callback>, context: Context, upto: nat) {
    && (forall n :: 0 <= n < |runs| ==>
          var r := runs[n];
          && r.context == context && r.hook == hook && r.index < upto
          && Due(t, context, r.index) && r.entry == t[r.index])
    && (forall m, n :: 0 <= m < n < |runs| ==> runs[m].index < runs[n].index)
    && (forall k: nat :: k < upto && Due(t, context, k) ==> WasRun(runs, k))
  }

  predicate NoneBad(runs: seq<Invocation>) {
    forall n :: 0 <= n < |runs| ==> !runs[n].bad
  }

  /** A pass that is not over: nothing has failed. */
  ghost predicate PassUpTo(runs: seq<Invocation>, hook: Hook, t: seq<Callback>, context: Context, upto: nat) {
    RunsBelow(runs, hook, t, context, upto) && NoneBad(runs)
  }

  /** A pass that is over: all that is due has been run and nothing has failed, or everything
      due up to the first failure. */
  ghost predicate PassOver(runs: seq<Invocation>, hook: Hook, t: seq<Callback>, context: Context) {
    || PassUpTo(runs, hook, t, context, |t|)
    || (runs != [] && runs[|runs| - 1].bad && NoneBad(runs[..|runs| - 1]) &&
        RunsBelow(runs, hook, t, context, runs[|runs| - 1].index + 1))
  }

  ghost predicate PassSoFar(runs: seq<Invocation>, hook: Hook, t: seq<Callback>, context: Context) {
    PassOver(runs, hook, t, context) || exists upto :: PassUpTo(runs, hook, t, context, upto)
  }

  lemma NothingYet(hook: Hook, t: seq<Callback>, context: Context)
    ensures PassUpTo([], hook, t, context, 0)
  {
  }

  lemma RunsOneMore(runs: seq<Invocation>, hook: Hook, t: seq<Callback>, context: Context, i: nat, bad: bool)
    requires PassUpTo(runs, hook, t, context, i) && Due(t, context, i)
    ensures var longer := runs + [Invoked(context, hook, i, t[i], bad)];
            if bad then PassOver(longer, hook, t, context) else PassUpTo(longer, hook, t, context, i + 1)
  {
    var r := Invoked(context, hook, i, t[i], bad);
    var longer := runs + [r];
    assert longer[..|longer| - 1] == runs && longer[|runs|] == r;
    assert forall n :: 0 <= n < |runs| ==> longer[n] == runs[n];
    forall k: nat | k < i + 1 && Due(t, context, k) ensures WasRun(longer, k) {
      if k < i {
        assert WasRun(runs, k);
        var n :| 0 <= n < |runs| && runs[n].index == k;
        assert longer[n].index == k;
      }
    }
    assert RunsBelow(longer, hook, t, context, i + 1);
  }

  lemma SkipsOne(runs: seq<Invocation>, hook: Hook, t: seq<Callback>, context: Context, i: nat)
    requires PassUpTo(runs, hook, t, context, i) && !Due(t, context, i)
    ensures PassUpTo(runs, hook, t, context, i + 1)
  {
  }

  lemma AllThrough(runs: seq<Invocation>, hook: Hook, t: seq<Callback>, context: Context, i: nat)
    requires PassUpTo(runs, hook, t, context, i) && i >= |t|
    ensures PassOver(runs, hook, t, context)
  {
    assert PassUpTo(runs, hook, t, context, |t|);
  }

  // ---------------------------------------------------------------- one signal

  /** Handler and worker are at rest, and no signal is pending. */
  predicate AtRest(s: State) {
    s.h.Idle? && s.pending == [] && Resting(s)
  }

  ghost predicate WorkerOnItsWay(s: State, sig: Hook, t: seq<Callback>, ws: seq<Invocation>) {
    match s.w
    case Locking => if s.mutexFree then ws == [] else PassOver(ws, sig, t, Thread)
    case Working(picked, j) => !s.mutexFree && picked == sig && PassUpTo(ws, sig, t, Thread, j)
    case Reporting(_) => !s.mutexFree && PassOver(ws, sig, t, Thread)
  }

  /** Where handler and worker are with the signal, whose entries are `t`; `hs` and `ws` is
      what they have run. */
  ghost predicate OnItsWay(s: State, sig: Hook, t: seq<Callback>, hs: seq<Invocation>, ws: seq<Invocation>) {
    && sig != Checkpoint && t == Table(s, sig)
    && (s.pending == [sig] ==> s.h.Idle? && hs == [])
    && (s.pending != [sig] ==> s.pending == [] && s.hook == sig)
    && (s.pending == [sig] || !s.h.Idle? || !s.app.threadRunning ==> Resting(s) && ws == [])
    && (s.h.Running? ==> s.h.picked == sig && PassUpTo(hs, sig, t, Signal, s.h.i))
    && (s.pending == [] && !s.h.Running? ==> PassOver(hs, sig, t, Signal))
    && (s.pending == [] && s.h.Idle? && s.app.threadRunning ==> WorkerOnItsWay(s, sig, t, ws))
  }

  lemma HandlerRunsOne(s: State, fails: bool, sig: Hook, t: seq<Callback>, hs: seq<Invocation>, ws: seq<Invocation>,
                       trail: seq<Invocation>)
    returns (hs': seq<Invocation>)
    requires OnItsWay(s, sig, t, hs, ws) && s.trail == trail + hs + ws && s.h.Running?
    ensures var e := StepH(s, fails); OnItsWay(e, sig, t, hs', ws) && e.trail == trail + hs' + ws
  {
    var i := s.h.i;
    HandlerEntry(s, fails);
    HandlerTrail(s, fails);
    hs' := hs;
    if i >= |t| {
      AllThrough(hs, sig, t, Signal, i);
    } else if Due(t, Signal, i) {
      RunsOneMore(hs, sig, t, Signal, i, Fails(t[i], fails));
      hs' := hs + [Invoked(Signal, sig, i, t[i], Fails(t[i], fails))];
    } else {
      SkipsOne(hs, sig, t, Signal, i);
    }
  }

  lemma HandlerOnItsWay(s: State, fails: bool, sig: Hook, t: seq<Callback>, hs: seq<Invocation>, ws: seq<Invocation>,
                        trail: seq<Invocation>)
    returns (hs': seq<Invocation>)
    requires OnItsWay(s, sig, t, hs, ws) && s.trail == trail + hs + ws
    ensures var e := StepH(s, fails); OnItsWay(e, sig, t, hs', ws) && e.trail == trail + hs' + ws
  {
    hs' := hs;
    match s.h {
      case Idle => if s.pending != [] { NothingYet(sig, t, Signal); }
      case Running(_, i) => hs' := HandlerRunsOne(s, fails, sig, t, hs, ws, trail);
      case Sending(_) =>
      case Waking =>
    }
  }

  lemma WorkerRunsOne(s: State, fails: bool, sig: Hook, t: seq<Callback>, hs: seq<Invocation>, ws: seq<Invocation>,
                      trail: seq<Invocation>)
    returns (ws': seq<Invocation>)
    requires OnItsWay(s, sig, t, hs, ws) && s.trail == trail + hs + ws && s.w.Working?
    ensures var e := StepW(s, fails); OnItsWay(e, sig, t, hs, ws') && e.trail == trail + hs + ws'
  {
    var j := s.w.j;
    WorkerEntry(s, fails);
    WorkerTrail(s, fails);
    ws' := ws;
    if j >= |t| {
      AllThrough(ws, sig, t, Thread, j);
    } else if Due(t, Thread, j) {
      RunsOneMore(ws, sig, t, Thread, j, Fails(t[j], fails));
      ws' := ws + [Invoked(Thread, sig, j, t[j], Fails(t[j], fails))];
    } else {
      SkipsOne(ws, sig, t, Thread, j);
    }
  }

  lemma WorkerStepOnItsWay(s: State, fails: bool, sig: Hook, t: seq<Callback>, hs: seq<Invocation>,
                           ws: seq<Invocation>, trail: seq<Invocation>)
    returns (ws': seq<Invocation>)
    requires OnItsWay(s, sig, t, hs, ws) && s.trail == trail + hs + ws
    ensures var e := StepW(s, fails); OnItsWay(e, sig, t, hs, ws') && e.trail == trail + hs + ws'
  {
    ws' := ws;
    match s.w {
      case Locking => NothingYet(sig, t, Thread);
      case Working(_, _) => ws' := WorkerRunsOne(s, fails, sig, t, hs, ws, trail);
      case Reporting(_) =>
    }
  }

  /** Handler and worker move; the checkpointer has nothing to do. */
  predicate Serves(a: Actor, s: State) {
    a.Handler? || a.Worker? || (a.Checkpointer? && s.c.Done?)
  }

  lemma HandlerKeepsCall(s: State, fails: bool)
    ensures StepH(s, fails).c == s.c
  {
    match s.h {
      case Idle =>
      case Running(_, _) => HandlerEntry(s, fails);
      case Sending(_) =>
      case Waking =>
    }
  }

  lemma WorkerKeepsCall(s: State, fails: bool)
    ensures StepW(s, fails).c == s.c
  {
    match s.w {
      case Locking =>
      case Working(_, _) => WorkerEntry(s, fails);
      case Reporting(_) =>
    }
  }

  lemma ServesKeepsCall(s: State, a: Actor)
    requires Serves(a, s)
    ensures Step(s, a).c == s.c && (a.Checkpointer? ==> Step(s, a) == s)
  {
    match a {
      case Handler(fails) => HandlerKeepsCall(s, fails);
      case Worker(fails) => WorkerKeepsCall(s, fails);
      case Checkpointer =>
    }
  }

  lemma {:induction false} SignalOnItsWay(s: State, sig: Hook, schedule: seq<Actor>)
    returns (hs: seq<Invocation>, ws: seq<Invocation>)
    requires AtRest(s) && sig != Checkpoint && forall k :: 0 <= k < |schedule| ==> Serves(schedule[k], s)
    ensures var e := Run(Step(s, Raise(sig)), schedule);
            e.app == s.app && e.c == s.c && e.trail == s.trail + hs + ws && OnItsWay(e, sig, Table(s, sig), hs, ws)
    decreases |schedule|
  {
    if schedule == [] {
      hs, ws := [], [];
    } else {
      var front, a := schedule[..|schedule| - 1], schedule[|schedule| - 1];
      hs, ws := SignalOnItsWay(s, sig, front);
      var m := Run(Step(s, Raise(sig)), front);
      StepKeepsApplication(m, a);
      ServesKeepsCall(m, a);
      match a {
        case Handler(fails) => hs := HandlerOnItsWay(m, fails, sig, Table(s, sig), hs, ws, s.trail);
        case Worker(fails) => ws := WorkerStepOnItsWay(m, fails, sig, Table(s, sig), hs, ws, s.trail);
        case Checkpointer =>
        case Raise(_) =>
        case NextCall =>
      }
    }
  }

  // ---------------------------------------------------------------- the two signals

  /** Neither the handler nor the worker can move. */
  ghost predicate Still(s: State) {
    forall fails :: StepH(s, fails) == s && StepW(s, fails) == s
  }

  lemma StillIsAtRest(s: State, sig: Hook, t: seq<Callback>, hs: seq<Invocation>, ws: seq<Invocation>)
    requires OnItsWay(s, sig, t, hs, ws) && Still(s)
    ensures AtRest(s)
  {
    assert StepH(s, false) == s && StepW(s, false) == s;
  }

  /** What has been run is a pass of the handler over the entries `t` and after it one of the
      worker; when nobody can move both are over. */
  ghost predicate Served(s: State, e: State, hook: Hook, t: seq<Callback>, hs: seq<Invocation>, ws: seq<Invocation>) {
    && e.trail == s.trail + hs + ws
    && PassSoFar(hs, hook, t, Signal) && PassSoFar(ws, hook, t, Thread)
    && (ws != [] ==> s.app.threadRunning && PassOver(hs, hook, t, Signal))
    && (Still(e) ==> PassOver(hs, hook, t, Signal) && (s.app.threadRunning ==> PassOver(ws, hook, t, Thread)))
  }

  lemma SignalServed(s: State, sig: Hook, schedule: seq<Actor>) returns (hs: seq<Invocation>, ws: seq<Invocation>)
    requires AtRest(s) && sig != Checkpoint && forall k :: 0 <= k < |schedule| ==> Serves(schedule[k], s)
    ensures Served(s, Run(Step(s, Raise(sig)), schedule), sig, Table(s, sig), hs, ws)
  {
    hs, ws := SignalOnItsWay(s, sig, schedule);
    var e, t := Run(Step(s, Raise(sig)), schedule), Table(s, sig);
    NothingYet(sig, t, Signal);
    NothingYet(sig, t, Thread);
    if Still(e) { StillIsAtRest(e, sig, t, hs, ws); }
  }

  /** One restart signal, in every interleaving: handler and worker run the restart callbacks
      that are not null, each once, in order, up to the first failure of their context. */
  lemma RestartSignalRuns(s: State, schedule: seq<Actor>) returns (hs: seq<Invocation>, ws: seq<Invocation>)
    requires AtRest(s) && forall k :: 0 <= k < |schedule| ==> Serves(schedule[k], s)
    ensures Served(s, Run(Step(s, Raise(Restart)), schedule), Restart, s.app.tables.rst, hs, ws)
  {
    hs, ws := SignalServed(s, Restart, schedule);
  }

  /** One continue signal: the continue callbacks. */
  lemma ContinueSignalRuns(s: State, schedule: seq<Actor>) returns (hs: seq<Invocation>, ws: seq<Invocation>)
    requires AtRest(s) && forall k :: 0 <= k < |schedule| ==> Serves(schedule[k], s)
    ensures Served(s, Run(Step(s, Raise(Continue)), schedule), Continue, s.app.tables.cnt, hs, ws)
  {
    hs, ws := SignalServed(s, Continue, schedule);
  }
}
