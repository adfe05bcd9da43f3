/** tools/checkpoint.c: freeze, checkpoint and unfreeze an application while SIGINT or
    SIGTERM may raise `interrupted_by_signal` between any two steps.

    The kernel contract is the one tests/ktp/cr/cr_freeze_unfreeze exercises: only a running
    application can be frozen, only a frozen one can be checkpointed or unfrozen; apart
    from that every call may fail for reasons of its own. */
module CheckpointDriver {

  datatype Action = ALL | CHECKPOINT | FREEZE | UNFREEZE

  datatype AppState = Running | Frozen

  /** The checkpoint callbacks report back, or their report is waited for for ever. */
  datatype Reply = Answer(r: int) | Never

  /** How a run of the tool, or a part of it, ends. */
  datatype Outcome = Exits(r: int) | Hangs

  /** What the outside world does during one run of the tool: when the signal arrives,
      counted in steps of the tool, whether the application has declared callbacks, and what
      each call answers (0 is success). */
  datatype Env = Env(rise: nat, declared: bool, chkptCallbacks: Reply, freeze: int, checkpoint: int,
                     contCallbacks: int, unfreeze: int)

  /** The command line. */
  datatype Options = Options(action: Action, sig: int, noCallbacks: bool)

  /** What is left behind by one or more runs: the application, the checkpoints taken, the
      signals delivered, and how often checkpoint and continue callbacks were asked for. */
  datatype World = World(app: AppState, taken: nat, delivered: seq<int>, chkptCalls: nat, contCalls: nat)

  /** A kernel call that is not allowed fails. */
  function Checked(allowed: bool, answer: int): int {
    if answer == 0 && !allowed then -1 else answer
  }

  /** cr_execute_chkpt_callbacks: without declared callbacks it returns 0 at once, and the
      handler of a frozen application does not run. */
  function Callbacks(app: AppState, env: Env): Reply {
    if !env.declared then Answer(0) else if app.Frozen? then Never else env.chkptCallbacks
  }

  /** The parts of a run: whether the signal stopped it at its first test, and what of it
      succeeded. */
  datatype Parts = Parts(stopped: bool, froze: bool, took: bool, thawed: bool)

  /** The calls that undo a freeze both succeed. */
  predicate CanThaw(opts: Options, env: Env) {
    (opts.noCallbacks || env.contCallbacks == 0) && env.unfreeze == 0
  }

  /** The calls that freeze a running application both succeed. */
  predicate CanFreeze(opts: Options, env: Env) {
    (opts.noCallbacks || Callbacks(Running, env) == Answer(0)) && env.freeze == 0
  }

  function Asked(opts: Options): nat {
    if opts.noCallbacks then 0 else 1
  }

  /** A run that asks for the checkpoint callbacks and never hears of them. */
  predicate Waits(w: World, opts: Options, env: Env) {
    !opts.noCallbacks && Callbacks(w.app, env).Never?
  }

  /** What one default run does to the world, in terms of its parts. */
  predicate DefaultRun(w: World, w': World, res: Outcome, opts: Options, env: Env, p: Parts) {
    && (p.froze <==> !p.stopped && w.app.Running? && CanFreeze(opts, env))
    && (p.took ==> p.froze && env.checkpoint == 0)
    && (p.thawed <==> p.froze && CanThaw(opts, env))
    && w'.app == (if p.froze && !p.thawed then Frozen else w.app)
    && w'.taken == w.taken + (if p.took then 1 else 0)
    && w'.delivered == w.delivered + (if p.took && p.thawed && opts.sig != 0 then [opts.sig] else [])
    && w'.chkptCalls == w.chkptCalls + (if p.stopped then 0 else Asked(opts))
    && w'.contCalls == w.contCalls + (if p.froze then Asked(opts) else 0)
    && (res == Exits(0) <==> p.took && p.thawed)
    && (res == Hangs <==> !p.stopped && Waits(w, opts, env))
  }

  class Tool {
    const env: Env
    const opts: Options
    var world: World
    var interrupted: bool
    var clock: nat

    /** The signal has arrived by step `t`. */
    predicate Raised(t: nat) {
      1 <= env.rise <= t
    }

    predicate Valid()
      reads this
    {
      interrupted <==> Raised(clock)
    }

    constructor (env: Env, opts: Options, world: World)
      ensures this.env == env && this.opts == opts && this.world == world
      ensures Valid() && clock == 0
    {
      this.env, this.opts, this.world := env, opts, world;
      interrupted, clock := false, 0;
    }

    /** A point between two steps, where handle_signal may run. */
    method Tick()
      requires Valid()
      modifies this`clock, this`interrupted
      ensures Valid() && clock == old(clock) + 1
    {
      clock := clock + 1;
      if clock == env.rise {
        interrupted := true;
      }
    }

    method FreezeApp() returns (res: Outcome)
      requires Valid()
      modifies this`clock, this`interrupted, this`world
      ensures Valid() && clock > old(clock)
      ensures res == Exits(0) <==> !Raised(old(clock) + 1) && old(world).app.Running? && env.freeze == 0 &&
                                   (opts.noCallbacks || !env.declared || env.chkptCallbacks == Answer(0))
      ensures res == Hangs <==> !Raised(old(clock) + 1) && !opts.noCallbacks && env.declared &&
                                (old(world).app.Frozen? || env.chkptCallbacks == Never)
      ensures !Raised(old(clock) + 1) && !opts.noCallbacks && env.declared && old(world).app.Running? ==>
                env.chkptCallbacks.Answer? && env.chkptCallbacks.r != 0 ==> res == Exits(env.chkptCallbacks.r)
      ensures world == old(world).(app := if res == Exits(0) then Frozen else old(world).app,
                                   chkptCalls := old(world).chkptCalls +
                                                 if Raised(old(clock) + 1) || opts.noCallbacks then 0 else 1)
    {
      Tick();
      if interrupted {
        return Exits(-1);
      }
      if !opts.noCallbacks {
        var reply := Callbacks(world.app, env);
        world := world.(chkptCalls := world.chkptCalls + 1);
        Tick();
        match reply {
          case Never => return Hangs;
          case Answer(r) => if r != 0 { return Exits(r); }
        }
      }
      var r := Checked(world.app.Running?, env.freeze);
      if r == 0 {
        world := world.(app := Frozen);
      }
      Tick();
      res := Exits(r);
    }

    method CheckpointApp() returns (r: int)
      requires Valid()
      modifies this`clock, this`interrupted, this`world
      ensures Valid() && clock > old(clock)
      ensures r == 0 <==> !Raised(old(clock) + 1) && old(world).app.Frozen? && env.checkpoint == 0
      ensures world == if r == 0 then old(world).(taken := old(world).taken + 1) else old(world)
    {
      Tick();
      if interrupted {
        return -1;
      }
      r := Checked(world.app.Frozen?, env.checkpoint);
      if r == 0 {
        world := world.(taken := world.taken + 1);
      }
      Tick();
    }

    method UnfreezeApp(signal: int) returns (r: int)
      requires Valid()
      modifies this`clock, this`interrupted, this`world
      ensures Valid() && clock > old(clock)
      ensures r == 0 <==> (opts.action == ALL || !Raised(old(clock) + 1)) && old(world).app.Frozen? &&
                          (opts.noCallbacks || env.contCallbacks == 0) && env.unfreeze == 0
      ensures world.app == if r == 0 then Running else old(world).app
      ensures world.delivered == old(world).delivered + if r == 0 && signal != 0 then [signal] else []
      ensures world.contCalls == old(world).contCalls +
                                 if !opts.noCallbacks && (opts.action == ALL || !Raised(old(clock) + 1)) then 1 else 0
      ensures world.taken == old(world).taken && world.chkptCalls == old(world).chkptCalls
    {
      Tick();
      if interrupted && opts.action != ALL {
        return -1;
      }
      if !opts.noCallbacks {
        r := env.contCallbacks;
        world := world.(contCalls := world.contCalls + 1);
        Tick();
        if r != 0 {
          return;
        }
      }
      r := Checked(world.app.Frozen?, env.unfreeze);
      if r == 0 {
        world := world.(app := Running, delivered := world.delivered + if signal != 0 then [signal] else []);
      }
      Tick();
    }

    /** freeze_checkpoint_unfreeze. Whatever the arrival time of the signal, a run that froze
        the application thaws it again if the two calls for that succeed. `test` is when the
        flag is looked at before checkpointing. */
    method FreezeCheckpointUnfreeze() returns (res: Outcome, ghost p: Parts, ghost test: nat)
      requires Valid() && opts.action == ALL
      modifies this`clock, this`interrupted, this`world
      ensures Valid()
      ensures DefaultRun(old(world), world, res, opts, env, p)
      ensures p.stopped <==> Raised(old(clock) + 1)
      ensures p.froze ==> old(clock) + 1 < test <= clock
      ensures p.took <==> p.froze && !Raised(test) && env.checkpoint == 0
      ensures p.thawed <==> p.froze && (opts.noCallbacks || env.contCallbacks == 0) && env.unfreeze == 0
      ensures !opts.noCallbacks && env.declared && env.chkptCallbacks != Answer(0) ==>
                world.app == old(world).app && world.taken == old(world).taken && res != Exits(0)
      ensures !p.stopped && !opts.noCallbacks && env.declared && old(world).app.Running? ==>
                (res == Hangs <==> env.chkptCallbacks == Never)
    {
      p, test := Parts(Raised(clock + 1), false, false, false), 0;
      res := FreezeApp();
      if res != Exits(0) {
        return;
      }
      p, test := p.(froze := true, thawed := CanThaw(opts, env)), clock + 1;
      var r := CheckpointApp();
      if r != 0 {
        var _ := UnfreezeApp(0);
        return Exits(r), p, test;
      }
      p := p.(took := true);
      r := UnfreezeApp(opts.sig);
      res := Exits(r);
    }

    /** The switch of main. */
    method Run() returns (res: Outcome, ghost p: Parts)
      requires Valid()
      modifies this`clock, this`interrupted, this`world
      ensures Valid() && (p.stopped <==> Raised(old(clock) + 1))
      ensures opts.action == ALL ==> DefaultRun(old(world), world, res, opts, env, p)
      ensures opts.action == FREEZE ==>
                && (res == Exits(0) <==> !p.stopped && old(world).app.Running? && CanFreeze(opts, env))
                && (res == Hangs <==> !p.stopped && Waits(old(world), opts, env))
                && world == old(world).(app := if res == Exits(0) then Frozen else old(world).app,
                                        chkptCalls := world.chkptCalls)
                && world.chkptCalls == old(world).chkptCalls + if p.stopped then 0 else Asked(opts)
      ensures opts.action == CHECKPOINT ==>
                && (res == Exits(0) <==> !p.stopped && old(world).app.Frozen? && env.checkpoint == 0)
                && world == old(world).(taken := old(world).taken + if res == Exits(0) then 1 else 0)
      ensures opts.action == UNFREEZE ==>
                && (res == Exits(0) <==> !p.stopped && old(world).app.Frozen? && CanThaw(opts, env))
                && world == old(world).(app := if res == Exits(0) then Running else old(world).app,
                                        delivered := world.delivered, contCalls := world.contCalls)
                && world.delivered == old(world).delivered +
                                      (if res == Exits(0) && opts.sig != 0 then [opts.sig] else [])
                && world.contCalls == old(world).contCalls + if p.stopped then 0 else Asked(opts)
      ensures opts.action == CHECKPOINT || opts.action == UNFREEZE ==> res.Exits?
      ensures opts.action == ALL || opts.action == FREEZE ==>
                !opts.noCallbacks && env.declared && env.chkptCallbacks != Answer(0) ==>
                  && world.app == old(world).app && world.taken == old(world).taken && res != Exits(0)
                  && (!p.stopped && old(world).app.Running? ==> (res == Hangs <==> env.chkptCallbacks == Never))
      ensures p.stopped ==> res.Exits? && res != Exits(0) && world == old(world)
    {
      p := Parts(Raised(clock + 1), false, false, false);
      match opts.action
      case CHECKPOINT =>
        var r := CheckpointApp();
        res := Exits(r);
      case FREEZE =>
        res := FreezeApp();
      case UNFREEZE =>
        var r := UnfreezeApp(opts.sig);
        res := Exits(r);
      case ALL =>
        ghost var test;
        res, p, test := FreezeCheckpointUnfreeze();
    }
  }

  // ---------------------------------------------------------------- any number of runs

  /** A default run to be made: `checkpoint [-c] [-k sig]`, and what the world does in it. */
  datatype Job = Job(sig: int, noCallbacks: bool, env: Env)

  /** A default run that was made, and how it went. */
  datatype Record = Record(job: Job, after: World, res: Outcome, parts: Parts)

  function OptionsOf(job: Job): Options {
    Options(ALL, job.sig, job.noCallbacks)
  }

  predicate Went(w: World, run: Record) {
    && DefaultRun(w, run.after, run.res, OptionsOf(run.job), run.job.env, run.parts)
    && (run.parts.stopped <==> run.job.env.rise == 1)
  }

  function After(w: World, runs: seq<Record>): World {
    if runs == [] then w else runs[|runs| - 1].after
  }

  /** A history of default runs, each starting from the world the one before left. */
  predicate History(w: World, runs: seq<Record>) {
    runs == [] ||
    (var n := |runs| - 1; History(w, runs[..n]) && Went(After(w, runs[..n]), runs[n]))
  }

  method RunOnce(w: World, job: Job) returns (after: World, res: Outcome, ghost run: Record)
    ensures Went(w, run) && run.job == job && run.after == after && run.res == res
  {
    var tool := new Tool(job.env, OptionsOf(job), w);
    ghost var p;
    res, p := tool.Run();
    after := tool.world;
    run := Record(job, after, res, p);
  }

  /** Making any sequence of default runs, each of them once the one before has ended or is
      seen to hang: what comes out is a history of them. */
  method RunAll(w: World, jobs: seq<Job>) returns (end: World, results: seq<Outcome>, ghost runs: seq<Record>)
    ensures History(w, runs) && |results| == |runs| == |jobs| && end == After(w, runs)
    ensures forall k :: 0 <= k < |jobs| ==> runs[k].job == jobs[k] && runs[k].res == results[k]
  {
    end, results, runs := w, [], [];
    for n := 0 to |jobs|
      invariant |results| == |runs| == n && end == After(w, runs)
      invariant forall k :: 0 <= k < n ==> runs[k].job == jobs[k] && runs[k].res == results[k]
      invariant History(w, runs)
    {
      ghost var run;
      var res;
      end, res, run := RunOnce(end, jobs[n]);
      assert (runs + [run])[..n] == runs;
      results, runs := results + [res], runs + [run];
    }
  }

  lemma {:induction false} HistoryAt(w: World, runs: seq<Record>, i: nat)
    requires History(w, runs) && i < |runs|
    ensures Went(After(w, runs[..i]), runs[i]) && After(w, runs[..i + 1]) == runs[i].after
    decreases |runs|
  {
    var n := |runs| - 1;
    if i < n {
      HistoryAt(w, runs[..n], i);
      assert runs[..n][..i] == runs[..i];
    }
  }

  lemma RefusedRun(w: World, run: Record)
    requires Went(w, run)
    requires !run.job.noCallbacks && run.job.env.declared && run.job.env.chkptCallbacks != Answer(0)
    ensures run.after == w.(chkptCalls := run.after.chkptCalls) && run.res != Exits(0)
    ensures w.app.Running? && run.job.env.rise != 1 ==> (run.res == Hangs <==> run.job.env.chkptCallbacks == Never)
  {
  }

  /** In any history, a run whose checkpoint callbacks fail or never answer freezes nothing,
      takes nothing and thaws nothing; it never succeeds, and on a running application it
      hangs exactly if they never answer. */
  lemma RefusalIsRespected(w: World, runs: seq<Record>, i: nat)
    requires History(w, runs) && i < |runs|
    requires !runs[i].job.noCallbacks && runs[i].job.env.declared && runs[i].job.env.chkptCallbacks != Answer(0)
    ensures var before, after := After(w, runs[..i]), After(w, runs[..i + 1]);
            && after == before.(chkptCalls := after.chkptCalls) && runs[i].res != Exits(0)
            && (before.app.Running? && runs[i].job.env.rise != 1 ==>
                  (runs[i].res == Hangs <==> runs[i].job.env.chkptCallbacks == Never))
  {
    HistoryAt(w, runs, i);
    RefusedRun(After(w, runs[..i]), runs[i]);
  }

  predicate Thawable(run: Record) {
    run.parts.froze ==> CanThaw(OptionsOf(run.job), run.job.env)
  }

  lemma RunLeavesRunning(w: World, run: Record)
    requires Went(w, run)
    ensures run.after.app.Running? <==> w.app.Running? && Thawable(run)
  {
  }

  /** After any history of default runs the application is running exactly if every run that
      froze it could thaw it, whatever else failed and whenever the signals arrived. */
  lemma {:induction false} LeftRunningExactly(w: World, runs: seq<Record>)
    requires History(w, runs) && w.app.Running?
    ensures After(w, runs).app.Running? <==> forall i :: 0 <= i < |runs| ==> Thawable(runs[i])
    decreases |runs|
  {
    if runs != [] {
      var n := |runs| - 1;
      LeftRunningExactly(w, runs[..n]);
      RunLeavesRunning(After(w, runs[..n]), runs[n]);
    }
  }

  function Successes(runs: seq<Record>): nat {
    if runs == [] then 0
    else Successes(runs[..|runs| - 1]) + if runs[|runs| - 1].res == Exits(0) then 1 else 0
  }

  lemma RunCovers(w: World, run: Record)
    requires Went(w, run)
    ensures var n := if run.res == Exits(0) then 1 else 0;
            && run.after.taken >= w.taken + n && w.delivered <= run.after.delivered
            && |run.after.delivered| <= |w.delivered| + n
  {
  }

  /** Over any history, every signal delivered and every run reported as successful is
      covered by a checkpoint of its own. */
  lemma {:induction false} CheckpointsCover(w: World, runs: seq<Record>)
    requires History(w, runs)
    ensures var now := After(w, runs);
            && now.taken >= w.taken + Successes(runs)
            && |now.delivered| - |w.delivered| <= Successes(runs)
            && w.delivered <= now.delivered
    decreases |runs|
  {
    if runs != [] {
      var n := |runs| - 1;
      CheckpointsCover(w, runs[..n]);
      RunCovers(After(w, runs[..n]), runs[n]);
    }
  }

  /** The run gets as far as asking an application with callbacks for them. */
  predicate Asks(job: Job) {
    job.env.rise != 1 && !job.noCallbacks && job.env.declared
  }

  lemma FrozenRunFails(w: World, run: Record)
    requires Went(w, run) && w.app.Frozen?
    ensures run.res != Exits(0) && (run.res == Hangs <==> Asks(run.job))
    ensures run.after == w.(chkptCalls := run.after.chkptCalls)
  {
  }

  /** Once a default run has left the application frozen, no later default run takes, delivers
      or thaws anything: it hangs if it asks the application for its callbacks, and fails
      otherwise. Only `checkpoint -u` helps. */
  lemma {:induction false} FrozenStaysFrozen(w: World, runs: seq<Record>)
    requires History(w, runs) && w.app.Frozen?
    ensures var now := After(w, runs); now == w.(chkptCalls := now.chkptCalls) && Successes(runs) == 0
    ensures forall i :: 0 <= i < |runs| ==> (runs[i].res == Hangs <==> Asks(runs[i].job))
    decreases |runs|
  {
    if runs != [] {
      var n := |runs| - 1;
      FrozenStaysFrozen(w, runs[..n]);
      FrozenRunFails(After(w, runs[..n]), runs[n]);
    }
  }

  /** The checkpoint callbacks a run asks for are followed by continue callbacks: it asks for
      none, the signal stops it before, or the application is frozen afterwards. */
  predicate Paired(w: World, job: Job) {
    job.noCallbacks || job.env.rise == 1 || (w.app.Running? && CanFreeze(OptionsOf(job), job.env))
  }

  function Unpaired(w: World, runs: seq<Record>): nat {
    if runs == [] then 0
    else
      var n := |runs| - 1;
      Unpaired(w, runs[..n]) + if Paired(After(w, runs[..n]), runs[n].job) then 0 else 1
  }

  lemma RunBalance(w: World, run: Record)
    requires Went(w, run)
    ensures run.after.chkptCalls - w.chkptCalls ==
            run.after.contCalls - w.contCalls + if Paired(w, run.job) then 0 else 1
  {
  }

  /** An application that was told to prepare for a checkpoint is told to go on, except by
      the runs that are not paired: each of them leaves it one call behind. */
  lemma {:induction false} CallbacksBalance(w: World, runs: seq<Record>)
    requires History(w, runs)
    ensures var now := After(w, runs);
            now.chkptCalls - w.chkptCalls == now.contCalls - w.contCalls + Unpaired(w, runs)
    decreases |runs|
  {
    if runs != [] {
      var n := |runs| - 1;
      CallbacksBalance(w, runs[..n]);
      RunBalance(After(w, runs[..n]), runs[n]);
    }
  }

  lemma {:induction false} NoneUnpaired(w: World, runs: seq<Record>)
    ensures Unpaired(w, runs) == 0 <==>
            forall i :: 0 <= i < |runs| ==> Paired(After(w, runs[..i]), runs[i].job)
    decreases |runs|
  {
    if runs != [] {
      var n := |runs| - 1;
      NoneUnpaired(w, runs[..n]);
      assert forall i :: 0 <= i < n ==> runs[..n][..i] == runs[..i];
      assert forall i :: 0 <= i < n ==> runs[..n][i] == runs[i];
    }
  }

  /** So the two are balanced exactly if every run is paired. */
  lemma BalancedExactly(w: World, runs: seq<Record>)
    requires History(w, runs)
    ensures var now := After(w, runs);
            now.chkptCalls - w.chkptCalls == now.contCalls - w.contCalls <==>
            forall i :: 0 <= i < |runs| ==> Paired(After(w, runs[..i]), runs[i].job)
  {
    CallbacksBalance(w, runs);
    NoneUnpaired(w, runs);
  }
}
