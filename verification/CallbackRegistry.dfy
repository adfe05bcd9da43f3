/** The callback registry of libs/libkrgcb/libkrgcb.c: three arrays of at most 40 entries
    with their counts, and the passes that run them. */
module CallbackRegistry {
  import opened CallbackProtocol
  import opened CallbackSchedules

  /** CR_CB_MAX_CALLBACKS */
  const MAX_CALLBACKS: nat := 40

  datatype Func = Null | Fn(id: int)

  /** struct cr_cb_callback_s */
  datatype Slot = Slot(func: Func, arg: int, thread: bool)

  const ZERO: Slot := Slot(Null, 0, false)

  /** CR_CB_ABORT ends the program, a lock that is never released holds up the caller for
      ever; otherwise there is a return value. */
  datatype Outcome = Aborted | Blocked | Returned(r: int)

  predicate Runs(e: Slot, context: Context) {
    e.func.Fn? && e.thread == (context == Thread)
  }

  /** What a call of a callback returns. */
  type Behaviour = (Func, int) -> int

  // ---------------------------------------------------------------- passes

  /** The indices a pass runs from `i` on, in order, up to the first failure. */
  function PassRuns(t: seq<Slot>, context: Context, f: Behaviour, i: nat): seq<nat>
    requires i <= |t|
    decreases |t| - i
  {
    if i == |t| then []
    else if !Runs(t[i], context) then PassRuns(t, context, f, i + 1)
    else if f(t[i].func, t[i].arg) != 0 then [i]
    else [i] + PassRuns(t, context, f, i + 1)
  }

  /** What it returns. */
  function PassReturns(t: seq<Slot>, context: Context, f: Behaviour, i: nat): int
    requires i <= |t|
    decreases |t| - i
  {
    if i == |t| then 0
    else if Runs(t[i], context) && f(t[i].func, t[i].arg) != 0 then f(t[i].func, t[i].arg)
    else PassReturns(t, context, f, i + 1)
  }

  lemma {:induction false} PassRunsEntries(t: seq<Slot>, context: Context, f: Behaviour, i: nat)
    requires i <= |t|
    ensures forall k :: k in PassRuns(t, context, f, i) ==> k < |t|
    decreases |t| - i
  {
    if i < |t| { PassRunsEntries(t, context, f, i + 1); }
  }

  /** The calls that running these entries amounts to. */
  function Calls(t: seq<Slot>, ran: seq<nat>): seq<(Func, int)> {
    seq(|ran|, k requires 0 <= k < |ran| =>
      if ran[k] < |t| then (t[ran[k]].func, t[ran[k]].arg) else (Null, 0))
  }

  /** A pass that returns 0 runs every entry of its context exactly once, and no other. */
  lemma {:induction false} GoodPassRunsAll(t: seq<Slot>, context: Context, f: Behaviour, i: nat, k: nat)
    requires i <= |t| && PassReturns(t, context, f, i) == 0
    ensures multiset(PassRuns(t, context, f, i))[k] == if i <= k < |t| && Runs(t[k], context) then 1 else 0
    ensures i <= k < |t| && Runs(t[k], context) ==> f(t[k].func, t[k].arg) == 0
    decreases |t| - i
  {
    if i < |t| {
      GoodPassRunsAll(t, context, f, i + 1, k);
      var rest := PassRuns(t, context, f, i + 1);
      if Runs(t[i], context) {
        assert multiset([i] + rest) == multiset([i]) + multiset(rest);
      }
    }
  }

  /** A pass that fails stops at the first entry of its context that does: everything of the
      context before it has run and returned 0, nothing behind it has run. */
  lemma {:induction false} BadPassStops(t: seq<Slot>, context: Context, f: Behaviour, i: nat) returns (stop: nat)
    requires i <= |t| && PassReturns(t, context, f, i) != 0
    ensures i <= stop < |t| && Runs(t[stop], context)
    ensures f(t[stop].func, t[stop].arg) == PassReturns(t, context, f, i)
    ensures forall k :: i <= k < stop && Runs(t[k], context) ==> f(t[k].func, t[k].arg) == 0
    ensures forall k: nat :: k in PassRuns(t, context, f, i) <==> i <= k <= stop && Runs(t[k], context)
    decreases |t| - i
  {
    if Runs(t[i], context) && f(t[i].func, t[i].arg) != 0 {
      stop := i;
    } else {
      stop := BadPassStops(t, context, f, i + 1);
    }
  }

  /** A signal pass and a thread pass that both return 0 share the non-null entries between
      them: each is run exactly once. */
  lemma TwoPassesRunEachOnce(t: seq<Slot>, f: Behaviour, k: nat)
    requires PassReturns(t, Signal, f, 0) == 0 && PassReturns(t, Thread, f, 0) == 0
    ensures multiset(PassRuns(t, Signal, f, 0) + PassRuns(t, Thread, f, 0))[k] ==
            if k < |t| && t[k].func.Fn? then 1 else 0
  {
    GoodPassRunsAll(t, Signal, f, 0, k);
    GoodPassRunsAll(t, Thread, f, 0, k);
    assert multiset(PassRuns(t, Signal, f, 0) + PassRuns(t, Thread, f, 0)) ==
           multiset(PassRuns(t, Signal, f, 0)) + multiset(PassRuns(t, Thread, f, 0));
  }

  // ---------------------------------------------------------------- the protocol's view

  /** What the calls of a callback can return. */
  type Range = (Func, int) -> Result

  predicate Within(r: int, result: Result) {
    (result.Zero? ==> r == 0) && (result.Nonzero? ==> r != 0)
  }

  /** A table whose callbacks are known, as the protocol sees it. */
  function AsCallbacks(t: seq<Slot>, can: Range): seq<Callback> {
    seq(|t|, i requires 0 <= i < |t| =>
      Callback(t[i].func.Fn?, if t[i].thread then Thread else Signal, can(t[i].func, t[i].arg)))
  }

  /** A pass of the registry fails if the protocol says that it must, and only if the protocol
      says that it may, whatever the callbacks return within their range. */
  lemma {:induction false} PassesAgree(t: seq<Slot>, context: Context, can: Range, f: Behaviour, i: nat)
    requires i <= |t| && forall fn, arg :: Within(f(fn, arg), can(fn, arg))
    ensures PassFails(AsCallbacks(t, can), context, i, |t|, false) ==> PassReturns(t, context, f, i) != 0
    ensures PassReturns(t, context, f, i) != 0 ==> PassFails(AsCallbacks(t, can), context, i, |t|, true)
    decreases |t| - i
  {
    FailsHereOrLater(AsCallbacks(t, can), context, i, |t|, false);
    FailsHereOrLater(AsCallbacks(t, can), context, i, |t|, true);
    if i < |t| { PassesAgree(t, context, can, f, i + 1); }
  }

  /** Callbacks that fail whenever they can, or only when they must. */
  function Extreme(can: Range, fails: bool): Behaviour {
    (fn, arg) => if can(fn, arg).Nonzero? || (can(fn, arg).Either? && fails) then 1 else 0
  }

  /** Both are attained, so the protocol allows no more passes than there are. */
  lemma {:induction false} PassesAttain(t: seq<Slot>, context: Context, can: Range, fails: bool, i: nat)
    requires i <= |t|
    ensures PassReturns(t, context, Extreme(can, fails), i) != 0 <==>
            PassFails(AsCallbacks(t, can), context, i, |t|, fails)
    decreases |t| - i
  {
    FailsHereOrLater(AsCallbacks(t, can), context, i, |t|, fails);
    if i < |t| { PassesAttain(t, context, can, fails, i + 1); }
  }

  // ---------------------------------------------------------------- the registry

  /** A call of one of the six registration functions. */
  datatype Registration = Registration(hook: Hook, func: Func, arg: int, context: Context)

  function SlotOf(c: Registration): Slot {
    Slot(c.func, c.arg, c.context == Thread)
  }

  predicate NoThreadSlot(t: seq<Slot>) {
    forall i :: 0 <= i < |t| ==> !t[i].thread
  }

  function Appended(t: seq<Slot>, e: Slot): seq<Slot> {
    if |t| < MAX_CALLBACKS then t + [e] else t
  }

  /** How far a sequence of calls gets. */
  datatype Status = Ended | Hanging | Going(ready: bool, running: bool, locked: bool)

  predicate Starts(running: bool, c: Registration) {
    c.context == Thread && !running
  }

  /** The flags after a registration that does not block. */
  function AfterAdd(ready: bool, running: bool, locked: bool, c: Registration, create: int): Status {
    if !ready || !Starts(running, c) || locked then Going(ready, running, locked)
    else Going(create == 0, create == 0, true)
  }

  /** `mutexLocked` is the mutex as it is while the worker waits for a signal. */
  class Registry {
    var ready: bool            // info is not NULL
    var threadRunning: bool
    var mutexLocked: bool
    const chkpt: array<Slot>
    const rst: array<Slot>
    const cnt: array<Slot>
    var nChkpt: nat
    var nRst: nat
    var nCnt: nat

    function Slots(hook: Hook): array<Slot> {
      match hook
      case Checkpoint => chkpt
      case Restart => rst
      case Continue => cnt
    }

    /** cb_count_read */
    function Count(hook: Hook): nat
      reads `nChkpt, `nRst, `nCnt
    {
      match hook
      case Checkpoint => nChkpt
      case Restart => nRst
      case Continue => nCnt
    }

    /** The registered entries of a hook. */
    ghost function Table(hook: Hook): seq<Slot>
      requires Slots(hook).Length >= Count(hook)
      reads `nChkpt, `nRst, `nCnt, chkpt, rst, cnt
    {
      Slots(hook)[..Count(hook)]
    }

    /** The arrays are separate, hold at most 40 entries each, and an entry for the worker
        thread implies that it was started. A worker that was started has locked the mutex. */
    ghost predicate Valid()
      reads this, chkpt, rst, cnt
    {
      && chkpt.Length == rst.Length == cnt.Length == MAX_CALLBACKS
      && chkpt != rst && rst != cnt && chkpt != cnt
      && (forall h: Hook :: Count(h) <= MAX_CALLBACKS)
      && (ready && !threadRunning ==> forall h: Hook :: NoThreadSlot(Table(h)))
      && (threadRunning ==> ready && mutexLocked)
    }

    /** The static state before any call. */
    constructor ()
      ensures Valid() && !ready && !threadRunning && !mutexLocked
      ensures fresh(chkpt) && fresh(rst) && fresh(cnt)
    {
      ready, threadRunning, mutexLocked := false, false, false;
      chkpt := new Slot[MAX_CALLBACKS](i => ZERO);
      rst := new Slot[MAX_CALLBACKS](i => ZERO);
      cnt := new Slot[MAX_CALLBACKS](i => ZERO);
      nChkpt, nRst, nCnt := 0, 0, 0;
    }

    /** free_info_memory */
    method Free()
      modifies this`ready, this`threadRunning
      ensures !ready && !threadRunning
    {
      ready, threadRunning := false, false;
    }

    /** cr_callback_init: new memory with nothing in it. `r` is what its steps come to. */
    method Init(r: int)
      requires Valid()
      modifies this`ready, this`threadRunning, this`nChkpt, this`nRst, this`nCnt
      ensures Valid() && forall h: Hook :: Table(h) == []
      ensures if r == 0 then ready && threadRunning == old(threadRunning) else !ready && !threadRunning
    {
      nChkpt, nRst, nCnt := 0, 0, 0;
      ready := true;
      if r != 0 {
        Free();
      }
    }

    /** cr_callback_exit */
    method Exit() returns (res: Outcome)
      requires Valid()
      modifies this`ready, this`threadRunning
      ensures Valid() && !ready && !threadRunning
      ensures res == if old(ready) then Returned(0) else Aborted
    {
      if !ready {
        return Aborted;
      }
      Free();
      res := Returned(0);
    }

    /** cb_count_write */
    method WriteCount(hook: Hook, value: nat)
      modifies this`nChkpt, this`nRst, this`nCnt
      ensures Count(hook) == value && forall h: Hook :: h != hook ==> Count(h) == old(Count(h))
    {
      match hook
      case Checkpoint => nChkpt := value;
      case Restart => nRst := value;
      case Continue => nCnt := value;
    }

    /** initialize_cb_thread: `create` is the result of pthread_create. The mutex stays
        locked if that fails. */
    method StartThread(create: int) returns (res: Outcome)
      requires Valid() && ready && !threadRunning
      modifies this`ready, this`threadRunning, this`mutexLocked
      ensures Valid() && mutexLocked
      ensures if old(mutexLocked) then res == Blocked && ready && !threadRunning
              else res == Returned(create) && ready == threadRunning == (create == 0)
    {
      if mutexLocked {
        return Blocked;
      }
      mutexLocked := true;
      threadRunning := true;
      if create != 0 {
        Free();
      }
      res := Returned(create);
    }

    /** The storing part of register_callback. */
    method Store(hook: Hook, e: Slot) returns (r: int)
      requires Valid() && ready && (e.thread ==> threadRunning)
      modifies this`nChkpt, this`nRst, this`nCnt, Slots(hook)
      ensures Valid()
      ensures forall h: Hook :: h != hook ==> Table(h) == old(Table(h))
      ensures if |old(Table(hook))| < MAX_CALLBACKS then r == 0 && Table(hook) == old(Table(hook)) + [e]
              else r == -1 && Table(hook) == old(Table(hook))
    {
      var idx := Count(hook);
      var slots := Slots(hook);
      if idx < MAX_CALLBACKS {
        slots[idx] := e;
        WriteCount(hook, idx + 1);
        assert forall h: Hook :: h == hook || Count(h) == old(Count(h));
        assert Table(hook) == old(Table(hook)) + [e];
        assert forall h: Hook :: h != hook ==> Table(h) == old(Table(h));
        r := 0;
      } else {
        r := -1;
      }
    }

    /** register_callback */
    method Register(c: Registration, create: int) returns (res: Outcome)
      requires Valid()
      modifies this`ready, this`threadRunning, this`mutexLocked, this`nChkpt, this`nRst, this`nCnt, Slots(c.hook)
      ensures Valid()
      ensures res == Aborted <==> !old(ready)
      ensures res == Blocked <==> old(ready) && c.context == Thread && !old(threadRunning) && old(mutexLocked)
      ensures Going(ready, threadRunning, mutexLocked) ==
              AfterAdd(old(ready), old(threadRunning), old(mutexLocked), c, create)
      ensures res.Returned? && !ready ==> res == Returned(create)
      ensures res.Returned? && ready ==>
                && (forall h: Hook :: h != c.hook ==> Table(h) == old(Table(h)))
                && Table(c.hook) == old(Table(c.hook)) +
                                    (if |old(Table(c.hook))| < MAX_CALLBACKS
                                     then [Slot(c.func, c.arg, c.context == Thread)] else [])
                && res == Returned(if |old(Table(c.hook))| < MAX_CALLBACKS then 0 else -1)
    {
      if !ready {
        return Aborted;
      }
      if c.context == Thread && !threadRunning {
        res := StartThread(create);
        if res != Returned(0) {
          return;
        }
      }
      var r := Store(c.hook, SlotOf(c));
      res := Returned(r);
    }

    /** run_callbacks for a hook: the entries it has run, and the calls it has made. */
    method RunCallbacks(hook: Hook, context: Context, f: Behaviour)
      returns (res: Outcome, ran: seq<nat>, called: seq<(Func, int)>)
      requires Valid()
      ensures res == Aborted <==> !ready
      ensures ready ==>
                && res == Returned(PassReturns(Table(hook), context, f, 0))
                && ran == PassRuns(Table(hook), context, f, 0)
                && called == Calls(Table(hook), ran)
    {
      ran, called := [], [];
      if !ready {
        return Aborted, ran, called;
      }
      ghost var t := Table(hook);
      var slots := Slots(hook);
      var idx := 0;
      while idx < Count(hook)
        invariant idx <= |t|
        invariant ran + PassRuns(t, context, f, idx) == PassRuns(t, context, f, 0)
        invariant PassReturns(t, context, f, idx) == PassReturns(t, context, f, 0)
        invariant (forall k :: k in ran ==> k < |t|) && called == Calls(t, ran)
      {
        var e := slots[idx];
        if Runs(e, context) {
          var r := f(e.func, e.arg);
          ran, called := ran + [idx], called + [(e.func, e.arg)];
          if r != 0 {
            return Returned(r), ran, called;
          }
        }
        idx := idx + 1;
      }
      res := Returned(0);
    }
  }

  // ---------------------------------------------------------------- any registrations

  /** What a hook holds after a sequence of registrations. */
  function Registered(calls: seq<Registration>, hook: Hook): seq<Slot> {
    if calls == [] then []
    else
      var before, c := Registered(calls[..|calls| - 1], hook), calls[|calls| - 1];
      if c.hook == hook then Appended(before, SlotOf(c)) else before
  }

  /** All registrations for a hook, in order. */
  function AllFor(calls: seq<Registration>, hook: Hook): seq<Slot> {
    if calls == [] then []
    else
      var before, c := AllFor(calls[..|calls| - 1], hook), calls[|calls| - 1];
      if c.hook == hook then before + [SlotOf(c)] else before
  }

  /** How many registrations there are for a hook. */
  function HowMany(calls: seq<Registration>, hook: Hook): nat {
    if calls == [] then 0
    else HowMany(calls[..|calls| - 1], hook) + if calls[|calls| - 1].hook == hook then 1 else 0
  }

  /** The calls that the registrations ask for in a pass: every function that is not null, for
      this hook and this context, with its argument, as long as there is room. */
  function CallsOf(calls: seq<Registration>, hook: Hook, context: Context): seq<(Func, int)> {
    if calls == [] then []
    else
      var front, c := calls[..|calls| - 1], calls[|calls| - 1];
      CallsOf(front, hook, context) +
      if c.hook == hook && c.context == context && c.func.Fn? && HowMany(front, hook) < MAX_CALLBACKS
      then [(c.func, c.arg)] else []
  }

  /** A registration adds exactly its own call to its own pass, if there is room for it and
      its function is not null, and changes no other pass. */
  lemma OneMoreCall(calls: seq<Registration>, c: Registration, hook: Hook, context: Context)
    ensures CallsOf(calls + [c], hook, context) ==
            CallsOf(calls, hook, context) +
            if c.hook == hook && c.context == context && c.func.Fn? && HowMany(calls, hook) < MAX_CALLBACKS
            then [(c.func, c.arg)] else []
  {
    assert (calls + [c])[..|calls|] == calls;
  }

  ghost predicate NothingFails(f: Behaviour) {
    forall fn: Func, arg: int :: f(fn, arg) == 0
  }

  /** One more entry is one more to run in its context, and none in the other. */
  lemma {:induction false} PassRunsAppend(t: seq<Slot>, e: Slot, context: Context, f: Behaviour, i: nat)
    requires i <= |t| && NothingFails(f)
    ensures PassRuns(t + [e], context, f, i) ==
            PassRuns(t, context, f, i) + if Runs(e, context) then [|t|] else []
    decreases |t| - i
  {
    if i < |t| {
      PassRunsAppend(t, e, context, f, i + 1);
      assert (t + [e])[i] == t[i];
    } else {
      assert PassRuns(t + [e], context, f, |t| + 1) == [];
      assert f(e.func, e.arg) == 0;
    }
  }

  lemma CallsAppend(t: seq<Slot>, e: Slot, context: Context, f: Behaviour)
    requires NothingFails(f)
    ensures Calls(t + [e], PassRuns(t + [e], context, f, 0)) ==
            Calls(t, PassRuns(t, context, f, 0)) + if Runs(e, context) then [(e.func, e.arg)] else []
  {
    PassRunsEntries(t, context, f, 0);
    PassRunsAppend(t, e, context, f, 0);
    var runs := PassRuns(t, context, f, 0);
    forall k | 0 <= k < |runs| ensures Calls(t + [e], runs)[k] == Calls(t, runs)[k] {
      assert runs[k] in runs;
    }
  }

  lemma {:induction false} RegisteredLength(calls: seq<Registration>, hook: Hook)
    ensures var n := HowMany(calls, hook); |Registered(calls, hook)| == if n < MAX_CALLBACKS then n else MAX_CALLBACKS
    decreases |calls|
  {
    if calls != [] { RegisteredLength(calls[..|calls| - 1], hook); }
  }

  /** A pass in which nothing fails calls exactly what the registrations ask for, in order. */
  lemma {:induction false} GoodPassCalls(calls: seq<Registration>, hook: Hook, context: Context, f: Behaviour)
    requires NothingFails(f)
    ensures var t := Registered(calls, hook);
            Calls(t, PassRuns(t, context, f, 0)) == CallsOf(calls, hook, context)
    decreases |calls|
  {
    if calls != [] {
      var front, c := calls[..|calls| - 1], calls[|calls| - 1];
      GoodPassCalls(front, hook, context, f);
      RegisteredLength(front, hook);
      CallsAppend(Registered(front, hook), SlotOf(c), context, f);
    }
  }

  /** Each hook holds its first 40 registrations, in order, whatever was registered for the
      other hooks in between. */
  lemma {:induction false} FirstFortyInOrder(calls: seq<Registration>, hook: Hook)
    ensures var all := AllFor(calls, hook);
            Registered(calls, hook) == if |all| <= 40 then all else all[..40]
    decreases |calls|
  {
    if calls != [] { FirstFortyInOrder(calls[..|calls| - 1], hook); }
  }

  // ---------------------------------------------------------------- any calls

  /** A call of the library and what the system does in it: `r` is what the steps of
      cr_callback_init come to, `create` the result of pthread_create. */
  datatype Call = Init(r: int) | Exit | Add(c: Registration, create: int)

  function Next(st: Status, call: Call): Status {
    match st
    case Ended => st
    case Hanging => st
    case Going(ready, running, locked) =>
      match call
      case Init(r) => if r == 0 then Going(true, running, locked) else Going(false, false, locked)
      case Exit => if ready then Going(false, false, locked) else Ended
      case Add(c, create) =>
        if !ready then Ended
        else if Starts(running, c) && locked then Hanging
        else AfterAdd(ready, running, locked, c, create)
  }

  function StatusOf(calls: seq<Call>): Status {
    if calls == [] then Going(false, false, false)
    else Next(StatusOf(calls[..|calls| - 1]), calls[|calls| - 1])
  }

  /** The registrations since the last initialisation. */
  function Since(calls: seq<Call>): seq<Registration> {
    if calls == [] then []
    else
      var before := Since(calls[..|calls| - 1]);
      match calls[|calls| - 1]
      case Init(_) => []
      case Exit => before
      case Add(c, _) => before + [c]
  }

  predicate AddsThread(call: Call) {
    call.Add? && call.c.context == Thread
  }

  predicate StopsThread(call: Call) {
    call.Exit? || (call.Init? && call.r != 0)
  }

  /** Call `j` is the first one that starts a worker. */
  ghost predicate FirstStart(calls: seq<Call>, j: int) {
    0 <= j < |calls| && AddsThread(calls[j]) && forall i :: 0 <= i < j ==> !AddsThread(calls[i])
  }

  /** The worker did not start, or was told to stop. */
  ghost predicate WorkerLost(calls: seq<Call>, j: int)
    requires 0 <= j < |calls| && calls[j].Add?
  {
    calls[j].create != 0 || exists k :: j < k < |calls| && StopsThread(calls[k])
  }

  lemma FirstStartLater(calls: seq<Call>, call: Call, j: int)
    ensures FirstStart(calls + [call], j) <==>
            FirstStart(calls, j) ||
            (j == |calls| && AddsThread(call) && forall i :: 0 <= i < j ==> !AddsThread(calls[i]))
  {
    var all := calls + [call];
    assert forall i :: 0 <= i < |calls| ==> all[i] == calls[i];
  }

  lemma WorkerLostLater(calls: seq<Call>, call: Call, j: int)
    requires 0 <= j < |calls| && calls[j].Add?
    ensures WorkerLost(calls + [call], j) <==> WorkerLost(calls, j) || StopsThread(call)
  {
    var all := calls + [call];
    assert forall i :: 0 <= i < |calls| ==> all[i] == calls[i];
    assert all[|calls|] == call;
    if StopsThread(call) {
      assert j < |calls| < |all| && StopsThread(all[|calls|]);
    }
    if exists k :: j < k < |calls| && StopsThread(calls[k]) {
      var k :| j < k < |calls| && StopsThread(calls[k]);
      assert StopsThread(all[k]);
    }
  }

  lemma {:induction false} FirstStartExists(calls: seq<Call>, n: nat)
    requires n < |calls| && AddsThread(calls[n])
    ensures exists j :: j <= n && FirstStart(calls, j)
  {
    if exists i :: 0 <= i < n && AddsThread(calls[i]) {
      var i :| 0 <= i < n && AddsThread(calls[i]);
      FirstStartExists(calls, i);
    } else {
      assert FirstStart(calls, n);
    }
  }

  /** What the flags say of the calls made: the mutex is locked since the first start of a
      worker, and the worker runs unless that failed or the library was left since. */
  lemma {:induction false} FlagsMean(calls: seq<Call>)
    requires StatusOf(calls).Going?
    ensures StatusOf(calls).locked <==> exists j :: FirstStart(calls, j)
    ensures StatusOf(calls).running <==> exists j :: FirstStart(calls, j) && !WorkerLost(calls, j)
    ensures StatusOf(calls).running ==> StatusOf(calls).ready && StatusOf(calls).locked
    decreases |calls|
  {
    if calls != [] {
      var front, call := calls[..|calls| - 1], calls[|calls| - 1];
      assert calls == front + [call];
      FlagsMean(front);
      forall j: int
        ensures FirstStart(calls, j) <==>
                FirstStart(front, j) ||
                (j == |front| && AddsThread(call) && forall i :: 0 <= i < j ==> !AddsThread(front[i]))
      {
        FirstStartLater(front, call, j);
      }
      if j :| FirstStart(front, j) {
        WorkerLostLater(front, call, j);
        assert FirstStart(calls, j);
      } else {
        assert forall n: nat :: n < |front| ==> !AddsThread(front[n]) by {
          forall n: nat | n < |front| && AddsThread(front[n]) ensures false { FirstStartExists(front, n); }
        }
        assert FirstStart(calls, |front|) <==> AddsThread(call);
      }
    }
  }

  /** A thread registration blocks for ever exactly if a worker was started before and did
      not start or was told to stop since: nobody unlocks the mutex for the second one. */
  lemma BlocksExactly(calls: seq<Call>, c: Registration, create: int)
    requires StatusOf(calls).Going? && StatusOf(calls).ready && c.context == Thread
    ensures StatusOf(calls + [Add(c, create)]) == Hanging <==>
            exists j :: FirstStart(calls, j) && WorkerLost(calls, j)
  {
    FlagsMean(calls);
    assert (calls + [Add(c, create)])[..|calls|] == calls;
    forall i: int, j: int | FirstStart(calls, i) && FirstStart(calls, j)
      ensures i == j
    {
    }
  }

  /** Carrying out one call. */
  method Do(reg: Registry, call: Call, ghost before: seq<Call>) returns (st: Status)
    requires reg.Valid() && StatusOf(before) == Going(reg.ready, reg.threadRunning, reg.mutexLocked)
    requires reg.ready ==> forall h: Hook :: reg.Table(h) == Registered(Since(before), h)
    modifies reg, reg.chkpt, reg.rst, reg.cnt
    ensures reg.Valid() && st == StatusOf(before + [call])
    ensures st.Going? ==> st == Going(reg.ready, reg.threadRunning, reg.mutexLocked)
    ensures st.Going? && st.ready ==> forall h: Hook :: reg.Table(h) == Registered(Since(before + [call]), h)
  {
    ghost var after := before + [call];
    assert after[..|before|] == before;
    var res := Returned(0);
    match call {
      case Init(r) => reg.Init(r);
      case Exit => res := reg.Exit();
      case Add(c, create) =>
        res := reg.Register(c, create);
        ghost var since := Since(before) + [c];
        assert since[..|since| - 1] == Since(before);
    }
    st := match res
      case Aborted => Ended
      case Blocked => Hanging
      case Returned(_) => Going(reg.ready, reg.threadRunning, reg.mutexLocked);
  }

  /** Carrying out any sequence of calls, as far as it gets. */
  method Perform(calls: seq<Call>) returns (reg: Registry, st: Status)
    ensures fresh(reg) && reg.Valid() && st == StatusOf(calls)
    ensures st.Going? ==> st == Going(reg.ready, reg.threadRunning, reg.mutexLocked)
    ensures st.Going? && st.ready ==> forall h: Hook :: reg.Table(h) == Registered(Since(calls), h)
  {
    reg := new Registry();
    st := Going(false, false, false);
    for n := 0 to |calls|
      invariant fresh(reg) && fresh(reg.chkpt) && fresh(reg.rst) && fresh(reg.cnt)
      invariant reg.Valid() && st == StatusOf(calls[..n])
      invariant st.Going? ==> st == Going(reg.ready, reg.threadRunning, reg.mutexLocked)
      invariant st.Going? && st.ready ==> forall h: Hook :: reg.Table(h) == Registered(Since(calls[..n]), h)
    {
      assert calls[..n + 1][..n] == calls[..n];
      if st.Going? {
        st := Do(reg, calls[n], calls[..n]);
      }
    }
    assert calls[..|calls|] == calls;
  }

  /** Any sequence of calls and then a pass in which nothing fails: it calls what the
      registrations since the last initialisation ask for. */
  method PerformAndRun(calls: seq<Call>, hook: Hook, context: Context, f: Behaviour)
    returns (st: Status, called: seq<(Func, int)>)
    requires NothingFails(f)
    ensures st == StatusOf(calls)
    ensures called == if st.Going? && st.ready then CallsOf(Since(calls), hook, context) else []
  {
    var reg;
    reg, st := Perform(calls);
    called := [];
    if st.Going? && st.ready {
      var _, _, made := reg.RunCallbacks(hook, context, f);
      called := made;
      GoodPassCalls(Since(calls), hook, context, f);
    }
  }
}
