/** The condition-variable barrier of tests/include/smp-tools.h as a system of
    interleaved steps.

    Every thread owns a program counter. One step of one thread is one access to the
    shared fields `mylock`, `count` and `cond`; a schedule is any sequence of thread
    numbers, and picking a thread that is blocked changes nothing. So a statement about
    all schedules is a statement about all interleavings and all their prefixes.

    `n` is the `nr_cpu` field, and the number of threads is the length of `pc`: the two
    are kept apart so that the theorems can say what happens when they differ. */
module Barrier {

  /** What PTHREAD_BARRIER_SERIAL_THREAD is defined to. */
  const SERIAL_THREAD: int := 1

  /** Where a thread is. The comment gives the line about to be executed. */
  datatype Pc =
    | Outside             // not inside pthread_barrier_wait
    | Locking             // 47
    | Testing             // 49, holds the mutex
    | Counting            // 51, holds the mutex
    | GoingToSleep        // 52, holds the mutex
    | Sleeping            // inside pthread_cond_wait, not signalled
    | Woken               // inside pthread_cond_wait, signalled, wants the mutex back
    | Unlocking           // 55, holds the mutex
    | LastUnlocking       // 59, holds the mutex
    | LastResetting       // 60
    | LastBroadcasting    // 62
    | Returning(r: int)   // 65

  datatype Holder = Free | HeldBy(thread: nat)

  /** The last three fields are history: how often each thread has called
      pthread_barrier_wait, what it has returned so far, and which thread has broadcast
      in each round. No step reads them. */
  datatype State = State(
    n: int,
    mutex: Holder,
    count: int,
    pc: seq<Pc>,
    entered: seq<nat>,
    returned: seq<seq<int>>,
    broadcasters: seq<nat>)

  function Init(threads: nat, n: int): State {
    State(n, Free, 0, seq(threads, i => Outside), seq(threads, i => 0), seq(threads, i => []), [])
  }

  function Wake(p: Pc): Pc {
    if p == Sleeping then Woken else p
  }

  function WakeAll(pc: seq<Pc>): (r: seq<Pc>)
    ensures |r| == |pc|
    ensures forall t :: 0 <= t < |pc| ==> r[t] == Wake(pc[t])
  {
    seq(|pc|, t requires 0 <= t < |pc| => Wake(pc[t]))
  }

  predicate Shaped(s: State) {
    |s.entered| == |s.pc| && |s.returned| == |s.pc|
  }

  /** One step of thread `t`. */
  function Step(s: State, t: nat): (r: State)
    requires Shaped(s)
    ensures Shaped(r) && |r.pc| == |s.pc| && r.n == s.n
  {
    if t >= |s.pc| then s else
    match s.pc[t]
    case Outside => s.(pc := s.pc[t := Locking], entered := s.entered[t := s.entered[t] + 1])
    case Locking => if s.mutex.Free? then s.(mutex := HeldBy(t), pc := s.pc[t := Testing]) else s
    case Testing => s.(pc := s.pc[t := if s.count < s.n - 1 then Counting else LastUnlocking])
    case Counting => s.(count := s.count + 1, pc := s.pc[t := GoingToSleep])
    case GoingToSleep => s.(mutex := Free, pc := s.pc[t := Sleeping])
    case Sleeping => s
    case Woken => if s.mutex.Free? then s.(mutex := HeldBy(t), pc := s.pc[t := Unlocking]) else s
    case Unlocking => s.(mutex := Free, pc := s.pc[t := Returning(0)])
    case LastUnlocking => s.(mutex := Free, pc := s.pc[t := LastResetting])
    case LastResetting => s.(count := 0, pc := s.pc[t := LastBroadcasting])
    case LastBroadcasting =>
      s.(pc := WakeAll(s.pc)[t := Returning(SERIAL_THREAD)], broadcasters := s.broadcasters + [t])
    case Returning(r) => s.(pc := s.pc[t := Outside], returned := s.returned[t := s.returned[t] + [r]])
  }

  function Run(s: State, schedule: seq<nat>): (r: State)
    requires Shaped(s)
    ensures Shaped(r) && |r.pc| == |s.pc| && r.n == s.n
    decreases |schedule|
  {
    if schedule == [] then s
    else Step(Run(s, schedule[..|schedule| - 1]), schedule[|schedule| - 1])
  }

  // ---------------------------------------------------------------- what is promised

  /** No thread has finished its g-th wait before every thread has begun its g-th wait. */
  ghost predicate NobodyLeavesEarly(s: State)
    requires Shaped(s)
  {
    forall t, u :: 0 <= t < |s.pc| && 0 <= u < |s.pc| ==> |s.returned[t]| <= s.entered[u]
  }

  ghost predicate IsSerial(s: State, t: nat, round: nat)
    requires Shaped(s)
  {
    t < |s.pc| && round < |s.returned[t]| && s.returned[t][round] == SERIAL_THREAD
  }

  /** At most one thread returns PTHREAD_BARRIER_SERIAL_THREAD from a given round. */
  ghost predicate AtMostOneSerial(s: State)
    requires Shaped(s)
  {
    forall round: nat, t: nat, u: nat :: IsSerial(s, t, round) && IsSerial(s, u, round) ==> t == u
  }

  ghost predicate AllReturned(s: State, round: nat)
    requires Shaped(s)
  {
    forall t :: 0 <= t < |s.pc| ==> round < |s.returned[t]|
  }

  /** A round that everybody has left had a serial thread, and all others returned 0. */
  ghost predicate EveryRoundHasASerial(s: State)
    requires Shaped(s)
  {
    forall round: nat :: |s.pc| > 0 && AllReturned(s, round) ==>
      exists t: nat :: IsSerial(s, t, round) &&
                       forall u :: 0 <= u < |s.pc| && u != t ==> s.returned[u][round] == 0
  }

  ghost predicate Safe(s: State)
    requires Shaped(s)
  {
    NobodyLeavesEarly(s) && AtMostOneSerial(s) && EveryRoundHasASerial(s)
  }

  // ---------------------------------------------------------------- the invariant

  /** A thread count below one behaves like one: the test on line 49 fails at once. */
  function Quorum(n: int): nat {
    if n < 1 then 1 else n
  }

  predicate HoldsMutex(p: Pc) {
    p.Testing? || p.Counting? || p.GoingToSleep? || p.Unlocking? || p.LastUnlocking?
  }

  predicate IsLast(p: Pc) {
    p.LastUnlocking? || p.LastResetting? || p.LastBroadcasting?
  }

  predicate IsFinishing(p: Pc) {
    p.Woken? || p.Unlocking? || p.Returning?
  }

  /** The thread has added itself to `count` in the current round. */
  predicate IsCounted(p: Pc) {
    p.GoingToSleep? || p.Sleeping?
  }

  function CountedIn(pc: seq<Pc>): nat {
    if pc == [] then 0
    else CountedIn(pc[..|pc| - 1]) + if IsCounted(pc[|pc| - 1]) then 1 else 0
  }

  /** The number of broadcasts so far is the number of completed rounds, and where a thread
      stands decides how many waits it has begun and finished. */
  ghost predicate InRound(s: State, t: nat)
    requires Shaped(s) && t < |s.pc|
  {
    var done := |s.broadcasters|;
    if IsFinishing(s.pc[t]) then s.entered[t] == done && |s.returned[t]| + 1 == done
    else if s.pc[t].Outside? then s.entered[t] == done && |s.returned[t]| == done
    else s.entered[t] == done + 1 && |s.returned[t]| == done
  }

  /** The values returned, and the value about to be returned, follow the broadcasts. */
  ghost predicate ReturnsFollow(s: State, t: nat)
    requires Shaped(s) && t < |s.pc| && InRound(s, t)
  {
    && (forall g :: 0 <= g < |s.returned[t]| ==>
          s.returned[t][g] == if s.broadcasters[g] == t then SERIAL_THREAD else 0)
    && (s.pc[t].Returning? ==>
          s.pc[t].r == if s.broadcasters[|s.broadcasters| - 1] == t then SERIAL_THREAD else 0)
    && ((s.pc[t].Woken? || s.pc[t].Unlocking?) ==> s.broadcasters[|s.broadcasters| - 1] != t)
  }

  ghost predicate MutexIsRight(s: State) {
    && (forall t :: 0 <= t < |s.pc| && HoldsMutex(s.pc[t]) ==> s.mutex == HeldBy(t))
    && (s.mutex.HeldBy? ==> s.mutex.thread < |s.pc| && HoldsMutex(s.pc[s.mutex.thread]))
  }

  /** The unlocked reset has happened and its broadcast has not. */
  ghost predicate Resetted(s: State) {
    exists t :: 0 <= t < |s.pc| && s.pc[t].LastBroadcasting?
  }

  /** `count` is the number of threads counted in the current round, except between the
      reset and the broadcast; there it is 0. */
  ghost predicate CountIsRight(s: State) {
    && s.count == (if Resetted(s) then 0 else CountedIn(s.pc))
    && s.count < Quorum(s.n)
    && (forall t :: 0 <= t < |s.pc| && s.pc[t].Counting? ==> s.count < Quorum(s.n) - 1)
  }

  /** While a last arriver is at work, everybody else is asleep. */
  ghost predicate LastIsAlone(s: State) {
    forall t, u :: 0 <= t < |s.pc| && 0 <= u < |s.pc| && t != u && IsLast(s.pc[t]) ==> s.pc[u].Sleeping?
  }

  ghost predicate LastMeansFull(s: State) {
    forall t :: 0 <= t < |s.pc| && IsLast(s.pc[t]) ==> |s.pc| == Quorum(s.n)
  }

  ghost predicate Inv(s: State) {
    && Shaped(s)
    && |s.pc| <= Quorum(s.n)
    && MutexIsRight(s)
    && CountIsRight(s)
    && LastIsAlone(s)
    && LastMeansFull(s)
    && (forall g :: 0 <= g < |s.broadcasters| ==> s.broadcasters[g] < |s.pc|)
    && (forall t :: 0 <= t < |s.pc| ==> InRound(s, t) && ReturnsFollow(s, t))
  }

  // ---------------------------------------------------------------- counting lemmas

  lemma {:induction false} CountedAtMostAll(pc: seq<Pc>)
    ensures CountedIn(pc) <= |pc|
  {
    if pc != [] { CountedAtMostAll(pc[..|pc| - 1]); }
  }

  lemma {:induction false} CountedBound(pc: seq<Pc>, t: nat)
    requires t < |pc| && !IsCounted(pc[t])
    ensures CountedIn(pc) <= |pc| - 1
  {
    var front := pc[..|pc| - 1];
    if t == |pc| - 1 {
      CountedAtMostAll(front);
    } else {
      CountedBound(front, t);
    }
  }

  /** Pigeonhole: if all but one are counted and `t` is not, everybody else is. */
  lemma {:induction false} AllOthersCounted(pc: seq<Pc>, t: nat, u: nat)
    requires t < |pc| && u < |pc| && t != u && !IsCounted(pc[t]) && CountedIn(pc) >= |pc| - 1
    ensures IsCounted(pc[u])
  {
    var front := pc[..|pc| - 1];
    if t == |pc| - 1 {
      if !IsCounted(pc[u]) { CountedBound(front, u); }
    } else if u == |pc| - 1 {
      CountedBound(front, t);
    } else {
      CountedBound(front, t);
      AllOthersCounted(front, t, u);
    }
  }

  lemma {:induction false} CountedUpdate(pc: seq<Pc>, t: nat, p: Pc)
    requires t < |pc|
    ensures CountedIn(pc[t := p]) ==
            CountedIn(pc) - (if IsCounted(pc[t]) then 1 else 0) + (if IsCounted(p) then 1 else 0)
  {
    var front := pc[..|pc| - 1];
    if t == |pc| - 1 {
      assert pc[t := p][..|pc| - 1] == front;
    } else {
      CountedUpdate(front, t, p);
      assert pc[t := p][..|pc| - 1] == front[t := p];
    }
  }

  lemma {:induction false} NobodyCounted(pc: seq<Pc>)
    requires forall t :: 0 <= t < |pc| ==> !IsCounted(pc[t])
    ensures CountedIn(pc) == 0
  {
    if pc != [] { NobodyCounted(pc[..|pc| - 1]); }
  }

  // ---------------------------------------------------------------- preservation

  lemma InitInv(threads: nat, n: int)
    requires threads <= Quorum(n)
    ensures Inv(Init(threads, n))
  {
    NobodyCounted(Init(threads, n).pc);
  }

  /** Every step but the broadcast moves one thread and leaves the others where they are. */
  lemma StepMovesOne(s: State, t: nat)
    requires Shaped(s) && t < |s.pc| && !s.pc[t].LastBroadcasting?
    ensures var e := Step(s, t); e.pc == s.pc[t := e.pc[t]] && e.broadcasters == s.broadcasters
    ensures var e := Step(s, t);
            forall u :: 0 <= u < |s.pc| && u != t ==> e.entered[u] == s.entered[u] && e.returned[u] == s.returned[u]
  {
    match s.pc[t] {
      case Outside =>
      case Locking =>
      case Testing =>
      case Counting =>
      case GoingToSleep =>
      case Sleeping =>
      case Woken =>
      case Unlocking =>
      case LastUnlocking =>
      case LastResetting =>
      case Returning(_) =>
    }
  }

  predicate Acquires(s: State, t: nat)
    requires t < |s.pc|
  {
    (s.pc[t].Locking? || s.pc[t].Woken?) && s.mutex.Free?
  }

  predicate Releases(s: State, t: nat)
    requires t < |s.pc|
  {
    s.pc[t].GoingToSleep? || s.pc[t].Unlocking? || s.pc[t].LastUnlocking?
  }

  /** What a step does to the mutex goes with what it does to the thread that moves. */
  lemma MutexFollowsMover(s: State, t: nat)
    requires Shaped(s) && t < |s.pc|
    ensures var e := Step(s, t);
            && (HoldsMutex(e.pc[t]) <==> if Acquires(s, t) then true else HoldsMutex(s.pc[t]) && !Releases(s, t))
            && e.mutex == if Acquires(s, t) then HeldBy(t) else if Releases(s, t) then Free else s.mutex
  {
  }

  lemma StepKeepsMutex(s: State, t: nat)
    requires Inv(s) && t < |s.pc|
    ensures MutexIsRight(Step(s, t))
  {
    MutexFollowsMover(s, t);
    if s.pc[t].LastBroadcasting? {
      assert forall u :: 0 <= u < |s.pc| && u != t ==> HoldsMutex(Step(s, t).pc[u]) == HoldsMutex(s.pc[u]);
    } else {
      StepMovesOne(s, t);
    }
  }

  lemma NobodyElseResetted(s: State, t: nat)
    requires LastIsAlone(s) && t < |s.pc| && !s.pc[t].Sleeping?
    ensures Resetted(s) <==> s.pc[t].LastBroadcasting?
  {
    assert forall u :: 0 <= u < |s.pc| && u != t && s.pc[u].LastBroadcasting? ==> IsLast(s.pc[u]);
  }

  lemma BroadcastKeepsCount(s: State, t: nat)
    requires Inv(s) && t < |s.pc| && s.pc[t].LastBroadcasting?
    ensures CountIsRight(Step(s, t))
  {
    var s' := Step(s, t);
    assert IsLast(s.pc[t]);
    assert forall u :: 0 <= u < |s.pc| && u != t ==> s'.pc[u].Woken?;
    NobodyCounted(s'.pc);
  }

  lemma CountingKeepsCount(s: State, t: nat)
    requires Inv(s) && t < |s.pc| && s.pc[t].Counting?
    ensures CountIsRight(Step(s, t))
  {
    var e := Step(s, t);
    assert HoldsMutex(s.pc[t]);
    NobodyElseResetted(s, t);
    CountedUpdate(s.pc, t, GoingToSleep);
    assert !Resetted(e);
    forall u | 0 <= u < |e.pc| ensures !e.pc[u].Counting? {
      assert u != t ==> HoldsMutex(e.pc[u]) == HoldsMutex(s.pc[u]);
    }
  }

  lemma ResettingKeepsCount(s: State, t: nat)
    requires Inv(s) && t < |s.pc| && s.pc[t].LastResetting?
    ensures CountIsRight(Step(s, t))
  {
    assert IsLast(s.pc[t]);
    assert Step(s, t).pc[t].LastBroadcasting?;
  }

  lemma OtherStepLeavesCount(s: State, t: nat)
    requires Shaped(s) && t < |s.pc|
    requires !s.pc[t].LastBroadcasting? && !s.pc[t].Counting? && !s.pc[t].LastResetting?
    ensures var e := Step(s, t);
            && e.count == s.count && IsCounted(e.pc[t]) == IsCounted(s.pc[t])
            && !e.pc[t].LastBroadcasting? && (e.pc[t].Counting? ==> s.count < s.n - 1)
  {
  }

  /** All other steps leave `count` and the set of counted threads alone. */
  lemma OtherStepKeepsCount(s: State, t: nat)
    requires Inv(s) && t < |s.pc| && Step(s, t) != s
    requires !s.pc[t].LastBroadcasting? && !s.pc[t].Counting? && !s.pc[t].LastResetting?
    ensures CountIsRight(Step(s, t))
  {
    var e := Step(s, t);
    StepMovesOne(s, t);
    NobodyElseResetted(s, t);
    CountedUpdate(s.pc, t, e.pc[t]);
    OtherStepLeavesCount(s, t);
  }

  lemma StepKeepsCount(s: State, t: nat)
    requires Inv(s) && t < |s.pc|
    ensures CountIsRight(Step(s, t))
  {
    if s.pc[t].LastBroadcasting? {
      BroadcastKeepsCount(s, t);
    } else if s.pc[t].Counting? {
      CountingKeepsCount(s, t);
    } else if s.pc[t].LastResetting? {
      ResettingKeepsCount(s, t);
    } else if Step(s, t) != s {
      OtherStepKeepsCount(s, t);
    }
  }

  /** Whoever finds `count` full is the only one not asleep, and the barrier is full. */
  lemma LastFindsAllAsleep(s: State, t: nat)
    requires Inv(s) && t < |s.pc| && s.pc[t].Testing? && s.count >= s.n - 1
    ensures |s.pc| == Quorum(s.n)
    ensures forall u :: 0 <= u < |s.pc| && u != t ==> s.pc[u].Sleeping?
  {
    assert HoldsMutex(s.pc[t]);
    NobodyElseResetted(s, t);
    CountedBound(s.pc, t);
    forall u | 0 <= u < |s.pc| && u != t ensures s.pc[u].Sleeping? {
      AllOthersCounted(s.pc, t, u);
    }
  }

  lemma StepKeepsLast(s: State, t: nat)
    requires Inv(s) && t < |s.pc|
    ensures LastIsAlone(Step(s, t)) && LastMeansFull(Step(s, t))
  {
    if s.pc[t].LastBroadcasting? {
      assert IsLast(s.pc[t]);
      assert forall u :: 0 <= u < |s.pc| ==> !IsLast(Step(s, t).pc[u]);
    } else {
      StepMovesOne(s, t);
      if s.pc[t].Testing? && s.count >= s.n - 1 {
        LastFindsAllAsleep(s, t);
      } else {
        assert IsLast(Step(s, t).pc[t]) == IsLast(s.pc[t]);
        assert s.pc[t].Sleeping? ==> Step(s, t) == s;
      }
    }
  }

  lemma BroadcastKeepsRound(s: State, t: nat, u: nat)
    requires Inv(s) && t < |s.pc| && u < |s.pc| && s.pc[t].LastBroadcasting?
    ensures InRound(Step(s, t), u) && ReturnsFollow(Step(s, t), u)
  {
    assert IsLast(s.pc[t]);
    assert u != t ==> s.pc[u].Sleeping?;
    assert InRound(s, u) && ReturnsFollow(s, u);
  }

  lemma BystanderKeepsRound(s: State, t: nat, u: nat)
    requires Inv(s) && t < |s.pc| && u < |s.pc| && t != u && !s.pc[t].LastBroadcasting?
    ensures InRound(Step(s, t), u) && ReturnsFollow(Step(s, t), u)
  {
    StepMovesOne(s, t);
    assert InRound(s, u) && ReturnsFollow(s, u);
  }

  /** Short of returning, a thread has begun one more wait if it was outside, and it moves
      through the places of one half of its call. */
  lemma MoverStaysInRound(s: State, t: nat)
    requires Shaped(s) && t < |s.pc| && !s.pc[t].LastBroadcasting? && !s.pc[t].Returning?
    ensures var e := Step(s, t);
            && e.returned[t] == s.returned[t] && !e.pc[t].Outside?
            && e.entered[t] == s.entered[t] + (if s.pc[t].Outside? then 1 else 0)
            && IsFinishing(e.pc[t]) == IsFinishing(s.pc[t])
            && (e.pc[t].Returning? ==> s.pc[t].Unlocking? && e.pc[t].r == 0)
  {
  }

  lemma MoverKeepsRound(s: State, t: nat)
    requires Inv(s) && t < |s.pc| && !s.pc[t].LastBroadcasting?
    ensures InRound(Step(s, t), t) && ReturnsFollow(Step(s, t), t)
  {
    assert InRound(s, t) && ReturnsFollow(s, t);
    StepMovesOne(s, t);
    if s.pc[t].Returning? {
      assert Step(s, t).returned[t] == s.returned[t] + [s.pc[t].r];
    } else {
      MoverStaysInRound(s, t);
    }
  }

  lemma StepKeepsRounds(s: State, t: nat)
    requires Inv(s) && t < |s.pc|
    ensures var s' := Step(s, t);
            && (forall g :: 0 <= g < |s'.broadcasters| ==> s'.broadcasters[g] < |s'.pc|)
            && (forall u :: 0 <= u < |s'.pc| ==> InRound(s', u) && ReturnsFollow(s', u))
  {
    forall u | 0 <= u < |s.pc| ensures InRound(Step(s, t), u) && ReturnsFollow(Step(s, t), u) {
      if s.pc[t].LastBroadcasting? {
        BroadcastKeepsRound(s, t, u);
      } else if u != t {
        BystanderKeepsRound(s, t, u);
      } else {
        MoverKeepsRound(s, t);
      }
    }
  }

  lemma StepKeepsInv(s: State, t: nat)
    requires Inv(s)
    ensures Inv(Step(s, t))
  {
    if t < |s.pc| {
      StepKeepsMutex(s, t);
      StepKeepsCount(s, t);
      StepKeepsLast(s, t);
      StepKeepsRounds(s, t);
    }
  }

  lemma {:induction false} RunKeepsInv(s: State, schedule: seq<nat>)
    requires Inv(s)
    ensures Inv(Run(s, schedule))
    decreases |schedule|
  {
    if schedule != [] {
      RunKeepsInv(s, schedule[..|schedule| - 1]);
      StepKeepsInv(Run(s, schedule[..|schedule| - 1]), schedule[|schedule| - 1]);
    }
  }

  // ---------------------------------------------------------------- safety

  lemma InvIsSafe(s: State)
    requires Inv(s)
    ensures Safe(s)
  {
    forall t, u | 0 <= t < |s.pc| && 0 <= u < |s.pc| ensures |s.returned[t]| <= s.entered[u] {
      assert InRound(s, t) && InRound(s, u);
    }
    forall round: nat, t: nat, u: nat | IsSerial(s, t, round) && IsSerial(s, u, round) ensures t == u {
      assert ReturnsFollow(s, t) && ReturnsFollow(s, u);
    }
    forall round: nat | |s.pc| > 0 && AllReturned(s, round)
      ensures exists t: nat :: IsSerial(s, t, round) &&
                forall u :: 0 <= u < |s.pc| && u != t ==> s.returned[u][round] == 0
    {
      assert InRound(s, 0) && round < |s.returned[0]|;
      var t := s.broadcasters[round];
      forall u | 0 <= u < |s.pc|
        ensures s.returned[u][round] == if t == u then SERIAL_THREAD else 0
      {
        assert InRound(s, u) && ReturnsFollow(s, u);
      }
      assert IsSerial(s, t, round);
    }
  }

  /** In every interleaving of at most `n` threads the barrier is safe. */
  lemma BarrierIsSafe(threads: nat, n: int, schedule: seq<nat>)
    requires threads <= Quorum(n)
    ensures Safe(Run(Init(threads, n), schedule))
  {
    InitInv(threads, n);
    RunKeepsInv(Init(threads, n), schedule);
    InvIsSafe(Run(Init(threads, n), schedule));
  }

  lemma {:induction false} AllCounted(pc: seq<Pc>)
    requires forall t :: 0 <= t < |pc| ==> IsCounted(pc[t])
    ensures CountedIn(pc) == |pc|
  {
    if pc != [] { AllCounted(pc[..|pc| - 1]); }
  }

  lemma AllButOneCounted(pc: seq<Pc>, t: nat)
    requires t < |pc| && !IsCounted(pc[t])
    requires forall u :: 0 <= u < |pc| && u != t ==> IsCounted(pc[u])
    ensures CountedIn(pc) == |pc| - 1
  {
    AllCounted(pc[t := Sleeping]);
    CountedUpdate(pc, t, Sleeping);
  }

  /** The reset on line 60 is not protected by the mutex, and yet no other thread is at a
      line that reads or writes `count`, nor able to get to one by its own steps: all of
      them sleep until the broadcast. Outside that window `count` is the number of threads
      that have incremented it in this round and have not been woken. */
  lemma ResetNeverRaces(threads: nat, n: int, schedule: seq<nat>)
    requires threads <= Quorum(n)
    ensures var s := Run(Init(threads, n), schedule);
            && (!Resetted(s) ==> s.count == CountedIn(s.pc))
            && forall t, u :: 0 <= t < threads && 0 <= u < threads && t != u && IsLast(s.pc[t]) ==>
                 s.pc[u].Sleeping? && Step(s, u) == s && CountedIn(s.pc) == threads - 1 == Quorum(n) - 1
  {
    InitInv(threads, n);
    RunKeepsInv(Init(threads, n), schedule);
    var s := Run(Init(threads, n), schedule);
    forall t | 0 <= t < threads && IsLast(s.pc[t]) ensures CountedIn(s.pc) == threads - 1 {
      AllButOneCounted(s.pc, t);
    }
  }

  // ---------------------------------------------------------------- too many threads

  /** What the first `k` threads look like once each has gone to sleep. */
  function Asleep(threads: nat, n: int, k: nat): State
    requires k <= threads
  {
    State(n, Free, k, seq(threads, i => if i < k then Sleeping else Outside),
          seq(threads, i => if i < k then 1 else 0), seq(threads, i => []), [])
  }

  lemma RunAppend(s: State, a: seq<nat>, b: seq<nat>)
    requires Shaped(s)
    ensures Run(s, a + b) == Run(Run(s, a), b)
    decreases |b|
  {
    if b == [] {
      assert a + b == a;
    } else {
      var front := b[..|b| - 1];
      RunAppend(s, a, front);
      assert (a + b)[..|a + b| - 1] == a + front;
    }
  }

  lemma Run1(s: State, t: nat)
    requires Shaped(s)
    ensures Run(s, [t]) == Step(s, t)
  {
    assert [t][..0] == [];
    assert Run(s, []) == s;
  }

  function Times(t: nat, k: nat): seq<nat> { seq(k, i => t) }

  function StepTimes(s: State, t: nat, k: nat): (r: State)
    requires Shaped(s)
    ensures Shaped(r)
  {
    if k == 0 then s else Step(StepTimes(s, t, k - 1), t)
  }

  lemma {:induction false} RunSame(s: State, t: nat, k: nat)
    requires Shaped(s)
    ensures Run(s, Times(t, k)) == StepTimes(s, t, k)
  {
    if k > 0 {
      RunSame(s, t, k - 1);
      assert Times(t, k)[..k - 1] == Times(t, k - 1);
    }
  }

  lemma OneGoesToSleep(threads: nat, n: int, k: nat)
    requires k < threads && k < n - 1
    ensures StepTimes(Asleep(threads, n, k), k, 5) == Asleep(threads, n, k + 1)
  {
    var s := Asleep(threads, n, k);
    assert StepTimes(s, k, 1) == s.(pc := s.pc[k := Locking], entered := s.entered[k := 1]);
    assert StepTimes(s, k, 2) == StepTimes(s, k, 1).(mutex := HeldBy(k), pc := s.pc[k := Testing]);
    assert StepTimes(s, k, 3) == StepTimes(s, k, 2).(pc := s.pc[k := Counting]);
    assert StepTimes(s, k, 4) == StepTimes(s, k, 3).(count := k + 1, pc := s.pc[k := GoingToSleep]);
    assert StepTimes(s, k, 5).pc == s.pc[k := Sleeping];
    assert s.pc[k := Sleeping] == Asleep(threads, n, k + 1).pc;
    assert s.entered[k := 1] == Asleep(threads, n, k + 1).entered;
  }

  lemma {:induction false} ManyGoToSleep(threads: nat, n: int, k: nat) returns (schedule: seq<nat>)
    requires k <= threads && k <= Quorum(n) - 1
    ensures Run(Init(threads, n), schedule) == Asleep(threads, n, k)
  {
    if k == 0 {
      schedule := [];
    } else {
      var before := ManyGoToSleep(threads, n, k - 1);
      OneGoesToSleep(threads, n, k - 1);
      schedule := before + Times(k - 1, 5);
      RunAppend(Init(threads, n), before, Times(k - 1, 5));
      RunSame(Asleep(threads, n, k - 1), k - 1, 5);
    }
  }

  /** Call, lock, test and unlock of a thread that finds `count` full. */
  lemma ArriveLast(s: State, t: nat)
    requires Shaped(s) && t < |s.pc| && s.pc[t].Outside? && s.mutex.Free? && s.count >= s.n - 1
    ensures StepTimes(s, t, 4) ==
            s.(pc := s.pc[t := LastResetting], entered := s.entered[t := s.entered[t] + 1])
  {
    var s1 := Step(s, t);
    var s2 := Step(s1, t);
    var s3 := Step(s2, t);
    assert s3.pc == s.pc[t := LastUnlocking];
    assert StepTimes(s, t, 1) == s1;
    assert StepTimes(s, t, 2) == s2;
    assert StepTimes(s, t, 3) == s3;
  }

  /** Reset, broadcast and return of the last arriver. */
  lemma LeaveLast(s: State, t: nat)
    requires Shaped(s) && t < |s.pc| && s.pc[t].LastResetting?
    ensures StepTimes(s, t, 3).returned == s.returned[t := s.returned[t] + [SERIAL_THREAD]]
    ensures StepTimes(s, t, 3).pc == WakeAll(s.pc)[t := Outside]
  {
    var s1 := Step(s, t);
    var s2 := Step(s1, t);
    assert s2.pc == WakeAll(s.pc)[t := Returning(SERIAL_THREAD)];
    assert StepTimes(s, t, 1) == s1;
    assert StepTimes(s, t, 2) == s2;
  }

  /** With one thread more than the barrier was made for, the window between the last
      arriver's unlock and its reset lets the extra thread find `count` still full: both
      return PTHREAD_BARRIER_SERIAL_THREAD from their first wait. */
  lemma ExtraThreadBreaksBarrier(threads: nat, n: int) returns (schedule: seq<nat>)
    requires threads > Quorum(n)
    ensures !AtMostOneSerial(Run(Init(threads, n), schedule))
  {
    var k := Quorum(n) - 1;
    var a, b := k, k + 1;
    var before := ManyGoToSleep(threads, n, k);
    var s := Asleep(threads, n, k);
    var s1 := StepTimes(s, a, 4);
    ArriveLast(s, a);
    var s2 := StepTimes(s1, b, 4);
    ArriveLast(s1, b);
    var s3 := StepTimes(s2, a, 3);
    LeaveLast(s2, a);
    var s4 := StepTimes(s3, b, 3);
    LeaveLast(s3, b);
    assert IsSerial(s4, a, 0) && IsSerial(s4, b, 0);
    schedule := before + Times(a, 4) + Times(b, 4) + Times(a, 3) + Times(b, 3);
    var init := Init(threads, n);
    RunAppend(init, before, Times(a, 4));
    RunSame(s, a, 4);
    RunAppend(init, before + Times(a, 4), Times(b, 4));
    RunSame(s1, b, 4);
    RunAppend(init, before + Times(a, 4) + Times(b, 4), Times(a, 3));
    RunSame(s2, a, 3);
    RunAppend(init, before + Times(a, 4) + Times(b, 4) + Times(a, 3), Times(b, 3));
    RunSame(s3, b, 3);
  }

  /** The exact condition: the barrier is safe in every interleaving if and only if it is
      used by no more threads than it was initialised for. */
  lemma SafeExactlyWhenNotOverbooked(threads: nat, n: int)
    ensures (forall schedule: seq<nat> :: Safe(Run(Init(threads, n), schedule))) <==> threads <= Quorum(n)
  {
    if threads <= Quorum(n) {
      forall schedule: seq<nat> ensures Safe(Run(Init(threads, n), schedule)) {
        BarrierIsSafe(threads, n, schedule);
      }
    } else {
      var schedule := ExtraThreadBreaksBarrier(threads, n);
      assert !Safe(Run(Init(threads, n), schedule));
    }
  }

  /** A wake-up that no broadcast caused. */
  function Spurious(s: State, t: nat): (r: State)
    requires Shaped(s)
    ensures Shaped(r) && |r.pc| == |s.pc| && r.n == s.n
  {
    if t < |s.pc| then s.(pc := s.pc[t := Wake(s.pc[t])]) else s
  }

  /** A step of a thread, or a spurious wake-up of one. */
  datatype Event = Move(thread: nat) | WakeUp(thread: nat)

  function Happen(s: State, e: Event): (r: State)
    requires Shaped(s)
    ensures Shaped(r) && |r.pc| == |s.pc| && r.n == s.n
  {
    match e
    case Move(t) => Step(s, t)
    case WakeUp(t) => Spurious(s, t)
  }

  function RunWith(s: State, events: seq<Event>): (r: State)
    requires Shaped(s)
    ensures Shaped(r) && |r.pc| == |s.pc| && r.n == s.n
    decreases |events|
  {
    if events == [] then s else Happen(RunWith(s, events[..|events| - 1]), events[|events| - 1])
  }

  function Moves(schedule: seq<nat>): seq<Event> {
    seq(|schedule|, i requires 0 <= i < |schedule| => Move(schedule[i]))
  }

  lemma {:induction false} RunWithMoves(s: State, schedule: seq<nat>)
    requires Shaped(s)
    ensures RunWith(s, Moves(schedule)) == Run(s, schedule)
    decreases |schedule|
  {
    if schedule != [] {
      RunWithMoves(s, schedule[..|schedule| - 1]);
      assert Moves(schedule)[..|schedule| - 1] == Moves(schedule[..|schedule| - 1]);
    }
  }

  lemma RunWithNext(s: State, events: seq<Event>, e: Event)
    requires Shaped(s)
    ensures RunWith(s, events + [e]) == Happen(RunWith(s, events), e)
  {
    assert (events + [e])[..|events + [e]| - 1] == events;
  }

  /** Thread 0 goes to sleep, is woken by nobody, and returns 0 from its first wait. */
  lemma SleeperSlipsOut(threads: nat, n: int) returns (events: seq<Event>)
    requires threads >= 1 && n >= 2
    ensures var e := RunWith(Init(threads, n), events);
            e.returned[0] == [0] && forall u :: 0 < u < threads ==> e.entered[u] == 0
  {
    var schedule := ManyGoToSleep(threads, n, 1);
    var init, a := Init(threads, n), Moves(schedule);
    RunWithMoves(init, schedule);
    var s := Spurious(Asleep(threads, n, 1), 0);
    RunWithNext(init, a, WakeUp(0));
    RunWithNext(init, a + [WakeUp(0)], Move(0));
    RunWithNext(init, a + [WakeUp(0)] + [Move(0)], Move(0));
    RunWithNext(init, a + [WakeUp(0)] + [Move(0)] + [Move(0)], Move(0));
    events := a + [WakeUp(0)] + [Move(0)] + [Move(0)] + [Move(0)];
    assert Step(s, 0) == s.(mutex := HeldBy(0), pc := s.pc[0 := Unlocking]);
    assert Step(Step(s, 0), 0) == s.(pc := s.pc[0 := Returning(0)]);
  }

  /** The wait on line 52 does not re-test anything. As soon as spurious wake-ups may
      happen, some interleaving breaks the barrier unless nobody ever waits. */
  lemma SpuriousWakeUpBreaksBarrier(threads: nat, n: int) returns (events: seq<Event>)
    requires threads > 1 || (threads == 1 && n > 1)
    ensures !Safe(RunWith(Init(threads, n), events))
  {
    if n >= 2 {
      events := SleeperSlipsOut(threads, n);
      var e := RunWith(Init(threads, n), events);
      if threads > 1 {
        assert |e.returned[0]| > e.entered[1];
      } else {
        assert AllReturned(e, 0) && forall t: nat :: !IsSerial(e, t, 0);
        assert !EveryRoundHasASerial(e);
      }
    } else {
      var schedule := ExtraThreadBreaksBarrier(threads, n);
      RunWithMoves(Init(threads, n), schedule);
      events := Moves(schedule);
    }
  }

  lemma NobodySleepsAlone(s: State, t: nat)
    requires Inv(s) && Quorum(s.n) == 1
    ensures Spurious(s, t) == s
  {
    if t < |s.pc| && s.pc[t].Sleeping? {
      AllCounted(s.pc);
      assert false;
    }
  }

  lemma {:induction false} LonelyKeepsInv(s: State, events: seq<Event>)
    requires Inv(s) && (|s.pc| == 0 || Quorum(s.n) == 1)
    ensures Inv(RunWith(s, events))
    decreases |events|
  {
    if events != [] {
      var front, e := events[..|events| - 1], events[|events| - 1];
      LonelyKeepsInv(s, front);
      match e {
        case Move(t) => StepKeepsInv(RunWith(s, front), t);
        case WakeUp(t) => if |s.pc| > 0 { NobodySleepsAlone(RunWith(s, front), t); }
      }
    }
  }

  /** The exact condition: with spurious wake-ups among the steps, all interleavings are
      safe if and only if no thread or a single one that never waits uses the barrier. */
  lemma SafeDespiteSpuriousExactly(threads: nat, n: int)
    ensures (forall events: seq<Event> :: Safe(RunWith(Init(threads, n), events))) <==>
            threads == 0 || (threads == 1 && n <= 1)
  {
    if threads == 0 || (threads == 1 && n <= 1) {
      InitInv(threads, n);
      forall events: seq<Event> ensures Safe(RunWith(Init(threads, n), events)) {
        LonelyKeepsInv(Init(threads, n), events);
        InvIsSafe(RunWith(Init(threads, n), events));
      }
    } else {
      var events := SpuriousWakeUpBreaksBarrier(threads, n);
      assert !Safe(RunWith(Init(threads, n), events));
    }
  }

  // ---------------------------------------------------------------- progress

  /** Steps a thread has left in its current call, at most. */
  function Rank(p: Pc): nat {
    match p
    case Outside => 0
    case Returning(_) => 1
    case Unlocking => 2
    case Woken => 3
    case Sleeping => 4
    case GoingToSleep => 5
    case Counting => 6
    case LastBroadcasting => 4
    case LastResetting => 5
    case LastUnlocking => 6
    case Testing => 7
    case Locking => 8
  }

  function TotalRank(pc: seq<Pc>): nat {
    if pc == [] then 0 else TotalRank(pc[..|pc| - 1]) + Rank(pc[|pc| - 1])
  }

  lemma {:induction false} TotalRankUpdate(pc: seq<Pc>, t: nat, p: Pc)
    requires t < |pc|
    ensures TotalRank(pc[t := p]) == TotalRank(pc) - Rank(pc[t]) + Rank(p)
  {
    var front := pc[..|pc| - 1];
    if t == |pc| - 1 {
      assert pc[t := p][..|pc| - 1] == front;
    } else {
      TotalRankUpdate(front, t, p);
      assert pc[t := p][..|pc| - 1] == front[t := p];
    }
  }

  lemma {:induction false} TotalRankWake(pc: seq<Pc>)
    ensures TotalRank(WakeAll(pc)) <= TotalRank(pc)
  {
    if pc != [] {
      TotalRankWake(pc[..|pc| - 1]);
      assert WakeAll(pc)[..|pc| - 1] == WakeAll(pc[..|pc| - 1]);
    }
  }

  lemma {:induction false} TotalRankBound(pc: seq<Pc>)
    ensures TotalRank(pc) <= 8 * |pc|
  {
    if pc != [] { TotalRankBound(pc[..|pc| - 1]); }
  }

  /** Thread `t` is inside pthread_barrier_wait and not blocked. */
  predicate CanAdvance(s: State, t: nat)
    requires Shaped(s)
  {
    t < |s.pc| && !s.pc[t].Outside? && Step(s, t) != s
  }

  /** A schedule made of threads that are inside the call and not blocked. */
  predicate Advancing(s: State, schedule: seq<nat>)
    requires Shaped(s)
    decreases |schedule|
  {
    schedule == [] ||
    (var front := schedule[..|schedule| - 1];
     Advancing(s, front) && CanAdvance(Run(s, front), schedule[|schedule| - 1]))
  }

  lemma AdvanceLowersRank(s: State, t: nat)
    requires Shaped(s) && CanAdvance(s, t)
    ensures TotalRank(Step(s, t).pc) < TotalRank(s.pc)
  {
    if s.pc[t].LastBroadcasting? {
      TotalRankWake(s.pc);
      TotalRankUpdate(WakeAll(s.pc), t, Returning(SERIAL_THREAD));
    } else {
      TotalRankUpdate(s.pc, t, Step(s, t).pc[t]);
    }
  }

  lemma {:induction false} AdvancingIsBounded(s: State, schedule: seq<nat>)
    requires Shaped(s) && Advancing(s, schedule)
    ensures |schedule| + TotalRank(Run(s, schedule).pc) <= TotalRank(s.pc)
    decreases |schedule|
  {
    if schedule != [] {
      var front := schedule[..|schedule| - 1];
      AdvancingIsBounded(s, front);
      AdvanceLowersRank(Run(s, front), schedule[|schedule| - 1]);
    }
  }

  /** No thread inside the call can move. */
  ghost predicate Stuck(s: State)
    requires Shaped(s)
  {
    forall t: nat :: !CanAdvance(s, t)
  }

  lemma MustBeAble(s: State, t: nat)
    requires Shaped(s) && t < |s.pc| && !s.pc[t].Outside? && !s.pc[t].Sleeping?
    requires s.mutex.Free? || HoldsMutex(s.pc[t])
    ensures CanAdvance(s, t)
  {
    assert Step(s, t).pc[t] != s.pc[t];
  }

  /** The calls stop only while they wait for a thread that has not arrived: if nobody
      inside can move, then the mutex is free, everybody inside sleeps, and somebody
      is outside. */
  lemma StuckMeansWaiting(s: State)
    requires Inv(s) && Stuck(s) && |s.pc| == Quorum(s.n)
    ensures s.mutex.Free?
    ensures forall t :: 0 <= t < |s.pc| ==> s.pc[t].Sleeping? || s.pc[t].Outside?
    ensures exists t :: 0 <= t < |s.pc| && s.pc[t].Outside?
  {
    if s.mutex.HeldBy? {
      MustBeAble(s, s.mutex.thread);
    }
    forall t | 0 <= t < |s.pc| ensures s.pc[t].Sleeping? || s.pc[t].Outside? {
      if !s.pc[t].Sleeping? && !s.pc[t].Outside? {
        MustBeAble(s, t);
      }
    }
    if forall t :: 0 <= t < |s.pc| ==> s.pc[t].Sleeping? {
      AllCounted(s.pc);
    }
  }

  lemma {:induction false} AdvancingBeginsNoCall(s: State, schedule: seq<nat>)
    requires Shaped(s) && Advancing(s, schedule)
    ensures Run(s, schedule).entered == s.entered
    decreases |schedule|
  {
    if schedule != [] {
      AdvancingBeginsNoCall(s, schedule[..|schedule| - 1]);
    }
  }

  lemma {:induction false} AdvancingPrepend(s: State, t: nat, rest: seq<nat>)
    requires Shaped(s) && CanAdvance(s, t) && Advancing(Step(s, t), rest)
    ensures Advancing(s, [t] + rest) && Run(s, [t] + rest) == Run(Step(s, t), rest)
    decreases |rest|
  {
    Run1(s, t);
    RunAppend(s, [t], rest);
    if rest == [] {
      assert [t][..0] == [] && Advancing(s, []);
      assert [t] + rest == [t];
    } else {
      var front := rest[..|rest| - 1];
      AdvancingPrepend(s, t, front);
      assert ([t] + rest)[..|rest|] == [t] + front;
    }
  }

  /** Some advancing schedule ends where nobody inside can move. */
  lemma {:induction false} RunToRest(s: State) returns (schedule: seq<nat>)
    requires Shaped(s)
    ensures Advancing(s, schedule) && Stuck(Run(s, schedule))
    decreases TotalRank(s.pc)
  {
    if Stuck(s) {
      schedule := [];
    } else {
      var t: nat :| CanAdvance(s, t);
      AdvanceLowersRank(s, t);
      var rest := RunToRest(Step(s, t));
      schedule := [t] + rest;
      AdvancingPrepend(s, t, rest);
    }
  }

  /** Progress. Take any reachable state of an exactly booked barrier in which all threads
      have begun the same number `k` of waits. Whatever order the threads inside now run
      in, they make at most eight steps each, and when they can make no more, every
      thread has returned from its k-th wait. */
  lemma AllArriveAllLeave(n: int, past: seq<nat>, future: seq<nat>, k: nat)
    requires var s := Run(Init(Quorum(n), n), past);
             && (forall t :: 0 <= t < |s.pc| ==> s.entered[t] == k)
             && Advancing(s, future)
    ensures |future| <= 8 * Quorum(n)
    ensures var end := Run(Run(Init(Quorum(n), n), past), future);
            Stuck(end) ==>
              forall t :: 0 <= t < |end.pc| ==> end.pc[t].Outside? && |end.returned[t]| == k
  {
    var s := Run(Init(Quorum(n), n), past);
    InitInv(Quorum(n), n);
    RunKeepsInv(Init(Quorum(n), n), past);
    TotalRankBound(s.pc);
    AdvancingIsBounded(s, future);
    var end := Run(s, future);
    RunKeepsInv(s, future);
    AdvancingBeginsNoCall(s, future);
    if Stuck(end) {
      StuckMeansWaiting(end);
      var u :| 0 <= u < |end.pc| && end.pc[u].Outside?;
      assert InRound(end, u);
      forall t | 0 <= t < |end.pc| ensures end.pc[t].Outside? && |end.returned[t]| == k {
        assert InRound(end, t);
      }
    }
  }
}
