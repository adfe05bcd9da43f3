# Kerrighed tools: a Dafny model

This project models the parts of the Kerrighed user-space tools in which something can go
wrong in more than one place at a time, and proves what those parts keep:

- **Barrier** (`Barrier.dfy`): the condition-variable barrier of the SMP tests as interleaved
  steps of any number of threads.
- **Gram-Schmidt** (`Vectors.dfy`, `GramSchmidt.dfy`): the orthogonalisation program used as a
  load, with its in-place loops, over exact reals.
- **Callbacks** (`CallbackProtocol.dfy`, `CallbackSchedules.dfy`, `CallbackSerial.dfy`,
  `CallbackRetries.dfy`, `CallbackSignals.dfy`, `CallbackPasses.dfy`, `CallbackRegistry.dfy`): the
  checkpoint callback library, as a protocol between the checkpointer, the signal handler and the worker thread, over
  one call, over calls that follow each other at once and with restart and continue signals at
  any time; and as the registry of callbacks they run. A callback returns zero, an error, or
  either, and may return something else each time it is run.
- **Nodes** (`NodeSet.dfy`, `NodeMask.dfy`, `NodeList.dfy`, `NodePrinter.dfy`,
  `NodeSelection.dfy`): the char-vector node set, the 256-bit mask, the list parser and printer,
  and the selection loops of `krgadm nodes add` and `krgadm nodes del`.
- **Checkpoint driver** (`CheckpointDriver.dfy`): freeze, checkpoint and unfreeze under an
  interrupt that may arrive between any two steps.
- **Exclusion and child lists** (`ExclusionLists.dfy`, `ChildList.dfy`): the two intrusive lists
  of the checkpoint library, on the heap.
- **Capabilities** (`Capabilities.dfy`): names, octal numbers and the four words of `krgcapset`.

`CText.dfy` (what `printf` writes and `strtol` reads, sections 7.19.6.1 and 7.20.1.4 of ISO C99)
and `Bits.dfy` (binary words) are shared.

Schedules are sequences of thread or actor names; a blocked party that is picked does nothing.
A statement about all schedules is therefore about all interleavings and all their prefixes.
What cannot be seen from this code is a parameter: replies of the kernel, results of callbacks,
arrival times of signals, memory that `malloc` returns, `sqrt` and `sin`.

## Where the code does not do what it is for

Each of these is a theorem with the exact condition under which the code does meet its purpose.

- The barrier is safe in every interleaving if and only if no more threads use it than it was
  initialised for: with one more, two threads can both return
  `PTHREAD_BARRIER_SERIAL_THREAD` (`Barrier.SafeExactlyWhenNotOverbooked`). The wait does not
  re-test its condition: as soon as spurious wake-ups may occur, all interleavings are safe if
  and only if there is no thread, or one thread on a barrier of at most one
  (`Barrier.SafeDespiteSpuriousExactly`).
- `up_mgs` divides by zero if and only if the columns are linearly dependent; for the matrix of
  `mat_init`, if and only if there are more columns than rows.
- The verdict of a single checkpoint call that begins quiet is right in every interleaving. Over
  calls that follow each other at once, all verdicts are right if and only if it is not the case
  that a signal callback can fail while a worker runs whose pass can succeed: then a retry can
  take the worker's late report for its answer, and return 0 before any callback has run or, if
  the report was an error, -1 although all of them succeed
  (`CallbackRetries.VerdictsRightExactly`).
- Restart and continue signals make it worse, because the worker looks at the current hook three
  times. With such signals at any time, all verdicts are right if and only if there are no
  declared callbacks or no worker, or there is no checkpoint callback and no thread callback that
  can fail, or no thread pass can succeed whatever hook it begins and ends with
  (`CallbackSignals.VerdictsRightWithSignalsExactly`).
- A failing `pthread_create` leaves the mutex locked, and so does leaving the library with a
  worker: a later thread registration blocks for ever if and only if one of the two happened
  (`CallbackRegistry.BlocksExactly`).
- A default run of `checkpoint` on an application that was left frozen hangs if and only if it
  asks for callbacks that the application has declared, and fails otherwise
  (`CheckpointDriver.FrozenStaysFrozen`).
- A `checkpoint` run whose checkpoint callbacks fail or never answer, or whose freeze fails, does
  not run the continue callbacks: over any history the two are balanced if and only if no such
  run is in it
  (`CheckpointDriver.BalancedExactly`).
- A node range that counts up to the largest int never ends; a list is accepted with its meaning
  if and only if it holds no such range (`NodeList.ListMeaning`).
- `node_set_str` never terminates its string: the buffer holds the list as a C string if and only
  if the byte behind the bracket exists and happened to be zero
  (`NodePrinter.StringExactlyByLuck`), which it never does for the full set of 1111 nodes. The
  buffer is large enough for all sets if and only if there are at most 1111 nodes
  (`NodePrinter.BufferSufficesExactly`).
- `cr_exclude_on` never sets `next` and leaves a freed region linked when the initialisation
  fails: over any sequence of calls the list stays sound if and only if, for every region that
  was linked, the memory happened to hold a null pointer there and the initialisation succeeded
  (`ExclusionLists.RunAll`).
- `add_child` links a new child to the successor of the head. The list never holds more than one
  child, and is the list that is meant if and only if every fork is taken note of and no child is
  forked while another one lives (`ChildList.KeptIsMeantExactly`).
- Every node set survives printing and parsing except the empty one: it prints as `[]`, and
  nothing between brackets is not a list that `parse_nodes` accepts
  (`NodePrinter.PrintParseRoundTrip`, `NodePrinter.EmptySetDoesNotRoundTrip`).

## Model

| member | source | states |
|---|---|---|
| `Barrier.BarrierIsSafe` | tests/include/smp-tools.h:43-66 | In every interleaving of at most `nr_cpu` threads, any number of rounds: nobody finishes its g-th wait before everybody has begun it, at most one thread per round returns the serial value, and a round everybody has left had one, with 0 for all others |
| `Barrier.ExtraThreadBreaksBarrier` | tests/include/smp-tools.h:57-63 | For every barrier and every larger number of threads there is a schedule after which two threads have returned the serial value from the same round, through the window between unlock and reset |
| `Barrier.SafeExactlyWhenNotOverbooked` | tests/include/smp-tools.h:43-66 | All interleavings are safe if and only if the number of threads is at most `nr_cpu` (at most one if that is below one) |
| `Barrier.SpuriousWakeUpBreaksBarrier` | tests/include/smp-tools.h:49-56 | For every barrier some interleaving with wake-ups that nobody caused breaks it, if two or more threads use it or one waits for another |
| `Barrier.SafeDespiteSpuriousExactly` | tests/include/smp-tools.h:49-56 | With spurious wake-ups as steps of the schedule, all interleavings are safe if and only if there is no thread, or one thread on a barrier of at most one |
| `Barrier.ResetNeverRaces` | tests/include/smp-tools.h:59-62 | While a last arriver is between its unlock and its broadcast, every other thread sleeps and cannot move, all but one are counted, and outside the reset window `count` is the number of threads counted and not woken |
| `Barrier.RunKeepsInv` | tests/include/smp-tools.h:43-66 | The invariant of mutex, count, last arriver and round bookkeeping holds along every schedule |
| `Barrier.StuckMeansWaiting` | tests/include/smp-tools.h:47-63 | When nobody inside can move, the mutex is free, everybody inside sleeps and somebody has not arrived |
| `Barrier.AllArriveAllLeave` | tests/include/smp-tools.h:43-66 | Once all threads have begun the same number of waits, any order of steps ends within eight steps a thread, with everybody returned |
| `Barrier.RunToRest` | tests/include/smp-tools.h:43-66 | From every state some schedule of unblocked threads leads to one where nobody inside can move |
| `GramSchmidt.MatInit` | tests/proc/up-gs.c:55-70 | The diagonal holds the number of rows, the first row and column hold the sines of the distance, and entries along a diagonal are equal |
| `GramSchmidt.InitialIndependent` | tests/proc/up-gs.c:63-70 | With no more columns than rows, the columns of that matrix are linearly independent, by strict diagonal dominance |
| `GramSchmidt.UpMgs` | tests/proc/up-gs.c:144-185 | The in-place loops meet no zero norm if and only if the columns are independent, and then leave orthonormal columns of which every original column is the combination given by the norms and projections met, upper triangular with positive diagonal |
| `GramSchmidt.ColumnDot` | tests/proc/up-gs.c:174-176 | The summing loop computes the dot product of two columns |
| `Vectors.DotUnit` | tests/proc/up-gs.c:174-176 | A column meets a unit vector in the entry it picks: all rows weigh the same in the dot product |
| `GramSchmidt.PropagateColumn` | tests/proc/up-gs.c:172-180 | The inner loop takes the direction of the pivot column out of all later columns and touches no other |
| `GramSchmidt.AfterKeeps` | tests/proc/up-gs.c:154-181 | After every pass: finished columns orthonormal, unfinished ones orthogonal to them, and all original columns recovered from the recorded coefficients |
| `GramSchmidt.DefinedExactlyOnIndependence` | tests/proc/up-gs.c:164-166 | No norm vanishes if and only if the columns are independent |
| `GramSchmidt.OrthonormalFits` | tests/proc/up-gs.c:154-181 | There are no more orthonormal columns than rows |
| `GramSchmidt.InitialDefinedExactlyWhenTall` | tests/proc/up-gs.c:63-70 | For the matrix of `mat_init`, no norm vanishes if and only if there are no more columns than rows |
| `GramSchmidt.OrthErr` | tests/proc/up-gs.c:78-106 | The error is the largest deviation over all pairs of columns, hence 0 if and only if the columns are orthonormal |
| `GramSchmidt.TestOnce` | tests/proc/up-gs.c:229-235 | One loop of the program is defined exactly when there are no more columns than rows, and then computes error 0 |
| `CallbackProtocol.WakeUpsAreAccounted` | libs/libkrgcb/libkrgcb.c:351-366 | Over every run with any signals and any number of calls: wake-ups are passes plus the one unconsumed plus those issued while one was unconsumed |
| `CallbackProtocol.PassesMatchWakeUps` | libs/libkrgcb/libkrgcb.c:350-366 | Passes never exceed wake-ups, and when the worker rests they are equal if and only if no wake-up was issued on top of an unconsumed one |
| `CallbackProtocol.CheckpointVerdict` | libs/libkrgcb/libkrgcb.c:191-227 | In every interleaving of a call that begins quiet, whatever the callbacks return: it returns 0 exactly if every non-null checkpoint callback of both contexts has run since the call began and none has failed; without declared callbacks it returns 0 and nothing runs |
| `CallbackProtocol.SignalErrorComesFirst` | libs/libkrgcb/libkrgcb.c:340-378 | As soon as a signal callback has failed, the first message in the queue is an error or there is none yet, in every interleaving |
| `CallbackProtocol.RunKeepsInv` | libs/libkrgcb/libkrgcb.c:318-384 | The joint invariant of checkpointer, handler, worker and queue holds along every schedule of a call |
| `CallbackProtocol.StuckMeansDone` | libs/libkrgcb/libkrgcb.c:209-223 | When nobody can move, the call has returned and the state is quiet again for the next one |
| `CallbackProtocol.CallEnds` | libs/libkrgcb/libkrgcb.c:191-227 | The number of steps of a call is bounded, whatever the order |
| `CallbackRetries.VerdictsRightExactly` | libs/libkrgcb/libkrgcb.c:191-384 | Over any number of calls, each begun as soon as the one before has returned, with callbacks that may return something else each time: all verdicts are right in every interleaving if and only if no signal callback can fail while a worker runs whose pass can succeed |
| `CallbackSchedules.LateSuccessFools` | libs/libkrgcb/libkrgcb.c:370-378 | For every table with a callback, a call that begins while the worker has a success to report can return 0 before any callback has run |
| `CallbackSchedules.LateErrorFools` | libs/libkrgcb/libkrgcb.c:370-378 | If it has an error to report and all callbacks can succeed, the call can return -1 although they all do |
| `CallbackRetries.RetryCanBeHasty` | libs/libkrgcb/libkrgcb.c:340-378 | For every application with a worker in which a signal callback can fail, a retry can begin in that situation, with either report that the thread callbacks can come to |
| `CallbackSchedules.DoomedKept` | libs/libkrgcb/libkrgcb.c:318-384 | If no thread pass can succeed for the hooks in use, whichever of them is current when, every message and every verdict over any number of calls is an error |
| `CallbackSerial.SerialKept` | libs/libkrgcb/libkrgcb.c:318-353 | Without a worker, each checkpoint signal is answered once and truthfully, whatever signals arrive in between and however soon the next call begins |
| `CallbackSerial.NoWorkerIsRight` | libs/libkrgcb/libkrgcb.c:191-353 | So without a worker or without declared callbacks all verdicts are right, with any signals and any number of calls |
| `CallbackRetries.OrderlyKept` | libs/libkrgcb/libkrgcb.c:318-384 | If no signal callback can fail, the invariant of one call carries over to the next, however early that begins |
| `CallbackSignals.VerdictsRightWithSignalsExactly` | libs/libkrgcb/libkrgcb.c:191-384 | With restart and continue signals at any time, any number of calls and callbacks that may return something else each time: all verdicts are right in every interleaving if and only if nothing is declared or there is no worker, or there is no checkpoint callback and no thread callback can fail, or for all hooks p and q some thread callback of p below the number of entries of q cannot succeed |
| `CallbackSignals.SuccessFools` | libs/libkrgcb/libkrgcb.c:257-316 | If a pass over the callbacks of p can succeed when it ends with the number of entries of q, a call can return 0 with none of its callbacks run |
| `CallbackSignals.FailureFools` | libs/libkrgcb/libkrgcb.c:370-372 | If a thread pass can fail and all checkpoint callbacks can succeed, a call can return -1 although they all do |
| `CallbackSignals.EarlyPassFools` | libs/libkrgcb/libkrgcb.c:364-374 | A worker woken for another hook can begin with the checkpoint callbacks, and the call return 0, before the handler has run a single one |
| `CallbackSignals.PassBegins` | libs/libkrgcb/libkrgcb.c:243-255 | From every quiet state, any pass can be under way when a call is over and the next one may begin |
| `CallbackSignals.CarefreeKept` | libs/libkrgcb/libkrgcb.c:318-384 | With no checkpoint callback and no thread callback that can fail, every message and every verdict is a success |
| `CallbackPasses.RestartSignalRuns` | libs/libkrgcb/libkrgcb.c:257-316 | After one restart signal at rest, in every interleaving: first the handler and then the worker run the non-null entries of the restart array that are for them, each once, in order, up to the first failure; when nobody can move both passes are over |
| `CallbackPasses.ContinueSignalRuns` | libs/libkrgcb/libkrgcb.c:257-316 | The same for a continue signal and the continue array |
| `CallbackRegistry.Registry.Init` | libs/libkrgcb/libkrgcb.c:461-480 | Empty tables and a running worker kept, or on failure no registry and no worker |
| `CallbackRegistry.Registry.Register` | libs/libkrgcb/libkrgcb.c:490-539 | Appends function, argument and whether it is for the thread to the table of its hook unless that holds 40 entries, leaves the other hooks alone, starts the worker for a thread entry, loses the registry if that fails, blocks exactly if it needs a worker and the mutex is locked, and aborts before initialisation |
| `CallbackRegistry.Registry.RunCallbacks` | libs/libkrgcb/libkrgcb.c:257-316 | The loop runs and returns what the pass specification says |
| `CallbackRegistry.GoodPassRunsAll` | libs/libkrgcb/libkrgcb.c:282-312 | A pass that returns 0 runs every non-null entry of its context exactly once and no other |
| `CallbackRegistry.BadPassStops` | libs/libkrgcb/libkrgcb.c:282-312 | A pass that fails stops at the first failing entry of its context, with everything before it run and nothing behind it |
| `CallbackRegistry.TwoPassesRunEachOnce` | libs/libkrgcb/libkrgcb.c:284-312 | A signal pass and a thread pass that succeed run each non-null entry exactly once between them |
| `CallbackRegistry.OneMoreCall` | libs/libkrgcb/libkrgcb.c:521-536 | A registration adds exactly one call, of its function with its argument, to the pass of its hook and context, if the function is not null and there is room, and changes no other pass |
| `CallbackRegistry.GoodPassCalls` | libs/libkrgcb/libkrgcb.c:282-312 | A pass in which nothing fails calls exactly what the registrations ask for, in order |
| `CallbackRegistry.PerformAndRun` | libs/libkrgcb/libkrgcb.c:257-579 | The same on the registry itself, after any sequence of library calls with any failures |
| `CallbackRegistry.FirstFortyInOrder` | libs/libkrgcb/libkrgcb.c:521-536 | Each hook holds its first 40 registrations in order, whatever is registered for the others |
| `CallbackRegistry.Perform` | libs/libkrgcb/libkrgcb.c:386-579 | Any sequence of initialisations, exits and registrations, with any failures, gets as far as its status says and leaves those tables since the last initialisation |
| `CallbackRegistry.FlagsMean` | libs/libkrgcb/libkrgcb.c:396-415 | The mutex is locked since the first start of a worker, and the worker runs unless that failed or the library was left or failed to initialise since |
| `CallbackRegistry.BlocksExactly` | libs/libkrgcb/libkrgcb.c:400-413 | A thread registration blocks for ever if and only if the first start of a worker failed or the worker was told to stop since |
| `CallbackRegistry.PassesAgree` | libs/libkrgcb/libkrgcb.c:257-316 | A pass of the registry fails if the protocol says it must, and only if the protocol says it may, whatever the callbacks return within their range |
| `CallbackRegistry.PassesAttain` | libs/libkrgcb/libkrgcb.c:257-316 | Both bounds are attained |
| `NodeSet.Vector.Add` | libs/libkerrighed/libhotplug.c:270-277 | Adds an id in range and refuses others |
| `NodeSet.Vector.Remove` | libs/libkerrighed/libhotplug.c:279-286 | Removes an id; out of range it refuses |
| `NodeSet.Vector.Contains` | libs/libkerrighed/libhotplug.c:288-294 | 1 for members, 0 for anything else |
| `NodeSet.Vector.Weight` | libs/libkerrighed/libhotplug.c:296-306 | The number of members |
| `NodeSet.Vector.Next` | libs/libkerrighed/libhotplug.c:308-319 | The least member above an id, or -1 if there is none |
| `NodeSet.Num` | libs/libkerrighed/libhotplug.c:59-70 | The number of nodes in a state |
| `NodeSet.NextIn` | libs/libkerrighed/libhotplug.c:116-127 | The least node above an id in a state, or -1 if there is none |
| `NodeSet.Get` | libs/libkerrighed/libhotplug.c:144-158 | The set of nodes in a state |
| `NodeSet.FirstIsUnique` | tools/krgadm.c:468-482 | A set has at most one set of k smallest elements, so the selections below are determined |
| `NodeMask.Mask.SetNode` | libs/include/krgnodemask.h:23-35 | Turns on one bit, keeps the others, and raises the number of set bits by one if it was off |
| `NodeMask.Mask.Clear` | libs/include/krgnodemask.h:38-42 | The empty mask |
| `NodeMask.Mask.LongsAgree` | libs/include/krgnodemask.h:12-29 | The set written 32 bits at a time is the set read 64 bits at a time |
| `NodeMask.FromVector` | libs/libkerrighed/libhotplug.c:386-449 | The mask holds exactly the members of the set and as many bits as its weight; bits at or above the length of the vector are off |
| `NodeList.ParseNodes` | tools/krgadm.c:162-188 | The right-splitting recursion returns, fails to end and collects what reading the items from left to right does, and writes to no byte outside its argument |
| `NodeList.AddInterval` | tools/krgadm.c:155-156 | The loop with its int counter adds exactly the ids of the interval that are in range, and ends if and only if the interval is empty or stops below the largest int |
| `NodeList.ParseInterval` | tools/krgadm.c:132-160 | Adds exactly the ids of the interval that are in range, rejects the item, or does not end |
| `NodeList.ParseNode` | tools/krgadm.c:115-130 | Adds the id if it is in range, or rejects the item |
| `NodeList.CStrHolds` | tools/krgadm.c:162-167 | Every terminated buffer holds its C string in the sense the parser requires, so no argument is excluded |
| `NodeList.ListMeaning` | tools/krgadm.c:162-188 | Every comma list of numbers and ranges within int is accepted and means exactly the ids it denotes below the number of nodes if and only if no range counts up to the largest int; otherwise the parser does not come back from the first that does |
| `NodeList.RangeToLargestIntIsEndless` | tools/krgadm.c:155 | From no range up to 2147483647 does the parser come back |
| `NodeList.LegibleExactly` | tools/krgadm.c:115-153 | For every text, stated on its characters: an item without a range sign is legible if and only if it is blanks, at most a plus sign, and decimal digits to its end; a range if and only if that holds before its first range sign and, with either sign, behind it |
| `NodeList.NodeValue` | tools/krgadm.c:121-127 | A legible item stands for its decimal value, clamped to long and cut to int |
| `NodeList.RangeValues` | tools/krgadm.c:140-153 | So do the two ends of a legible range, the second one with its sign |
| `NodeList.ListVerdict` | tools/krgadm.c:162-188 | For every list: 1 if and only if every item is legible and none counts past the largest int |
| `NodeList.ListRejected` | tools/krgadm.c:162-188 | -1 if and only if there is an illegible item and all before the first one are accepted |
| `NodeList.EmptyItemIsRejected` | tools/krgadm.c:121-125 | A list with an empty item is never accepted, and the result is -1 if and only if all items before the first illegible one are accepted |
| `NodePrinter.NodeSetStr` | tools/krgadm.c:94-113 | The buffer holds the bracketed ascending list, no write is out of bounds, and everything behind the closing bracket is as `malloc` gave it |
| `NodePrinter.StringExactlyByLuck` | tools/krgadm.c:110-112 | The buffer is the bracketed list as a C string if and only if the byte behind the bracket exists and happened to be zero |
| `NodePrinter.NoZeroNoString` | tools/krgadm.c:99-112 | Memory without a zero byte never makes a string of it, for any set |
| `NodePrinter.FullSetIsNeverAString` | tools/krgadm.c:99-112 | The listing of all 1111 nodes fills the buffer and leaves no byte for a terminator |
| `NodePrinter.BufferSufficesExactly` | tools/krgadm.c:99-110 | The text of every set fits `max*4+2` chars if and only if there are at most 1111 nodes |
| `NodePrinter.PrintParseRoundTrip` | tools/krgadm.c:94-113 | For every non-empty set, parsing the text between the brackets gives the set back |
| `NodePrinter.EmptySetDoesNotRoundTrip` | tools/krgadm.c:102-110 | For the empty set there is no text, which the parser rejects |
| `NodeSelection.KeepFirst` | tools/krgadm.c:471-482 | The delete-while-iterating loop keeps exactly the n smallest members other than the current node |
| `NodeSelection.NodesRemove` | tools/krgadm.c:431-503 | Mode by mode: which set is put in the mask for the kernel, when nothing is asked, and when the request is refused |
| `NodeSelection.RemovesOthersOnly` | tools/krgadm.c:446-482 | In every mode only online nodes are taken out, and never the current one |
| `NodeSelection.TotalLeavesExactly` | tools/krgadm.c:465-466 | `--total t` leaves exactly t nodes, the current one among them if it is online |
| `NodeSelection.CollectFirst` | tools/krgadm.c:234-240 | The collecting loop never runs out of present nodes and takes the i smallest |
| `NodeSelection.WaitForNodesCount` | tools/krgadm.c:195-251 | Stops at the first reply that fails or shows enough present nodes, and takes them from that reply |
| `NodeSelection.WaitForNodes` | tools/krgadm.c:256-306 | Stops at the first reply that fails or shows all nodes of the set |
| `NodeSelection.NodesAdd` | tools/krgadm.c:363-419 | In each mode: what is waited for, and which set is put in the mask for the kernel |
| `NodeSelection.TotalReachesExactly` | tools/krgadm.c:397-403 | `--total t` makes the cluster exactly t nodes large if the online nodes do not change while waiting |
| `CheckpointDriver.Tool.FreezeApp` | tools/checkpoint.c:317-355 | Succeeds exactly if the flag is down at its test, the application runs, the kernel agrees, and the callbacks are disabled, not declared or answer 0; an error of the callbacks is its result; it hangs exactly if declared callbacks never answer, as those of a frozen application |
| `CheckpointDriver.Tool.CheckpointApp` | tools/checkpoint.c:279-315 | The same for taking a checkpoint of a frozen application |
| `CheckpointDriver.Tool.UnfreezeApp` | tools/checkpoint.c:357-406 | The same for unfreezing, where a default run ignores the flag, and the signal is delivered only on success |
| `CheckpointDriver.Tool.FreezeCheckpointUnfreeze` | tools/checkpoint.c:408-427 | For every arrival time of the signal: what froze is thawed if the two calls for that work; 0 only with a checkpoint taken and the application running; the signal only after a checkpoint |
| `CheckpointDriver.Tool.Run` | tools/checkpoint.c:471-484 | What each action does to the application and what it returns |
| `CheckpointDriver.RunAll` | tools/checkpoint.c:408-484 | Any sequence of default runs, each from the world the one before left, is a history in the sense of the following rows |
| `CheckpointDriver.LeftRunningExactly` | tools/checkpoint.c:408-427 | Over any history of default runs with any failures and signals: the application is left running if and only if every run that froze it could thaw it |
| `CheckpointDriver.RefusalIsRespected` | tools/checkpoint.c:328-334 | In any history, a run whose declared callbacks fail or never answer freezes, takes and thaws nothing, never succeeds, and on a running application hangs exactly if they never answer |
| `CheckpointDriver.CallbacksBalance` | tools/checkpoint.c:328-354 | Over any history, calls of the checkpoint callbacks are calls of the continue callbacks plus the runs that asked for the first and then did not freeze |
| `CheckpointDriver.BalancedExactly` | tools/checkpoint.c:412-414 | The two are balanced if and only if every run disabled callbacks, was stopped at its first test, or found the application running with its callbacks and freeze succeeding |
| `CheckpointDriver.CheckpointsCover` | tools/checkpoint.c:408-427 | Over any history, every run reported as successful and every signal delivered is covered by a checkpoint of its own |
| `CheckpointDriver.FrozenStaysFrozen` | tools/checkpoint.c:412-414 | Over any history that begins frozen, no default run succeeds or changes anything but the number of times checkpoint callbacks were asked for, and a run hangs if and only if it asks an application with callbacks for them |
| `ExclusionLists.Regions.ExcludeOn` | libs/libkrgcheckpoint/libkrgcheckpoint.c:302-345 | Without memory or with the address in use it refuses and changes nothing; otherwise it appends, and the list stays sound if and only if the unset field is null and the initialisation succeeds |
| `ExclusionLists.Regions.ExcludeOff` | libs/libkrgcheckpoint/libkrgcheckpoint.c:347-371 | Takes out and frees exactly the region at the address, or changes nothing |
| `ExclusionLists.ListIsOrderedMap` | libs/libkrgcheckpoint/libkrgcheckpoint.c:302-371 | After any sequence of calls, refused ones included, the list that is meant is an insertion-ordered map from address to size |
| `ExclusionLists.RunAll` | libs/libkrgcheckpoint/libkrgcheckpoint.c:302-371 | Over any sequence of calls with any memory and any results of the initialisation, the linked list stays sound and is the list that is meant if and only if every region that was linked was clean and its initialisation worked |
| `ChildList.Children.AddChild` | libs/libkrgcheckpoint/libkrgcheckpoint.c:78-98 | As written, the new child replaces the head |
| `ChildList.Children.RemoveChild` | libs/libkrgcheckpoint/libkrgcheckpoint.c:114-134 | Takes out the first child with the pid and keeps the order of the others |
| `ChildList.Children.RemoveAllChildren` | libs/libkrgcheckpoint/libkrgcheckpoint.c:100-112 | Leaves the empty list |
| `ChildList.NeverMoreThanOne` | libs/libkrgcheckpoint/libkrgcheckpoint.c:92-97 | Over any run the code knows of at most one child |
| `ChildList.KeptIsMeantExactly` | libs/libkrgcheckpoint/libkrgcheckpoint.c:78-134 | The list kept is the list of forked and unreaped children throughout a run if and only if every fork is taken note of and happens when none is left |
| `ChildList.RunAll` | libs/libkrgcheckpoint/libkrgcheckpoint.c:78-134 | The linked list itself follows the list kept through any run |
| `Capabilities.ConstructCapability` | tools/krgcapset.c:107-131 | The word has on exactly the bits that some token names |
| `Capabilities.NamedExactly` | tools/krgcapset.c:112-122 | A list names a capability if and only if some token begins with its name |
| `Capabilities.UpdateCapability` | tools/krgcapset.c:133-150 | Bit by bit: with `+` the bits there were and the named ones, with `-` the bits there were without the named ones, otherwise the named ones |
| `Capabilities.PlusTurnsOn` | tools/krgcapset.c:138-141 | As an option argument, `+` and a list keeps every capability and turns on every named one |
| `Capabilities.MinusTurnsOff` | tools/krgcapset.c:142-145 | `-` and a list turns off exactly the named ones |
| `Capabilities.PlusThenMinus` | tools/krgcapset.c:313-362 | `+L` and then `-L` for a word leave the named bits off and all others as they were |
| `Capabilities.OnlyUp` | tools/krgcapset.c:313-362 | Any number of `+` lists never turn a bit off |
| `Capabilities.OnlyDown` | tools/krgcapset.c:313-362 | Any number of `-` lists never turn a bit on |
| `Capabilities.SelectsIsMatches` | tools/krgcapset.c:117-122 | No name is the beginning of another, so the first match is the only one |
| `Capabilities.OrderIsIrrelevant` | tools/krgcapset.c:107-131 | Order and repetition of tokens do not matter |
| `Capabilities.WordIsDetermined` | tools/krgcapset.c:107-150 | Words with the same bits are equal, so the above determines the number |
| `Capabilities.PrintedReads` | tools/krgcapset.c:88-105 | The octal text of every 32-bit word is read back by base-0 `strtol` as that number, to its end |
| `Capabilities.ShowThenSet` | tools/krgcapset.c:329-335 | Giving back what was shown restores every word, the negative ones included, whatever the process has now |
| `Capabilities.NewValue` | tools/krgcapset.c:330-333 | A number if the whole argument is one, a list of names otherwise |
| `Capabilities.NumberSets` | tools/krgcapset.c:330-333 | A decimal, octal or hexadecimal number with any sign replaces the word by its low 32 bits |
| `Capabilities.NamesReplace` | tools/krgcapset.c:330-333 | A list of names without a sign replaces the word by what it names |
| `Capabilities.NumberAndMoreIsNoNumber` | tools/krgcapset.c:331-332 | A number with something behind it is taken for a list |
| `Capabilities.Caps.SecondPass` | tools/krgcapset.c:313-362 | Each of the four words ends as its own options make it, in order, and no option touches another word |
| `CText.NumeralReads` | tools/krgadm.c:107 | The digits printed for a number are digits of the base and stand for that number |
| `CText.StrtolDigits` | tools/krgadm.c:121 | A digit string followed by something else is read to its end, with its value clamped to long |
| `CText.NumberTextExactly` | tools/krgadm.c:121-122 | For every text: it is read to its end if and only if it is blanks, at most one sign, and decimal digits |
| `CText.DecimalInBaseZero` | tools/krgcapset.c:330 | In base 0, digits without a leading zero are decimal, with any sign |
| `CText.OctalInBaseZero` | tools/krgcapset.c:330 | With a leading zero they are octal |
| `CText.HexInBaseZero` | tools/krgcapset.c:330 | With `0x` or `0X` in front they are hexadecimal |
| `CText.Places` | tools/krgadm.c:107 | The value of digits followed by digits is the first value times the weight of the places, plus the second |
| `CText.SplitAppend` | tools/krgadm.c:167-175 | Cutting at the last comma splits off exactly the last item |

## Left out

- Kernel services behind `call_kerrighed_services`, `libproc.c` and `libkerrighed_tools.c`: only their results appear, as parameters.
- Floating-point rounding, infinities and the limits `MAXCOLS` and `MAXROWS` of `up-gs.c`: the matrix is as large as its used part and its entries are exact reals.
- GramSchmidt.UpMgs: stops at a zero norm, where the program goes on with an infinite factor.
- Barrier.BarrierIsSafe: is about schedules without spurious wake-ups, those with them are the subject of Barrier.SafeDespiteSpuriousExactly; `nr_thr` fits an int.
- CallbackProtocol.CheckpointVerdict: assumes working system calls; failing `msgget`, `kill`, `msgrcv` and `msgctl` only add early returns of -1. Calls that overlap in time are not part of the model.
- CallbackSignals.VerdictsRightWithSignalsExactly: signals are handled one at a time; an application with further threads that do not block them could be in two handlers at once, which is not part of the model.
- CallbackRegistry.Perform: the mutex is as the worker leaves it while it waits; signals that arrive between the calls of the library are the subject of the protocol, not of the registry.
- NodeSelection.WaitForNodes: whether the nodes ever join depends on the cluster, so what holds when the wait ends is stated, and not that it ends.
- NodeSelection.WaitForNodesCount: likewise.
- NodeMask.FromVector: requires at most 256 nodes, because with more the C code writes behind the mask; the field `subclusterid` of the request is not part of the model.
- NodeSelection.NodesAdd: requires at most 256 nodes for the same reason.
- NodeSelection.NodesRemove: requires at most 256 nodes for the same reason.
- NodePrinter.NodeSetStr: requires that the text of the set at hand fits the buffer, because otherwise the C code writes behind it; NodePrinter.BufferSufficesExactly says when it always does.
- `strsep` cuts the capability list in place; the tokens are the same, the cut text is not part of the model.
- `cr_mm_exclusion_checkpoint_cb` and `cr_mm_exclusion_restart_cb` walk the two lists and call out: they would only add easy members.
- The race between `handle_sigchild` and the list code it interrupts.
- Option parsing with getopt, messages, descriptions of checkpoints, directory cleanup, and the confirmation question of `krgcapset`.
- `tools/restart.c`, `tools/migrate.c`, `tools/ipccheckpoint.c`, `tools/ipcrestart.c`, `tools/krginit.c`, `tools-host/krgboot.c`, `libs/libkerrighed/libcapability.c`, `libs/libkerrighed/libipc.c` and `libs/kerrighed.py`: thin wrappers over system calls.
