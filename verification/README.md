# ciron: a verified model of the process supervisor

This project models the process supervisor of the `cirond` daemon, the two places that drive it
(the event loop and the gRPC handlers), the log path, and the transport address format, and proves
what they keep in every run.

## What is modelled

**Start order** (`Configuration`, `Discovery`, `KahnOrder`, `EdgeCounts`, `Resolution`, `ListingOrder`,
`Resolver`, over `Graphs`, `Worklist` and `Sequences`). Both loops of `resolve_start_order` are FIFO worklists.
`Worklist` shows that such a worklist has exactly one complete run; that run *is* the start order
(`Resolution.StartOrder`), and everything about the order is proved of it: the closure, the part
sorted by Kahn's algorithm, the layers, the fallback for cycles; `ListingOrder` tells it from the lists
in the configuration alone. `Resolver` has the computation as
the code has it, with its lists, sets, maps and queues, including in-degrees counted with
multiplicity, duplicate `after` entries, self-loops and unknown names; it is proved to return
exactly that order.

**Supervision** (`Supervisor`, `Ledger`, `Invariants`, `Machine`, `Comeback`, `Starting`,
`Operations`, `Refinement`, `Batches`, `Workload`, `Revival`, `DoubleMonitors`, `ProcessManager`,
`Witnesses`). `Supervisor.System` is the program table, the event
queue and the environment: monitor tasks, restart timers, and the history. `Machine` interleaves
manager operations (one spawn attempt, one handled event, one stop at a time) with moves of monitors
and timers in every possible way; `IsRun` is any such run. `ProcessManager` is the object whose
methods update the same fields in place; each method is proved against a function of the old state,
or against the interleavings that may happen during it (`Batches.Amid`), and `Refinement` and
`Batches` show that these are runs of the machine, so that the object's states are states of runs
(`Valid`). `Batches` has what starting achieves when monitors and timers move between its attempts,
`Workload` how many events the loop can come to handle.

**Logs** (`LogBuffer`, `LogFollow`, `LogLag`, `GetLogs`). The ring buffer against everything ever pushed, and
the stream "snapshot, then follow", where a writer's push and broadcast are two separate steps and
so are the reader's snapshot and subscription.

**Transport addresses** (`Transport`). Parsing and printing with real decimal numbers.

How the environment appears:

- Spawning is an oracle. A start request is given the outcome of every attempt it may make
  (`Spawns`: the pids of those that succeed), autostart one such set of outcomes for every program it
  visits; the machine chooses an outcome per attempt.
- A monitor task that was told to abort is `dying` until the abort lands; before that it may still
  send its event. Theorems that need abort to take effect at once say so by excluding `LateEnds`.
- The sleeps of 100 ms, 1 s and 2 s are points at which any number of environment moves may happen.
- A hash map's iteration order is a parameter (`listing`); theorems hold for every listing.
- "Before shutdown" means that the event channel has not been closed: afterwards sent events are
  lost, and what was buffered is still handled (`Operations.DrainAfterClose`).
- A spawn is one step: the child's pid, the `Started` event, the monitor and the flag appear
  together. The write lock is held meanwhile, and the monitor starts after `Started` is sent, so
  nothing can tell the difference.

Where documentation and code disagree the model follows the code: `README.md:102-104` and
`ciron-common/src/config.rs:83-87` say that `after` never starts anything by itself, but
`cirond/src/process.rs:206-210` follows it, as the test at `cirond/src/process.rs:611-619` expects.
`Witnesses.AfterAlonePullsIn` is a configuration in which they differ, and
`Resolution.AsDocumentedIff` says exactly when they agree.

Some promises one might expect do not hold. For each, `Witnesses` has a run in which it fails, and
beside it stands the exact condition:

- never two live monitors of one program (`TwoLiveMonitors`): `DoubleMonitors.SecondMonitorIff`, with
  `Machine.OneWatcherInRuns` for whole runs;
- a program with a restart policy comes back (`FailedRestartIsFinal`, `FailureIsFinal`):
  `Comeback.ComingInRuns`;
- a stopped program stays down (`StoppedComesBack`): `Revival.ReturnsIff`;
- nothing runs after everything was stopped (`RunsAfterStopAll`): `Revival.DaemonStopsForGoodIff`;
- a follower gets no line twice (`LineRepeated`): `LogFollow.RepeatedIff`;
- a follower misses no line (`LineMissing`): `LogFollow.MissedIff`, and `LogLag.LostIff` for one that
  falls behind.

Likewise `Transport.PrintThenParse` for addresses.

## Model

| member | source | states |
|---|---|---|
| Discovery.DiscoveryExists | cirond/src/process.rs:200-225 | The breadth-first loop ends for every configuration and known root, and has a single possible outcome. |
| Discovery.DiscoveryIsClosure | cirond/src/process.rs:200-225 | The discovered list is exactly the known programs reachable from the root over `after` and `wants`, without duplicates, root first. |
| Discovery.DiscoveryByDistance | cirond/src/process.rs:200-225 | Hop distance from the root never decreases along the discovered list. |
| ListingOrder.GraphsOfConfig | cirond/src/process.rs:200-240 | The edges read off the configuration: `after` orders programs, and the known entries of `after` and of `wants` pull programs in. |
| ListingOrder.DiscoveredAsListed | cirond/src/process.rs:200-225 | Of two discovered programs the one first listed by an earlier entry stands earlier, and of those first listed by the same entry the one at the smaller position of its `after` followed by its `wants`. |
| ListingOrder.FirstListedBefore | cirond/src/process.rs:200-225 | Every discovered program but the root is first listed by an entry before it, at some position. |
| KahnOrder.ServedDistinct | cirond/src/process.rs:242-258 | Each program enters the ready queue at most once. |
| KahnOrder.EmissionExists | cirond/src/process.rs:242-258 | The ready queue runs empty, with a single possible outcome. |
| KahnOrder.EmittedIffNoCycleAhead | cirond/src/process.rs:229-258 | A discovered program is emitted iff no chain of `after` leads from it into a cycle. |
| KahnOrder.EmitsAllIffAcyclic | cirond/src/process.rs:229-271 | Everything is emitted iff `after`, on the discovered programs, is acyclic (the test for the fallback). |
| KahnOrder.EmittedByDepth | cirond/src/process.rs:242-258 | The emitted list comes in layers: an `after` chain ahead of an earlier program is matched in length by one ahead of every later program. |
| KahnOrder.EmittedDepthBounded | cirond/src/process.rs:242-258 | Depth is finite along the emitted list: no `after` chain is longer than the position of its first program. |
| EdgeCounts.EdgesCountedAlike | cirond/src/process.rs:233-240 | An edge is recorded among the dependents as often as it is counted in the in-degree, for duplicate entries and self-loops too. |
| EdgeCounts.PendingAfterEmit | cirond/src/process.rs:249-253 | Emitting a program lowers the number of entries still pending for a unit by exactly the number of times the unit lists that program. |
| EdgeCounts.HitsAreReleased | cirond/src/process.rs:251-257 | One decrement per recorded edge releases exactly the units whose whole count was on the emitted program, each once, in discovery order. |
| EdgeCounts.PendingMeetsGraph | cirond/src/process.rs:233-246 | A unit's count is zero iff all its known `after` targets have been emitted. |
| Resolution.StartOrderUnique | cirond/src/process.rs:192-274 | Any complete discovery and any complete emission give the same start order. |
| Resolution.OrderListsClosureOnce | cirond/src/process.rs:192-274 | The order lists every program of the closure exactly once and nothing else; the root is in it once (so the `expect` at line 302 cannot fail). |
| Resolution.SortedPartExact | cirond/src/process.rs:229-258 | The sorted part is the closure members with no `after` cycle ahead, each preceded by all its known `after` targets. |
| Resolution.AfterTargetsFirst | cirond/src/process.rs:182-188 | A program with no `after` cycle ahead is started after each of its known `after` targets. |
| Resolution.SortCoversIffAcyclic | cirond/src/process.rs:260-271 | The sort covers the whole closure iff `after` restricted to it is acyclic. |
| Resolution.LeftOverKeepsDiscoveryOrder | cirond/src/process.rs:266-270 | What a cycle keeps from being sorted follows in discovery order. |
| ListingOrder.EmittedAsReleased | cirond/src/process.rs:242-258 | The emitted list is ordered by the moment the last known `after` target is placed, and for programs released at one moment by discovery. |
| ListingOrder.SortedAsReleased | cirond/src/process.rs:229-258 | The same of the sorted part of a start order; with ListingOrder.ReleasedBefore, which gives every program its moment, this fixes the order. |
| ListingOrder.ReleasedBefore | cirond/src/process.rs:242-258 | Every program of the sorted part has its last known `after` target placed before it. |
| ListingOrder.FreeKeepDiscoveryOrder | cirond/src/process.rs:242-246 | Programs without known `after` targets are started in the order of discovery. |
| ListingOrder.FreeComeFirst | cirond/src/process.rs:242-258 | And before every other program. |
| Resolution.SortedPartByDepth | cirond/src/process.rs:242-258 | The sorted part of a start order has nondecreasing, finite longest-chain depth. |
| Resolution.DiscoveredByDistance | cirond/src/process.rs:197-225 | The discovery behind a start order has nondecreasing hop distance. |
| Resolution.AfterPullsIn | cirond/src/process.rs:206-210 | A known `after` target of a closure member is in the closure and is started, against the documentation. |
| Resolution.AsDocumentedIff | cirond/src/process.rs:206-210 | The code starts what the documentation says, the programs reached over `wants`, iff every one of those has all its known `after` targets among them. |
| Resolver.Discover | cirond/src/process.rs:200-225 | The loop over `discovered`, `seen` and `queue` computes the complete discovery. |
| Resolver.Scan | cirond/src/process.rs:206-224 | One served entry: its known dependencies not seen yet join list and queue, in order. |
| Resolver.CountEdges | cirond/src/process.rs:229-240 | Every in-degree is the number of `after` entries naming discovered programs, and every edge is recorded at its target, both with multiplicity. |
| Resolver.InitiallyReady | cirond/src/process.rs:242-246 | The ready queue starts with the discovered programs without known `after` targets, in discovery order. |
| Resolver.EmitReady | cirond/src/process.rs:247-258 | The ready loop computes the complete emission; in-degrees always equal the entries still pending, no decrement goes below zero, no lookup misses. |
| Resolver.Lower | cirond/src/process.rs:251-257 | The inner loop takes each count down by the number of listed edges and queues a unit exactly when its count reaches zero. |
| Resolver.AppendMissing | cirond/src/process.rs:260-271 | Programs the sort did not emit, and only those, are appended in discovery order. |
| Resolver.ResolveStartOrder | cirond/src/process.rs:192-274 | An error iff the root is unknown, otherwise exactly the start order. |
| Invariants.BalancesKept | cirond/src/process.rs:376-440 | Every single change keeps: spawns = `Started` events = live, dying and torn-down monitors plus ends sent. |
| Invariants.StartsLeadKept | cirond/src/process.rs:376-394 | Every single change keeps: no prefix of the history has more ends than starts. |
| Invariants.RestartsConservedKept | cirond/src/process.rs:471-489 | Every single change keeps: restartable exits handled = timers + requests queued + requests handled. |
| Invariants.ExitsLeadKept | cirond/src/process.rs:471-489 | Every single change keeps: no prefix of the history has more restart requests than restartable exits. |
| Invariants.WatchedKept | cirond/src/process.rs:382-497 | Every single change keeps: a running program has its current monitor live, or its end queued. |
| Invariants.ComesBackKept | cirond/src/process.rs:396-503 | Every single change keeps: an undisturbed program runs or its restart is under way. |
| Machine.EventLedger | cirond/src/process.rs:376-394 | In every run before shutdown: at least as many `Started` as `Exited` plus `Failed` in every prefix of the history, and spawns = live + dying + torn-down monitors + queued ends + handled ends. |
| Machine.RunningIsWatched | cirond/src/process.rs:442-497 | In every run before shutdown: a program marked running has its current monitor live or an end of it in the queue, stale events or not. |
| Machine.StopHitsOneInstance | cirond/src/process.rs:413-443 | In every run: a stop of a running program sends one SIGTERM, to the child of the very monitor its handle names, and aborts that monitor and no other. |
| Machine.HandlingStartsTimer | cirond/src/process.rs:463-489 | Handling the next event raises the timers of a program by one iff it is an exit of that configured program and its policy is `always`, or `on-failure` and the code is not zero (a signal death is -1); by nothing else, ever. |
| Machine.MonitorReports | cirond/src/process.rs:382-394 | A monitor reports the code of its child, or the error of waiting for it, under the name of its program. |
| Machine.SpawnStores | cirond/src/process.rs:345-397 | A spawn stores the pid of the child under the program and under its new monitor, a task that is neither live nor dying, and sends one `Started`. |
| Machine.NothingRuledOut | cirond/src/process.rs:280-577 | The machine leaves nothing out: every monitor may end in any way, after an abort too, every timer may fire, an idle manager may serve any request, and an attempt may turn out either way. |
| Machine.MarksWritten | cirond/src/process.rs:402-503 | The history that statements about runs speak of: a handled end is written down with its code, a stop iff the program runs, an attempt with its outcome, a landed abort, and nothing else. |
| Machine.RestartConservation | cirond/src/process.rs:471-502 | In every run before shutdown: pending timers + queued requests + handled requests = all handled exits under `always`, the handled exits with a nonzero code under `on-failure`, and none under any other policy. |
| Machine.RequestHasExit | cirond/src/process.rs:471-489 | In every run before shutdown: each restart request answers an earlier exit of the same program that its policy restarts. |
| Machine.RequestsAnswerDistinctExits | cirond/src/process.rs:471-489 | Two requests answer two different exits, both of them exits that the policy restarts; under `on-failure` both codes are nonzero. |
| Machine.UndisturbedComesBack | cirond/src/process.rs:396-503 | In every run before shutdown: a program with `always` or `on-failure` that was spawned, with no stop of it while running, no failed start and no failure since, and under `on-failure` no exit with code 0, runs, has a timer pending, has a request queued, or is in the batch being started. |
| Comeback.UnderWayKeptIff | cirond/src/process.rs:402-503 | One change before shutdown keeps "runs, has a timer, or has a request queued" iff it is no loss: with nothing else pending, a stop that finds it running, the handling of an end that its policy does not restart, or the taking of its last request while it is down. |
| Comeback.ComingKeptIff | cirond/src/process.rs:280-503 | The same for one action of the daemon, counting a program in the open batch, or in what a pausing restart will start, as coming: the losing actions are the stop, the final end, and its last attempt failing. |
| Comeback.ComingInRuns | cirond/src/process.rs:280-503 | From any state of any run in which a program runs or is under way, it stays so in every state up to shutdown iff no losing action is taken. |
| Machine.OneWatcherKeptIff | cirond/src/process.rs:402-497 | One change keeps "one live monitor or queued end iff running" iff it is neither a stop landing on a queued end nor a late event of an aborted monitor. |
| Machine.OneWatcherInRuns | cirond/src/process.rs:311-503 | A run before shutdown has, in all its states, exactly one live monitor or queued end for the program iff it runs, precisely when none of its actions is such a hazard; then there are never two live monitors. |
| DoubleMonitors.SecondMonitorIff | cirond/src/process.rs:311-497 | From any state before shutdown, some continuation without hazards comes to two live monitors of a program iff the state does not have exactly one live monitor or queued end for it if it runs, and none otherwise. |
| Starting.BatchRunning | cirond/src/process.rs:284-300 | Starting a list of programs adds exactly its spawnable members to the running set. |
| Starting.StartAgain | cirond/src/process.rs:280-303 | Starting the same program again at once, with the same programs spawnable, changes nothing but the record of failed attempts. |
| Starting.PulledClosed | cirond/src/process.rs:169-173 | What was pulled in by earlier roots is closed: an already running root would bring in nothing new. |
| Starting.BroughtBounds | cirond/src/process.rs:168-177 | Skipping a root that runs already loses nothing: in whatever order the roots are visited, what is pulled in and never fails to spawn is brought, and what is brought is pulled in and was spawnable in some visit. |
| Batches.BatchProgress | cirond/src/process.rs:284-300 | For every interleaving of a batch with monitor and timer moves: the programs attempted run as far as they can be spawned, the `Started` events that join the queue name exactly the newly started ones in resolved order, no other entry changes. |
| Batches.StartAmidFacts | cirond/src/process.rs:280-303 | `start_process`, whatever monitors and timers do between its attempts: the running set becomes the old one plus the spawnable closure, with `Started` in resolved order; only newly started programs change; success means the root runs, whatever its dependencies did. |
| Batches.EveryBatchRun | cirond/src/process.rs:280-303 | Every run of attempts and environment moves from a start request to the end of its batch is such a start, for the outcomes its attempts had. |
| Batches.StartAgainAmid | cirond/src/process.rs:280-303 | Starting the same program again, with the same programs spawnable, spawns nothing and sends no `Started`, whatever monitors and timers do during both starts. |
| Batches.BatchTurn | cirond/src/process.rs:284-300 | One turn of the start loop, environment moves first, continues the interleaving and its progress; the root succeeds iff it ran before or can be spawned. |
| Batches.AutostartFacts | cirond/src/process.rs:160-180 | Autostart of a freshly loaded configuration, for every order of the roots, all spawn outcomes of every visit and every interleaving: exactly what the visits bring runs, each program of it has sent one `Started`, and targets whose spawns do not fail come first. |
| Batches.RunningRootLeftAlone | cirond/src/process.rs:169-173 | An autostart program that runs already is left alone: no attempt is made, only monitors and timers move. |
| Batches.AutostartRunning | cirond/src/process.rs:160-180 | With nothing running before, autostart ends with everything running that the roots pull in and whose spawns do not fail, and with nothing that is not pulled in or could never be spawned; with steady outcomes exactly the spawnable members of the union of the closures run. |
| Batches.AutostartOrderIrrelevant | cirond/src/process.rs:161-168 | With the same programs spawnable in every visit, that set is the same for every iteration order of the program map and every interleaving. |
| Batches.AutostartTargetsFirst | cirond/src/process.rs:168-177 | Over the whole autostart sequence, for every order of the roots and every interleaving, a program with no `after` cycle ahead is started after each of its known `after` targets whose spawns do not fail. |
| Batches.AcyclicAutostartTargetsFirst | cirond/src/process.rs:168-177 | With `after` acyclic and every spawn succeeding this holds of every program. |
| Operations.HandleLowers | cirond/src/process.rs:456-513 | Handling one event lowers (queued restart requests, queue length) lexicographically, and lowers the number of events still to handle. |
| Operations.DrainBounded | cirond/src/main.rs:220-223 | While no monitor and no timer moves, the drain ends with an empty queue after at most as many events as were queued, plus queued ends, plus programs not running; every program then listed as running has its current monitor live (before shutdown). |
| Workload.PotentialStep | cirond/src/process.rs:456-513 | Every single change leaves at most as much to handle as there was, less the event it takes, plus its own load: two for an end that a monitor sends, one for a timer or a stop. |
| Workload.HandledBounded | cirond/src/process.rs:456-513 | In every run, whatever is interleaved: events handled, and still to handle, are at most what there was to handle plus the loads of monitors, timers and stops. |
| Workload.HandledInRuns | cirond/src/main.rs:216-225 | From a loaded configuration: at most one event per program, two per end sent, one per timer and per stop or restart request. |
| Operations.DrainAfterClose | cirond/src/process.rs:574-577 | After closing, a drain handles exactly the events that were buffered, each once, in order. |
| Operations.StopAllFacts | cirond/src/process.rs:564-572 | Stopping the listed programs, in any order, clears exactly the entries that were running; queue and restart timers stay. |
| Operations.StopAllTasks | cirond/src/process.rs:437-440 | Stopping the listed programs tells exactly the monitors that their handles name to abort, those that are still at work, and no other. |
| Operations.StopFacts | cirond/src/process.rs:402-446 | A stop changes only the entry of a running program; it removes no event and cancels no timer. |
| Refinement.StartIsRun | cirond/src/process.rs:280-303 | `start_process` without environment moves, with any spawn outcomes, is a run of the machine. |
| Refinement.HandleIsRun | cirond/src/process.rs:456-513 | Handling one event is a run of the machine. |
| Refinement.MovesLeaveManager | cirond/src/process.rs:382-394 | Monitors and timers never touch the program table; they only append to the queue. |
| Batches.RestartIsRun | cirond/src/process.rs:448-454 | A restart with any environment moves during its pause and between its attempts is a run of the machine. |
| Batches.RestartFacts | cirond/src/process.rs:448-454 | Whatever happens during the pause and between the attempts, after a restart the program runs iff its own spawn succeeded, its closure runs as far as it can be spawned, and no other flag changes. |
| Revival.ReturnsIff | cirond/src/process.rs:402-513 | A program that is down comes up in some continuation without start or restart request iff some program that pulls it in has a restart request queued or, before shutdown, a timer pending, a restartable exit queued, or a monitor that may still report and a restart policy. |
| Revival.NothingReturnsIff | cirond/src/process.rs:564-577 | With the channel closed and nothing running, nothing ever runs again iff no restart request of a configured program is queued. |
| Revival.DaemonStopsForGoodIff | cirond/src/main.rs:338-342 | After the daemon has closed the channel and stopped everything, nothing ever runs again iff no restart request of a configured program was queued. |
| ProcessManager.ProcessManager.constructor | cirond/src/process.rs:132-139 | A new manager is the valid state without programs. |
| ProcessManager.ProcessManager.LoadFromConfig | cirond/src/process.rs:141-158 | Every configured program gets a fresh entry, in whatever order the map is walked; on a new manager this is the valid, freshly loaded state, and over running programs the structure is kept, with all that holds of programs whose restart policy stays. |
| ProcessManager.ProcessManager.StartProcessSingle | cirond/src/process.rs:305-400 | Unknown: error. Running: nothing. Otherwise one attempt: on failure only an error, on success pid, `Started`, monitor and flag. |
| ProcessManager.ProcessManager.StartProcess | cirond/src/process.rs:280-303 | The in-place loop, with any monitor and timer moves before each attempt, is one of the interleavings of Batches.StartAmidFacts; without moves it is the sequential start; it returns the root's own result, which is always there. |
| ProcessManager.ProcessManager.StopProcess | cirond/src/process.rs:402-446 | Error iff unknown; signal, abort and clear iff running; validity kept. |
| ProcessManager.ProcessManager.RestartProcess | cirond/src/process.rs:448-454 | Stop, pause with any environment moves, start with any moves between its attempts; success iff the program is known and its spawn succeeds. |
| ProcessManager.ProcessManager.NoteEnd | cirond/src/process.rs:463-497 | An end clears the flag of its program only; one timer is added iff it is an exit of a configured program under `always`, or under `on-failure` with a nonzero code; a failure adds none. |
| ProcessManager.ProcessManager.HandleSingleEvent | cirond/src/process.rs:456-513 | At most one event, the oldest, is taken; an end is noted, an exit starts one timer iff the policy is `always`, or `on-failure` and the code is not zero; a restart request starts its program amid any environment moves; false iff there was none. |
| ProcessManager.ProcessManager.DrainEvents | cirond/src/main.rs:216-225 | The event loop's inner loop, with any finite number of monitor and timer moves before its events and attempts, ends with an empty queue, having handled at most what there was to handle plus the load of the moves; every program then listed as running has its current monitor live (before shutdown). |
| ProcessManager.ProcessManager.AutostartPrograms | cirond/src/process.rs:161-166 | The autostart programs, in map order. |
| ProcessManager.ProcessManager.StartAllAutostart | cirond/src/process.rs:160-180 | The in-place loop, with any monitor and timer moves all along, is one of the interleavings of Batches.AutostartFacts, for every map order. |
| ProcessManager.ProcessManager.StopAllProcesses | cirond/src/process.rs:564-572 | After stopping everything no program is marked running. |
| ProcessManager.ProcessManager.ListProcesses | cirond/src/process.rs:515-520 | Every program once, with true iff it is in the running set. |
| ProcessManager.ProcessManager.Shutdown | cirond/src/process.rs:574-577 | Closes the channel and nothing else. |
| ProcessManager.Boot | cirond/src/main.rs:166-179 | Load, then autostart, for every map order, all spawn outcomes and whatever monitors and timers do meanwhile: everything the autostart programs pull in runs unless a spawn of it fails, and nothing else does; with steady outcomes exactly the spawnable part runs. |
| LogBuffer.NewestHoldSuffixPerSource | cirond/src/process.rs:106-112 | Of each source, the newest lines of a history, however many are asked for, hold a suffix of everything that source pushed, however stdout and stderr interleave. |
| LogBuffer.ProcessLog.Push | cirond/src/process.rs:106-112 | The buffer is the last min(1000, n) of the n lines pushed. |
| LogBuffer.ProcessLog.RecentLines | cirond/src/process.rs:537-544 | Exactly the last k lines of the whole history, k being the least of its length, 1000, and the number asked for unless that is 0; per source a suffix. |
| LogBuffer.GetRecentLogs | cirond/src/process.rs:524-545 | Error iff the program is unknown or does not forward its logs; otherwise exactly the last k lines of its history, as in RecentLines. |
| LogFollow.EveryRun | cirond/src/process.rs:106-114 | In every interleaving: each writer's lines are numbered without gaps in buffer and broadcast, at most one is pushed but not broadcast, and the client holds part of the snapshot and then increasing positions of the broadcast. |
| LogFollow.SnapshotTakesNewest | cirond/src/grpc_server.rs:300-304 | The snapshot of a stream has the last k lines pushed, k as in RecentLines. |
| LogFollow.NothingRuledOut | cirond/src/process.rs:105-115 | The stream model leaves nothing out: a writer can always push or broadcast, whatever other writers and the reader do, and the reader never waits for a writer but for the next line. |
| LogFollow.DeliveredInOrder | cirond/src/grpc_server.rs:298-342 | In every interleaving of writers, snapshot, subscription and lag: one writer's lines reach the client strictly increasing, but for a line repeated across the seam. |
| LogFollow.OneRepeatPerWriter | cirond/src/grpc_server.rs:298-342 | At most one line per writer is repeated, once, and nothing of that writer lies between. |
| LogFollow.RepeatedWasInFlight | cirond/src/process.rs:106-114 | A repeated line was pushed before the snapshot and not broadcast before the subscription. |
| LogFollow.RepeatedIff | cirond/src/grpc_server.rs:301-341 | Without lag, a caught-up client has a line twice iff the line is in its snapshot and was broadcast by now, but not before the subscription. |
| LogFollow.CaughtUpExactly | cirond/src/grpc_server.rs:320-341 | Without lag a caught-up client has exactly the snapshot followed by everything broadcast since the subscription. |
| LogFollow.MissedIff | cirond/src/grpc_server.rs:301-311 | A line pushed after the snapshot is missing iff it was broadcast before the subscription. |
| LogLag.LagPossibleIff | cirond/src/process.rs:144-154 | A follower may lag just when it is more than 1000 lines behind. |
| LogLag.LostIff | cirond/src/grpc_server.rs:331-341 | Exactly what a follower loses of the lines it has passed: those that a lag skipped and that were not in its snapshot. |
| LogLag.NewestDelivered | cirond/src/process.rs:144-154 | The newest 1000 of the lines a follower has passed are never lost. |
| LogLag.CompleteIffNeverLagged | cirond/src/grpc_server.rs:331-341 | A follower has received every line it has passed iff it has never lagged. |
| LogLag.NearGetsEverything | cirond/src/process.rs:144-154 | A follower that is never more than 1000 lines behind gets every line broadcast since it subscribed. |
| GetLogs.Forward | cirond/src/grpc_server.rs:320-342 | As far as the client accepts: the snapshot, then in order the lines at exactly those positions of the results that hold a line and stand before the first `Closed`; a lag is passed over, and the stream ends at `Closed`, at the end of the results, or when a send fails. |
| GetLogs.ForwardFollow | cirond/src/grpc_server.rs:331-341 | The follow loop on its own: every line before the first `Closed`, in order, lags passed over, as far as the client accepts. |
| GetLogs.Serve | cirond/src/grpc_server.rs:287-347 | Not found iff the program is unknown or does not forward its logs; otherwise the last k lines of its history, zero and negative counts meaning all buffered, and then what Forward sends. |
| Transport.ParseDigitsExact | ciron-common/src/transport.rs:49-61 | Checking every digit, product and sum accepts exactly the digit strings whose value fits the type. |
| Transport.NumberRoundTrip | ciron-common/src/transport.rs:69-76 | A printed number parses to itself iff it fits the type. |
| Transport.ParseUnsignedExact | ciron-common/src/transport.rs:49-61 | A text is accepted as a number iff it is an optional '+' and at least one digit, of a value that fits. |
| Transport.SplitJoins | ciron-common/src/transport.rs:44-56 | Splitting at ':' loses nothing and leaves no ':' in a part. |
| Transport.SplitInTwo | ciron-common/src/transport.rs:44-58 | Exactly two parts mean exactly one ':' between them. |
| Transport.AcceptedInet | ciron-common/src/transport.rs:44-50 | What follows the prefix is accepted as (host, port) iff it is the host without ':', one ':', and a text denoting the port: an optional '+' and at least one digit, of a value up to 65535. |
| Transport.AcceptedVsock | ciron-common/src/transport.rs:55-62 | The same for cid and port, in this order, both up to 4294967295. |
| Transport.ParseExact | ciron-common/src/transport.rs:39-66 | A string is parsed as a transport iff it is one of the ways to write it down: `inet://` or `tcp://` with host and port, `unix://` with any path, `vsock://` with cid and port. |
| Transport.RefusedIff | ciron-common/src/transport.rs:39-66 | A string is refused iff it is no way to write down any transport. |
| Transport.PrintedForm | ciron-common/src/transport.rs:69-76 | A transport is printed with the prefix of its kind (`inet://`, never `tcp://`), its numbers in decimal without sign or leading zeros. |
| Transport.PrintThenParse | ciron-common/src/transport.rs:39-76 | Printing then parsing gives the transport back, over the full u16 and u32 ranges, iff it is not an inet host with ':' in it; such a host is refused. |
| Transport.ParsedIsPrintable | ciron-common/src/transport.rs:39-66 | Whatever is accepted is in range and has no ':' in an inet host. |
| Transport.AcceptedThenPrinted | ciron-common/src/transport.rs:39-76 | For every accepted string, with `tcp://`, leading zeros or '+', the printed form parses to the same transport. |
| Transport.ReportedTypeIsVariant | cirond/src/grpc_server.rs:59-75 | The type reported for a served transport tells its variant and is never unspecified. |
| Transport.ReportedTypeOfAccepted | cirond/src/grpc_server.rs:59-75 | The type reported for any address that parses, `tcp://` included, is the variant it parses to. |
| Witnesses.TwoLiveMonitors | cirond/src/process.rs:463-468 | A stop landing on a queued exit leaves a stale event that clears the next instance's flag; then one program can have two live monitors. |
| Witnesses.StoppedComesBack | cirond/src/process.rs:408-411 | Stopping a program that is down does not cancel its restart timer: the timer, one event and one spawn later it runs. |
| Witnesses.FailedRestartIsFinal | cirond/src/process.rs:498-502 | A program with `always` that was spawned, exited and was restarted in vain stays down in every continuation without start or restart request. |
| Witnesses.FailureIsFinal | cirond/src/process.rs:492-497 | A program that was spawned and whose wait failed stays down in every continuation without start or restart request, whatever its policy. |
| Witnesses.RunsAfterStopAll | cirond/src/process.rs:564-577 | A request buffered when the channel is closed can start its program after everything was stopped. |
| Witnesses.AfterAlonePullsIn | cirond/src/process.rs:611-619 | A configuration where the documentation has a program come up alone and the code starts its `after` target first. |
| Witnesses.AfterBeforeWants | cirond/src/process.rs:206-210 | `web` with `after = ["db"]` and `wants = ["cache"]`: discovered as web, db, cache, started as db, cache, web. |
| Witnesses.LineRepeated | cirond/src/process.rs:106-114 | A follower can get a line twice. |
| Witnesses.LineMissing | cirond/src/grpc_server.rs:301-311 | A follower that never lags can miss a line. |
| Witnesses.OrderDiffers | cirond/src/process.rs:106-114 | Between stdout and stderr there is no order: a follower can get two lines in the order opposite to that of the buffer. |

## Left out

- Operating system effects: spawning, pipes, waiting, delivery of SIGTERM and reuse of pids. Children
  are known by the monitor that waits for them; a stop sends its signal and does not wait.
- Command parsing (`shell_words`), the environment of a child and the empty command: part of the
  spawn oracle, which may fail.
- Clocks: the three delays are interleaving points, timestamps are opaque numbers.
- Text of errors and log messages; only which case is an error is modelled.
- A second load over running programs is no step of the machine: the daemon loads once, before anything
  runs. ProcessManager.ProcessManager.LoadFromConfig says what such a load would keep.
- A drain that monitors and timers feed without end: ProcessManager.ProcessManager.DrainEvents has any
  finite number of moves, Workload.HandledBounded bounds every run.
- Machine: the event loop's drain holds the write lock from the first event to the last; runs of the
  machine may also let other requests in between, so they include more than the daemon can do.
- The capacity of the broadcast channel is only known to be at least the 1000 lines asked for: a lagging
  receiver may skip to any position that leaves it the newest 1000. That a slow client holds the stream
  back is not modelled.
- Drained but unrecorded output of programs without `log_forward`, and read errors, which end a writer.
- Transport.PrintThenParse: a path is its text, so a path that is not UTF-8, and comparison of paths by
  component, are not covered.
- Choice of transports and the inet address split in `cirond/src/main.rs:109-164`, listeners, servers,
  default addresses.
- gRPC status and daemon messages and the handlers that are not implemented.
- Reading the configuration file, `cironctl`, `cirond/src/log_format.rs`, the examples.
