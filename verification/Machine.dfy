/** Runs of the daemon: manager operations under the write lock, one spawn attempt at a time,
    interleaved with monitor tasks and restart timers (cirond/src/process.rs, cirond/src/main.rs,
    cirond/src/grpc_server.rs). */
module Machine {
  import opened Wrappers
  import opened Sequences
  import opened Configuration
  import opened Resolution
  import opened Supervisor
  import opened Ledger
  import opened Invariants

  /** What the holder of the write lock is in the middle of: nothing, a batch of programs still
      to be attempted, or the pause of a restart. */
  datatype Phase = Idle | Starting(todo: seq<string>) | Sleeping(name: string)

  datatype Machine = Machine(sys: System, phase: Phase)

  datatype Action =
    | Environment(effect: Effect)     // a monitor or timer task makes a move, at any time
    | StartRequest(name: string)
    | StopRequest(name: string)
    | RestartRequest(name: string)
    | HandleEvent                     // one turn of the event loop
    | Shutdown
    | Attempt(pid: Option<nat>)       // next program of the batch; None: the spawn fails
    | Wake                            // the pause of a restart is over

  ghost predicate OfEnvironment(e: Effect) {
    e.MonitorEnds? || e.LateEnds? || e.AbortLands? || e.TimerFires?
  }

  ghost function Batch(todo: seq<string>): Phase {
    if todo == [] then Idle else Starting(todo)
  }

  /** `start_process` resolves its order first; an unknown name is an error that changes nothing. */
  ghost function BeginStart(s: System, n: string): Machine {
    if n in s.configs then Machine(s, Batch(StartOrder(s.configs, n))) else Machine(s, Idle)
  }

  /** The single change an action makes to the system, if it makes one. */
  ghost function EffectOf(m: Machine, a: Action): Option<Effect> {
    match a
    case Environment(e) => Some(e)
    case StopRequest(n) => if IsRunning(m.sys, n) then Some(StopRunning(n)) else None
    case RestartRequest(n) => if IsRunning(m.sys, n) then Some(StopRunning(n)) else None
    case HandleEvent => if m.sys.queue != [] then Some(Take) else None
    case Shutdown => Some(Close)
    case Attempt(pid) =>
      if m.phase.Starting? && m.phase.todo != [] && m.phase.todo[0] in m.sys.processes
         && !IsRunning(m.sys, m.phase.todo[0])
      then Some(if pid.Some? then Spawn(m.phase.todo[0], pid.value) else SpawnFails(m.phase.todo[0]))
      else None
    case _ => None
  }

  /** Manager operations wait for the lock; the environment does not. */
  ghost predicate Possible(m: Machine, a: Action) {
    match a
    case Environment(e) => OfEnvironment(e) && Enabled(m.sys, e)
    case Attempt(_) => m.phase.Starting? && m.phase.todo != []
    case Wake => m.phase.Sleeping?
    case _ => m.phase.Idle?
  }

  ghost function PhaseAfter(m: Machine, a: Action): Phase
    requires Possible(m, a)
  {
    match a
    case Environment(_) => m.phase
    case StartRequest(n) => BeginStart(m.sys, n).phase
    case RestartRequest(n) => if n in m.sys.configs then Sleeping(n) else Idle
    case HandleEvent =>
      if m.sys.queue != [] && m.sys.queue[0].RestartRequested? then BeginStart(m.sys, m.sys.queue[0].name).phase
      else Idle
    case Attempt(_) => Batch(m.phase.todo[1..])
    case Wake => BeginStart(m.sys, m.phase.name).phase
    case _ => Idle
  }

  lemma EffectEnabled(m: Machine, a: Action)
    requires Possible(m, a)
    ensures EffectOf(m, a).Some? ==> Enabled(m.sys, EffectOf(m, a).value)
  {
  }

  ghost function Next(m: Machine, a: Action): Machine
    requires Possible(m, a)
  {
    EffectEnabled(m, a);
    var e := EffectOf(m, a);
    Machine(if e.Some? then Apply(m.sys, e.value) else m.sys, PhaseAfter(m, a))
  }

  ghost predicate IsRun(m: Machine, acts: seq<Action>)
    decreases |acts|
  {
    acts == [] || (Possible(m, acts[0]) && IsRun(Next(m, acts[0]), acts[1..]))
  }

  ghost function Final(m: Machine, acts: seq<Action>): Machine
    requires IsRun(m, acts)
    decreases |acts|
  {
    if acts == [] then m else Final(Next(m, acts[0]), acts[1..])
  }

  ghost function Initial(c: Configs): Machine {
    Machine(Loaded(c), Idle)
  }

  // ---------------------------------------------------------------- the invariant of every run

  lemma LoadedHolds(c: Configs, n: string)
    ensures Holds(Loaded(c), n)
  {
    var s := Loaded(c);
    assert History(s) == [];
    DominatedEmpty(EndOf(n), StartOf(n));
    DominatedEmpty(RequestOf(n), RestartableExitOf(n, Policy(s, n)));
    assert Tasks(s.live, n) == {};
    assert Tasks(s.dying, n) == {};
  }

  lemma LoadedInv(c: Configs)
    ensures Inv(Loaded(c))
  {
    forall n ensures Holds(Loaded(c), n) {
      LoadedHolds(c, n);
    }
  }

  lemma NextKeepsInv(m: Machine, a: Action)
    requires Possible(m, a) && Inv(m.sys)
    ensures Inv(Next(m, a).sys) && Next(m, a).sys.configs == m.sys.configs
    ensures Next(m, a).sys.open ==> m.sys.open
  {
    EffectEnabled(m, a);
    if EffectOf(m, a).Some? {
      InvKept(m.sys, EffectOf(m, a).value);
      OpenEffect(m.sys, EffectOf(m, a).value);
    }
  }

  lemma {:induction false} RunKeepsInv(m: Machine, acts: seq<Action>)
    requires IsRun(m, acts) && Inv(m.sys)
    ensures Inv(Final(m, acts).sys) && Final(m, acts).sys.configs == m.sys.configs
    ensures Final(m, acts).sys.open ==> m.sys.open
    decreases |acts|
  {
    if acts != [] {
      NextKeepsInv(m, acts[0]);
      RunKeepsInv(Next(m, acts[0]), acts[1..]);
    }
  }

  /** Every state before shutdown, of every run from a freshly loaded configuration. */
  lemma EveryRun(c: Configs, acts: seq<Action>, n: string)
    requires IsRun(Initial(c), acts) && Final(Initial(c), acts).sys.open
    ensures Holds(Final(Initial(c), acts).sys, n)
    ensures Known(Final(Initial(c), acts).sys) && Final(Initial(c), acts).sys.configs == c
  {
    LoadedInv(c);
    RunKeepsInv(Initial(c), acts);
  }

  // ---------------------------------------------------------------- event ledger

  /** Before shutdown, in every prefix of everything ever sent, a program has at least as many
      `Started` as `Exited` and `Failed` together; and its spawns are its live, dying and torn
      down monitors plus its queued and its handled ends. */
  lemma EventLedger(c: Configs, acts: seq<Action>, n: string, i: nat)
    requires IsRun(Initial(c), acts) && Final(Initial(c), acts).sys.open
    requires i <= |History(Final(Initial(c), acts).sys)|
    ensures var s := Final(Initial(c), acts).sys;
            Count(History(s)[..i], EndOf(n)) <= Count(History(s)[..i], StartOf(n))
    ensures var s := Final(Initial(c), acts).sys;
            Occurrences(s.trace, Spawned(n))
            == |Tasks(s.live, n)| + |Tasks(s.dying, n)| + Occurrences(s.trace, AbortLanded(n))
               + Count(s.queue, EndOf(n)) + Count(s.handled, EndOf(n))
  {
    var s := Final(Initial(c), acts).sys;
    EveryRun(c, acts, n);
    assert Balances(s, n) && StartsLead(s, n);
    CountConcat(s.handled, s.queue, EndOf(n));
  }

  /** Before shutdown, whenever the queue is empty, every program listed as running has its
      current monitor at work; with a non-empty queue its end may be waiting there instead. */
  lemma RunningIsWatched(c: Configs, acts: seq<Action>, n: string)
    requires IsRun(Initial(c), acts) && Final(Initial(c), acts).sys.open
    requires IsRunning(Final(Initial(c), acts).sys, n)
    ensures var s := Final(Initial(c), acts).sys;
            CurrentMonitorLive(s, n) || exists i | 0 <= i < |s.queue| :: Matches(EndOf(n), s.queue[i])
  {
    var s := Final(Initial(c), acts).sys;
    EveryRun(c, acts, n);
    assert Watched(s, n);
    CountPositive(s.queue, EndOf(n));
  }

  /** In every run a stop that finds its program running sends exactly one SIGTERM, to the child
      of the very monitor task that its handle names, and aborts that task unless it has ended. */
  lemma StopHitsOneInstance(c: Configs, acts: seq<Action>, n: string)
    requires IsRun(Initial(c), acts) && Possible(Final(Initial(c), acts), StopRequest(n))
    requires IsRunning(Final(Initial(c), acts).sys, n)
    ensures var s := Final(Initial(c), acts).sys;
            var s' := Next(Final(Initial(c), acts), StopRequest(n)).sys;
            && s.processes[n].monitor.Some?
            && var m := s.processes[n].monitor.value;
            && m in s.children && s'.signals == s.signals + [s.children[m]]
            && (if m in s.live then s.live[m] == n && s'.live == s.live - {m} && s'.dying == s.dying[m := n]
                else s'.live == s.live && s'.dying == s.dying)
  {
    LoadedInv(c);
    RunKeepsInv(Initial(c), acts);
    var s := Final(Initial(c), acts).sys;
    assert HandleOk(s, n) && InstanceOk(s, n);
    AbortedTask(s, n);
  }

  // ---------------------------------------------------------------- single actions

  /** What a monitor reports: the code of its child, or the error of waiting for it. */
  lemma MonitorReports(m: Machine, k: nat, end: End)
    requires k in m.sys.live && m.sys.open
    ensures Possible(m, Environment(MonitorEnds(k, end)))
    ensures var q, n := Next(m, Environment(MonitorEnds(k, end))).sys.queue, m.sys.live[k];
            && (end.Code? ==> q == m.sys.queue + [Exited(n, end.code)])
            && (end.WaitError? ==> q == m.sys.queue + [Failed(n, end.message)])
  {
  }

  /** What a spawn stores: the pid of the child, under the program and under its new monitor. */
  lemma SpawnStores(m: Machine, pid: nat)
    requires Possible(m, Attempt(Some(pid))) && Known(m.sys)
    requires m.phase.todo[0] in m.sys.configs && !IsRunning(m.sys, m.phase.todo[0])
    ensures var n, k := m.phase.todo[0], m.sys.nextMonitor;
            var s' := Next(m, Attempt(Some(pid))).sys;
            && k !in m.sys.live && k !in m.sys.dying
            && s'.processes == m.sys.processes[n := ManagedProcess(Some(k), Some(pid), true)]
            && s'.children == m.sys.children[k := pid] && s'.live == m.sys.live[k := n]
            && s'.queue == m.sys.queue + if m.sys.open then [Started(n)] else []
  {
    EffectEnabled(m, Attempt(Some(pid)));
    assert TaskOk(m.sys, m.sys.nextMonitor);
    assert m.sys.queue + [] == m.sys.queue;
  }

  /** Nothing that may happen is ruled out: every monitor may end, in any way, also after it was told
      to abort; an abort may land; every timer may fire; whoever finds the manager idle may have any
      request served; and an attempt may turn out either way. */
  lemma NothingRuledOut(m: Machine, k: nat, n: string, end: End, pid: Option<nat>)
    ensures k in m.sys.live ==> Possible(m, Environment(MonitorEnds(k, end)))
    ensures k in m.sys.dying ==>
              Possible(m, Environment(LateEnds(k, end))) && Possible(m, Environment(AbortLands(k)))
    ensures n in m.sys.timers ==> Possible(m, Environment(TimerFires(n)))
    ensures m.phase.Idle? ==>
              && Possible(m, StartRequest(n)) && Possible(m, StopRequest(n)) && Possible(m, RestartRequest(n))
              && Possible(m, HandleEvent) && Possible(m, Shutdown)
    ensures m.phase.Starting? && m.phase.todo != [] ==> Possible(m, Attempt(pid))
    ensures m.phase.Sleeping? ==> Possible(m, Wake)
  {
  }

  /** What an action writes into the history: a handled end its mark, with the code; a stop of a running
      program, an attempt and a landed abort theirs; and everything else nothing. */
  lemma MarksWritten(m: Machine, a: Action)
    requires Possible(m, a) && Known(m.sys)
    ensures a.HandleEvent? ==>
              Next(m, a).sys.trace == m.sys.trace
                                      + if m.sys.queue == [] || m.sys.queue[0].name !in m.sys.configs then []
                                        else match m.sys.queue[0]
                                          case Exited(n, code) => [ExitHandled(n, code)]
                                          case Failed(n, _) => [FailureHandled(n)]
                                          case _ => []
    ensures a.StopRequest? || a.RestartRequest? ==>
              Next(m, a).sys.trace == m.sys.trace + if IsRunning(m.sys, a.name) then [StoppedRunning(a.name)] else []
    ensures a.Attempt? && m.phase.todo[0] in m.sys.configs ==>
              var n := m.phase.todo[0];
              Next(m, a).sys.trace == m.sys.trace
                                      + if IsRunning(m.sys, n) then []
                                        else [if a.pid.Some? then Spawned(n) else SpawnFailed(n)]
    ensures a.Environment? ==>
              Next(m, a).sys.trace
              == m.sys.trace + if a.effect.AbortLands? then [AbortLanded(m.sys.dying[a.effect.monitor])] else []
    ensures a.StartRequest? || a.Shutdown? || a.Wake? ==> Next(m, a).sys.trace == m.sys.trace
  {
    EffectEnabled(m, a);
    assert m.sys.trace + [] == m.sys.trace;
  }

  // ---------------------------------------------------------------- restart conservation

  lemma {:induction false} CountNone(events: seq<Event>, k: Kind)
    requires forall e: Event :: !Matches(k, e)
    ensures Count(events, k) == 0
  {
    CountPositive(events, k);
  }

  /** What handling the next event does to the restart timers: after an exit of a configured program
      one more for it if its policy is `always`, or `on-failure` and the code is not zero, and
      nothing else, ever. */
  lemma HandlingStartsTimer(m: Machine, p: string)
    requires Possible(m, HandleEvent) && Known(m.sys) && m.sys.queue != []
    ensures var e := m.sys.queue[0];
            Next(m, HandleEvent).sys.timers[p]
            == m.sys.timers[p]
               + if e.Exited? && e.name == p && p in m.sys.configs
                    && (|| m.sys.configs[p].restart == Some("always")
                        || (m.sys.configs[p].restart == Some("on-failure") && e.code != 0))
                 then 1 else 0
  {
    EffectEnabled(m, HandleEvent);
    TimerEffect(m.sys, Take, p);
  }

  lemma {:induction false} CountAlike(events: seq<Event>, one: Kind, other: Kind)
    requires forall e: Event :: Matches(one, e) <==> Matches(other, e)
    ensures Count(events, one) == Count(events, other)
  {
    if events != [] {
      CountAlike(events[..|events| - 1], one, other);
    }
  }

  /** The exits of a program that have led, or will lead, to a restart request. */
  ghost function RestartsUnderWay(s: System, n: string): nat {
    s.timers[n] + Count(s.queue, RequestOf(n)) + Count(s.handled, RequestOf(n))
  }

  /** Pending timers, queued requests and handled requests of a program are together: under `always`,
      its handled exits; under `on-failure`, its handled exits with a nonzero code; and none under
      any other policy. */
  lemma RestartConservation(c: Configs, acts: seq<Action>, n: string)
    requires IsRun(Initial(c), acts) && Final(Initial(c), acts).sys.open
    ensures var s := Final(Initial(c), acts).sys;
            RestartsUnderWay(s, n)
            == if n in c && c[n].restart == Some("always") then Count(s.handled, ExitOf(n))
               else if n in c && c[n].restart == Some("on-failure") then Count(s.handled, FailureExitOf(n))
               else 0
  {
    EveryRun(c, acts, n);
    var s := Final(Initial(c), acts).sys;
    var kind := RestartableExitOf(n, PolicyOf(c, n));
    assert RestartsConserved(s, n);
    if PolicyOf(c, n) == Some("always") {
      CountAlike(s.handled, kind, ExitOf(n));
    } else if PolicyOf(c, n) == Some("on-failure") {
      CountAlike(s.handled, kind, FailureExitOf(n));
    } else {
      CountNone(s.handled, kind);
    }
  }

  /** The exit a restart request answers: the one with as many restartable exits before it as
      there are requests before the request. */
  lemma RequestHasExit(c: Configs, acts: seq<Action>, n: string, i: nat) returns (j: nat)
    requires IsRun(Initial(c), acts) && Final(Initial(c), acts).sys.open
    requires i < |History(Final(Initial(c), acts).sys)|
    requires History(Final(Initial(c), acts).sys)[i] == RestartRequested(n)
    ensures j < i
    ensures var h := History(Final(Initial(c), acts).sys);
            h[j].Exited? && h[j].name == n && Restartable(PolicyOf(c, n), h[j].code)
            && Count(h[..j], RestartableExitOf(n, PolicyOf(c, n))) == Count(h[..i], RequestOf(n))
  {
    EveryRun(c, acts, n);
    var s := Final(Initial(c), acts).sys;
    var h := History(s);
    var kind := RestartableExitOf(n, PolicyOf(c, n));
    assert ExitsLead(s, n);
    assert h[..i + 1] == h[..i] + [h[i]];
    CountSnoc(h[..i], h[i], RequestOf(n));
    CountSnoc(h[..i], h[i], kind);
    j := Nth(h[..i], kind, Count(h[..i], RequestOf(n)));
    assert h[..i][..j] == h[..j];
  }

  lemma CountBetween(h: seq<Event>, i: nat, i': nat, k: Kind)
    requires i < i' <= |h| && Matches(k, h[i])
    ensures Count(h[..i], k) < Count(h[..i'], k)
  {
    assert h[..i + 1] == h[..i] + [h[i]];
    CountSnoc(h[..i], h[i], k);
    CountConcat(h[..i + 1], h[i + 1..i'], k);
    assert h[..i + 1] + h[i + 1..i'] == h[..i'];
  }

  /** Two requests answer two different exits, both of them exits that the policy restarts; under
      `on-failure` both codes are nonzero. */
  lemma RequestsAnswerDistinctExits(c: Configs, acts: seq<Action>, n: string, i: nat, i': nat)
    returns (j: nat, j': nat)
    requires IsRun(Initial(c), acts) && Final(Initial(c), acts).sys.open
    requires i < i' < |History(Final(Initial(c), acts).sys)|
    requires History(Final(Initial(c), acts).sys)[i] == RestartRequested(n)
    requires History(Final(Initial(c), acts).sys)[i'] == RestartRequested(n)
    ensures j < i && j' < i' && j != j'
    ensures var h := History(Final(Initial(c), acts).sys);
            && Matches(RestartableExitOf(n, PolicyOf(c, n)), h[j])
            && Matches(RestartableExitOf(n, PolicyOf(c, n)), h[j'])
            && (PolicyOf(c, n) == Some("on-failure") ==>
                  Matches(FailureExitOf(n), h[j]) && Matches(FailureExitOf(n), h[j']))
  {
    j := RequestHasExit(c, acts, n, i);
    j' := RequestHasExit(c, acts, n, i');
    CountBetween(History(Final(Initial(c), acts).sys), i, i', RequestOf(n));
  }

  // ---------------------------------------------------------------- programs come back

  ghost predicate InBatch(m: Machine, n: string) {
    m.phase.Starting? && n in m.phase.todo
  }

  lemma AttemptKeepsComesBack(m: Machine, a: Action, n: string)
    requires Possible(m, a) && a.Attempt? && Inv(m.sys) && m.sys.open && n in m.sys.configs
    requires ComesBack(m.sys, n, InBatch(m, n))
    ensures ComesBack(Next(m, a).sys, n, InBatch(Next(m, a), n))
  {
    EffectEnabled(m, a);
    if EffectOf(m, a).Some? {
      ComesBackKept(m.sys, EffectOf(m, a).value, n, InBatch(m, n));
    }
    if n != m.phase.todo[0] && InBatch(m, n) {
      assert n in m.phase.todo[1..];
    }
  }

  lemma RequestOpensBatch(m: Machine, n: string)
    requires Possible(m, HandleEvent) && n in m.sys.configs
    requires m.sys.queue != [] && m.sys.queue[0] == RestartRequested(n)
    ensures InBatch(Next(m, HandleEvent), n)
  {
    OrderListsClosureOnce(m.sys.configs, n);
  }

  lemma NextKeepsComesBack(m: Machine, a: Action, n: string)
    requires Possible(m, a) && Inv(m.sys) && Next(m, a).sys.open && m.sys.open && n in m.sys.configs
    requires ComesBack(m.sys, n, InBatch(m, n))
    ensures ComesBack(Next(m, a).sys, n, InBatch(Next(m, a), n))
  {
    if a.Attempt? {
      AttemptKeepsComesBack(m, a, n);
    } else {
      EffectEnabled(m, a);
      if EffectOf(m, a).Some? {
        ComesBackKept(m.sys, EffectOf(m, a).value, n, InBatch(m, n));
      }
      if a.HandleEvent? && m.sys.queue != [] && m.sys.queue[0] == RestartRequested(n) {
        RequestOpensBatch(m, n);
      }
    }
  }

  lemma {:induction false} RunKeepsComesBack(m: Machine, acts: seq<Action>, n: string)
    requires IsRun(m, acts) && Inv(m.sys) && Final(m, acts).sys.open && n in m.sys.configs
    requires ComesBack(m.sys, n, InBatch(m, n))
    ensures ComesBack(Final(m, acts).sys, n, InBatch(Final(m, acts), n))
    decreases |acts|
  {
    if acts != [] {
      NextKeepsInv(m, acts[0]);
      RunKeepsInv(Next(m, acts[0]), acts[1..]);
      NextKeepsComesBack(m, acts[0], n);
      RunKeepsComesBack(Next(m, acts[0]), acts[1..], n);
    }
  }

  /** After this, a program with this policy is not restarted: `always` is ended by a stop that finds
      the program running, a failed start or a handled failure; `on-failure` by an exit with code
      zero too. */
  ghost predicate EndsService(policy: string, n: string, mark: Mark) {
    || mark == StoppedRunning(n) || mark == SpawnFailed(n) || mark == FailureHandled(n)
    || (policy == "on-failure" && mark == ExitHandled(n, 0))
  }

  /** In every state before shutdown: a program with `always` or `on-failure` that has been spawned,
      with nothing since that ends its service, runs, has a restart timer pending or a restart
      request queued, unless the manager is in the middle of the batch that starts it. */
  lemma UndisturbedComesBack(c: Configs, acts: seq<Action>, n: string, policy: string)
    requires IsRun(Initial(c), acts) && Final(Initial(c), acts).sys.open && n in c
    requires c[n].restart == Some(policy) && (policy == "always" || policy == "on-failure")
    requires var trace := Final(Initial(c), acts).sys.trace;
             exists i :: 0 <= i < |trace| && trace[i] == Spawned(n) &&
                         forall j | i < j < |trace| :: !EndsService(policy, n, trace[j])
    ensures var m := Final(Initial(c), acts);
            IsRunning(m.sys, n) || n in m.sys.timers || RestartRequested(n) in m.sys.queue || InBatch(m, n)
  {
    LoadedInv(c);
    RunKeepsInv(Initial(c), acts);
    RunKeepsComesBack(Initial(c), acts, n);
    var s := Final(Initial(c), acts).sys;
    InService(s.trace, policy, n);
    CountPositive(s.queue, RequestOf(n));
  }

  lemma InService(trace: seq<Mark>, policy: string, n: string)
    requires policy == "always" || policy == "on-failure"
    requires exists i :: 0 <= i < |trace| && trace[i] == Spawned(n) &&
                         forall j | i < j < |trace| :: !EndsService(policy, n, trace[j])
    ensures Undisturbed(trace, Some(policy), n)
  {
    var i :| 0 <= i < |trace| && trace[i] == Spawned(n) &&
             forall j | i < j < |trace| :: !EndsService(policy, n, trace[j]);
    forall j | i < j < |trace| ensures !Disturbs(Some(policy), n, trace[j]) {
      assert !EndsService(policy, n, trace[j]);
    }
  }

  // ---------------------------------------------------------------- one watcher

  /** Exactly one of a live monitor or a queued end for a running program, neither otherwise. */
  ghost predicate OneWatcher(s: System, n: string) {
    |Tasks(s.live, n)| + Count(s.queue, EndOf(n)) == One(IsRunning(s, n))
  }

  /** A stop that finds the program running while an end of it is queued, or an aborted monitor
      that still gets its event out. */
  ghost predicate Hazard(s: System, e: Effect, n: string)
    requires Enabled(s, e)
  {
    || (e == StopRunning(n) && Count(s.queue, EndOf(n)) > 0)
    || (e.LateEnds? && s.dying[e.monitor] == n)
  }

  /** A change keeps the one watcher iff it is no hazard. */
  lemma OneWatcherKeptIff(s: System, e: Effect, n: string)
    requires Known(s) && Holds(s, n) && Enabled(s, e) && Apply(s, e).open && OneWatcher(s, n)
    ensures OneWatcher(Apply(s, e), n) <==> !Hazard(s, e, n)
  {
    OpenEffect(s, e);
    assert Watched(s, n);
    FlagEffect(s, e, n);
    TaskEffect(s, e, n);
    EndsEffect(s, e, n);
    WatcherCounts(s, n);
  }

  /** Queued ends of `n` after one change. */
  lemma EndsEffect(s: System, e: Effect, n: string)
    requires Enabled(s, e) && s.open
    ensures Count(Apply(s, e).queue, EndOf(n)) == Count(s.queue, EndOf(n))
              + One(EndsLive(s, e, n)) + One(e.LateEnds? && s.dying[e.monitor] == n)
              - One(e == Take && Matches(EndOf(n), s.queue[0]))
  {
    CountEffect(s, e, EndOf(n));
    SentCount(s, e, EndOf(n));
  }

  lemma WatcherCounts(s: System, n: string)
    ensures CurrentMonitorLive(s, n) ==> |Tasks(s.live, n)| > 0
  {
    if CurrentMonitorLive(s, n) {
      assert s.processes[n].monitor.value in Tasks(s.live, n);
    }
  }

  ghost predicate HazardousAction(m: Machine, a: Action, n: string)
    requires Possible(m, a)
  {
    EffectEnabled(m, a);
    EffectOf(m, a).Some? && Hazard(m.sys, EffectOf(m, a).value, n)
  }

  /** No action of the run is a hazard for `n`. */
  ghost predicate HazardFree(m: Machine, acts: seq<Action>, n: string)
    requires IsRun(m, acts)
    decreases |acts|
  {
    acts == [] || (!HazardousAction(m, acts[0], n) && HazardFree(Next(m, acts[0]), acts[1..], n))
  }

  /** Every state of the run has the one watcher for `n`. */
  ghost predicate AlwaysOneWatcher(m: Machine, acts: seq<Action>, n: string)
    requires IsRun(m, acts)
    decreases |acts|
  {
    OneWatcher(m.sys, n) && (acts == [] || AlwaysOneWatcher(Next(m, acts[0]), acts[1..], n))
  }

  lemma NextKeepsOneWatcherIff(m: Machine, a: Action, n: string)
    requires Possible(m, a) && Known(m.sys) && Holds(m.sys, n) && Next(m, a).sys.open && OneWatcher(m.sys, n)
    ensures OneWatcher(Next(m, a).sys, n) <==> !HazardousAction(m, a, n)
  {
    EffectEnabled(m, a);
    if EffectOf(m, a).Some? {
      OneWatcherKeptIff(m.sys, EffectOf(m, a).value, n);
    }
  }

  lemma {:induction false} OneWatcherIffHazardFree(m: Machine, acts: seq<Action>, n: string)
    requires IsRun(m, acts) && Inv(m.sys) && Final(m, acts).sys.open && OneWatcher(m.sys, n)
    ensures AlwaysOneWatcher(m, acts, n) <==> HazardFree(m, acts, n)
    decreases |acts|
  {
    if acts != [] {
      var m' := Next(m, acts[0]);
      NextKeepsInv(m, acts[0]);
      RunKeepsInv(m', acts[1..]);
      assert Holds(m.sys, n);
      NextKeepsOneWatcherIff(m, acts[0], n);
      if OneWatcher(m'.sys, n) {
        OneWatcherIffHazardFree(m', acts[1..], n);
      } else {
        assert !AlwaysOneWatcher(m', acts[1..], n);
      }
    }
  }

  /** A run before shutdown shows exactly one live monitor or queued end for every running program,
      in all its states, iff no stop lands on a queued end and no aborted monitor speaks late. */
  lemma OneWatcherInRuns(c: Configs, acts: seq<Action>, n: string)
    requires IsRun(Initial(c), acts) && Final(Initial(c), acts).sys.open
    ensures AlwaysOneWatcher(Initial(c), acts, n) <==> HazardFree(Initial(c), acts, n)
    ensures HazardFree(Initial(c), acts, n) ==>
              var s := Final(Initial(c), acts).sys;
              OneWatcher(s, n) && |Tasks(s.live, n)| <= 1
  {
    LoadedInv(c);
    assert Tasks(Loaded(c).live, n) == {};
    OneWatcherIffHazardFree(Initial(c), acts, n);
    AlwaysAtTheEnd(Initial(c), acts, n);
  }

  lemma {:induction false} AlwaysAtTheEnd(m: Machine, acts: seq<Action>, n: string)
    requires IsRun(m, acts)
    ensures AlwaysOneWatcher(m, acts, n) ==> OneWatcher(Final(m, acts).sys, n)
    decreases |acts|
  {
    if acts != [] {
      AlwaysAtTheEnd(Next(m, acts[0]), acts[1..], n);
    }
  }
}
