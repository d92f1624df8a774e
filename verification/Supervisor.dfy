/** The state of the supervisor with its environment, and every way it changes
    (cirond/src/process.rs, `ProcessManager`). */
module Supervisor {
  import opened Wrappers
  import opened Configuration
  import opened Resolution

  /** Events carry a program name only: nothing ties an exit to the instance it ended. */
  datatype Event =
    | Started(name: string)
    | Exited(name: string, code: int)
    | Failed(name: string, message: string)
    | RestartRequested(name: string)

  /** How a monitored child ends: `wait` yields a status, or an error. */
  datatype End = Code(code: int) | WaitError(message: string)

  /** The mutable part of a managed process; `monitor` is the join handle of its monitor task. */
  datatype ManagedProcess = ManagedProcess(monitor: Option<nat>, pid: Option<nat>, running: bool)

  /** What happened to a program, in order, as far as restarts are concerned. */
  datatype Mark =
    | Spawned(name: string)
    | SpawnFailed(name: string)
    | StoppedRunning(name: string)
    | ExitHandled(name: string, code: int)
    | FailureHandled(name: string)
    | AbortLanded(name: string)

  /** `configs` to `nextMonitor` belong to the manager; the rest is its environment and history:
      the child each monitor task waits for, by pid (`children`), the monitor tasks that still wait
      (`live`), those that were aborted but have not been torn down yet (`dying`), restart timers
      still to fire, the pids SIGTERM was sent to, and what has been handled so far. */
  datatype System = System(
    configs: Configs,
    processes: map<string, ManagedProcess>,
    queue: seq<Event>,
    open: bool,
    nextMonitor: nat,
    children: map<nat, nat>,
    live: map<nat, string>,
    dying: map<nat, string>,
    timers: multiset<string>,
    signals: seq<nat>,
    handled: seq<Event>,
    trace: seq<Mark>)

  /** Outcome of every spawn attempt of one start request: the pids of those that succeed. */
  type Spawns = map<string, nat>

  ghost function Loaded(c: Configs): System {
    System(c, map n | n in c :: ManagedProcess(None, None, false),
           [], true, 0, map[], map[], map[], multiset{}, [], [], [])
  }

  ghost predicate IsRunning(s: System, n: string) {
    n in s.processes && s.processes[n].running
  }

  ghost function Running(s: System): set<string> {
    set n | n in s.processes && s.processes[n].running
  }

  /** `event_tx.send`: lost once the receiver has been closed. */
  ghost function Send(s: System, e: Event): System {
    if s.open then s.(queue := s.queue + [e]) else s
  }

  ghost function EndEvent(n: string, end: End): Event {
    match end
    case Code(code) => Exited(n, code)
    case WaitError(message) => Failed(n, message)
  }

  /** A single change of the system. */
  datatype Effect =
    | Spawn(name: string, pid: nat)
    | SpawnFails(name: string)
    | StopRunning(name: string)
    | Take
    | MonitorEnds(monitor: nat, end: End)
    | LateEnds(monitor: nat, end: End)
    | AbortLands(monitor: nat)
    | TimerFires(name: string)
    | Close

  ghost predicate Enabled(s: System, e: Effect) {
    match e
    case Spawn(n, _) => n in s.processes && !s.processes[n].running
    case SpawnFails(n) => n in s.processes && !s.processes[n].running
    case StopRunning(n) => n in s.processes && s.processes[n].running
    case Take => s.queue != []
    case MonitorEnds(m, _) => m in s.live
    case LateEnds(m, _) => m in s.dying
    case AbortLands(m) => m in s.dying
    case TimerFires(n) => n in s.timers
    case Close => true
  }

  /** A successful spawn: the pid is stored, `Started` is sent, a monitor task is attached and
      the program is marked running. */
  ghost function SpawnEffect(s: System, n: string, pid: nat): System {
    var m := s.nextMonitor;
    Send(s, Started(n)).(
    processes := s.processes[n := ManagedProcess(Some(m), Some(pid), true)],
    nextMonitor := m + 1,
    children := s.children[m := pid],
    live := s.live[m := n],
    trace := s.trace + [Spawned(n)])
  }

  /** A stop that finds its program running: SIGTERM goes to the stored pid, the current monitor is
      aborted, which takes hold only some time later, and pid, handle and flag are cleared. */
  ghost function StopEffect(s: System, n: string): System
    requires n in s.processes
  {
    s.(processes := s.processes[n := ManagedProcess(None, None, false)],
    signals := s.signals + if s.processes[n].pid.Some? then [s.processes[n].pid.value] else [],
    live := s.live - Aborted(s, n),
    dying := s.dying + (map m | m in Aborted(s, n) :: s.live[m]),
    trace := s.trace + [StoppedRunning(n)])
  }

  /** The task a stop aborts: the one the handle names, unless it has already ended. */
  ghost function Aborted(s: System, n: string): set<nat>
    requires n in s.processes
  {
    set m | m in s.live && s.processes[n].monitor == Some(m)
  }

  ghost predicate IsEnd(e: Event) {
    e.Exited? || e.Failed?
  }

  /** Handling an end event clears the flag of its program; `pid` and handle stay. */
  ghost function FlagsAfter(processes: map<string, ManagedProcess>, e: Event): (r: map<string, ManagedProcess>)
    ensures r.Keys == processes.Keys
    ensures forall n | n in processes :: r[n].monitor == processes[n].monitor && r[n].pid == processes[n].pid
    ensures forall n | n in processes :: r[n].running == (processes[n].running && !(IsEnd(e) && e.name == n))
  {
    if IsEnd(e) && e.name in processes then processes[e.name := processes[e.name].(running := false)] else processes
  }

  ghost function PolicyOf(c: Configs, n: string): Option<string> {
    if n in c then c[n].restart else None
  }

  /** An exit, but never a failure, may start a restart timer. */
  ghost function TimersAfter(s: System, e: Event): multiset<string> {
    if e.Exited? && e.name in s.processes && Restarts(PolicyOf(s.configs, e.name), e.code)
    then s.timers + multiset{e.name} else s.timers
  }

  ghost function MarksAfter(s: System, e: Event): seq<Mark> {
    if e.Exited? && e.name in s.processes then s.trace + [ExitHandled(e.name, e.code)]
    else if e.Failed? && e.name in s.processes then s.trace + [FailureHandled(e.name)]
    else s.trace
  }

  /** Taking one event off the queue, with everything it does except starting programs. */
  ghost function TakeEffect(s: System): System
    requires s.queue != []
  {
    var e := s.queue[0];
    s.(queue := s.queue[1..],
    handled := s.handled + [e],
    processes := FlagsAfter(s.processes, e),
    timers := TimersAfter(s, e),
    trace := MarksAfter(s, e))
  }

  ghost function Apply(s: System, e: Effect): System
    requires Enabled(s, e)
  {
    match e
    case Spawn(n, pid) => SpawnEffect(s, n, pid)
    case SpawnFails(n) => s.(trace := s.trace + [SpawnFailed(n)])
    case StopRunning(n) => StopEffect(s, n)
    case Take => TakeEffect(s)
    case MonitorEnds(m, end) => Send(s, EndEvent(s.live[m], end)).(live := s.live - {m})
    case LateEnds(m, end) => Send(s, EndEvent(s.dying[m], end)).(dying := s.dying - {m})
    case AbortLands(m) => s.(dying := s.dying - {m}, trace := s.trace + [AbortLanded(s.dying[m])])
    case TimerFires(n) => Send(s, RestartRequested(n)).(timers := s.timers - multiset{n})
    case Close => s.(open := false)
  }

  // ---------------------------------------------------------------- manager operations

  /** `start_process_single`: nothing for a running program, otherwise one spawn attempt. */
  ghost function StartSingle(s: System, n: string, spawns: Spawns): System {
    if n !in s.processes || s.processes[n].running then s
    else if n in spawns then SpawnEffect(s, n, spawns[n])
    else s.(trace := s.trace + [SpawnFailed(n)])
  }

  /** The start loop over a resolved order. */
  ghost function StartUnits(s: System, units: seq<string>, spawns: Spawns): System {
    if units == [] then s
    else StartSingle(StartUnits(s, units[..|units| - 1], spawns), units[|units| - 1], spawns)
  }

  /** `start_process`: an unknown name changes nothing. */
  ghost function Start(s: System, n: string, spawns: Spawns): System {
    if n in s.configs then StartUnits(s, StartOrder(s.configs, n), spawns) else s
  }

  /** Whether `start_process` reports success. */
  ghost predicate StartSucceeds(s: System, n: string, spawns: Spawns) {
    n in s.configs && (IsRunning(s, n) || n in spawns)
  }

  /** `stop_process`: a program that is not running is left alone, and so is its restart timer. */
  ghost function Stop(s: System, n: string): System {
    if IsRunning(s, n) then StopEffect(s, n) else s
  }

  /** `handle_single_event`. */
  ghost function Handle(s: System, spawns: Spawns): System
    requires s.queue != []
  {
    if s.queue[0].RestartRequested? then Start(TakeEffect(s), s.queue[0].name, spawns)
    else TakeEffect(s)
  }

  /** `stop_all` over one listing of the programs. */
  ghost function StopAll(s: System, names: seq<string>): System {
    if names == [] then s
    else Stop(StopAll(s, names[..|names| - 1]), names[|names| - 1])
  }
}
