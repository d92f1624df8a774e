/** The process manager as an object whose methods update it in place
    (cirond/src/process.rs), and the two places that drive it (cirond/src/main.rs). */
module ProcessManager {
  import opened Wrappers
  import opened Sequences
  import opened Configuration
  import opened Resolution
  import opened Resolver
  import opened Supervisor
  import Starting
  import opened Invariants
  import opened Operations
  import opened Refinement
  import opened Batches
  import opened Workload

  class ProcessManager {
    var configs: Configs
    var processes: map<string, ManagedProcess>
    var queue: seq<Event>
    var open: bool
    var nextMonitor: nat

    // the runtime's tasks
    var children: map<nat, nat>
    var live: map<nat, string>
    var dying: map<nat, string>
    var timers: multiset<string>

    ghost var signals: seq<nat>
    ghost var handled: seq<Event>
    ghost var trace: seq<Mark>

    ghost function State(): System
      reads this
    {
      System(configs, processes, queue, open, nextMonitor, children, live, dying, timers, signals, handled, trace)
    }

    /** The state is one that some run of the machine reaches; so every statement about runs holds
        of it. */
    ghost predicate Valid()
      reads this
    {
      Sound(State())
    }

    constructor ()
      ensures Valid() && State() == Loaded(map[])
    {
      configs, processes := map[], map[];
      queue, open, nextMonitor := [], true, 0;
      children, live, dying, timers := map[], map[], map[], multiset{};
      signals, handled, trace := [], [], [];
      new;
      assert State() == Loaded(map[]);
      Machine.LoadedInv(map[]);
      LoadedReached(map[]);
    }

    /** Programs are inserted one by one, in no particular order; a name loaded before is replaced. */
    method LoadFromConfig(program: Configs)
      modifies this`configs, this`processes
      ensures configs == old(configs) + program
      ensures processes == old(processes) + Fresh(program.Keys)
      ensures old(State()) == Loaded(map[]) ==> State() == Loaded(program) && Valid()
      ensures old(Known(State())) ==> KeptByLoading(old(State()), State())
    {
      ghost var before := State();
      InsertRest(program);
      LoadingDone(before, program);
    }

    method InsertRest(program: Configs)
      modifies this`configs, this`processes
      ensures configs == old(configs) + program && processes == old(processes) + Fresh(program.Keys)
    {
      var done: set<string> := {};
      while program.Keys - done != {}
        invariant done <= program.Keys
        invariant configs == old(configs) + map n | n in done :: program[n]
        invariant processes == old(processes) + Fresh(done)
        decreases program.Keys - done
      {
        var n :| n in program.Keys - done;
        InsertOneMore(old(configs), old(processes), program, done, n);
        configs := configs[n := program[n]];
        processes := processes[n := ManagedProcess(None, None, false)];
        done := done + {n};
      }
      NothingLeft(done, program.Keys);
      AllInserted(program);
    }

    /** `event_tx.send`, with the error ignored. */
    method Send(e: Event)
      modifies this`queue
      ensures queue == if open then old(queue) + [e] else old(queue)
    {
      if open {
        queue := queue + [e];
      }
    }

    method StartProcessSingle(name: string, spawns: Spawns) returns (r: Result<(), string>)
      modifies this
      ensures State() == StartSingle(old(State()), name, spawns)
      ensures r.Ok? <==> name in old(processes) && (old(IsRunning(State(), name)) || name in spawns)
    {
      if name !in processes {
        return Err("Program not found");
      }
      if processes[name].running {
        return Ok(());
      }
      if name !in spawns {
        trace := trace + [SpawnFailed(name)];
        return Err("Failed to spawn process");
      }
      Launch(name, spawns[name]);
      r := Ok(());
    }

    /** The child is there: store its pid, send `Started`, attach a monitor task, mark it running. */
    method Launch(name: string, pid: nat)
      requires name in processes
      modifies this
      ensures State() == SpawnEffect(old(State()), name, pid)
    {
      ghost var before := State();
      Send(Started(name));
      var monitor := nextMonitor;
      nextMonitor := nextMonitor + 1;
      children := children[monitor := pid];
      live := live[monitor := name];
      processes := processes[name := ManagedProcess(Some(monitor), Some(pid), true)];
      trace := trace + [Spawned(name)];
      SpawnFields(before, State(), name, pid);
    }

    /** One turn of the start loop: monitors and timers move, then the program is attempted; one that
        was pulled in and runs already is skipped. */
    method StartUnit(unit: string, isRoot: bool, spawns: Spawns, moves: seq<Effect>)
      returns (r: Result<(), string>)
      modifies this
      ensures State() == StartSingle(Moved(old(State()), moves), unit, spawns)
      ensures unit in Moved(old(State()), moves).processes ==>
                (r.Ok? <==> IsRunning(Moved(old(State()), moves), unit) || unit in spawns)
    {
      LetMove(moves);
      if !isRoot && unit in processes && processes[unit].running {
        return Ok(());
      }
      r := StartProcessSingle(unit, spawns);
    }

    /** The start loop. */
    method StartInOrder(name: string, order: seq<string>, spawns: Spawns, env: nat -> seq<Effect>)
      returns (r: Result<(), string>)
      requires Known(State()) && name in configs && order == StartOrder(configs, name)
      modifies this
      ensures BatchAt(old(State()), order, |order|, spawns, StillEnvironment(env), State())
      ensures r.Ok? <==> StartSucceeds(old(State()), name, spawns)
    {
      ghost var before, still, ok := State(), StillEnvironment(env), StartSucceeds(State(), name, spawns);
      BatchAtStart(before, name, spawns, still);
      var rootResult: Option<Result<(), string>> := None;
      for i := 0 to |order|
        invariant BatchAt(before, order, i, spawns, still, State())
        invariant RootDone(order, name, i, rootResult, ok)
      {
        BatchTurn(before, name, order, i, spawns, still, State(), env(i));
        var result := StartUnit(order[i], order[i] == name, spawns, env(i));
        RootTurn(order, name, i, rootResult, ok, result);
        if order[i] == name {
          rootResult := Some(result);
        }
      }
      RootListed(configs, name, rootResult, ok);
      // the root is always among the resolved programs
      r := rootResult.value;
    }

    /** Starts `name` after everything it pulls in; the result is the root's own. Monitors and timers
        may move between the attempts: before the `i`-th one, those of `env(i)` that can. */
    method StartProcess(name: string, spawns: Spawns, env: nat -> seq<Effect>) returns (r: Result<(), string>)
      requires Known(State())
      modifies this
      ensures Amid(Machine.BeginStart(old(State()), name), spawns, State())
      ensures StillEnvironment(env) ==> State() == Start(old(State()), name, spawns)
      ensures old(Valid()) ==> Valid()
      ensures r.Ok? <==> StartSucceeds(old(State()), name, spawns)
    {
      ghost var before := State();
      var resolved := ResolveStartOrder(configs, name);
      if resolved.Err? {
        MovesAmid(before, spawns, []);
        return Err(resolved.error);
      }
      r := StartInOrder(name, resolved.value, spawns, env);
      BatchAtEnd(before, name, spawns, StillEnvironment(env), State());
      if Inv(before) && Reached(before) {
        StartAmidReached(before, name, spawns, State());
      }
    }

    method StopProcess(name: string) returns (r: Result<(), string>)
      requires Valid()
      modifies this
      ensures State() == Stop(old(State()), name)
      ensures Valid()
      ensures r.Ok? <==> name in old(configs)
    {
      StopKeepsInv(State(), name);
      StopReached(State(), name);
      if name !in processes {
        return Err("Program not found");
      }
      if !processes[name].running {
        return Ok(());
      }
      Abort(name);
      r := Ok(());
    }

    /** Signal the child, abort its monitor task, clear the entry. */
    method Abort(name: string)
      requires name in processes
      modifies this
      ensures State() == StopEffect(old(State()), name)
    {
      ghost var before := State();
      Signal(processes[name].pid);
      AbortMonitor(processes[name].monitor);
      processes := processes[name := ManagedProcess(None, None, false)];
      trace := trace + [StoppedRunning(name)];
      StopFields(before, State(), name);
    }

    /** SIGTERM to the stored pid, if there is one. */
    method Signal(pid: Option<nat>)
      modifies this`signals
      ensures signals == if pid.Some? then old(signals) + [pid.value] else old(signals)
    {
      if pid.Some? {
        signals := signals + [pid.value];
      }
    }

    /** Asks the task behind a handle to abort; without effect when it has ended already. */
    method AbortMonitor(handle: Option<nat>)
      modifies this`live, this`dying
      ensures if handle.Some? && handle.value in old(live)
              then live == old(live) - {handle.value} && dying == old(dying)[handle.value := old(live)[handle.value]]
              else live == old(live) && dying == old(dying)
    {
      if handle.Some? && handle.value in live {
        var watched := live[handle.value];
        live := live - {handle.value};
        dying := dying[handle.value := watched];
      }
    }

    /** A monitor or timer task makes its move. */
    method Environment(move: Effect)
      requires Machine.OfEnvironment(move) && Enabled(State(), move)
      modifies this
      ensures State() == Apply(old(State()), move)
    {
      match move
      case MonitorEnds(m, end) => EndLive(m, end);
      case LateEnds(m, end) => EndDying(m, end);
      case AbortLands(m) => LandAbort(m);
      case TimerFires(n) => FireTimer(n);
    }

    method EndLive(m: nat, end: End)
      requires m in live
      modifies this`queue, this`live
      ensures State() == Apply(old(State()), MonitorEnds(m, end))
    {
      Report(live[m], end);
      live := live - {m};
    }

    method EndDying(m: nat, end: End)
      requires m in dying
      modifies this`queue, this`dying
      ensures State() == Apply(old(State()), LateEnds(m, end))
    {
      Report(dying[m], end);
      dying := dying - {m};
    }

    method LandAbort(m: nat)
      requires m in dying
      modifies this`trace, this`dying
      ensures State() == Apply(old(State()), AbortLands(m))
    {
      trace := trace + [AbortLanded(dying[m])];
      dying := dying - {m};
    }

    method FireTimer(n: string)
      requires n in timers
      modifies this`queue, this`timers
      ensures State() == Apply(old(State()), TimerFires(n))
    {
      Send(RestartRequested(n));
      timers := timers - multiset{n};
    }

    /** A monitor task tells how its child ended. */
    method Report(name: string, end: End)
      modifies this`queue
      ensures State() == Supervisor.Send(old(State()), EndEvent(name, end))
    {
      match end
      case Code(code) => Send(Exited(name, code));
      case WaitError(message) => Send(Failed(name, message));
    }

    /** Can this monitor or timer make this move? */
    predicate CanMove(e: Effect)
      reads this
    {
      match e
      case MonitorEnds(m, _) => m in live
      case LateEnds(m, _) => m in dying
      case AbortLands(m) => m in dying
      case TimerFires(n) => n in timers
      case _ => false
    }

    /** Time passes: of the given moves, those that can happen do. */
    method LetMove(moves: seq<Effect>)
      modifies this
      ensures State() == Moved(old(State()), moves)
    {
      var rest := moves;
      while rest != []
        invariant Moved(State(), rest) == Moved(old(State()), moves)
        decreases |rest|
      {
        if CanMove(rest[0]) {
          Environment(rest[0]);
        }
        rest := rest[1..];
      }
    }

    /** A stop, a pause in which monitors and timers move, and a start. */
    method RestartProcess(name: string, moves: seq<Effect>, spawns: Spawns, env: nat -> seq<Effect>)
      returns (r: Result<(), string>)
      requires Valid()
      modifies this
      ensures name in old(configs) ==>
                Amid(Machine.BeginStart(Moved(Stop(old(State()), name), moves), name), spawns, State())
      ensures name !in old(configs) ==> State() == old(State())
      ensures Valid()
      ensures r.Ok? <==> name in old(configs) && name in spawns
    {
      ghost var before := State();
      MovesLeaveManager(Stop(before, name), moves);
      var stopped := StopProcess(name);
      if stopped.Err? {
        return Err(stopped.error);
      }
      ghost var acts := MovesAreRun(State(), Machine.Idle, moves);
      RunReached(State(), acts, Moved(State(), moves));
      LetMove(moves);
      r := StartProcess(name, spawns, env);
    }

    /** The end of an instance, as far as the manager can tell: the flag goes, and after an exit
        the policy may start a restart timer. */
    method NoteEnd(event: Event)
      requires IsEnd(event)
      modifies this`processes, this`timers, this`trace
      ensures processes == FlagsAfter(old(processes), event)
      ensures timers == TimersAfter(old(State()), event)
      ensures trace == MarksAfter(old(State()), event)
      ensures processes.Keys == configs.Keys ==>
                timers == old(timers) + if StartsTimer(configs, event) then multiset{event.name} else multiset{}
    {
      if processes.Keys == configs.Keys {
        TimersByPolicy(State(), event);
      }
      if event.name !in processes {
        return;
      }
      processes := processes[event.name := processes[event.name].(running := false)];
      if event.Exited? {
        trace := trace + [ExitHandled(event.name, event.code)];
        if event.name in configs && Restarts(configs[event.name].restart, event.code) {
          timers := timers + multiset{event.name};
        }
      } else {
        trace := trace + [FailureHandled(event.name)];
      }
    }

    method Dequeue() returns (event: Event)
      requires queue != []
      modifies this`queue, this`handled
      ensures event == old(queue)[0] && State() == Dequeued(old(State()))
    {
      event := queue[0];
      queue := queue[1..];
      handled := handled + [event];
    }

    /** Takes the next event and notes the end it may report. */
    method TakeNext() returns (event: Event)
      requires queue != []
      modifies this`queue, this`handled, this`processes, this`timers, this`trace
      ensures event == old(queue)[0]
      ensures State() == TakeEffect(old(State()))
    {
      TakeIsNoted(State());
      event := Dequeue();
      if event.Exited? || event.Failed? {
        NoteEnd(event);
      }
    }

    /** Handles at most one event; false when there is none. */
    method HandleSingleEvent(spawns: Spawns, env: nat -> seq<Effect>) returns (more: bool)
      requires Valid()
      modifies this
      ensures more <==> old(queue) != []
      ensures TurnTaken(old(State()), spawns, State())
      ensures more && StillEnvironment(env) ==> State() == Handle(old(State()), spawns)
      ensures more && old(queue)[0].Exited? ==>
                timers == old(timers)
                          + if StartsTimer(old(configs), old(queue)[0]) then multiset{old(queue)[0].name} else multiset{}
      ensures Valid()
    {
      if queue == [] {
        return false;
      }
      ghost var before := State();
      InvKept(before, Take);
      var event := TakeNext();
      if event.RestartRequested? {
        var _ := StartProcess(event.name, spawns, env);
        ghost var acts := HandleAmidIsRun(before, spawns, State());
        RunReached(before, acts, State());
      } else {
        HandleKeepsInv(before, spawns);
        HandleReached(before, spawns);
      }
      more := true;
    }

    /** Environment moves, then one event at most. */
    method DrainTurn(spawns: Spawns, env: nat -> seq<Effect>) returns (more: bool)
      requires Valid()
      modifies this
      ensures Valid()
      ensures TurnTaken(Moved(old(State()), env(0)), spawns, State())
      ensures more <==> Moved(old(State()), env(0)).queue != []
      ensures StillEnvironment(env) && more ==> State() == Handle(old(State()), spawns)
    {
      ghost var acts := MovesAreRun(State(), Machine.Idle, env(0));
      RunReached(State(), acts, Moved(State(), env(0)));
      LetMove(env(0));
      LaterStill(env);
      more := HandleSingleEvent(spawns, Later(env));
    }

    ghost predicate Turning(before: System, outcomes: nat -> Spawns, rounds: nat, count: nat, more: bool)
      reads this
    {
      Valid() && LoopAt(before, outcomes, rounds, count, more, State())
    }

    /** Turn `count` of the loop. */
    method LoopOnce(ghost before: System, outcomes: nat -> Spawns, env: nat -> nat -> seq<Effect>, rounds: nat,
                    count: nat)
      returns (more: bool)
      requires Settles(env, rounds) && Turning(before, outcomes, rounds, count, true)
      modifies this
      ensures Turning(before, outcomes, rounds, if more then count + 1 else count, more)
      ensures more && count >= rounds ==> NearerEmpty(State(), old(State()))
    {
      ghost var mid := State();
      SettledTurn(env, rounds, count);
      more := DrainTurn(outcomes(count), env(count));
      LoopTurn(before, outcomes, rounds, count, mid, env(count)(0), more, State());
    }

    /** Turns until one finds no event. */
    method TurnUntilEmpty(outcomes: nat -> Spawns, env: nat -> nat -> seq<Effect>, rounds: nat) returns (count: nat)
      requires Settles(env, rounds) && Turning(State(), outcomes, rounds, 0, true)
      modifies this
      ensures Turning(old(State()), outcomes, rounds, count, false)
    {
      hide Turning;
      count := 0;
      var more := true;
      while more
        invariant Turning(old(State()), outcomes, rounds, count, more)
        decreases more, RoundsLeft(rounds, count), Requests(queue), |queue|
      {
        more := LoopOnce(old(State()), outcomes, env, rounds, count);
        if more {
          count := count + 1;
        }
      }
    }

    /** The event loop's inner loop: handle events until there is none. Monitors and timers may move
        before every event and before every attempt, but not forever: `env(k)` has the moves of turn
        `k`, and after the first `rounds` turns there are none. */
    method DrainEvents(outcomes: nat -> Spawns, env: nat -> nat -> seq<Effect>, rounds: nat) returns (count: nat)
      requires Valid() && Settles(env, rounds)
      modifies this
      ensures Valid() && queue == []
      ensures count == |handled| - |old(handled)| && Drained(old(State()), State(), count)
      ensures rounds == 0 ==> State() == Drain(old(State()), outcomes, 0)
      ensures open ==> forall n | IsRunning(State(), n) :: CurrentMonitorLive(State(), n)
    {
      ghost var before := State();
      LoopBegins(before, outcomes, rounds);
      count := TurnUntilEmpty(outcomes, env, rounds);
      LoopEnds(before, outcomes, rounds, count, State());
      if open {
        EmptyQueueIsWatched(State());
      }
    }

    /** The autostart programs, in the order `listing` in which the map yields its keys. */
    method AutostartPrograms(listing: seq<string>) returns (programs: seq<string>)
      requires Elems(listing) <= configs.Keys
      ensures programs == Keep(listing, AutostartSet(configs))
    {
      programs := [];
      for i := 0 to |listing|
        invariant programs == Keep(listing[..i], AutostartSet(configs))
      {
        TakeSnoc(listing, i);
        KeepSnoc(listing[..i], listing[i], AutostartSet(configs));
        assert listing[i] in Elems(listing);
        if configs[listing[i]].autostart {
          programs := programs + [listing[i]];
        }
      }
      TakeAll(listing);
    }

    /** Starts every autostart program, in the order `listing` in which the map yields its keys;
        a program pulled in earlier is skipped, and failures do not stop the sequence. Monitors and
        timers may move all along: before the `k`-th attempt for the `i`-th program, those of
        `env(i)(k)` that can; `outcomes(i)` has the spawn outcomes of those attempts. */
    method StartAllAutostart(listing: seq<string>, outcomes: nat -> Spawns, env: nat -> nat -> seq<Effect>)
      requires Valid() && Distinct(listing) && Elems(listing) == processes.Keys
      modifies this
      ensures Valid()
      ensures AutostartAmid(old(State()), Keep(listing, AutostartSet(old(configs))), outcomes, State())
    {
      var programs := AutostartPrograms(listing);
      ghost var before := State();
      AutostartBegins(before, outcomes);
      for i := 0 to |programs|
        invariant Valid()
        invariant AutostartAmid(before, programs[..i], outcomes, State())
      {
        var name := programs[i];
        ghost var mid := State();
        TakeSnoc(programs, i);
        if !(name in processes && processes[name].running) {
          var _ := StartProcess(name, outcomes(i), env(i));
        } else {
          MovesAmid(mid, outcomes(i), []);
        }
        AutostartContinues(before, programs[..i], name, outcomes, mid, State());
      }
      TakeAll(programs);
    }

    /** Stops every program, in the order `listing` in which the map yields its keys. */
    method StopAllProcesses(listing: seq<string>)
      requires Valid() && Elems(listing) == processes.Keys
      modifies this
      ensures Valid() && State() == StopAll(old(State()), listing)
      ensures Running(State()) == {}
    {
      ghost var before := State();
      for i := 0 to |listing|
        invariant Valid()
        invariant State() == StopAll(before, listing[..i])
      {
        TakeSnoc(listing, i);
        assert (listing[..i] + [listing[i]])[..i] == listing[..i];
        var _ := StopProcess(listing[i]);
      }
      TakeAll(listing);
      StopAllFacts(before, listing);
    }

    /** Every program with its flag. */
    method ListProcesses() returns (r: map<string, bool>)
      ensures r.Keys == processes.Keys
      ensures forall n | n in processes :: r[n] <==> n in Running(State())
    {
      r := map n | n in processes :: processes[n].running;
    }

    method Shutdown()
      requires Valid()
      modifies this
      ensures Valid() && State() == old(State()).(open := false)
    {
      InvKept(State(), Close);
      CloseReached(State());
      open := false;
    }
  }

  // The new state, field by field.

  lemma SpawnFields(s: System, s': System, n: string, pid: nat)
    requires s'.configs == s.configs && s'.open == s.open && s'.dying == s.dying && s'.timers == s.timers
    requires s'.signals == s.signals && s'.handled == s.handled
    requires s'.queue == (if s.open then s.queue + [Started(n)] else s.queue)
    requires s'.processes == s.processes[n := ManagedProcess(Some(s.nextMonitor), Some(pid), true)]
    requires s'.nextMonitor == s.nextMonitor + 1 && s'.children == s.children[s.nextMonitor := pid]
    requires s'.live == s.live[s.nextMonitor := n] && s'.trace == s.trace + [Spawned(n)]
    ensures s' == SpawnEffect(s, n, pid)
  {
  }

  lemma StopFields(s: System, s': System, n: string)
    requires n in s.processes
    requires s'.configs == s.configs && s'.queue == s.queue && s'.open == s.open && s'.nextMonitor == s.nextMonitor
    requires s'.children == s.children && s'.timers == s.timers && s'.handled == s.handled
    requires s'.processes == s.processes[n := ManagedProcess(None, None, false)]
    requires s'.signals == if s.processes[n].pid.Some? then s.signals + [s.processes[n].pid.value] else s.signals
    requires var h := s.processes[n].monitor;
             if h.Some? && h.value in s.live
             then s'.live == s.live - {h.value} && s'.dying == s.dying[h.value := s.live[h.value]]
             else s'.live == s.live && s'.dying == s.dying
    requires s'.trace == s.trace + [StoppedRunning(n)]
    ensures s' == StopEffect(s, n)
  {
    AbortedTask(s, n);
    assert s.signals + [] == s.signals;
  }

  /** The exit of a configured program that is to be restarted: under `always`, or under `on-failure`
      with a nonzero code. */
  ghost predicate StartsTimer(c: Configs, e: Event) {
    e.Exited? && e.name in c
    && (c[e.name].restart == Some("always") || (c[e.name].restart == Some("on-failure") && e.code != 0))
  }

  lemma TimersByPolicy(s: System, e: Event)
    requires s.processes.Keys == s.configs.Keys
    ensures TimersAfter(s, e) == s.timers + if StartsTimer(s.configs, e) then multiset{e.name} else multiset{}
  {
  }

  ghost function Dequeued(s: System): System
    requires s.queue != []
  {
    s.(queue := s.queue[1..], handled := s.handled + [s.queue[0]])
  }

  ghost function Noted(s: System, e: Event): System {
    s.(processes := FlagsAfter(s.processes, e), timers := TimersAfter(s, e), trace := MarksAfter(s, e))
  }

  lemma TakeIsNoted(s: System)
    requires s.queue != []
    ensures TakeEffect(s) == Noted(Dequeued(s), s.queue[0])
    ensures !IsEnd(s.queue[0]) ==> TakeEffect(s) == Dequeued(s)
  {
  }

  ghost function AutostartSet(c: Configs): set<string> {
    set n | n in c && c[n].autostart
  }

  /** The root's result is known once its turn has come. */
  ghost predicate RootDone(order: seq<string>, root: string, k: nat, result: Option<Result<(), string>>, ok: bool) {
    && k <= |order|
    && (result.Some? <==> root in order[..k])
    && (result.Some? ==> (result.value.Ok? <==> ok))
  }

  lemma RootTurn(order: seq<string>, root: string, k: nat, result: Option<Result<(), string>>, ok: bool,
                 turn: Result<(), string>)
    requires k < |order| && RootDone(order, root, k, result, ok)
    requires order[k] == root ==> (turn.Ok? <==> ok)
    ensures RootDone(order, root, k + 1, if order[k] == root then Some(turn) else result, ok)
  {
    TakeSnoc(order, k);
  }

  lemma RootListed(c: Configs, root: string, result: Option<Result<(), string>>, ok: bool)
    requires root in c && RootDone(StartOrder(c, root), root, |StartOrder(c, root)|, result, ok)
    ensures result.Some? && (result.value.Ok? <==> ok)
  {
    OrderListsClosureOnce(c, root);
    TakeAll(StartOrder(c, root));
  }

  /** Entries as they are loaded: nothing running, no pid, no handle. */
  function Fresh(names: set<string>): map<string, ManagedProcess> {
    map n | n in names :: ManagedProcess(None, None, false)
  }

  /** What loading keeps, even over programs that run: the structure, and everything that holds of a
      program whose restart policy stays. */
  ghost predicate KeptByLoading(s: System, s': System) {
    Known(s') && forall n | PolicyOf(s'.configs, n) == PolicyOf(s.configs, n) && Holds(s, n) :: Holds(s', n)
  }

  lemma LoadingKeeps(s: System, program: Configs)
    requires Known(s)
    ensures KeptByLoading(s, s.(configs := s.configs + program, processes := s.processes + Fresh(program.Keys)))
  {
    var s' := s.(configs := s.configs + program, processes := s.processes + Fresh(program.Keys));
    forall m: nat ensures TaskOk(s', m) {
      assert TaskOk(s, m);
    }
    forall n: string ensures HandleOk(s', n) && InstanceOk(s', n) {
      assert HandleOk(s, n) && InstanceOk(s, n);
    }
    forall n | PolicyOf(s'.configs, n) == PolicyOf(s.configs, n) && Holds(s, n) ensures Holds(s', n) {
      LoadingKeepsHolds(s, program, n);
    }
  }

  lemma LoadingDone(s: System, program: Configs)
    ensures var s' := s.(configs := s.configs + program, processes := s.processes + Fresh(program.Keys));
            && (s == Loaded(map[]) ==> s' == Loaded(program) && Sound(s'))
            && (Known(s) ==> KeptByLoading(s, s'))
  {
    AllInserted(program);
    Machine.LoadedInv(program);
    LoadedReached(program);
    if Known(s) {
      LoadingKeeps(s, program);
    }
  }

  lemma LoadingKeepsHolds(s: System, program: Configs, n: string)
    requires Holds(s, n) && PolicyOf(s.configs + program, n) == PolicyOf(s.configs, n)
    ensures Holds(s.(configs := s.configs + program, processes := s.processes + Fresh(program.Keys)), n)
  {
  }

  lemma AllInserted(program: Configs)
    ensures (map n | n in program.Keys :: program[n]) == program
    ensures map[] + program == program && map[] + Fresh(program.Keys) == Fresh(program.Keys)
  {
  }

  lemma InsertOneMore(configs: Configs, processes: map<string, ManagedProcess>, program: Configs,
                      done: set<string>, n: string)
    requires done <= program.Keys && n in program
    ensures (configs + map p | p in done :: program[p])[n := program[n]]
         == configs + map p | p in done + {n} :: program[p]
    ensures (processes + Fresh(done))[n := ManagedProcess(None, None, false)] == processes + Fresh(done + {n})
  {
  }

  /** After `rounds` turns nothing moves any more. */
  ghost predicate Settles(env: nat -> nat -> seq<Effect>, rounds: nat) {
    forall k: nat | k >= rounds :: StillEnvironment(env(k))
  }

  lemma SettledTurn(env: nat -> nat -> seq<Effect>, rounds: nat, k: nat)
    requires Settles(env, rounds)
    ensures k >= rounds ==> StillEnvironment(env(k)) && env(k)(0) == []
  {
  }

  /** What is left of a schedule after its first entry. */
  function Later(env: nat -> seq<Effect>): nat -> seq<Effect> {
    (i: nat) => env(i + 1)
  }

  lemma LaterStill(env: nat -> seq<Effect>)
    ensures StillEnvironment(env) ==> StillEnvironment(Later(env)) && env(0) == []
  {
  }

  ghost predicate StillEnvironment(env: nat -> seq<Effect>) {
    forall i: nat :: env(i) == []
  }

  /** Some autostart program pulls `n` in. */
  ghost predicate Autostarts(c: Configs, n: string) {
    n in c && exists r :: r in c && c[r].autostart && n in Closure(c, r)
  }

  /** What is to run after start-up: everything the autostart programs pull in unless a spawn of it
      fails, and nothing else; with outcomes that do not change exactly the spawnable part. */
  ghost predicate BootedTo(c: Configs, outcomes: nat -> Spawns, running: set<string>) {
    forall n :: BootedWith(c, outcomes, n, n in running)
  }

  ghost predicate BootedWith(c: Configs, outcomes: nat -> Spawns, n: string, runs: bool) {
    && (Autostarts(c, n) && (forall i: nat :: n in outcomes(i)) ==> runs)
    && (runs ==> Autostarts(c, n) && exists i: nat :: n in outcomes(i))
    && (forall spawnable | Unchanging(outcomes, spawnable) :: runs <==> Autostarts(c, n) && n in spawnable)
  }

  ghost predicate Unchanging(outcomes: nat -> Spawns, spawnable: set<string>) {
    forall i: nat :: outcomes(i).Keys == spawnable
  }

  lemma PulledAtBoot(c: Configs, listing: seq<string>)
    requires Elems(listing) == c.Keys
    ensures var roots := Keep(listing, AutostartSet(c));
            Elems(roots) <= c.Keys && forall n :: n in Starting.Pulled(c, roots) <==> Autostarts(c, n)
  {
    var roots := Keep(listing, AutostartSet(c));
    KeepElems(listing, AutostartSet(c));
    assert forall r :: r in roots <==> r in Elems(roots);
  }

  lemma BroughtAtBoot(c: Configs, listing: seq<string>, outcomes: nat -> Spawns, n: string)
    requires Elems(listing) == c.Keys
    ensures BootedWith(c, outcomes, n, n in Starting.Brought(c, Keep(listing, AutostartSet(c)), outcomes))
  {
    PulledAtBoot(c, listing);
    Starting.BroughtBounds(c, Keep(listing, AutostartSet(c)), outcomes, n);
    assert forall spawnable | Unchanging(outcomes, spawnable) ::
        n in spawnable <==> outcomes(0).Keys == spawnable && n in outcomes(0);
  }

  lemma AutostartedFrom(program: Configs, listing: seq<string>, outcomes: nat -> Spawns, s': System)
    requires Elems(listing) == program.Keys
    requires AutostartAmid(Loaded(program), Keep(listing, AutostartSet(program)), outcomes, s')
    ensures s'.configs == program && BootedTo(program, outcomes, Running(s'))
  {
    PulledAtBoot(program, listing);
    AutostartFacts(program, Keep(listing, AutostartSet(program)), outcomes, {}, s');
    forall n ensures BootedWith(program, outcomes, n, n in Running(s')) {
      BroughtAtBoot(program, listing, outcomes, n);
    }
  }

  /** Daemon start-up: load, then autostart. Whatever order the map yields its keys in, and whatever
      monitors and timers do meanwhile, what runs afterwards is what `BootedTo` says. */
  method Boot(program: Configs, listing: seq<string>, outcomes: nat -> Spawns, env: nat -> nat -> seq<Effect>)
    returns (manager: ProcessManager)
    requires Distinct(listing) && Elems(listing) == program.Keys
    ensures fresh(manager) && manager.Valid() && manager.configs == program
    ensures BootedTo(program, outcomes, Running(manager.State()))
  {
    manager := new ProcessManager();
    manager.LoadFromConfig(program);
    manager.StartAllAutostart(listing, outcomes, env);
    AutostartedFrom(program, listing, outcomes, manager.State());
  }
}
