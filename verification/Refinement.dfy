/** Whole manager operations are runs of the machine: what holds in every run holds for them. */
module Refinement {
  import opened Wrappers
  import opened Configuration
  import opened Resolution
  import opened Supervisor
  import opened Invariants
  import opened Machine
  import opened Operations

  /** `acts` takes the idle manager from `s` to `s'`, idle again. */
  ghost predicate RunsTo(s: System, acts: seq<Action>, s': System) {
    IsRun(Machine(s, Idle), acts) && Final(Machine(s, Idle), acts) == Machine(s', Idle)
  }

  /** No client asks for a start or a restart. */
  ghost predicate Unaided(acts: seq<Action>) {
    forall a | a in acts :: !a.StartRequest? && !a.RestartRequest?
  }

  /** Requests to start, attempts and events, but no stop and no environment move. */
  ghost predicate StartsAndEvents(acts: seq<Action>) {
    forall a | a in acts :: a.StartRequest? || a.Attempt? || a.HandleEvent?
  }

  lemma {:induction false} RunConcat(m: Machine, a: seq<Action>, b: seq<Action>)
    requires IsRun(m, a) && IsRun(Final(m, a), b)
    ensures IsRun(m, a + b) && Final(m, a + b) == Final(Final(m, a), b)
    decreases |a|
  {
    if a == [] {
      assert a + b == b;
    } else {
      assert (a + b)[1..] == a[1..] + b;
      RunConcat(Next(m, a[0]), a[1..], b);
    }
  }

  lemma {:induction false} BatchHead(s: System, u: string, rest: seq<string>, spawns: Spawns)
    ensures StartUnits(s, [u] + rest, spawns) == StartUnits(StartSingle(s, u, spawns), rest, spawns)
  {
    if rest == [] {
      assert [u] + rest == [u];
      assert [u][..0] == rest;
    } else {
      var front, last := rest[..|rest| - 1], rest[|rest| - 1];
      BatchHead(s, u, front, spawns);
      assert [u] + rest == ([u] + front) + [last] && rest == front + [last];
      BatchSnoc(s, [u] + front, last, spawns);
      BatchSnoc(StartSingle(s, u, spawns), front, last, spawns);
    }
  }

  lemma BatchSnoc(s: System, front: seq<string>, last: string, spawns: Spawns)
    ensures StartUnits(s, front + [last], spawns) == StartSingle(StartUnits(s, front, spawns), last, spawns)
  {
    assert (front + [last])[..|front|] == front;
  }

  ghost function Outcome(u: string, spawns: Spawns): Option<nat> {
    if u in spawns then Some(spawns[u]) else None
  }

  lemma AttemptIsSingle(s: System, todo: seq<string>, spawns: Spawns)
    requires todo != []
    ensures var m := Machine(s, Starting(todo));
            var a := Attempt(Outcome(todo[0], spawns));
            Possible(m, a) && Next(m, a) == Machine(StartSingle(s, todo[0], spawns), Batch(todo[1..]))
  {
    EffectEnabled(Machine(s, Starting(todo)), Attempt(Outcome(todo[0], spawns)));
  }

  lemma {:induction false} BatchIsRun(s: System, todo: seq<string>, spawns: Spawns) returns (acts: seq<Action>)
    ensures forall a | a in acts :: a.Attempt?
    ensures IsRun(Machine(s, Batch(todo)), acts)
    ensures Final(Machine(s, Batch(todo)), acts) == Machine(StartUnits(s, todo, spawns), Idle)
    decreases |todo|
  {
    if todo == [] {
      acts := [];
    } else {
      AttemptIsSingle(s, todo, spawns);
      var a := Attempt(Outcome(todo[0], spawns));
      var rest := BatchIsRun(StartSingle(s, todo[0], spawns), todo[1..], spawns);
      acts := [a] + rest;
      assert acts[1..] == rest;
      assert [todo[0]] + todo[1..] == todo;
      BatchHead(s, todo[0], todo[1..], spawns);
    }
  }

  /** `start_process` with the outcomes `spawns`. */
  lemma StartIsRun(s: System, n: string, spawns: Spawns) returns (acts: seq<Action>)
    ensures StartsAndEvents(acts)
    ensures RunsTo(s, acts, Start(s, n, spawns))
  {
    var m := Machine(s, Idle);
    var rest: seq<Action> := [];
    if n in s.configs {
      rest := BatchIsRun(s, StartOrder(s.configs, n), spawns);
    }
    acts := [StartRequest(n)] + rest;
    assert acts[1..] == rest;
    assert Next(m, StartRequest(n)) == BeginStart(s, n);
  }

  lemma StopIsRun(s: System, n: string) returns (acts: seq<Action>)
    ensures RunsTo(s, acts, Stop(s, n))
  {
    acts := [StopRequest(n)];
    var m := Machine(s, Idle);
    assert Next(m, StopRequest(n)) == Machine(Stop(s, n), Idle);
    assert acts[1..] == [];
  }

  lemma HandleFirst(s: System)
    requires s.queue != []
    ensures var m := Machine(s, Idle);
            && Possible(m, HandleEvent) && Next(m, HandleEvent).sys == TakeEffect(s)
            && Next(m, HandleEvent).phase
               == if s.queue[0].RestartRequested? && s.queue[0].name in s.configs
                  then Batch(StartOrder(s.configs, s.queue[0].name)) else Idle
  {
    EffectEnabled(Machine(s, Idle), HandleEvent);
  }

  lemma HandleIsRun(s: System, spawns: Spawns) returns (acts: seq<Action>)
    requires s.queue != []
    ensures Unaided(acts) && StartsAndEvents(acts)
    ensures RunsTo(s, acts, Handle(s, spawns))
  {
    HandleFirst(s);
    var rest: seq<Action> := [];
    var n := s.queue[0].name;
    if s.queue[0].RestartRequested? && n in s.configs {
      rest := BatchIsRun(TakeEffect(s), StartOrder(s.configs, n), spawns);
    }
    acts := [HandleEvent] + rest;
    assert acts[1..] == rest;
  }

  // ---------------------------------------------------------------- environment moves

  /** Moves of monitors and timers, one after the other; one that cannot happen is skipped. */
  ghost function Moved(s: System, moves: seq<Effect>): System
    decreases |moves|
  {
    if moves == [] then s
    else if OfEnvironment(moves[0]) && Enabled(s, moves[0]) then Moved(Apply(s, moves[0]), moves[1..])
    else Moved(s, moves[1..])
  }

  lemma {:induction false} MovesAreRun(s: System, phase: Phase, moves: seq<Effect>) returns (acts: seq<Action>)
    ensures forall a | a in acts :: a.Environment?
    ensures IsRun(Machine(s, phase), acts) && Final(Machine(s, phase), acts) == Machine(Moved(s, moves), phase)
    decreases |moves|
  {
    if moves == [] {
      acts := [];
    } else if OfEnvironment(moves[0]) && Enabled(s, moves[0]) {
      var rest := MovesAreRun(Apply(s, moves[0]), phase, moves[1..]);
      acts := [Environment(moves[0])] + rest;
      assert acts[1..] == rest;
      assert Next(Machine(s, phase), acts[0]) == Machine(Apply(s, moves[0]), phase);
    } else {
      acts := MovesAreRun(s, phase, moves[1..]);
    }
  }

  /** The environment never touches the program table; it only appends to the queue. */
  lemma {:induction false} MovesLeaveManager(s: System, moves: seq<Effect>)
    ensures var s' := Moved(s, moves);
            && s'.configs == s.configs && s'.processes == s.processes && s'.open == s.open
            && s'.handled == s.handled && s.queue <= s'.queue
    decreases |moves|
  {
    if moves != [] {
      if OfEnvironment(moves[0]) && Enabled(s, moves[0]) {
        MoveLeavesManager(s, moves[0]);
        MovesLeaveManager(Apply(s, moves[0]), moves[1..]);
      } else {
        MovesLeaveManager(s, moves[1..]);
      }
    }
  }

  lemma MoveLeavesManager(s: System, e: Effect)
    requires OfEnvironment(e) && Enabled(s, e)
    ensures var s' := Apply(s, e);
            && s'.configs == s.configs && s'.processes == s.processes && s'.open == s.open
            && s'.handled == s.handled && s.queue <= s'.queue
  {
  }

  // ---------------------------------------------------------------- reachable states

  /** `s` is the state of an idle manager at the end of some run from its freshly loaded
      configuration. */
  ghost predicate Reached(s: System) {
    exists acts :: RunsTo(Loaded(s.configs), acts, s)
  }

  /** What an idle manager's state always is. */
  ghost predicate Sound(s: System) {
    Inv(s) && Reached(s)
  }

  lemma LoadedReached(c: Configs)
    ensures Reached(Loaded(c))
  {
    assert RunsTo(Loaded(c), [], Loaded(c));
  }

  lemma ReachedLater(s: System, acts: seq<Action>, s': System)
    requires Reached(s) && RunsTo(s, acts, s') && s'.configs == s.configs
    ensures Reached(s')
  {
    var before :| RunsTo(Loaded(s.configs), before, s);
    RunConcat(Machine(Loaded(s.configs), Idle), before, acts);
    assert RunsTo(Loaded(s'.configs), before + acts, s');
  }

  lemma StopReached(s: System, n: string)
    requires Reached(s)
    ensures Reached(Stop(s, n))
  {
    var acts := StopIsRun(s, n);
    ReachedLater(s, acts, Stop(s, n));
  }

  lemma HandleReached(s: System, spawns: Spawns)
    requires Reached(s) && Inv(s) && s.queue != []
    ensures Reached(Handle(s, spawns))
  {
    var acts := HandleIsRun(s, spawns);
    HandleKeepsInv(s, spawns);
    ReachedLater(s, acts, Handle(s, spawns));
  }

  lemma CloseReached(s: System)
    requires Reached(s)
    ensures Reached(Apply(s, Close))
  {
    var acts := [Shutdown];
    assert acts[1..] == [];
    assert Next(Machine(s, Idle), acts[0]) == Machine(Apply(s, Close), Idle);
    ReachedLater(s, acts, Apply(s, Close));
  }
}
