/** How much work a run can give the event loop (cirond/src/process.rs, `handle_single_event`;
    cirond/src/main.rs). */
module Workload {
  import opened Configuration
  import opened Supervisor
  import opened Ledger
  import opened Invariants
  import opened Machine
  import opened Operations
  import opened Refinement
  import opened Batches

  /** How many more events may have to be handled after a change: an end that is sent is one, and the
      restart that may follow sends `Started`; so does the start after a stop. */
  ghost function Load(e: Effect): nat {
    match e
    case MonitorEnds(_, _) => 2
    case LateEnds(_, _) => 2
    case TimerFires(_) => 1
    case StopRunning(_) => 1
    case _ => 0
  }

  lemma AppendEvent(s: System, e: Event)
    ensures var q := Supervisor.Send(s, e).queue;
            |q| + Ends(q) <= |s.queue| + Ends(s.queue) + 1 + One(IsEnd(e))
  {
    EndsConcat(s.queue, [e]);
    EndsOne(e);
  }

  lemma SpawnTrades(s: System, n: string, pid: nat)
    requires n in s.processes && !s.processes[n].running
    ensures Potential(SpawnEffect(s, n, pid)) <= Potential(s)
  {
    AppendEvent(s, Started(n));
    assert n in Idling(s);
    assert Idling(SpawnEffect(s, n, pid)) == Idling(s) - {n};
  }

  lemma StopIdles(s: System, n: string)
    requires n in s.processes
    ensures Potential(StopEffect(s, n)) <= Potential(s) + 1
  {
    assert Idling(StopEffect(s, n)) == Idling(s) + {n};
  }

  /** Sending an event, with the program table as it is. */
  lemma SendRaises(s: System, e: Event, s': System)
    requires s'.processes == s.processes && s'.queue == Supervisor.Send(s, e).queue
    ensures Potential(s') <= Potential(s) + 1 + One(IsEnd(e))
  {
    AppendEvent(s, e);
    assert Idling(s') == Idling(s);
  }

  /** Every change leaves no more to handle than there was before, less the event it takes, plus its
      own load. */
  lemma PotentialStep(s: System, e: Effect)
    requires Enabled(s, e)
    ensures Potential(Apply(s, e)) + One(e == Take) <= Potential(s) + Load(e)
    ensures |Apply(s, e).handled| == |s.handled| + One(e == Take)
  {
    match e
    case Spawn(n, pid) => SpawnTrades(s, n, pid);
    case StopRunning(n) => StopIdles(s, n);
    case Take => TakeLowers(s);
    case MonitorEnds(m, end) => SendRaises(s, EndEvent(s.live[m], end), Apply(s, e));
    case LateEnds(m, end) => SendRaises(s, EndEvent(s.dying[m], end), Apply(s, e));
    case TimerFires(n) => SendRaises(s, RestartRequested(n), Apply(s, e));
    case _ =>
  }

  ghost function ActionLoad(a: Action): nat {
    match a
    case Environment(e) => Load(e)
    case StopRequest(_) => 1
    case RestartRequest(_) => 1
    case _ => 0
  }

  ghost function Cost(acts: seq<Action>): nat
    decreases |acts|
  {
    if acts == [] then 0 else ActionLoad(acts[0]) + Cost(acts[1..])
  }

  lemma ActionStep(m: Machine, a: Action)
    requires Possible(m, a)
    ensures |Next(m, a).sys.handled| + Potential(Next(m, a).sys)
         <= |m.sys.handled| + Potential(m.sys) + ActionLoad(a)
  {
    EffectEnabled(m, a);
    if EffectOf(m, a).Some? {
      PotentialStep(m.sys, EffectOf(m, a).value);
    }
  }

  /** In every run, whatever is interleaved: the events handled, and those still to handle, are no
      more than there were to handle before, plus the loads of the monitors, timers and stops. */
  lemma {:induction false} HandledBounded(m: Machine, acts: seq<Action>)
    requires IsRun(m, acts)
    ensures |Final(m, acts).sys.handled| + Potential(Final(m, acts).sys)
         <= |m.sys.handled| + Potential(m.sys) + Cost(acts)
    decreases |acts|
  {
    if acts != [] {
      ActionStep(m, acts[0]);
      HandledBounded(Next(m, acts[0]), acts[1..]);
    }
  }

  /** From a freshly loaded configuration: one event for every program, two for every end that a
      monitor sends, one for every timer and every stop or restart request. */
  lemma HandledInRuns(c: Configs, acts: seq<Action>)
    requires IsRun(Initial(c), acts)
    ensures |Final(Initial(c), acts).sys.handled| <= |c.Keys| + Cost(acts)
  {
    HandledBounded(Initial(c), acts);
    assert Idling(Loaded(c)) == c.Keys;
  }

  // ---------------------------------------------------------------- draining amid moves

  /** The event loop at work: events, the attempts they lead to, and environment moves. */
  ghost predicate InsideDrain(acts: seq<Action>) {
    forall a | a in acts :: a.HandleEvent? || a.Attempt? || a.Environment?
  }

  /** The event loop may lead from `s` to `s'`, both between two events, having handled `count`
      events: no more than `s` had to handle, plus the load of the moves in between. */
  ghost predicate Drained(s: System, s': System, count: nat) {
    exists acts :: InsideDrain(acts) && RunsTo(s, acts, s')
                   && |s'.handled| == |s.handled| + count && count <= Potential(s) + Cost(acts)
  }

  lemma DrainedNothing(s: System)
    ensures Drained(s, s, 0)
  {
    var none: seq<Action> := [];
    assert InsideDrain(none) && RunsTo(s, none, s);
  }

  /** One more stretch of the event loop's work. */
  lemma DrainedMore(s: System, mid: System, count: nat, more: seq<Action>, s': System)
    requires Drained(s, mid, count) && InsideDrain(more) && RunsTo(mid, more, s')
    requires |mid.handled| <= |s'.handled|
    ensures Drained(s, s', count + |s'.handled| - |mid.handled|)
  {
    var acts :| InsideDrain(acts) && RunsTo(s, acts, mid) && |mid.handled| == |s.handled| + count;
    RunConcat(Machine(s, Idle), acts, more);
    HandledBounded(Machine(s, Idle), acts + more);
    assert InsideDrain(acts + more) && RunsTo(s, acts + more, s');
  }

  /** One turn of the event loop: nothing for an empty queue, a start amid environment moves for a
      restart request, and otherwise just the taking of the event. */
  ghost predicate TurnTaken(s: System, spawns: Spawns, s': System) {
    if s.queue == [] then s' == s
    else if s.queue[0].RestartRequested? then Amid(BeginStart(TakeEffect(s), s.queue[0].name), spawns, s')
    else s' == TakeEffect(s)
  }

  lemma StartLeavesHandled(s: System, n: string, spawns: Spawns, s': System)
    requires s.processes.Keys == s.configs.Keys
    ensures Amid(BeginStart(s, n), spawns, s') ==> s'.handled == s.handled && s'.processes.Keys == s'.configs.Keys
  {
    if Amid(BeginStart(s, n), spawns, s') {
      if n in s.configs {
        StartAmidFacts(s, n, spawns, s');
      } else {
        PauseFacts(s, spawns, s');
      }
    }
  }

  lemma TurnFacts(s: System, spawns: Spawns, s': System)
    requires s.processes.Keys == s.configs.Keys && TurnTaken(s, spawns, s')
    ensures s'.processes.Keys == s'.configs.Keys
    ensures |s'.handled| == |s.handled| + One(s.queue != [])
  {
    if s.queue != [] && s.queue[0].RestartRequested? {
      StartLeavesHandled(TakeEffect(s), s.queue[0].name, spawns, s');
    }
  }

  lemma TurnIsRun(s: System, spawns: Spawns, s': System) returns (acts: seq<Action>)
    requires TurnTaken(s, spawns, s')
    ensures InsideDrain(acts) && RunsTo(s, acts, s')
  {
    if s.queue == [] {
      acts := [];
    } else if s.queue[0].RestartRequested? {
      acts := HandleAmidIsRun(s, spawns, s');
    } else {
      HandleFirst(s);
      acts := [HandleEvent];
      assert acts[1..] == [];
    }
  }

  /** The loop after `count` events: `more` tells whether another turn is due; environment moves come
      in the first `rounds` turns only. */
  ghost predicate LoopAt(s: System, outcomes: nat -> Spawns, rounds: nat, count: nat, more: bool, s': System) {
    && s'.processes.Keys == s'.configs.Keys && Drained(s, s', count)
    && (!more ==> s'.queue == [])
    && (rounds == 0 ==> s.processes.Keys == s.configs.Keys && Drain(s', outcomes, count) == Drain(s, outcomes, 0))
  }

  ghost function RoundsLeft(rounds: nat, count: nat): nat {
    if count < rounds then rounds - count else 0
  }

  lemma LoopBegins(s: System, outcomes: nat -> Spawns, rounds: nat)
    requires s.processes.Keys == s.configs.Keys
    ensures LoopAt(s, outcomes, rounds, 0, true, s)
  {
    DrainedNothing(s);
  }

  /** One turn after `moves`. */
  lemma DrainedTurn(s: System, mid: System, count: nat, moves: seq<Effect>, spawns: Spawns, s': System)
    requires mid.processes.Keys == mid.configs.Keys && Drained(s, mid, count)
    requires TurnTaken(Moved(mid, moves), spawns, s')
    ensures Drained(s, s', count + One(Moved(mid, moves).queue != []))
    ensures s'.processes.Keys == s'.configs.Keys
  {
    var now := Moved(mid, moves);
    MovesLeaveManager(mid, moves);
    var pause := MovesAreRun(mid, Idle, moves);
    DrainedMore(s, mid, count, pause, now);
    TurnFacts(now, spawns, s');
    var turn := TurnIsRun(now, spawns, s');
    DrainedMore(s, now, count, turn, s');
  }

  /** The measure of a drain without moves has dropped. */
  ghost predicate NearerEmpty(s': System, s: System) {
    || Requests(s'.queue) < Requests(s.queue)
    || (Requests(s'.queue) == Requests(s.queue) && |s'.queue| < |s.queue|)
  }

  lemma DrainStep(s: System, outcomes: nat -> Spawns, k: nat)
    requires s.processes.Keys == s.configs.Keys && s.queue != []
    ensures var s' := Handle(s, outcomes(k));
            && s'.processes.Keys == s'.configs.Keys
            && Drain(s, outcomes, k) == Drain(s', outcomes, k + 1)
            && NearerEmpty(s', s)
  {
    HandleLowers(s, outcomes(k));
  }

  lemma LoopTurn(s: System, outcomes: nat -> Spawns, rounds: nat, count: nat, mid: System, moves: seq<Effect>,
                 more: bool, s': System)
    requires LoopAt(s, outcomes, rounds, count, true, mid)
    requires TurnTaken(Moved(mid, moves), outcomes(count), s') && (more <==> Moved(mid, moves).queue != [])
    requires count >= rounds ==> moves == [] && (more ==> s' == Handle(mid, outcomes(count)))
    ensures LoopAt(s, outcomes, rounds, if more then count + 1 else count, more, s')
    ensures more && count >= rounds ==> NearerEmpty(s', mid)
  {
    DrainedTurn(s, mid, count, moves, outcomes(count), s');
    if more && count >= rounds {
      DrainStep(mid, outcomes, count);
    }
  }

  /** Before shutdown, with an empty queue, every program listed as running has its current monitor
      at work. */
  lemma EmptyQueueIsWatched(s: System)
    requires Inv(s) && s.open && s.queue == []
    ensures forall n | IsRunning(s, n) :: CurrentMonitorLive(s, n)
  {
    forall n | IsRunning(s, n) ensures CurrentMonitorLive(s, n) {
      assert Holds(s, n) && Watched(s, n);
      assert Count(s.queue, EndOf(n)) == 0;
    }
  }

  lemma LoopEnds(s: System, outcomes: nat -> Spawns, rounds: nat, count: nat, s': System)
    requires LoopAt(s, outcomes, rounds, count, false, s')
    ensures Drained(s, s', count) && |s'.handled| == |s.handled| + count && s'.queue == []
    ensures rounds == 0 ==> s.processes.Keys == s.configs.Keys && s' == Drain(s, outcomes, 0)
  {
  }
}
