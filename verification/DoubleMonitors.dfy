/** When a program can get a second live monitor (cirond/src/process.rs, `start_process_single`,
    `handle_single_event`). */
module DoubleMonitors {
  import opened Resolution
  import opened Supervisor
  import opened Ledger
  import opened Invariants
  import opened Machine
  import opened Starting
  import opened Operations
  import opened Refinement
  import opened Revival

  /** How many more live monitors and queued ends there are than the flag accounts for. */
  ghost function Surplus(s: System, n: string): int {
    |Tasks(s.live, n)| + Count(s.queue, EndOf(n)) - One(IsRunning(s, n))
  }

  /** A run without hazards, before shutdown, that ends with two live monitors of `n`. */
  ghost predicate Doubles(s: System, acts: seq<Action>, n: string) {
    && IsRun(Machine(s, Idle), acts) && HazardFree(Machine(s, Idle), acts, n)
    && Final(Machine(s, Idle), acts).sys.open
    && |Tasks(Final(Machine(s, Idle), acts).sys.live, n)| >= 2
  }

  lemma {:induction false} StartsAreHazardFree(m: Machine, acts: seq<Action>, n: string)
    requires IsRun(m, acts) && StartsAndEvents(acts)
    ensures HazardFree(m, acts, n)
    decreases |acts|
  {
    if acts != [] {
      assert acts[0] in acts;
      EffectEnabled(m, acts[0]);
      StartsAreHazardFree(Next(m, acts[0]), acts[1..], n);
    }
  }

  // ---------------------------------------------------------------- one more monitor

  /** An attempt leaves the surplus and the queued ends as they are. */
  lemma SingleKeepsSurplus(s: System, u: string, spawns: Spawns, n: string)
    requires Inv(s) && s.open
    ensures var s' := StartSingle(s, u, spawns);
            s'.open && Surplus(s', n) == Surplus(s, n) && Count(s'.queue, EndOf(n)) == Count(s.queue, EndOf(n))
  {
    SingleIsEffect(s, u, spawns);
    if u in s.processes && !IsRunning(s, u) {
      var e := if u in spawns then Spawn(u, spawns[u]) else SpawnFails(u);
      FlagEffect(s, e, n);
      TaskEffect(s, e, n);
      EndsEffect(s, e, n);
      OpenEffect(s, e);
    }
  }

  lemma {:induction false} BatchKeepsSurplus(s: System, units: seq<string>, spawns: Spawns, n: string)
    requires Inv(s) && s.open
    ensures var s' := StartUnits(s, units, spawns);
            s'.open && Surplus(s', n) == Surplus(s, n) && Count(s'.queue, EndOf(n)) == Count(s.queue, EndOf(n))
  {
    if units != [] {
      var front := units[..|units| - 1];
      BatchKeepsSurplus(s, front, spawns, n);
      BatchKeepsInv(s, front, spawns);
      SingleKeepsSurplus(StartUnits(s, front, spawns), units[|units| - 1], spawns, n);
    }
  }

  /** Starting a program that is down. */
  lemma StartOne(s: System, n: string) returns (acts: seq<Action>, s': System)
    requires Inv(s) && s.open && n in s.configs && !IsRunning(s, n)
    ensures StartsAndEvents(acts) && RunsTo(s, acts, s')
    ensures Inv(s') && s'.open && s'.configs == s.configs && IsRunning(s', n)
    ensures Surplus(s', n) == Surplus(s, n) && Count(s'.queue, EndOf(n)) == Count(s.queue, EndOf(n))
  {
    var one: Spawns := map[n := 0];
    acts := StartIsRun(s, n, one);
    s' := Start(s, n, one);
    StartKeepsInv(s, n, one);
    RunsAfterStart(s, n, one);
    BatchKeepsSurplus(s, StartOrder(s.configs, n), one, n);
  }

  lemma RunsAfterStart(s: System, n: string, spawns: Spawns)
    requires s.processes.Keys == s.configs.Keys && n in s.configs && n in spawns
    ensures IsRunning(Start(s, n, spawns), n)
  {
    StartFacts(s, n, spawns);
  }

  lemma TakeWhileRunning(s: System, n: string)
    requires Inv(s) && s.open && IsRunning(s, n) && s.queue != []
    ensures var s' := TakeEffect(s);
            && Surplus(s', n) == Surplus(s, n)
            && Count(s'.queue, EndOf(n)) == Count(s.queue, EndOf(n)) - One(Matches(EndOf(n), s.queue[0]))
            && (IsRunning(s', n) <==> !Matches(EndOf(n), s.queue[0]))
  {
    FlagEffect(s, Take, n);
    TaskEffect(s, Take, n);
    EndsEffect(s, Take, n);
  }

  /** Handling one event, in vain, while the program runs: an end of it brings it down, anything else
      just shortens the queue. */
  lemma HandleOne(s: System, n: string) returns (acts: seq<Action>, s': System)
    requires Inv(s) && s.open && IsRunning(s, n) && s.queue != []
    ensures StartsAndEvents(acts) && RunsTo(s, acts, s')
    ensures Inv(s') && s'.open && s'.configs == s.configs && Surplus(s', n) == Surplus(s, n)
    ensures s'.queue == s.queue[1..]
    ensures Count(s'.queue, EndOf(n)) == Count(s.queue, EndOf(n)) - One(Matches(EndOf(n), s.queue[0]))
    ensures IsRunning(s', n) <==> !Matches(EndOf(n), s.queue[0])
  {
    acts := HandleIsRun(s, map[]);
    s' := Handle(s, map[]);
    HandleKeepsInv(s, map[]);
    InvKept(s, Take);
    TakeWhileRunning(s, n);
    var mid, r := TakeEffect(s), s.queue[0].name;
    if s.queue[0].RestartRequested? && r in s.configs {
      NothingSpawnable(mid, r);
      BatchKeepsSurplus(mid, StartOrder(mid.configs, r), map[], n);
      assert IsRunning(s', n) <==> n in Running(s');
      assert IsRunning(mid, n) <==> n in Running(mid);
    }
  }

  lemma DoublesLater(s: System, a: seq<Action>, s': System, b: seq<Action>, n: string)
    requires StartsAndEvents(a) && RunsTo(s, a, s') && StartsAndEvents(b) && Doubles(s', b, n)
    ensures StartsAndEvents(a + b) && Doubles(s, a + b, n)
  {
    RunConcat(Machine(s, Idle), a, b);
    StartsAreHazardFree(Machine(s, Idle), a + b, n);
  }

  /** A surplus becomes a second live monitor: start the program whenever it is down, and handle
      events otherwise. */
  lemma {:induction false} SurplusDoubles(s: System, n: string) returns (acts: seq<Action>)
    requires Inv(s) && s.open && n in s.configs && Surplus(s, n) > 0
    ensures StartsAndEvents(acts) && Doubles(s, acts, n)
    decreases Count(s.queue, EndOf(n)), One(!IsRunning(s, n)), |s.queue|
  {
    if |Tasks(s.live, n)| >= 2 {
      acts := [];
    } else {
      var first, s';
      if IsRunning(s, n) {
        CountPositive(s.queue, EndOf(n));
        first, s' := HandleOne(s, n);
      } else {
        first, s' := StartOne(s, n);
      }
      var rest := SurplusDoubles(s', n);
      DoublesLater(s, first, s', rest, n);
      acts := first + rest;
    }
  }

  /** A running program has a live monitor or a queued end, so what is missing to exactly one is a
      surplus. */
  lemma SurplusIfNotOne(s: System, n: string)
    requires Inv(s) && s.open && !OneWatcher(s, n)
    ensures Surplus(s, n) > 0
  {
    assert Holds(s, n) && Watched(s, n);
    WatcherCounts(s, n);
  }

  /** From any state before shutdown some continuation without hazards has two live monitors of a
      program iff the state does not have exactly one live monitor or queued end for it, if it runs,
      and none otherwise. */
  lemma SecondMonitorIff(s: System, n: string)
    requires Inv(s) && s.open && n in s.configs
    ensures (exists acts :: Doubles(s, acts, n)) <==> !OneWatcher(s, n)
  {
    if OneWatcher(s, n) {
      forall acts ensures !Doubles(s, acts, n) {
        if Doubles(s, acts, n) {
          OneWatcherIffHazardFree(Machine(s, Idle), acts, n);
          AlwaysAtTheEnd(Machine(s, Idle), acts, n);
        }
      }
    } else {
      SurplusIfNotOne(s, n);
      var acts := SurplusDoubles(s, n);
    }
  }
}
