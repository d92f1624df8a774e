/** Whole manager operations keep the invariant; draining the event queue terminates within a
    bound (cirond/src/process.rs, cirond/src/main.rs). */
module Operations {
  import opened Wrappers
  import opened Sequences
  import opened Configuration
  import opened Resolution
  import opened Supervisor
  import opened Ledger
  import opened Invariants
  import opened Starting

  /** One attempt of a batch is no change, or one spawn effect. */
  lemma SingleIsEffect(s: System, n: string, spawns: Spawns)
    ensures n !in s.processes || IsRunning(s, n) ==> StartSingle(s, n, spawns) == s
    ensures n in s.processes && !IsRunning(s, n) ==>
              var e := if n in spawns then Spawn(n, spawns[n]) else SpawnFails(n);
              Enabled(s, e) && StartSingle(s, n, spawns) == Apply(s, e)
  {
  }

  lemma SingleKeepsInv(s: System, n: string, spawns: Spawns)
    requires Inv(s)
    ensures Inv(StartSingle(s, n, spawns)) && StartSingle(s, n, spawns).configs == s.configs
  {
    SingleIsEffect(s, n, spawns);
    if n in s.processes && !IsRunning(s, n) {
      InvKept(s, if n in spawns then Spawn(n, spawns[n]) else SpawnFails(n));
    }
  }

  lemma {:induction false} BatchKeepsInv(s: System, units: seq<string>, spawns: Spawns)
    requires Inv(s)
    ensures Inv(StartUnits(s, units, spawns)) && StartUnits(s, units, spawns).configs == s.configs
  {
    if units != [] {
      var front := units[..|units| - 1];
      BatchKeepsInv(s, front, spawns);
      SingleKeepsInv(StartUnits(s, front, spawns), units[|units| - 1], spawns);
    }
  }

  lemma StartKeepsInv(s: System, n: string, spawns: Spawns)
    requires Inv(s)
    ensures Inv(Start(s, n, spawns)) && Start(s, n, spawns).configs == s.configs
  {
    if n in s.configs {
      BatchKeepsInv(s, StartOrder(s.configs, n), spawns);
    }
  }

  lemma StopKeepsInv(s: System, n: string)
    requires Inv(s)
    ensures Inv(Stop(s, n)) && Stop(s, n).configs == s.configs
  {
    if IsRunning(s, n) {
      InvKept(s, StopRunning(n));
    }
  }

  lemma HandleKeepsInv(s: System, spawns: Spawns)
    requires Inv(s) && s.queue != []
    ensures Inv(Handle(s, spawns)) && Handle(s, spawns).configs == s.configs
  {
    InvKept(s, Take);
    if s.queue[0].RestartRequested? {
      StartKeepsInv(TakeEffect(s), s.queue[0].name, spawns);
    }
  }

  // ---------------------------------------------------------------- the event drain

  ghost function Ends(events: seq<Event>): nat {
    if events == [] then 0 else Ends(events[..|events| - 1]) + One(IsEnd(events[|events| - 1]))
  }

  ghost function Requests(events: seq<Event>): nat {
    if events == [] then 0
    else Requests(events[..|events| - 1]) + One(events[|events| - 1].RestartRequested?)
  }

  lemma {:induction false} EndsConcat(a: seq<Event>, b: seq<Event>)
    ensures Ends(a + b) == Ends(a) + Ends(b)
    ensures Requests(a + b) == Requests(a) + Requests(b)
  {
    if b == [] {
      assert a + b == a;
    } else {
      EndsConcat(a, b[..|b| - 1]);
      assert (a + b)[..|a + b| - 1] == a + b[..|b| - 1];
    }
  }

  lemma EndsOne(e: Event)
    ensures Ends([e]) == One(IsEnd(e)) && Requests([e]) == One(e.RestartRequested?)
  {
    var none: seq<Event> := [];
    assert [e][..0] == none;
  }

  lemma EndsHead(events: seq<Event>)
    requires events != []
    ensures Ends(events) == Ends(events[1..]) + One(IsEnd(events[0]))
    ensures Requests(events) == Requests(events[1..]) + One(events[0].RestartRequested?)
  {
    assert events == [events[0]] + events[1..];
    EndsConcat([events[0]], events[1..]);
    EndsOne(events[0]);
  }

  lemma {:induction false} StartsHaveNoEnds(names: seq<string>)
    ensures Ends(Starts(names)) == 0 && Requests(Starts(names)) == 0 && |Starts(names)| == |names|
  {
    if names != [] {
      var front := names[..|names| - 1];
      StartsHaveNoEnds(front);
      EndsConcat(Starts(front), [Started(names[|names| - 1])]);
      EndsOne(Started(names[|names| - 1]));
    }
  }

  ghost function Idling(s: System): set<string> {
    s.processes.Keys - Running(s)
  }

  /** How many events a drain can still handle: those queued, plus one `Started` for every program
      that is down or has an end queued that takes it down. */
  ghost function Potential(s: System): nat {
    |s.queue| + Ends(s.queue) + |Idling(s)|
  }

  lemma TakeIdling(s: System)
    requires s.queue != []
    ensures |Idling(TakeEffect(s))| <= |Idling(s)| + One(IsEnd(s.queue[0]))
  {
    var s', e := TakeEffect(s), s.queue[0];
    if IsEnd(e) {
      assert Idling(s') <= Idling(s) + {e.name};
      SubsetSize(Idling(s'), Idling(s) + {e.name});
    } else {
      assert Idling(s') == Idling(s);
    }
  }

  lemma TakeLowers(s: System)
    requires s.queue != []
    ensures Potential(TakeEffect(s)) < Potential(s)
    ensures Requests(TakeEffect(s).queue) == Requests(s.queue) - One(s.queue[0].RestartRequested?)
  {
    EndsHead(s.queue);
    TakeIdling(s);
  }

  /** Starting trades programs that are down for as many queued `Started` events. */
  lemma StartTrades(s: System, n: string, spawns: Spawns)
    requires s.processes.Keys == s.configs.Keys && n in s.configs
    ensures var newly := NewlyStarted(s, StartOrder(s.configs, n), spawns);
            |Idling(Start(s, n, spawns))| + |newly| == |Idling(s)|
  {
    var newly := NewlyStarted(s, StartOrder(s.configs, n), spawns);
    StartFacts(s, n, spawns);
    OrderListsClosureOnce(s.configs, n);
    KeepElems(StartOrder(s.configs, n), spawns.Keys - Running(s));
    DistinctSize(newly);
    IdlingShrinks(s.configs.Keys, Running(s), Closure(s.configs, n), spawns.Keys);
  }

  lemma IdlingShrinks(all: set<string>, running: set<string>, closure: set<string>, spawnable: set<string>)
    requires closure <= all
    ensures |all - (running + closure * spawnable)| + |closure * (spawnable - running)| == |all - running|
  {
    var newly := closure * (spawnable - running);
    var after := all - (running + closure * spawnable);
    assert all - running == after + newly && after !! newly;
  }

  lemma StartsAppended(queue: seq<Event>, newly: seq<string>)
    ensures Ends(queue + Starts(newly)) == Ends(queue)
    ensures Requests(queue + Starts(newly)) == Requests(queue)
    ensures |queue + Starts(newly)| == |queue| + |newly|
  {
    StartsHaveNoEnds(newly);
    EndsConcat(queue, Starts(newly));
  }

  lemma StartLengthens(s: System, n: string, spawns: Spawns)
    requires s.processes.Keys == s.configs.Keys && n in s.configs
    ensures var newly := NewlyStarted(s, StartOrder(s.configs, n), spawns);
            && |Start(s, n, spawns).queue| <= |s.queue| + |newly|
            && Ends(Start(s, n, spawns).queue) == Ends(s.queue)
            && Requests(Start(s, n, spawns).queue) == Requests(s.queue)
  {
    StartFacts(s, n, spawns);
    StartsAppended(s.queue, NewlyStarted(s, StartOrder(s.configs, n), spawns));
    assert s.queue + [] == s.queue;
  }

  lemma StartKeepsPotential(s: System, n: string, spawns: Spawns)
    requires s.processes.Keys == s.configs.Keys
    ensures Potential(Start(s, n, spawns)) <= Potential(s)
    ensures Requests(Start(s, n, spawns).queue) == Requests(s.queue)
  {
    if n in s.configs {
      StartTrades(s, n, spawns);
      StartLengthens(s, n, spawns);
    }
  }

  /** The measure of the drain: the queued restart requests drop, or they stay and the queue gets
      shorter; and in any case the potential drops. */
  lemma HandleLowers(s: System, spawns: Spawns)
    requires s.queue != [] && s.processes.Keys == s.configs.Keys
    ensures Potential(Handle(s, spawns)) < Potential(s)
    ensures var s' := Handle(s, spawns);
            || Requests(s'.queue) < Requests(s.queue)
            || (Requests(s'.queue) == Requests(s.queue) && |s'.queue| < |s.queue|)
    ensures Handle(s, spawns).processes.Keys == Handle(s, spawns).configs.Keys
    ensures Handle(s, spawns).handled == s.handled + [s.queue[0]]
  {
    TakeLowers(s);
    if s.queue[0].RestartRequested? {
      StartKeepsPotential(TakeEffect(s), s.queue[0].name, spawns);
      if s.queue[0].name in s.configs {
        StartFacts(TakeEffect(s), s.queue[0].name, spawns);
      }
    }
  }

  /** Draining the queue while no monitor and no timer makes a move; `outcomes(k)` is the spawn
      outcome of the restart request that is the `k`-th event handled. */
  ghost function Drain(s: System, outcomes: nat -> Spawns, k: nat): System
    requires s.processes.Keys == s.configs.Keys
    decreases Requests(s.queue), |s.queue|
  {
    if s.queue == [] then s
    else
      HandleLowers(s, outcomes(k));
      Drain(Handle(s, outcomes(k)), outcomes, k + 1)
  }

  /** A drain empties the queue and handles at most as many events as were queued, plus the queued
      ends, plus the programs not running when it began; before shutdown every program then listed
      as running has its current monitor at work. */
  lemma {:induction false} DrainBounded(s: System, outcomes: nat -> Spawns, k: nat)
    requires Inv(s)
    ensures var s' := Drain(s, outcomes, k);
            && s'.queue == []
            && s.handled <= s'.handled
            && |s'.handled| - |s.handled| <= |s.queue| + Ends(s.queue) + |Idling(s)|
            && Inv(s')
            && (s'.open ==> forall n | IsRunning(s', n) :: CurrentMonitorLive(s', n))
    decreases Requests(s.queue), |s.queue|
  {
    if s.queue == [] {
      if s.open {
        forall n | IsRunning(s, n) ensures CurrentMonitorLive(s, n) {
          assert Holds(s, n);
          assert Count(s.queue, EndOf(n)) == 0;
        }
      }
    } else {
      HandleLowers(s, outcomes(k));
      HandleKeepsInv(s, outcomes(k));
      DrainBounded(Handle(s, outcomes(k)), outcomes, k + 1);
    }
  }

  /** Events buffered when the channel was closed are still handled, each once, and nothing joins
      them. */
  lemma {:induction false} DrainAfterClose(s: System, outcomes: nat -> Spawns, k: nat)
    requires Inv(s) && !s.open
    ensures Drain(s, outcomes, k).handled == s.handled + s.queue
    decreases Requests(s.queue), |s.queue|
  {
    if s.queue == [] {
      assert s.handled + s.queue == s.handled;
    } else {
      var s' := Handle(s, outcomes(k));
      HandleLowers(s, outcomes(k));
      HandleKeepsInv(s, outcomes(k));
      HandleWhenClosed(s, outcomes(k));
      DrainAfterClose(s', outcomes, k + 1);
      TakeHead(s.handled, s.queue);
    }
  }

  lemma HandleWhenClosed(s: System, spawns: Spawns)
    requires s.queue != [] && !s.open && s.processes.Keys == s.configs.Keys
    ensures Handle(s, spawns).queue == s.queue[1..] && !Handle(s, spawns).open
  {
    if s.queue[0].RestartRequested? && s.queue[0].name in s.configs {
      StartFacts(TakeEffect(s), s.queue[0].name, spawns);
    }
  }

  // ---------------------------------------------------------------- stopping everything

  /** Stopping every listed program, in any order: none is marked running; programs that were not
      running are left alone, and so are queue and timers. */
  lemma {:induction false} StopAllFacts(s: System, names: seq<string>)
    requires s.processes.Keys == s.configs.Keys
    ensures var s' := StopAll(s, names);
            && Running(s') == Running(s) - Elems(names)
            && s'.configs == s.configs && s'.processes.Keys == s.processes.Keys
            && s'.queue == s.queue && s'.timers == s.timers && s'.handled == s.handled && s'.open == s.open
            && s'.nextMonitor == s.nextMonitor
            && (forall n | n in s.processes && (n !in Elems(names) || !s.processes[n].running) ::
                  s'.processes[n] == s.processes[n])
            && (forall n | n in s.processes && n in Elems(names) && s.processes[n].running ::
                  s'.processes[n] == ManagedProcess(None, None, false))
  {
    if names != [] {
      var front, last := names[..|names| - 1], names[|names| - 1];
      assert names == front + [last];
      SnocElems(front, last);
      StopAllFacts(s, front);
      StopFacts(StopAll(s, front), last);
    }
  }

  /** The monitor task that the handle of a running `n` names, unless it has ended. */
  ghost function Watcher(s: System, n: string): set<nat> {
    if IsRunning(s, n) then Aborted(s, n) else {}
  }

  ghost function Watchers(s: System, names: seq<string>): set<nat> {
    if names == [] then {} else Watchers(s, names[..|names| - 1]) + Watcher(s, names[|names| - 1])
  }

  lemma StopTasks(s: System, n: string)
    ensures Stop(s, n).live.Keys == s.live.Keys - Watcher(s, n)
    ensures Stop(s, n).dying.Keys == s.dying.Keys + Watcher(s, n)
  {
  }

  /** What an earlier stop has done to the watcher of a program still to be stopped. */
  lemma WatcherLater(s: System, front: seq<string>, n: string)
    requires s.processes.Keys == s.configs.Keys
    requires StopAll(s, front).live.Keys == s.live.Keys - Watchers(s, front)
    ensures Watcher(StopAll(s, front), n) <= Watcher(s, n) <= Watcher(StopAll(s, front), n) + Watchers(s, front)
  {
    StopAllFacts(s, front);
    if n in Elems(front) {
      WatchersInclude(s, front, n);
    }
  }

  lemma {:induction false} WatchersInclude(s: System, names: seq<string>, n: string)
    requires n in names
    ensures Watcher(s, n) <= Watchers(s, names)
  {
    if n != names[|names| - 1] {
      WatchersInclude(s, names[..|names| - 1], n);
    }
  }

  /** Stopping every listed program: the monitors their handles name are told to abort, and no
      other. */
  lemma {:induction false} StopAllTasks(s: System, names: seq<string>)
    requires s.processes.Keys == s.configs.Keys
    ensures StopAll(s, names).live.Keys == s.live.Keys - Watchers(s, names)
    ensures StopAll(s, names).dying.Keys == s.dying.Keys + Watchers(s, names)
  {
    if names != [] {
      var front, last := names[..|names| - 1], names[|names| - 1];
      StopAllTasks(s, front);
      StopTasks(StopAll(s, front), last);
      WatcherLater(s, front, last);
    }
  }

  /** One stop: only a running program changes, and only its own entry. */
  lemma StopFacts(s: System, n: string)
    ensures var s' := Stop(s, n);
            && Running(s') == Running(s) - {n}
            && s'.configs == s.configs && s'.processes.Keys == s.processes.Keys
            && s'.queue == s.queue && s'.timers == s.timers && s'.handled == s.handled && s'.open == s.open
            && s'.nextMonitor == s.nextMonitor
            && (forall p | p in s.processes && (p != n || !s.processes[p].running) ::
                  s'.processes[p] == s.processes[p])
            && (n in s.processes && s.processes[n].running ==>
                  s'.processes[n] == ManagedProcess(None, None, false))
  {
    forall p ensures p in Running(Stop(s, n)) <==> p in Running(s) && p != n {
    }
  }
}
