/** When a program that is down comes up again although nobody asks for it
    (cirond/src/process.rs, `stop_process`, `handle_single_event`, `stop_all`, `shutdown`). */
module Revival {
  import opened Wrappers
  import opened Sequences
  import opened Graphs
  import opened Configuration
  import opened Resolution
  import opened Supervisor
  import opened Ledger
  import opened Invariants
  import opened Machine
  import opened Starting
  import opened Operations
  import opened Refinement
  import opened Comeback

  ghost predicate RestartPolicy(s: System, r: string) {
    Policy(s, r) == Some("always") || Policy(s, r) == Some("on-failure")
  }

  ghost predicate ExitQueued(s: System, r: string) {
    exists e | e in s.queue :: Matches(RestartableExitOf(r, Policy(s, r)), e)
  }

  /** Some monitor of `r` may still report an end. */
  ghost predicate Monitored(s: System, r: string) {
    exists m: nat :: (m in s.live && s.live[m] == r) || (m in s.dying && s.dying[m] == r)
  }

  /** What may make the event loop start `r`: a request that is queued, or, before shutdown, a timer,
      a restartable exit that is queued, or a monitor of a program with a restart policy. */
  ghost predicate Revives(s: System, r: string) {
    || RestartRequested(r) in s.queue
    || (s.open && (r in s.timers || ExitQueued(s, r) || (Monitored(s, r) && RestartPolicy(s, r))))
  }

  /** Some program that may be started pulls `n` in. */
  ghost predicate MayReturn(s: System, n: string) {
    exists r :: n in Closure(s.configs, r) && Revives(s, r)
  }

  // ---------------------------------------------------------------- staying down

  lemma QueuedAfter(s: System, e: Effect, x: Event)
    requires Enabled(s, e) && x in Apply(s, e).queue
    ensures x in s.queue || (s.open && Sent(s, e) == [x])
  {
    if s.open {
      QueueEffect(s, e);
    }
  }

  lemma MonitoredAfter(s: System, e: Effect, r: string)
    requires Enabled(s, e) && Monitored(Apply(s, e), r)
    ensures Monitored(s, r) || (e.Spawn? && e.name == r)
  {
  }

  lemma ExitQueuedAfter(s: System, e: Effect, r: string)
    requires Enabled(s, e) && ExitQueued(Apply(s, e), r)
    ensures ExitQueued(s, r) || (s.open && Monitored(s, r) && RestartPolicy(s, r))
  {
    var x :| x in Apply(s, e).queue && Matches(RestartableExitOf(r, Policy(s, r)), x);
    QueuedAfter(s, e, x);
  }

  lemma TimerAfter(s: System, e: Effect, r: string)
    requires Enabled(s, e) && r in Apply(s, e).timers
    ensures r in s.timers || ExitQueued(s, r)
  {
    if e == Take && r !in s.timers {
      assert s.queue[0] in s.queue && Matches(RestartableExitOf(r, Policy(s, r)), s.queue[0]);
    }
  }

  /** No change but a spawn gives a program new means to come back. */
  lemma RevivesAfter(s: System, e: Effect, r: string)
    requires Enabled(s, e) && Revives(Apply(s, e), r)
    ensures Revives(s, r) || (e.Spawn? && e.name == r)
  {
    var s' := Apply(s, e);
    OpenEffect(s, e);
    if RestartRequested(r) in s'.queue {
      QueuedAfter(s, e, RestartRequested(r));
    } else if r in s'.timers {
      TimerAfter(s, e, r);
    } else if ExitQueued(s', r) {
      ExitQueuedAfter(s, e, r);
    } else {
      MonitoredAfter(s, e, r);
    }
  }

  /** Down, with nothing under way that could pull it in. */
  ghost predicate Down(m: Machine, n: string) {
    && Known(m.sys) && n in m.sys.configs && !IsRunning(m.sys, n) && !MayReturn(m.sys, n)
    && !m.phase.Sleeping?
    && (m.phase.Starting? ==> forall u | u in m.phase.todo :: n !in Closure(m.sys.configs, u))
  }

  lemma EffectLeavesDown(s: System, e: Effect, n: string)
    requires Known(s) && Enabled(s, e) && n in s.configs && !IsRunning(s, n) && !MayReturn(s, n)
    requires e.Spawn? ==> n !in Closure(s.configs, e.name)
    ensures var s' := Apply(s, e);
            Known(s') && s'.configs == s.configs && !IsRunning(s', n) && !MayReturn(s', n)
  {
    var s' := Apply(s, e);
    KnownKept(s, e);
    FlagEffect(s, e, n);
    RootInClosure(s.configs, n);
    forall r | n in Closure(s.configs, r) ensures !Revives(s', r) {
      if Revives(s', r) {
        RevivesAfter(s, e, r);
      }
    }
  }

  /** Nothing that a request for `r` starts pulls in `n`, unless `r` does. */
  lemma BatchLeavesOut(c: Configs, r: string, n: string)
    requires r in c && n !in Closure(c, r)
    ensures forall u | u in StartOrder(c, r) :: n !in Closure(c, u)
  {
    OrderListsClosureOnce(c, r);
    forall u | u in StartOrder(c, r) ensures n !in Closure(c, u) {
      assert u in Elems(StartOrder(c, r));
      ReachableTransitive(PullGraph(c), r, u);
    }
  }

  lemma NextLeavesDown(m: Machine, a: Action, n: string)
    requires Possible(m, a) && !a.StartRequest? && !a.RestartRequest? && Down(m, n)
    ensures Down(Next(m, a), n) && Next(m, a).sys.configs == m.sys.configs
  {
    EffectEnabled(m, a);
    if a.Attempt? {
      assert m.phase.todo[0] in m.phase.todo;
    }
    if EffectOf(m, a).Some? {
      EffectLeavesDown(m.sys, EffectOf(m, a).value, n);
    }
    if a.HandleEvent? && m.sys.queue != [] && m.sys.queue[0].RestartRequested? {
      RequestLeavesOut(m.sys, n);
    }
  }

  lemma RequestLeavesOut(s: System, n: string)
    requires !MayReturn(s, n) && s.queue != [] && s.queue[0].RestartRequested?
    ensures s.queue[0].name in s.configs ==>
              forall u | u in StartOrder(s.configs, s.queue[0].name) :: n !in Closure(s.configs, u)
  {
    var r := s.queue[0].name;
    assert s.queue[0] in s.queue && Revives(s, r);
    if r in s.configs {
      BatchLeavesOut(s.configs, r, n);
    }
  }

  lemma {:induction false} RunLeavesDown(m: Machine, acts: seq<Action>, n: string)
    requires IsRun(m, acts) && Unaided(acts) && Down(m, n)
    ensures !IsRunning(Final(m, acts).sys, n)
    decreases |acts|
  {
    if acts != [] {
      NextLeavesDown(m, acts[0], n);
      RunLeavesDown(Next(m, acts[0]), acts[1..], n);
    }
  }

  // ---------------------------------------------------------------- coming back

  /** A run without start or restart request after which `n` runs. */
  ghost predicate Returns(s: System, acts: seq<Action>, n: string) {
    && Unaided(acts) && IsRun(Machine(s, Idle), acts)
    && IsRunning(Final(Machine(s, Idle), acts).sys, n)
  }

  lemma ReturnsLater(s: System, a: seq<Action>, s': System, b: seq<Action>, n: string)
    requires RunsTo(s, a, s') && Unaided(a) && Returns(s', b, n)
    ensures Returns(s, a + b, n)
  {
    RunConcat(Machine(s, Idle), a, b);
  }

  ghost predicate IsDown(s: System, n: string) {
    s.processes.Keys == s.configs.Keys && n in s.configs && !IsRunning(s, n)
  }

  /** Handling one event while every spawn fails. */
  lemma HandleInVain(s: System, n: string) returns (acts: seq<Action>, s': System)
    requires IsDown(s, n) && s.queue != []
    ensures Unaided(acts) && RunsTo(s, acts, s')
    ensures IsDown(s', n) && s'.configs == s.configs && s'.open == s.open && s'.queue == s.queue[1..]
    ensures s'.timers == TimersAfter(s, s.queue[0])
  {
    acts := HandleIsRun(s, map[]);
    s' := Handle(s, map[]);
    TakeLeavesDown(s, n);
    if s.queue[0].RestartRequested? && s.queue[0].name in s.configs {
      StartInVain(TakeEffect(s), s.queue[0].name, n);
    }
  }

  lemma TakeLeavesDown(s: System, n: string)
    requires IsDown(s, n) && s.queue != []
    ensures IsDown(TakeEffect(s), n)
  {
  }

  lemma StartInVain(s: System, r: string, n: string)
    requires IsDown(s, n) && r in s.configs
    ensures var s' := Start(s, r, map[]);
            && IsDown(s', n) && s'.configs == s.configs && s'.open == s.open && s'.queue == s.queue
            && s'.timers == s.timers
  {
    NothingSpawnable(s, r);
    assert IsRunning(Start(s, r, map[]), n) ==> n in Running(s);
  }

  lemma NothingSpawnable(s: System, r: string)
    requires s.processes.Keys == s.configs.Keys && r in s.configs
    ensures var s' := Start(s, r, map[]);
            && Running(s') == Running(s) && s'.queue == s.queue
            && OnlyStarts(s, s', Closure(s.configs, r))
  {
    var none: Spawns := map[];
    StartFacts(s, r, none);
    KeepNothing(StartOrder(s.configs, r), none.Keys - Running(s));
    assert s.queue + [] == s.queue;
  }

  /** A request at position `k` of the queue. */
  lemma {:induction false} ByRequest(s: System, n: string, r: string, k: nat) returns (acts: seq<Action>)
    requires IsDown(s, n) && n in Closure(s.configs, r)
    requires k < |s.queue| && s.queue[k] == RestartRequested(r)
    ensures Returns(s, acts, n)
    decreases k
  {
    if k == 0 {
      var one: Spawns := map[n := 0];
      acts := HandleIsRun(s, one);
      KnownRoot(s.configs, r, n);
      StartFacts(TakeEffect(s), r, one);
      assert n in Running(Handle(s, one));
    } else {
      var first, s' := HandleInVain(s, n);
      var rest := ByRequest(s', n, r, k - 1);
      ReturnsLater(s, first, s', rest, n);
      acts := first + rest;
    }
  }

  lemma MoveIsRun(s: System, e: Effect)
    requires OfEnvironment(e) && Enabled(s, e)
    ensures RunsTo(s, [Environment(e)], Apply(s, e)) && Unaided([Environment(e)])
  {
    var acts := [Environment(e)];
    assert acts[1..] == [];
    assert Next(Machine(s, Idle), acts[0]) == Machine(Apply(s, e), Idle);
  }

  lemma ByTimer(s: System, n: string, r: string) returns (acts: seq<Action>)
    requires IsDown(s, n) && n in Closure(s.configs, r) && s.open && r in s.timers
    ensures Returns(s, acts, n)
  {
    var fire := TimerFires(r);
    MoveIsRun(s, fire);
    var rest := ByRequest(Apply(s, fire), n, r, |s.queue|);
    ReturnsLater(s, [Environment(fire)], Apply(s, fire), rest, n);
    acts := [Environment(fire)] + rest;
  }

  /** A restartable exit at position `k` of the queue. */
  lemma {:induction false} ByExit(s: System, n: string, r: string, k: nat) returns (acts: seq<Action>)
    requires IsDown(s, n) && n in Closure(s.configs, r) && s.open
    requires k < |s.queue| && Matches(RestartableExitOf(r, Policy(s, r)), s.queue[k])
    ensures Returns(s, acts, n)
    decreases k
  {
    var first, s' := HandleInVain(s, n);
    var rest: seq<Action>;
    if k == 0 {
      KnownRoot(s.configs, r, n);
      rest := ByTimer(s', n, r);
    } else {
      rest := ByExit(s', n, r, k - 1);
    }
    ReturnsLater(s, first, s', rest, n);
    acts := first + rest;
  }

  lemma ByMonitor(s: System, n: string, r: string, m: nat) returns (acts: seq<Action>)
    requires IsDown(s, n) && n in Closure(s.configs, r) && s.open && RestartPolicy(s, r)
    requires (m in s.live && s.live[m] == r) || (m in s.dying && s.dying[m] == r)
    ensures Returns(s, acts, n)
  {
    var e := if m in s.live && s.live[m] == r then MonitorEnds(m, Code(1)) else LateEnds(m, Code(1));
    MoveIsRun(s, e);
    var rest := ByExit(Apply(s, e), n, r, |s.queue|);
    ReturnsLater(s, [Environment(e)], Apply(s, e), rest, n);
    acts := [Environment(e)] + rest;
  }

  lemma MayReturnDoes(s: System, n: string) returns (acts: seq<Action>)
    requires IsDown(s, n) && MayReturn(s, n)
    ensures Returns(s, acts, n)
  {
    var r :| n in Closure(s.configs, r) && Revives(s, r);
    if RestartRequested(r) in s.queue {
      var k :| 0 <= k < |s.queue| && s.queue[k] == RestartRequested(r);
      acts := ByRequest(s, n, r, k);
    } else if r in s.timers {
      acts := ByTimer(s, n, r);
    } else if ExitQueued(s, r) {
      var k :| 0 <= k < |s.queue| && Matches(RestartableExitOf(r, Policy(s, r)), s.queue[k]);
      acts := ByExit(s, n, r, k);
    } else {
      var m: nat :| (m in s.live && s.live[m] == r) || (m in s.dying && s.dying[m] == r);
      acts := ByMonitor(s, n, r, m);
    }
  }

  // ---------------------------------------------------------------- the exact conditions

  /** A program that is down comes up in some continuation without start or restart request iff
      some program that pulls it in has a request queued or, before shutdown, a timer pending, a
      restartable exit queued, or a monitor and a restart policy. */
  lemma ReturnsIff(s: System, n: string)
    requires Known(s) && n in s.configs && !IsRunning(s, n)
    ensures (exists acts :: Returns(s, acts, n)) <==> MayReturn(s, n)
  {
    if MayReturn(s, n) {
      var acts := MayReturnDoes(s, n);
    } else {
      forall acts | Unaided(acts) && IsRun(Machine(s, Idle), acts) ensures !Returns(s, acts, n) {
        RunLeavesDown(Machine(s, Idle), acts, n);
      }
    }
  }

  lemma NothingQueuedFor(s: System, n: string)
    requires !s.open && forall r | r in s.configs :: RestartRequested(r) !in s.queue
    ensures !MayReturn(s, n)
  {
    forall r | n in Closure(s.configs, r) ensures !Revives(s, r) {
      KnownRoot(s.configs, r, n);
    }
  }

  lemma NobodyRuns(s: System, n: string)
    requires Running(s) == {}
    ensures !IsRunning(s, n)
  {
    assert IsRunning(s, n) ==> n in Running(s);
  }

  /** A queued request of a configured program that is down starts it in some continuation. */
  lemma QueuedReturns(s: System, r: string) returns (acts: seq<Action>)
    requires Known(s) && Running(s) == {} && r in s.configs && RestartRequested(r) in s.queue
    ensures Unaided(acts) && IsRun(Machine(s, Idle), acts) && IsRunning(Final(Machine(s, Idle), acts).sys, r)
  {
    NobodyRuns(s, r);
    RootInClosure(s.configs, r);
    assert Revives(s, r);
    acts := MayReturnDoes(s, r);
  }

  lemma NoneQueuedStaysDown(s: System, acts: seq<Action>, n: string)
    requires Known(s) && !s.open && Running(s) == {} && n in s.configs
    requires forall r | r in s.configs :: RestartRequested(r) !in s.queue
    requires Unaided(acts) && IsRun(Machine(s, Idle), acts)
    ensures !IsRunning(Final(Machine(s, Idle), acts).sys, n)
  {
    NobodyRuns(s, n);
    NothingQueuedFor(s, n);
    RunLeavesDown(Machine(s, Idle), acts, n);
  }

  /** If this is a run without start or restart request, `n` does not run after it. */
  ghost predicate DownAfter(s: System, acts: seq<Action>, n: string) {
    Unaided(acts) && IsRun(Machine(s, Idle), acts) ==> !IsRunning(Final(Machine(s, Idle), acts).sys, n)
  }

  /** Nothing ever runs unless somebody asks for it. */
  ghost predicate NothingReturns(s: System) {
    forall acts, n | n in s.configs :: DownAfter(s, acts, n)
  }

  /** After everything has been stopped and the channel closed, nothing ever runs again iff no
      restart request of a configured program is still queued. */
  lemma NothingReturnsIff(s: System)
    requires Known(s) && !s.open && Running(s) == {}
    ensures NothingReturns(s) <==> forall r | r in s.configs :: RestartRequested(r) !in s.queue
  {
    if forall r | r in s.configs :: RestartRequested(r) !in s.queue {
      forall acts, n | n in s.configs ensures DownAfter(s, acts, n) {
        if Unaided(acts) && IsRun(Machine(s, Idle), acts) {
          NoneQueuedStaysDown(s, acts, n);
        }
      }
    } else {
      var r :| r in s.configs && RestartRequested(r) in s.queue;
      var acts := QueuedReturns(s, r);
      assert !DownAfter(s, acts, r);
    }
  }

  lemma {:induction false} StopAllKeepsKnown(s: System, names: seq<string>)
    requires Known(s)
    ensures Known(StopAll(s, names))
  {
    if names != [] {
      var mid, last := StopAll(s, names[..|names| - 1]), names[|names| - 1];
      StopAllKeepsKnown(s, names[..|names| - 1]);
      if IsRunning(mid, last) {
        KnownKept(mid, StopRunning(last));
      }
    }
  }

  /** The daemon's last steps, closing the channel and stopping everything: afterwards nothing ever
      runs again iff no restart request of a configured program was queued. */
  lemma DaemonStopsForGoodIff(s: System, listing: seq<string>)
    requires Known(s) && Elems(listing) == s.configs.Keys
    ensures NothingReturns(StopAll(Apply(s, Close), listing))
       <==> forall r | r in s.configs :: RestartRequested(r) !in s.queue
  {
    var closed := Apply(s, Close);
    KnownKept(s, Close);
    StopAllFacts(closed, listing);
    StopAllKeepsKnown(closed, listing);
    NothingReturnsIff(StopAll(closed, listing));
  }
}
