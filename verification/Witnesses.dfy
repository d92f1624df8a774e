/** Runs that show what the supervisor does not promise. */
module Witnesses {
  import opened Wrappers
  import opened Sequences
  import opened Graphs
  import opened Configuration
  import opened Discovery
  import opened Resolution
  import opened ListingOrder
  import opened Supervisor
  import opened Ledger
  import opened Machine
  import opened Refinement
  import opened Comeback
  import opened Revival
  import LogFollow

  ghost function Solo(p: string, restart: Option<string>): Configs {
    map[p := ProgramConfig(true, restart, false, None, None)]
  }

  lemma Extend(c: Configs, acts: seq<Action>, a: Action)
    requires IsRun(Initial(c), acts) && Possible(Final(Initial(c), acts), a)
    ensures IsRun(Initial(c), acts + [a])
    ensures Final(Initial(c), acts + [a]) == Next(Final(Initial(c), acts), a)
  {
    RunConcat(Initial(c), acts, [a]);
  }

  /** A request followed by the one attempt it leads to. */
  lemma StartSolo(c: Configs, p: string, acts: seq<Action>, pid: nat) returns (acts': seq<Action>)
    requires p in c && DepsOf(c, p) == []
    requires IsRun(Initial(c), acts) && Final(Initial(c), acts).phase.Idle?
    requires var s := Final(Initial(c), acts).sys;
             s.configs == c && p in s.processes && !s.processes[p].running
    ensures IsRun(Initial(c), acts')
    ensures Final(Initial(c), acts') == Machine(SpawnEffect(Final(Initial(c), acts).sys, p, pid), Idle)
  {
    AloneWithoutDeps(c, p);
    Extend(c, acts, StartRequest(p));
    var mid := acts + [StartRequest(p)];
    assert Final(Initial(c), mid).phase == Starting([p]);
    Extend(c, mid, Attempt(Some(pid)));
    acts' := mid + [Attempt(Some(pid))];
  }

  lemma RunsAlone(p: string, restart: Option<string>, pid: nat) returns (acts: seq<Action>)
    ensures IsRun(Initial(Solo(p, restart)), acts)
    ensures Final(Initial(Solo(p, restart)), acts) == Machine(SpawnEffect(Loaded(Solo(p, restart)), p, pid), Idle)
  {
    acts := StartSolo(Solo(p, restart), p, [], pid);
  }

  /** The first half of the next run: an exit is queued, then the program is stopped. */
  lemma StoppedOnQueuedExit(p: string) returns (acts: seq<Action>)
    ensures IsRun(Initial(Solo(p, None)), acts)
    ensures var m := Final(Initial(Solo(p, None)), acts);
            && m.phase.Idle? && m.sys.open && m.sys.configs == Solo(p, None)
            && m.sys.processes.Keys == {p} && !m.sys.processes[p].running
            && m.sys.queue == [Started(p), Exited(p, 0)] && m.sys.live == map[] && m.sys.nextMonitor == 1
  {
    var c := Solo(p, None);
    acts := RunsAlone(p, None, 1);
    Extend(c, acts, Environment(MonitorEnds(0, Code(0))));
    acts := acts + [Environment(MonitorEnds(0, Code(0)))];
    var s := Final(Initial(c), acts).sys;
    assert s.queue == [Started(p), Exited(p, 0)] && s.live == map[];
    assert Aborted(s, p) == {};
    Extend(c, acts, StopRequest(p));
    acts := acts + [StopRequest(p)];
  }

  /** Handling two events of which the second is an exit of `p`. */
  lemma StaleExitHandled(c: Configs, p: string, acts: seq<Action>) returns (acts': seq<Action>)
    requires IsRun(Initial(c), acts)
    requires var m := Final(Initial(c), acts);
             && m.phase.Idle? && m.sys.open && p in m.sys.processes && m.sys.configs == c
             && m.sys.queue == [Started(p), Exited(p, 0), Started(p)]
    ensures IsRun(Initial(c), acts')
    ensures var m, m' := Final(Initial(c), acts), Final(Initial(c), acts');
            && m'.phase.Idle? && m'.sys.open && p in m'.sys.processes && m'.sys.configs == c
            && !m'.sys.processes[p].running && m'.sys.live == m.sys.live && m'.sys.nextMonitor == m.sys.nextMonitor
  {
    Extend(c, acts, HandleEvent);
    acts' := acts + [HandleEvent];
    assert Final(Initial(c), acts').sys.queue == [Exited(p, 0), Started(p)];
    Extend(c, acts', HandleEvent);
    acts' := acts' + [HandleEvent];
  }

  /** Events carry a name only. A stop that lands while an exit is queued leaves that exit behind;
      it clears the flag of the next instance, and another start gives a second live monitor. */
  lemma TwoLiveMonitors(p: string) returns (acts: seq<Action>)
    ensures IsRun(Initial(Solo(p, None)), acts)
    ensures var s := Final(Initial(Solo(p, None)), acts).sys;
            s.open && |Tasks(s.live, p)| == 2 && !HazardFree(Initial(Solo(p, None)), acts, p)
  {
    var c := Solo(p, None);
    acts := StoppedOnQueuedExit(p);
    acts := StartSolo(c, p, acts, 2);
    assert Final(Initial(c), acts).sys.queue == [Started(p), Exited(p, 0), Started(p)];
    acts := StaleExitHandled(c, p, acts);
    acts := StartSolo(c, p, acts, 3);
    assert Tasks(Final(Initial(c), acts).sys.live, p) == {1, 2};
    OneWatcherInRuns(c, acts, p);
  }

  /** An instance has ended and its two events are queued. */
  lemma EndQueued(p: string, restart: Option<string>, end: End) returns (first: seq<Action>, acts: seq<Action>)
    ensures acts == first + [Environment(MonitorEnds(0, end))]
    ensures IsRun(Initial(Solo(p, restart)), acts)
    ensures var m := Final(Initial(Solo(p, restart)), acts);
            && m.phase.Idle? && m.sys.open && m.sys.configs == Solo(p, restart)
            && m.sys.queue == [Started(p), EndEvent(p, end)] && m.sys.processes.Keys == {p}
            && m.sys.live == map[] && m.sys.dying == map[] && m.sys.timers == multiset{}
            && m.sys.trace == [Spawned(p)]
  {
    var c := Solo(p, restart);
    first := RunsAlone(p, restart, 1);
    Extend(c, first, Environment(MonitorEnds(0, end)));
    acts := first + [Environment(MonitorEnds(0, end))];
  }

  /** What handling the end of an instance leaves in the trace. */
  ghost function EndMark(p: string, end: End): Mark {
    match end
    case Code(code) => ExitHandled(p, code)
    case WaitError(_) => FailureHandled(p)
  }

  lemma PairTaken(s: System, p: string, end: End)
    requires s.queue == [Started(p), EndEvent(p, end)]
    ensures TakeEffect(s).queue == [EndEvent(p, end)]
    ensures TakeEffect(s) == s.(queue := [EndEvent(p, end)], handled := s.handled + [Started(p)])
  {
  }

  /** Handles the two events of an instance that has ended. */
  lemma EndedAlone(p: string, restart: Option<string>, end: End) returns (first: seq<Action>, acts: seq<Action>)
    ensures acts == first + [Environment(MonitorEnds(0, end)), HandleEvent, HandleEvent]
    ensures IsRun(Initial(Solo(p, restart)), acts)
    ensures var m := Final(Initial(Solo(p, restart)), acts);
            && m.phase.Idle? && m.sys.open && m.sys.configs == Solo(p, restart)
            && m.sys.queue == [] && m.sys.processes.Keys == {p} && !m.sys.processes[p].running
            && m.sys.live == map[] && m.sys.dying == map[]
            && m.sys.timers == (if end.Code? && Restarts(restart, end.code) then multiset{p} else multiset{})
            && m.sys.trace == [Spawned(p), EndMark(p, end)]
  {
    var c := Solo(p, restart);
    first, acts := EndQueued(p, restart, end);
    PairTaken(Final(Initial(c), acts).sys, p, end);
    Extend(c, acts, HandleEvent);
    acts := acts + [HandleEvent];
    Extend(c, acts, HandleEvent);
    acts := acts + [HandleEvent];
  }

  lemma TimerQueues(c: Configs, p: string, acts: seq<Action>)
    requires IsRun(Initial(c), acts)
    requires var s := Final(Initial(c), acts).sys; s.open && s.queue == [] && p in s.timers
    ensures var m, fire := Final(Initial(c), acts), Environment(TimerFires(p));
            && IsRun(Initial(c), acts + [fire])
            && Final(Initial(c), acts + [fire])
               == Machine(m.sys.(timers := m.sys.timers - multiset{p}, queue := [RestartRequested(p)]), m.phase)
  {
    Extend(c, acts, Environment(TimerFires(p)));
  }

  lemma RequestOpens(c: Configs, p: string, acts: seq<Action>)
    requires p in c && DepsOf(c, p) == []
    requires IsRun(Initial(c), acts)
    requires var m := Final(Initial(c), acts);
             m.phase.Idle? && m.sys.configs == c && m.sys.queue == [RestartRequested(p)]
    ensures var s := Final(Initial(c), acts).sys;
            && IsRun(Initial(c), acts + [HandleEvent])
            && Final(Initial(c), acts + [HandleEvent])
               == Machine(s.(queue := [], handled := s.handled + [RestartRequested(p)]), Starting([p]))
  {
    AloneWithoutDeps(c, p);
    Extend(c, acts, HandleEvent);
    var s := Final(Initial(c), acts).sys;
    HandleFirst(s);
    RequestTaken(s, p);
  }

  lemma RequestTaken(s: System, p: string)
    requires s.queue == [RestartRequested(p)]
    ensures TakeEffect(s) == s.(queue := [], handled := s.handled + [RestartRequested(p)])
  {
  }

  /** A stop of a program that is down changes nothing. */
  lemma StopChangesNothing(c: Configs, p: string, acts: seq<Action>)
    requires IsRun(Initial(c), acts) && Final(Initial(c), acts).phase.Idle?
    requires !IsRunning(Final(Initial(c), acts).sys, p)
    ensures IsRun(Initial(c), acts + [StopRequest(p)])
    ensures Final(Initial(c), acts + [StopRequest(p)]) == Final(Initial(c), acts)
  {
    Extend(c, acts, StopRequest(p));
  }

  lemma ClosingOnlyCloses(c: Configs, acts: seq<Action>)
    requires IsRun(Initial(c), acts) && Final(Initial(c), acts).phase.Idle?
    ensures IsRun(Initial(c), acts + [Shutdown])
    ensures Final(Initial(c), acts + [Shutdown]) == Machine(Final(Initial(c), acts).sys.(open := false), Idle)
  {
    Extend(c, acts, Shutdown);
  }

  /** The open batch of `p` alone brings it up. */
  lemma AttemptRuns(c: Configs, p: string, acts: seq<Action>, pid: nat)
    requires IsRun(Initial(c), acts) && Final(Initial(c), acts).phase == Starting([p])
    requires var s := Final(Initial(c), acts).sys; p in s.processes && !s.processes[p].running
    ensures IsRun(Initial(c), acts + [Attempt(Some(pid))])
    ensures IsRunning(Final(Initial(c), acts + [Attempt(Some(pid))]).sys, p)
  {
    Extend(c, acts, Attempt(Some(pid)));
  }

  /** The timer fires and its request is taken: the batch of `p` alone is open. */
  lemma TimerOpensBatch(c: Configs, p: string, acts: seq<Action>) returns (acts': seq<Action>)
    requires p in c && DepsOf(c, p) == []
    requires IsRun(Initial(c), acts)
    requires var m := Final(Initial(c), acts);
             m.phase.Idle? && m.sys.open && m.sys.configs == c && m.sys.queue == [] && p in m.sys.timers
    ensures acts' == acts + [Environment(TimerFires(p)), HandleEvent]
    ensures IsRun(Initial(c), acts')
    ensures var s := Final(Initial(c), acts).sys;
            Final(Initial(c), acts')
            == Machine(s.(timers := s.timers - multiset{p}, handled := s.handled + [RestartRequested(p)]), Starting([p]))
  {
    TimerQueues(c, p, acts);
    RequestOpens(c, p, acts + [Environment(TimerFires(p))]);
    acts' := acts + [Environment(TimerFires(p))] + [HandleEvent];
    assert acts' == acts + [Environment(TimerFires(p)), HandleEvent];
  }

  /** Stopping a program that is down does not cancel its restart timer: after the stop no more than
      the timer, one event and one spawn bring it up again. */
  lemma StoppedComesBack(p: string) returns (acts: seq<Action>, tail: seq<Action>)
    ensures tail == [StopRequest(p), Environment(TimerFires(p)), HandleEvent, Attempt(Some(2))]
    ensures IsRun(Initial(Solo(p, Some("always"))), acts)
    ensures IsRun(Initial(Solo(p, Some("always"))), acts + tail)
    ensures !IsRunning(Final(Initial(Solo(p, Some("always"))), acts).sys, p)
    ensures IsRunning(Final(Initial(Solo(p, Some("always"))), acts + tail).sys, p)
  {
    var c := Solo(p, Some("always"));
    var _, ended := EndedAlone(p, Some("always"), Code(0));
    acts := ended;
    StopChangesNothing(c, p, acts);
    var batch := TimerOpensBatch(c, p, acts + [StopRequest(p)]);
    AttemptRuns(c, p, batch, 2);
    tail := [StopRequest(p), Environment(TimerFires(p)), HandleEvent, Attempt(Some(2))];
    assert acts + tail == batch + [Attempt(Some(2))];
  }

  /** `p` is all there is, it is down, and nothing is pending. */
  ghost predicate DownForGood(s: System, p: string) {
    && s.configs.Keys == {p} && !IsRunning(s, p)
    && s.queue == [] && s.timers == multiset{} && s.live == map[] && s.dying == map[]
  }

  /** Without a start or restart request it stays down. */
  lemma StaysDown(c: Configs, acts: seq<Action>, p: string)
    requires IsRun(Initial(c), acts)
    requires var m := Final(Initial(c), acts);
             m.phase.Idle? && m.sys.open && DownForGood(m.sys, p)
    ensures forall more | IsRun(Final(Initial(c), acts), more) && Unaided(more) ::
              !IsRunning(Final(Final(Initial(c), acts), more).sys, p)
  {
    EveryRun(c, acts, p);
    var m := Final(Initial(c), acts);
    forall r | p in Closure(c, r) ensures !Revives(m.sys, r) {
      KnownRoot(c, r, p);
    }
    forall more | IsRun(m, more) && Unaided(more) ensures !IsRunning(Final(m, more).sys, p) {
      RunLeavesDown(m, more, p);
    }
  }

  /** A restart whose spawn fails is not tried again: the program was spawned, exited, was restarted
      in vain, and stays down until somebody asks for it. */
  lemma FailedRestartIsFinal(p: string) returns (acts: seq<Action>, tail: seq<Action>)
    ensures tail == [Environment(TimerFires(p)), HandleEvent, Attempt(None)]
    ensures IsRun(Initial(Solo(p, Some("always"))), acts + tail)
    ensures var m := Final(Initial(Solo(p, Some("always"))), acts + tail);
            && m.sys.open && m.sys.trace == [Spawned(p), ExitHandled(p, 0), SpawnFailed(p)]
            && forall more | IsRun(m, more) && Unaided(more) :: !IsRunning(Final(m, more).sys, p)
  {
    var c := Solo(p, Some("always"));
    var _, ended := EndedAlone(p, Some("always"), Code(0));
    acts := ended;
    tail := [Environment(TimerFires(p)), HandleEvent, Attempt(None)];
    var batch := TimerOpensBatch(c, p, acts);
    Extend(c, batch, Attempt(None));
    assert acts + tail == batch + [Attempt(None)];
    assert Final(Initial(c), acts + tail).sys.trace
        == [Spawned(p), ExitHandled(p, 0)] + [SpawnFailed(p)] == [Spawned(p), ExitHandled(p, 0), SpawnFailed(p)];
    StaysDown(c, acts + tail, p);
  }

  /** A request buffered when the channel is closed starts its program even after everything has
      been stopped. */
  lemma RunsAfterStopAll(p: string) returns (acts: seq<Action>)
    ensures IsRun(Initial(Solo(p, Some("always"))), acts + [Shutdown, StopRequest(p), HandleEvent, Attempt(Some(2))])
    ensures IsRunning(Final(Initial(Solo(p, Some("always"))),
                            acts + [Shutdown, StopRequest(p), HandleEvent, Attempt(Some(2))]).sys, p)
  {
    var c := Solo(p, Some("always"));
    var _, ended := EndedAlone(p, Some("always"), Code(0));
    acts := ended;
    TimerQueues(c, p, acts);
    acts := acts + [Environment(TimerFires(p))];
    ClosingOnlyCloses(c, acts);
    var a1 := acts + [Shutdown];
    StopChangesNothing(c, p, a1);
    var a2 := a1 + [StopRequest(p)];
    RequestOpens(c, p, a2);
    var a3 := a2 + [HandleEvent];
    AttemptRuns(c, p, a3, 2);
    assert acts + [Shutdown, StopRequest(p), HandleEvent, Attempt(Some(2))] == a3 + [Attempt(Some(2))];
  }

  /** A `Failed` event schedules nothing, whatever the policy: the program was spawned, waiting for
      it failed, and it stays down until somebody asks for it. */
  lemma FailureIsFinal(p: string, restart: Option<string>, message: string)
    returns (acts: seq<Action>, tail: seq<Action>)
    ensures tail == [Environment(MonitorEnds(0, WaitError(message))), HandleEvent, HandleEvent]
    ensures IsRun(Initial(Solo(p, restart)), acts + tail)
    ensures var m := Final(Initial(Solo(p, restart)), acts + tail);
            && m.sys.open && m.sys.trace == [Spawned(p), FailureHandled(p)]
            && forall more | IsRun(m, more) && Unaided(more) :: !IsRunning(Final(m, more).sys, p)
  {
    var end := WaitError(message);
    tail := [Environment(MonitorEnds(0, end)), HandleEvent, HandleEvent];
    var ended: seq<Action>;
    acts, ended := EndedAlone(p, restart, end);
    assert ended == acts + tail;
    StaysDown(Solo(p, restart), acts + tail, p);
  }

  // ---------------------------------------------------------------- `after` alone

  /** `b` lists `a` in `after`, and nothing lists anything in `wants`. */
  ghost function AfterOnly(a: string, b: string): Configs {
    map[a := ProgramConfig(false, None, false, None, None), b := ProgramConfig(false, None, false, Some([a]), None)]
  }

  /** According to the documentation starting `b` starts nothing else; the code starts `a` first. */
  lemma AfterAlonePullsIn(a: string, b: string)
    requires a != b
    ensures Documented(AfterOnly(a, b), b) == {b}
    ensures StartOrder(AfterOnly(a, b), b) == [a, b]
  {
    var c := AfterOnly(a, b);
    DocumentedAlone(a, b);
    DocumentedInClosure(c, b);
    AfterPullsIn(c, b, b, a);
    OrderListsClosureOnce(c, b);
    NoCycleAhead(a, b);
    var i := IndexOf(StartOrder(c, b), b);
    AfterTargetsFirst(c, b, i, a);
    PairListed(StartOrder(c, b), a, b, i);
  }

  lemma PairListed(order: seq<string>, a: string, b: string, i: nat)
    requires a != b && Distinct(order) && Elems(order) == {a, b}
    requires i < |order| && order[i] == b && exists j | 0 <= j < i :: order[j] == a
    ensures order == [a, b]
  {
    DistinctSize(order);
  }

  lemma DocumentedAlone(a: string, b: string)
    requires a != b
    ensures Documented(AfterOnly(a, b), b) == {b}
  {
    var g := WantsGraph(AfterOnly(a, b));
    forall x | x in Documented(AfterOnly(a, b), b) ensures x == b {
      var n: nat :| Walk(g, b, x, n);
      assert g[b] == {};
    }
    assert Walk(g, b, b, 0);
  }

  lemma NoCycleAhead(a: string, b: string)
    requires a != b
    ensures !LeadsIntoCycle(AfterGraph(AfterOnly(a, b)), b)
  {
    var g := AfterGraph(AfterOnly(a, b));
    assert g[a] == {} && g[b] == {a};
    forall v, n: nat, m: nat | Walk(g, b, v, n) && m > 0 ensures !Walk(g, v, v, m) {
      ShortWalks(g, a, b, v, n);
      ShortWalks(g, a, b, v, m);
    }
  }

  /** All walks of a graph whose only edge leads from `b` to `a`. */
  lemma ShortWalks(g: Graph, a: string, b: string, v: string, n: nat)
    requires a != b && a in g && b in g && g[a] == {} && g[b] == {a}
    ensures Walk(g, a, v, n) ==> v == a && n == 0
    ensures Walk(g, b, v, n) ==> (v == b && n == 0) || (v == a && n == 1)
  {
    if n > 0 && Walk(g, b, v, n) {
      assert Walk(g, a, v, n - 1);
    }
  }

  // ---------------------------------------------------------------- `after` before `wants`

  /** `web` comes after `db` and wants `cache`; these list nothing. */
  function Trio(web: string, db: string, cache: string): Configs {
    map[web := ProgramConfig(false, None, false, Some([db]), Some([cache])),
        db := ProgramConfig(false, None, false, None, None),
        cache := ProgramConfig(false, None, false, None, None)]
  }

  ghost predicate TrioLike(c: Configs, web: string, db: string, cache: string) {
    && web != db && web != cache && db != cache
    && c.Keys == {web, db, cache}
    && c[web].after == Some([db]) && c[web].wants == Some([cache])
    && c[db].after == c[db].wants == c[cache].after == c[cache].wants == None
  }

  lemma TrioGraphs(c: Configs, web: string, db: string, cache: string)
    requires TrioLike(c, web, db, cache)
    ensures AfterGraph(c)[web] == {db} && AfterGraph(c)[db] == AfterGraph(c)[cache] == {}
    ensures PullGraph(c)[web] == {db, cache} && PullGraph(c)[db] == PullGraph(c)[cache] == {}
  {
  }

  lemma TrioClosure(c: Configs, web: string, db: string, cache: string)
    requires TrioLike(c, web, db, cache)
    ensures Closure(c, web) == {web, db, cache}
  {
    TrioGraphs(c, web, db, cache);
    StarClosure(PullGraph(c), web, db, cache);
  }

  lemma StarClosure(g: Graph, web: string, db: string, cache: string)
    requires g.Keys == {web, db, cache} && g[web] == {db, cache}
    ensures Reachable(g, web) == {web, db, cache}
  {
    assert Walk(g, web, web, 0);
    EdgeIsWalk(g, web, db);
    EdgeIsWalk(g, web, cache);
  }

  lemma ThreeListed(s: seq<string>, x: string, y: string, z: string, i: nat, j: nat, k: nat)
    requires x != y && x != z && y != z && Distinct(s) && Elems(s) == {x, y, z}
    requires i < j < |s| && s[i] == x && s[j] == y && j < k < |s| && s[k] == z
    ensures s == [x, y, z]
  {
    DistinctSize(s);
  }

  lemma TrioListed(c: Configs, disc: seq<string>, web: string, db: string, cache: string)
    requires TrioLike(c, web, db, cache) && |disc| > 0 && disc[0] == web
    ensures FirstListed(c, disc, 0, 0, db) && FirstListed(c, disc, 0, 1, cache)
  {
    assert Lists(c, web, 0, db) && !Lists(c, web, 0, cache) && Lists(c, web, 1, cache);
  }

  lemma TrioDiscovered(c: Configs, web: string, db: string, cache: string)
    requires TrioLike(c, web, db, cache)
    ensures DiscoveryOf(c, web) == [web, db, cache]
  {
    var disc := DiscoveryOf(c, web);
    TrioClosure(c, web, db, cache);
    DiscoveryIsClosure(c, web, disc);
    TrioListed(c, disc, web, db, cache);
    var i := IndexOf(disc, db);
    var j := IndexOf(disc, cache);
    DiscoveredAsListed(c, web, i, 0, 0, j, 0, 1);
    ThreeListed(disc, web, db, cache, 0, i, j);
  }

  lemma TrioFree(c: Configs, web: string, db: string, cache: string) returns (i: nat, j: nat)
    requires TrioLike(c, web, db, cache)
    ensures i < j < |StartOrder(c, web)| && StartOrder(c, web)[i] == db && StartOrder(c, web)[j] == cache
  {
    TrioGraphs(c, web, db, cache);
    TrioDiscovered(c, web, db, cache);
    i, j := FreeKeepDiscoveryOrder(c, web, 1, 2);
  }

  lemma TrioRoot(c: Configs, web: string, db: string, cache: string, j: nat) returns (k: nat)
    requires TrioLike(c, web, db, cache) && j < |StartOrder(c, web)| && StartOrder(c, web)[j] == cache
    ensures j < k < |StartOrder(c, web)| && StartOrder(c, web)[k] == web
  {
    TrioGraphs(c, web, db, cache);
    OrderListsClosureOnce(c, web);
    k := IndexOf(StartOrder(c, web), web);
    FreeComeFirst(c, web, j, k);
  }

  lemma TrioOrder(c: Configs, web: string, db: string, cache: string)
    requires TrioLike(c, web, db, cache)
    ensures StartOrder(c, web) == [db, cache, web]
  {
    var order := StartOrder(c, web);
    TrioClosure(c, web, db, cache);
    OrderListsClosureOnce(c, web);
    var i, j := TrioFree(c, web, db, cache);
    var k := TrioRoot(c, web, db, cache, j);
    ThreeListed(order, db, cache, web, i, j, k);
  }

  /** `after` is looked at before `wants`: `db` is started first, then `cache`, then `web`. */
  lemma AfterBeforeWants(web: string, db: string, cache: string)
    requires web != db && web != cache && db != cache
    ensures DiscoveryOf(Trio(web, db, cache), web) == [web, db, cache]
    ensures StartOrder(Trio(web, db, cache), web) == [db, cache, web]
  {
    assert TrioLike(Trio(web, db, cache), web, db, cache);
    TrioDiscovered(Trio(web, db, cache), web, db, cache);
    TrioOrder(Trio(web, db, cache), web, db, cache);
  }

  // ---------------------------------------------------------------- following a log

  ghost predicate StreamRun(acts: seq<LogFollow.Action>) {
    LogFollow.IsRun(LogFollow.Empty(), acts)
  }

  lemma {:induction false} StreamConcat(s: LogFollow.Stream, a: seq<LogFollow.Action>, x: LogFollow.Action)
    requires LogFollow.IsRun(s, a) && LogFollow.Possible(LogFollow.Final(s, a), x)
    ensures LogFollow.IsRun(s, a + [x])
    ensures LogFollow.Final(s, a + [x]) == LogFollow.Next(LogFollow.Final(s, a), x)
    decreases |a|
  {
    if a == [] {
      assert a + [x] == [x];
      assert [x][1..] == [];
    } else {
      assert (a + [x])[1..] == a[1..] + [x];
      StreamConcat(LogFollow.Next(s, a[0]), a[1..], x);
    }
  }

  /** One more action, from a state given in full to another. */
  lemma StreamStep(acts: seq<LogFollow.Action>, s: LogFollow.Stream, a: LogFollow.Action, s': LogFollow.Stream)
    requires StreamRun(acts) && LogFollow.Final(LogFollow.Empty(), acts) == s
    requires LogFollow.Possible(s, a) && LogFollow.Next(s, a) == s'
    ensures StreamRun(acts + [a]) && LogFollow.Final(LogFollow.Empty(), acts + [a]) == s'
  {
    StreamConcat(LogFollow.Empty(), acts, a);
  }

  const LINE := LogFollow.Line(0, 0)

  lemma OneLine()
    ensures LogFollow.CountOf([], 0) == 0 && LogFollow.CountOf([LINE], 0) == 1
    ensures [] + [LINE] == [LINE] && LogFollow.Recent([LINE], 0) == [LINE]
    ensures LogFollow.Recent([], 0) == []
  {
    assert [LINE][..0] == [];
  }

  /** One line pushed, then the snapshot, before the line is broadcast. */
  lemma InFlightAtSnapshot() returns (acts: seq<LogFollow.Action>)
    ensures StreamRun(acts)
    ensures LogFollow.Final(LogFollow.Empty(), acts)
         == LogFollow.Stream([LINE], [], Some(LogFollow.Snapshot([LINE], 1, 0)), None, 0, [])
  {
    OneLine();
    var pushed := LogFollow.Stream([LINE], [], None, None, 0, []);
    StreamStep([], LogFollow.Empty(), LogFollow.Push(0), pushed);
    var taken := pushed.(snapshot := Some(LogFollow.Snapshot([LINE], 1, 0)));
    StreamStep([] + [LogFollow.Push(0)], pushed, LogFollow.TakeSnapshot(0), taken);
    acts := [] + [LogFollow.Push(0)] + [LogFollow.TakeSnapshot(0)];
  }

  /** The subscription begins, and the snapshot is forwarded, while the line is still in flight. */
  lemma InFlightWhenForwarded() returns (acts: seq<LogFollow.Action>)
    ensures StreamRun(acts)
    ensures LogFollow.Final(LogFollow.Empty(), acts)
         == LogFollow.Stream([LINE], [], Some(LogFollow.Snapshot([LINE], 1, 0)),
                             Some(LogFollow.Subscription(0, 0, [])), 1, [LINE])
  {
    OneLine();
    acts := InFlightAtSnapshot();
    var taken := LogFollow.Stream([LINE], [], Some(LogFollow.Snapshot([LINE], 1, 0)), None, 0, []);
    var subscribed := taken.(subscription := Some(LogFollow.Subscription(0, 0, [])));
    StreamStep(acts, taken, LogFollow.Subscribe, subscribed);
    var forwarded := subscribed.(forwarded := 1, out := [LINE]);
    StreamStep(acts + [LogFollow.Subscribe], subscribed, LogFollow.ForwardSnapshot, forwarded);
    acts := acts + [LogFollow.Subscribe] + [LogFollow.ForwardSnapshot];
  }

  /** A line can reach the client twice. */
  lemma LineRepeated() returns (acts: seq<LogFollow.Action>)
    ensures StreamRun(acts)
    ensures LogFollow.Final(LogFollow.Empty(), acts).out == [LINE, LINE]
  {
    OneLine();
    acts := InFlightWhenForwarded();
    var forwarded := LogFollow.Final(LogFollow.Empty(), acts);
    var sent := forwarded.(sent := [LINE]);
    StreamStep(acts, forwarded, LogFollow.Broadcast(0), sent);
    var received := LogFollow.Next(sent, LogFollow.Receive);
    assert received.out == [LINE] + [LINE];
    StreamStep(acts + [LogFollow.Broadcast(0)], sent, LogFollow.Receive, received);
    acts := acts + [LogFollow.Broadcast(0)] + [LogFollow.Receive];
  }

  /** Pushed and broadcast after the snapshot, before the subscription. */
  lemma BroadcastAfterSnapshot() returns (acts: seq<LogFollow.Action>)
    ensures StreamRun(acts)
    ensures LogFollow.Final(LogFollow.Empty(), acts)
         == LogFollow.Stream([LINE], [LINE], Some(LogFollow.Snapshot([], 0, 0)), None, 0, [])
  {
    OneLine();
    var taken := LogFollow.Stream([], [], Some(LogFollow.Snapshot([], 0, 0)), None, 0, []);
    StreamStep([], LogFollow.Empty(), LogFollow.TakeSnapshot(0), taken);
    var pushed := taken.(pushed := [LINE]);
    StreamStep([] + [LogFollow.TakeSnapshot(0)], taken, LogFollow.Push(0), pushed);
    var sent := pushed.(sent := [LINE]);
    StreamStep([] + [LogFollow.TakeSnapshot(0)] + [LogFollow.Push(0)], pushed, LogFollow.Broadcast(0), sent);
    acts := [] + [LogFollow.TakeSnapshot(0)] + [LogFollow.Push(0)] + [LogFollow.Broadcast(0)];
  }

  /** A line can be missing although the client never lagged: pushed and broadcast between the
      snapshot and the subscription. */
  lemma LineMissing() returns (acts: seq<LogFollow.Action>)
    ensures StreamRun(acts)
    ensures var s := LogFollow.Final(LogFollow.Empty(), acts);
            LogFollow.CaughtUp(s) && s.pushed == s.sent == [LINE] && s.out == []
  {
    acts := BroadcastAfterSnapshot();
    var sent := LogFollow.Final(LogFollow.Empty(), acts);
    var subscribed := sent.(subscription := Some(LogFollow.Subscription(1, 1, [])));
    StreamStep(acts, sent, LogFollow.Subscribe, subscribed);
    acts := acts + [LogFollow.Subscribe];
  }

  const OTHER := LogFollow.Line(1, 0)

  /** Two lines of two writers, in the buffer in this order. */
  lemma BothPushed() returns (acts: seq<LogFollow.Action>)
    ensures StreamRun(acts)
    ensures LogFollow.Final(LogFollow.Empty(), acts)
         == LogFollow.Stream([LINE, OTHER], [], Some(LogFollow.Snapshot([], 0, 0)),
                             Some(LogFollow.Subscription(0, 0, [])), 0, [])
  {
    OneLine();
    var taken := LogFollow.Stream([], [], Some(LogFollow.Snapshot([], 0, 0)), None, 0, []);
    StreamStep([], LogFollow.Empty(), LogFollow.TakeSnapshot(0), taken);
    acts := [] + [LogFollow.TakeSnapshot(0)];
    var subscribed := taken.(subscription := Some(LogFollow.Subscription(0, 0, [])));
    StreamStep(acts, taken, LogFollow.Subscribe, subscribed);
    acts := acts + [LogFollow.Subscribe];
    var first := subscribed.(pushed := [LINE]);
    StreamStep(acts, subscribed, LogFollow.Push(0), first);
    acts := acts + [LogFollow.Push(0)];
    TwoLines();
    var second := first.(pushed := [LINE, OTHER]);
    StreamStep(acts, first, LogFollow.Push(1), second);
    acts := acts + [LogFollow.Push(1)];
  }

  lemma TwoLines()
    ensures LogFollow.CountOf([LINE], 1) == 0 && LogFollow.CountOf([LINE, OTHER], 0) == 1
    ensures LogFollow.CountOf([LINE, OTHER], 1) == 1
    ensures LogFollow.CountOf([OTHER], 0) == 0 && LogFollow.CountOf([OTHER], 1) == 1
    ensures [LINE] + [OTHER] == [LINE, OTHER] && [OTHER] + [LINE] == [OTHER, LINE]
  {
    forall w: nat
      ensures LogFollow.CountOf([] + [LINE], w) == if w == 0 then 1 else 0
      ensures LogFollow.CountOf([] + [OTHER], w) == if w == 1 then 1 else 0
    {
      LogFollow.CountSnoc([], LINE, w);
      LogFollow.CountSnoc([], OTHER, w);
    }
    assert [] + [LINE] == [LINE] && [] + [OTHER] == [OTHER];
    LogFollow.CountSnoc([LINE], OTHER, 0);
    LogFollow.CountSnoc([LINE], OTHER, 1);
  }

  /** And broadcast in the other order. */
  lemma BothBroadcast() returns (acts: seq<LogFollow.Action>)
    ensures StreamRun(acts)
    ensures LogFollow.Final(LogFollow.Empty(), acts)
         == LogFollow.Stream([LINE, OTHER], [OTHER, LINE], Some(LogFollow.Snapshot([], 0, 0)),
                             Some(LogFollow.Subscription(0, 0, [])), 0, [])
  {
    TwoLines();
    acts := BothPushed();
    var pushed := LogFollow.Final(LogFollow.Empty(), acts);
    var first := pushed.(sent := [OTHER]);
    StreamStep(acts, pushed, LogFollow.Broadcast(1), first);
    var second := first.(sent := [OTHER, LINE]);
    StreamStep(acts + [LogFollow.Broadcast(1)], first, LogFollow.Broadcast(0), second);
    acts := acts + [LogFollow.Broadcast(1)] + [LogFollow.Broadcast(0)];
  }

  /** Between writers there is no order: a follower can get two lines in the order opposite to that of
      the buffer. */
  lemma OrderDiffers() returns (acts: seq<LogFollow.Action>)
    ensures StreamRun(acts)
    ensures var s := LogFollow.Final(LogFollow.Empty(), acts);
            s.pushed == [LINE, OTHER] && s.out == [OTHER, LINE]
  {
    acts := BothBroadcast();
    var sent := LogFollow.Final(LogFollow.Empty(), acts);
    var first := LogFollow.Next(sent, LogFollow.Receive);
    assert first.out == [] + [OTHER];
    StreamStep(acts, sent, LogFollow.Receive, first);
    var second := LogFollow.Next(first, LogFollow.Receive);
    assert second.out == [OTHER] + [LINE];
    StreamStep(acts + [LogFollow.Receive], first, LogFollow.Receive, second);
    acts := acts + [LogFollow.Receive] + [LogFollow.Receive];
  }
}
