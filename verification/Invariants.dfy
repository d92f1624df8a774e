/** What every single change of the supervisor keeps. */
module Invariants {
  import opened Wrappers
  import opened Sequences
  import opened Configuration
  import opened Supervisor
  import opened Ledger

  /** A task watches a configured program, its id has been handed out, and it is not live and dying at once. */
  ghost predicate TaskOk(s: System, m: nat) {
    && (m in s.live ==> m < s.nextMonitor && s.live[m] in s.configs && m !in s.dying)
    && (m in s.dying ==> m < s.nextMonitor && s.dying[m] in s.configs)
  }

  /** A join handle names a task of its own program. */
  ghost predicate HandleOk(s: System, n: string) {
    n in s.processes && s.processes[n].monitor.Some? ==>
      var m := s.processes[n].monitor.value;
      m < s.nextMonitor && (m in s.live ==> s.live[m] == n)
  }

  /** Handle and pid belong to one instance, and a running program has both. */
  ghost predicate InstanceOk(s: System, n: string) {
    n in s.processes ==>
      var p := s.processes[n];
      && (p.running ==> p.monitor.Some?)
      && (p.monitor.Some? <==> p.pid.Some?)
      && (p.monitor.Some? ==>
            p.monitor.value < s.nextMonitor
            && p.monitor.value in s.children && p.pid.value == s.children[p.monitor.value])
  }

  ghost predicate Known(s: System) {
    && s.processes.Keys == s.configs.Keys
    && (forall m: nat :: TaskOk(s, m))
    && (forall n: string :: HandleOk(s, n))
    && (forall n: string :: InstanceOk(s, n))
  }

  /** Event ledger of one program: every spawn sent one `Started`, and its monitor is live,
      dying, torn down, or has sent its one end event. */
  ghost predicate Balances(s: System, n: string) {
    && Count(History(s), StartOf(n)) == Occurrences(s.trace, Spawned(n))
    && Occurrences(s.trace, Spawned(n))
       == |Tasks(s.live, n)| + |Tasks(s.dying, n)| + Occurrences(s.trace, AbortLanded(n))
          + Count(History(s), EndOf(n))
  }

  ghost predicate StartsLead(s: System, n: string) {
    Dominated(History(s), EndOf(n), StartOf(n))
  }

  /** Restart conservation: handled exits that the policy restarts are pending timers, queued
      requests or handled requests. */
  ghost predicate RestartsConserved(s: System, n: string) {
    Count(s.handled, RestartableExitOf(n, Policy(s, n)))
    == s.timers[n] + Count(s.queue, RequestOf(n)) + Count(s.handled, RequestOf(n))
  }

  ghost predicate ExitsLead(s: System, n: string) {
    Dominated(History(s), RequestOf(n), RestartableExitOf(n, Policy(s, n)))
  }

  ghost predicate CurrentMonitorLive(s: System, n: string) {
    && n in s.processes && s.processes[n].monitor.Some?
    && s.processes[n].monitor.value in s.live && s.live[s.processes[n].monitor.value] == n
  }

  /** A program marked running is being watched, or the end of it is in the queue. */
  ghost predicate Watched(s: System, n: string) {
    IsRunning(s, n) ==> CurrentMonitorLive(s, n) || Count(s.queue, EndOf(n)) > 0
  }

  /** After this, the program is no longer expected to come back by itself: with `always`, a stop that
      finds it running, a failed start or a handled failure; with `on-failure`, an exit with code
      zero too. */
  ghost predicate Disturbs(policy: Option<string>, n: string, mark: Mark) {
    || mark == StoppedRunning(n)
    || mark == SpawnFailed(n)
    || mark == FailureHandled(n)
    || (mark.ExitHandled? && mark.name == n && !Restartable(policy, mark.code))
  }

  /** `n` was spawned, and nothing has disturbed it since. */
  ghost predicate Undisturbed(trace: seq<Mark>, policy: Option<string>, n: string) {
    exists i :: 0 <= i < |trace| && trace[i] == Spawned(n) &&
                forall j | i < j < |trace| :: !Disturbs(policy, n, trace[j])
  }

  /** An undisturbed program runs, or its restart is under way (`starting`: it is in the batch
      being started). */
  ghost predicate ComesBack(s: System, n: string, starting: bool) {
    Undisturbed(s.trace, Policy(s, n), n) ==>
      IsRunning(s, n) || s.timers[n] > 0 || Count(s.queue, RequestOf(n)) > 0 || starting
  }

  ghost predicate Holds(s: System, n: string) {
    Balances(s, n) && StartsLead(s, n) && RestartsConserved(s, n) && ExitsLead(s, n) && Watched(s, n)
  }

  /** The invariant: the counting parts speak of the time before the channel is closed. */
  ghost predicate Inv(s: System) {
    Known(s) && (s.open ==> forall n :: Holds(s, n))
  }

  /** The one task a stop moves from live to dying, if any. */
  lemma AbortedTask(s: System, n: string)
    requires n in s.processes
    ensures var h := s.processes[n].monitor;
            var s' := StopEffect(s, n);
            && s'.live == (if h.Some? && h.value in s.live then s.live - {h.value} else s.live)
            && s'.dying == (if h.Some? && h.value in s.live then s.dying[h.value := s.live[h.value]] else s.dying)
  {
    var h := s.processes[n].monitor;
    if h.Some? && h.value in s.live {
      assert Aborted(s, n) == {h.value};
    } else {
      assert Aborted(s, n) == {};
    }
  }

  // ---------------------------------------------------------------- effects on queue and history

  /** The event an effect sends, if any. */
  ghost function Sent(s: System, e: Effect): seq<Event>
    requires Enabled(s, e)
  {
    match e
    case Spawn(n, _) => [Started(n)]
    case MonitorEnds(m, end) => [EndEvent(s.live[m], end)]
    case LateEnds(m, end) => [EndEvent(s.dying[m], end)]
    case TimerFires(n) => [RestartRequested(n)]
    case _ => []
  }

  lemma QueueEffect(s: System, e: Effect)
    requires Enabled(s, e) && s.open
    ensures e != Take ==> Apply(s, e).queue == s.queue + Sent(s, e) && Apply(s, e).handled == s.handled
    ensures e == Take ==> Apply(s, e).queue == s.queue[1..] && Apply(s, e).handled == s.handled + [s.queue[0]]
    ensures History(Apply(s, e)) == History(s) + Sent(s, e)
    ensures Apply(s, e).configs == s.configs
  {
    if e == Take {
      TakeHead(s.handled, s.queue);
    } else {
      assert s.handled + (s.queue + Sent(s, e)) == (s.handled + s.queue) + Sent(s, e);
      assert s.queue + [] == s.queue;
    }
  }

  lemma CountEffect(s: System, e: Effect, k: Kind)
    requires Enabled(s, e) && s.open
    ensures Count(History(Apply(s, e)), k) == Count(History(s), k) + Count(Sent(s, e), k)
    ensures e != Take ==> Count(Apply(s, e).queue, k) == Count(s.queue, k) + Count(Sent(s, e), k)
    ensures e == Take ==> Count(s.queue, k) == Count(Apply(s, e).queue, k) + if Matches(k, s.queue[0]) then 1 else 0
    ensures e == Take ==> Count(Apply(s, e).handled, k) == Count(s.handled, k) + if Matches(k, s.queue[0]) then 1 else 0
  {
    QueueEffect(s, e);
    CountConcat(History(s), Sent(s, e), k);
    CountConcat(s.queue, Sent(s, e), k);
    if e == Take {
      CountHead(s.queue, k);
      CountSnoc(s.handled, s.queue[0], k);
    }
  }

  lemma SentCount(s: System, e: Effect, k: Kind)
    requires Enabled(s, e)
    ensures Count(Sent(s, e), k) == if Sent(s, e) != [] && Matches(k, Sent(s, e)[0]) then 1 else 0
  {
    if Sent(s, e) != [] {
      CountOne(Sent(s, e)[0], k);
    }
  }

  // ---------------------------------------------------------------- preservation

  lemma KnownKept(s: System, e: Effect)
    requires Known(s) && Enabled(s, e)
    ensures Known(Apply(s, e)) && Apply(s, e).configs == s.configs
  {
    match e
    case Spawn(n, pid) => SpawnKeepsKnown(s, n, pid);
    case StopRunning(n) => StopKeepsKnown(s, n);
    case Take => TakeKeepsKnown(s);
    case _ => FewerTasksKeepKnown(s, Apply(s, e));
  }

  lemma SpawnKeepsKnown(s: System, n: string, pid: nat)
    requires Known(s) && n in s.processes
    ensures Known(SpawnEffect(s, n, pid))
  {
    var s' := SpawnEffect(s, n, pid);
    forall m: nat ensures TaskOk(s', m) { assert TaskOk(s, m); }
    forall p: string ensures HandleOk(s', p) { assert HandleOk(s, p); }
    forall p: string ensures InstanceOk(s', p) { assert InstanceOk(s, p); }
  }

  lemma StopKeepsKnown(s: System, n: string)
    requires Known(s) && n in s.processes
    ensures Known(StopEffect(s, n))
  {
    var s' := StopEffect(s, n);
    forall m: nat ensures TaskOk(s', m) { assert TaskOk(s, m); }
    forall p: string ensures HandleOk(s', p) { assert HandleOk(s, p); }
    forall p: string ensures InstanceOk(s', p) { assert InstanceOk(s, p); }
  }

  /** Handles stay as they are and tasks only disappear. */
  lemma FewerTasksKeepKnown(s: System, s': System)
    requires Known(s) && s'.configs == s.configs && s'.nextMonitor == s.nextMonitor
    requires s'.processes.Keys == s.processes.Keys
    requires s'.children == s.children
    requires forall n | n in s.processes ::
               s'.processes[n].monitor == s.processes[n].monitor && s'.processes[n].pid == s.processes[n].pid
               && (s'.processes[n].running ==> s.processes[n].running)
    requires forall m | m in s'.live :: m in s.live && s'.live[m] == s.live[m]
    requires forall m | m in s'.dying :: m in s.dying && s'.dying[m] == s.dying[m]
    ensures Known(s')
  {
    forall m: nat ensures TaskOk(s', m) { assert TaskOk(s, m); }
    forall p: string ensures HandleOk(s', p) { assert HandleOk(s, p); }
    forall p: string ensures InstanceOk(s', p) { assert InstanceOk(s, p); }
  }

  lemma TakeKeepsKnown(s: System)
    requires Known(s) && s.queue != []
    ensures Known(TakeEffect(s))
  {
    FewerTasksKeepKnown(s, TakeEffect(s));
  }

  ghost function One(b: bool): nat {
    if b then 1 else 0
  }

  /** Does this effect end the watching of a live, or of a dying, task of `n`? */
  ghost predicate EndsLive(s: System, e: Effect, n: string)
    requires Enabled(s, e)
  {
    e.MonitorEnds? && s.live[e.monitor] == n
  }

  ghost predicate EndsDying(s: System, e: Effect, n: string)
    requires Enabled(s, e)
  {
    (e.LateEnds? || e.AbortLands?) && s.dying[e.monitor] == n
  }

  lemma MarkEffect(s: System, e: Effect, n: string)
    requires Enabled(s, e)
    ensures Occurrences(Apply(s, e).trace, Spawned(n)) == Occurrences(s.trace, Spawned(n)) + One(e.Spawn? && e.name == n)
    ensures Occurrences(Apply(s, e).trace, AbortLanded(n))
         == Occurrences(s.trace, AbortLanded(n)) + One(e.AbortLands? && EndsDying(s, e, n))
  {
    var marks := MarksAdded(s, e, n);
    if marks == [] {
      assert s.trace + [] == s.trace;
    } else {
      MarksSnoc(s.trace, marks[0], Spawned(n));
      MarksSnoc(s.trace, marks[0], AbortLanded(n));
      assert marks == [marks[0]];
    }
  }

  /** At most one mark joins the trace. */
  lemma MarksAdded(s: System, e: Effect, n: string) returns (marks: seq<Mark>)
    requires Enabled(s, e)
    ensures Apply(s, e).trace == s.trace + marks && |marks| <= 1
    ensures Spawned(n) in marks <==> e.Spawn? && e.name == n
    ensures AbortLanded(n) in marks <==> e.AbortLands? && EndsDying(s, e, n)
  {
    marks := Apply(s, e).trace[|s.trace|..];
  }

  /** A stop moves at most its program's own task from live to dying. */
  lemma StopMovesTask(s: System, p: string, n: string)
    requires Known(s) && p in s.processes
    ensures |Tasks(StopEffect(s, p).live, n)| == |Tasks(s.live, n)| - One(p == n && CurrentMonitorLive(s, n))
    ensures |Tasks(StopEffect(s, p).dying, n)| == |Tasks(s.dying, n)| + One(p == n && CurrentMonitorLive(s, n))
  {
    var s' := StopEffect(s, p);
    assert HandleOk(s, p);
    if CurrentMonitorLive(s, p) {
      var m := s.processes[p].monitor.value;
      assert TaskOk(s, m);
      assert s'.live == s.live - {m} && s'.dying == s.dying[m := p];
      TasksRemove(s.live, m, n);
      TasksAdd(s.dying, m, p, n);
    } else {
      assert Aborted(s, p) == {};
      assert s'.live == s.live && s'.dying == s.dying;
    }
  }

  lemma TaskEffect(s: System, e: Effect, n: string)
    requires Known(s) && Enabled(s, e)
    ensures |Tasks(Apply(s, e).live, n)|
         == |Tasks(s.live, n)| + One(e.Spawn? && e.name == n) - One(EndsLive(s, e, n))
            - One(e == StopRunning(n) && CurrentMonitorLive(s, n))
    ensures |Tasks(Apply(s, e).dying, n)|
         == |Tasks(s.dying, n)| + One(e == StopRunning(n) && CurrentMonitorLive(s, n)) - One(EndsDying(s, e, n))
  {
    match e
    case Spawn(p, _) =>
      assert TaskOk(s, s.nextMonitor);
      TasksAdd(s.live, s.nextMonitor, p, n);
    case StopRunning(p) => StopMovesTask(s, p, n);
    case MonitorEnds(m, _) => TasksRemove(s.live, m, n);
    case LateEnds(m, _) => TasksRemove(s.dying, m, n);
    case AbortLands(m) => TasksRemove(s.dying, m, n);
    case _ =>
  }

  /** A spawn adds a live monitor; a stop makes it dying; it ends live, ends late, or is torn down. */
  lemma BalancedAcross(s: System, s': System, n: string,
                       spawned: nat, stopped: nat, ended: nat, late: nat, landed: nat)
    requires Balances(s, n)
    requires Occurrences(s'.trace, Spawned(n)) == Occurrences(s.trace, Spawned(n)) + spawned
    requires Occurrences(s'.trace, AbortLanded(n)) == Occurrences(s.trace, AbortLanded(n)) + landed
    requires Count(History(s'), StartOf(n)) == Count(History(s), StartOf(n)) + spawned
    requires Count(History(s'), EndOf(n)) == Count(History(s), EndOf(n)) + ended + late
    requires |Tasks(s'.live, n)| == |Tasks(s.live, n)| + spawned - ended - stopped
    requires |Tasks(s'.dying, n)| == |Tasks(s.dying, n)| + stopped - late - landed
    ensures Balances(s', n)
  {
  }

  lemma StartsSent(s: System, e: Effect, n: string)
    requires Enabled(s, e) && s.open
    ensures Count(History(Apply(s, e)), StartOf(n)) == Count(History(s), StartOf(n)) + One(e.Spawn? && e.name == n)
  {
    CountEffect(s, e, StartOf(n));
    SentCount(s, e, StartOf(n));
  }

  lemma EndsSent(s: System, e: Effect, n: string)
    requires Enabled(s, e) && s.open
    ensures Count(History(Apply(s, e)), EndOf(n))
         == Count(History(s), EndOf(n)) + One(EndsLive(s, e, n)) + One(e.LateEnds? && EndsDying(s, e, n))
  {
    CountEffect(s, e, EndOf(n));
    SentCount(s, e, EndOf(n));
  }

  lemma BalancesKept(s: System, e: Effect, n: string)
    requires Known(s) && Enabled(s, e) && s.open && Balances(s, n)
    ensures Balances(Apply(s, e), n)
  {
    StartsSent(s, e, n);
    EndsSent(s, e, n);
    MarkEffect(s, e, n);
    TaskEffect(s, e, n);
    BalancedAcross(s, Apply(s, e), n, One(e.Spawn? && e.name == n), One(e == StopRunning(n) && CurrentMonitorLive(s, n)),
                   One(EndsLive(s, e, n)), One(e.LateEnds? && EndsDying(s, e, n)),
                   One(e.AbortLands? && EndsDying(s, e, n)));
  }

  lemma StartsLeadKept(s: System, e: Effect, n: string)
    requires Known(s) && Enabled(s, e) && s.open && Balances(s, n) && StartsLead(s, n)
    ensures StartsLead(Apply(s, e), n)
  {
    BalancesKept(s, e, n);
    QueueEffect(s, e);
    if Sent(s, e) == [] {
      assert History(s) + [] == History(s);
    } else {
      DominatedSnoc(History(s), Sent(s, e)[0], EndOf(n), StartOf(n));
    }
  }

  lemma TimerEffect(s: System, e: Effect, n: string)
    requires s.processes.Keys == s.configs.Keys && Enabled(s, e)
    ensures Apply(s, e).timers[n] == s.timers[n] - One(e == TimerFires(n))
              + One(e == Take && Matches(RestartableExitOf(n, Policy(s, n)), s.queue[0]))
  {
  }

  /** An exit handled starts a timer, a timer fired queues a request, a request is handled. */
  lemma ConservedAcross(s: System, s': System, n: string, exits: nat, fired: nat, taken: nat)
    requires RestartsConserved(s, n) && s'.configs == s.configs
    requires Count(s'.handled, RestartableExitOf(n, Policy(s, n)))
          == Count(s.handled, RestartableExitOf(n, Policy(s, n))) + exits
    requires s'.timers[n] + fired == s.timers[n] + exits
    requires Count(s'.queue, RequestOf(n)) + taken == Count(s.queue, RequestOf(n)) + fired
    requires Count(s'.handled, RequestOf(n)) == Count(s.handled, RequestOf(n)) + taken
    ensures RestartsConserved(s', n)
  {
  }

  lemma HandledEffect(s: System, e: Effect, k: Kind)
    requires Enabled(s, e) && s.open
    ensures Count(Apply(s, e).handled, k) == Count(s.handled, k) + One(e == Take && Matches(k, s.queue[0]))
  {
    CountEffect(s, e, k);
    QueueEffect(s, e);
  }

  /** Queued restart requests after one change. */
  lemma RequestsEffect(s: System, e: Effect, n: string)
    requires Enabled(s, e) && s.open
    ensures Count(Apply(s, e).queue, RequestOf(n)) + One(e == Take && Matches(RequestOf(n), s.queue[0]))
         == Count(s.queue, RequestOf(n)) + One(e == TimerFires(n))
  {
    CountEffect(s, e, RequestOf(n));
    SentCount(s, e, RequestOf(n));
  }

  lemma RestartsConservedKept(s: System, e: Effect, n: string)
    requires s.processes.Keys == s.configs.Keys && Enabled(s, e) && s.open && RestartsConserved(s, n)
    ensures RestartsConserved(Apply(s, e), n)
  {
    var exit := RestartableExitOf(n, Policy(s, n));
    TimerEffect(s, e, n);
    QueueEffect(s, e);
    HandledEffect(s, e, exit);
    HandledEffect(s, e, RequestOf(n));
    RequestsEffect(s, e, n);
    ConservedAcross(s, Apply(s, e), n, One(e == Take && Matches(exit, s.queue[0])), One(e == TimerFires(n)),
                    One(e == Take && Matches(RequestOf(n), s.queue[0])));
  }

  lemma ExitsLeadKept(s: System, e: Effect, n: string)
    requires Known(s) && Enabled(s, e) && s.open && RestartsConserved(s, n) && ExitsLead(s, n)
    ensures ExitsLead(Apply(s, e), n)
  {
    var s' := Apply(s, e);
    var more := RestartableExitOf(n, Policy(s, n));
    RestartsConservedKept(s, e, n);
    QueueEffect(s, e);
    CountConcat(s'.handled, s'.queue, RequestOf(n));
    CountConcat(s'.handled, s'.queue, more);
    if Sent(s, e) == [] {
      assert History(s) + [] == History(s);
    } else {
      DominatedSnoc(History(s), Sent(s, e)[0], RequestOf(n), more);
    }
  }

  /** The watching task stays unless it ends, its program is stopped or its flag goes. */
  lemma WatcherStays(s: System, e: Effect, n: string)
    requires Known(s) && Enabled(s, e) && CurrentMonitorLive(s, n)
    requires e != StopRunning(n) && !(e.Spawn? && e.name == n)
    requires !EndsLive(s, e, n)
    ensures CurrentMonitorLive(Apply(s, e), n)
  {
    assert HandleOk(s, n);
    var m := s.processes[n].monitor.value;
    assert TaskOk(s, m);
    if e.StopRunning? {
      assert HandleOk(s, e.name);
      assert m !in Aborted(s, e.name);
    }
  }

  lemma FlagEffect(s: System, e: Effect, n: string)
    requires Enabled(s, e)
    ensures IsRunning(Apply(s, e), n)
       <==> (e.Spawn? && e.name == n)
            || (IsRunning(s, n) && e != StopRunning(n) && !(e == Take && Matches(EndOf(n), s.queue[0])))
  {
  }

  lemma WatchedKept(s: System, e: Effect, n: string)
    requires Known(s) && Enabled(s, e) && s.open && Watched(s, n)
    ensures Watched(Apply(s, e), n)
  {
    CountEffect(s, e, EndOf(n));
    SentCount(s, e, EndOf(n));
    FlagEffect(s, e, n);
    if IsRunning(Apply(s, e), n) && !(e.Spawn? && e.name == n) && !EndsLive(s, e, n) && CurrentMonitorLive(s, n) {
      WatcherStays(s, e, n);
    }
  }

  lemma OpenEffect(s: System, e: Effect)
    requires Enabled(s, e)
    ensures Apply(s, e).open == (s.open && e != Close)
  {
  }

  lemma HoldsKept(s: System, e: Effect, n: string)
    requires Known(s) && Enabled(s, e) && s.open && Holds(s, n)
    ensures Holds(Apply(s, e), n)
  {
    BalancesKept(s, e, n);
    StartsLeadKept(s, e, n);
    RestartsConservedKept(s, e, n);
    ExitsLeadKept(s, e, n);
    WatchedKept(s, e, n);
  }

  lemma InvKept(s: System, e: Effect)
    requires Inv(s) && Enabled(s, e)
    ensures Inv(Apply(s, e)) && Apply(s, e).configs == s.configs
  {
    KnownKept(s, e);
    OpenEffect(s, e);
    if Apply(s, e).open {
      forall n ensures Holds(Apply(s, e), n) {
        assert Holds(s, n);
        HoldsKept(s, e, n);
      }
    }
  }

  lemma UndisturbedShrinks(trace: seq<Mark>, mark: Mark, policy: Option<string>, n: string)
    requires mark != Spawned(n) && Undisturbed(trace + [mark], policy, n)
    ensures Undisturbed(trace, policy, n) && !Disturbs(policy, n, mark)
  {
    var longer := trace + [mark];
    var i :| 0 <= i < |longer| && longer[i] == Spawned(n) &&
             forall j | i < j < |longer| :: !Disturbs(policy, n, longer[j]);
    assert longer[|trace|] == mark;
    assert trace[i] == Spawned(n);
    assert forall j | i < j < |trace| :: trace[j] == longer[j];
  }

  lemma UndisturbedBefore(s: System, e: Effect, n: string)
    requires Known(s) && Enabled(s, e) && n in s.configs
    requires Undisturbed(Apply(s, e).trace, Policy(s, n), n) && !(e.Spawn? && e.name == n)
    ensures Undisturbed(s.trace, Policy(s, n), n) && e != StopRunning(n) && e != SpawnFails(n)
    ensures e == Take && Matches(EndOf(n), s.queue[0]) ==>
              Matches(RestartableExitOf(n, Policy(s, n)), s.queue[0])
  {
    var t := Apply(s, e).trace;
    if t != s.trace {
      var mark := t[|s.trace|];
      assert t == s.trace + [mark];
      UndisturbedShrinks(s.trace, mark, Policy(s, n), n);
    }
  }

  /** Only taking a restart request can leave an undisturbed program waiting for the batch that
      the request opens. */
  lemma ComesBackKept(s: System, e: Effect, n: string, starting: bool)
    requires Known(s) && Enabled(s, e) && s.open && n in s.configs && ComesBack(s, n, starting)
    ensures ComesBack(Apply(s, e), n, starting || (e == Take && s.queue[0] == RestartRequested(n)))
    ensures (e.Spawn? || e.SpawnFails?) && e.name == n ==> ComesBack(Apply(s, e), n, false)
  {
    QueueEffect(s, e);
    FlagEffect(s, e, n);
    if !(e.Spawn? && e.name == n) && Undisturbed(Apply(s, e).trace, Policy(s, n), n) {
      UndisturbedBefore(s, e, n);
      RestartStaysUnderWay(s, e, n);
    }
  }

  /** A timer or queued request of `n` goes only when the timer fires or the request is taken; a
      restartable exit adds a timer. */
  lemma RestartStaysUnderWay(s: System, e: Effect, n: string)
    requires Known(s) && Enabled(s, e) && s.open
    ensures s.timers[n] + Count(s.queue, RequestOf(n)) > 0 ==>
              || Apply(s, e).timers[n] + Count(Apply(s, e).queue, RequestOf(n)) > 0
              || (e == Take && s.queue[0] == RestartRequested(n))
    ensures e == Take && Matches(RestartableExitOf(n, Policy(s, n)), s.queue[0]) ==> Apply(s, e).timers[n] > 0
  {
    TimerEffect(s, e, n);
    RequestsEffect(s, e, n);
  }
}
