/** When a program that runs, or whose restart is under way, stops coming back
    (cirond/src/process.rs, `stop_process`, `handle_single_event`, `start_process_single`). */
module Comeback {
  import opened Sequences
  import opened Graphs
  import opened Configuration
  import opened Resolution
  import opened Supervisor
  import opened Ledger
  import opened Invariants
  import opened Machine
  import opened Starting

  /** The program runs, a restart timer of it is pending, or a restart request is queued. */
  ghost predicate UnderWay(s: System, n: string) {
    IsRunning(s, n) || s.timers[n] > 0 || Count(s.queue, RequestOf(n)) > 0
  }

  /** No timer and no request of `n` is left, but for the request that is taken, and the change is
      a stop that finds `n` running, the handling of an end that its policy does not restart, or
      the taking of that last request while `n` is down. */
  ghost predicate Loss(s: System, e: Effect, n: string)
    requires Enabled(s, e)
  {
    && s.timers[n] == 0
    && Count(s.queue, RequestOf(n)) == One(e == Take && s.queue[0] == RestartRequested(n))
    && (|| e == StopRunning(n)
        || (e == Take && Matches(EndOf(n), s.queue[0]) && !Matches(RestartableExitOf(n, Policy(s, n)), s.queue[0]))
        || (e == Take && s.queue[0] == RestartRequested(n) && !IsRunning(s, n)))
  }

  /** One change before shutdown keeps a program running or under way iff it is no loss. */
  lemma UnderWayKeptIff(s: System, e: Effect, n: string)
    requires Known(s) && Enabled(s, e) && s.open && UnderWay(s, n)
    ensures UnderWay(Apply(s, e), n) <==> !Loss(s, e, n)
  {
    FlagEffect(s, e, n);
    TimerEffect(s, e, n);
    RequestsEffect(s, e, n);
  }

  // ---------------------------------------------------------------- with batches and restarts

  /** The manager is about to attempt the program: it is in the open batch, or in what the restart
      that is pausing will start. */
  ghost predicate Ahead(m: Machine, n: string) {
    InBatch(m, n) || (m.phase.Sleeping? && n in Closure(m.sys.configs, m.phase.name))
  }

  ghost predicate Coming(m: Machine, n: string) {
    UnderWay(m.sys, n) || Ahead(m, n)
  }

  /** The actions after which nothing brings the program back: with no timer pending and no request
      queued, a stop that finds it running, the handling of an end that its policy does not restart,
      or its last attempt in the batch, failing. */
  ghost predicate Loses(m: Machine, a: Action, n: string)
    requires Possible(m, a)
  {
    && m.sys.timers[n] == 0 && Count(m.sys.queue, RequestOf(n)) == 0
    && match a
       case StopRequest(p) => p == n && IsRunning(m.sys, n)
       case HandleEvent =>
         && m.sys.queue != [] && Matches(EndOf(n), m.sys.queue[0])
         && !Matches(RestartableExitOf(n, Policy(m.sys, n)), m.sys.queue[0])
       case Attempt(pid) =>
         m.phase.todo[0] == n && n !in m.phase.todo[1..] && pid.None? && !IsRunning(m.sys, n)
       case _ => false
  }

  lemma AttemptKeepsComingIff(m: Machine, a: Action, n: string)
    requires Possible(m, a) && a.Attempt? && Known(m.sys) && m.sys.open && n in m.sys.configs && Coming(m, n)
    ensures Coming(Next(m, a), n) <==> !Loses(m, a, n)
  {
    EffectEnabled(m, a);
    assert m.phase.todo == [m.phase.todo[0]] + m.phase.todo[1..];
    if EffectOf(m, a).Some? {
      var e := EffectOf(m, a).value;
      FlagEffect(m.sys, e, n);
      TimerEffect(m.sys, e, n);
      RequestsEffect(m.sys, e, n);
    }
  }

  /** A start that is resolved has the whole closure in its batch. */
  lemma BeginStartAhead(s: System, r: string, n: string)
    requires n in Closure(s.configs, r)
    ensures InBatch(BeginStart(s, r), n)
  {
    KnownRoot(s.configs, r, n);
    OrderListsClosureOnce(s.configs, r);
    assert n in Elems(StartOrder(s.configs, r));
  }

  lemma KnownRoot(c: Configs, r: string, n: string)
    requires n in Closure(c, r)
    ensures r in c
  {
    var k: nat :| Walk(PullGraph(c), r, n, k);
  }

  /** Taking an event other than a request of `n` loses it just when the change is a loss. */
  lemma TakeLosesIff(m: Machine, n: string)
    requires Possible(m, HandleEvent) && m.sys.queue != [] && m.sys.queue[0] != RestartRequested(n)
    ensures Loses(m, HandleEvent, n) <==> Loss(m.sys, Take, n)
    ensures Loss(m.sys, Take, n) ==> !Ahead(Next(m, HandleEvent), n)
  {
  }

  lemma HandleKeepsComingIff(m: Machine, n: string)
    requires Possible(m, HandleEvent) && Known(m.sys) && m.sys.open && n in m.sys.configs && Coming(m, n)
    ensures Coming(Next(m, HandleEvent), n) <==> !Loses(m, HandleEvent, n)
  {
    EffectEnabled(m, HandleEvent);
    assert !Ahead(m, n);
    if m.sys.queue == [] {
      assert Next(m, HandleEvent) == m;
    } else if m.sys.queue[0] == RestartRequested(n) {
      RootInClosure(m.sys.configs, n);
      BeginStartAhead(m.sys, n, n);
      assert Ahead(Next(m, HandleEvent), n) && !Loses(m, HandleEvent, n);
    } else {
      UnderWayKeptIff(m.sys, Take, n);
      TakeLosesIff(m, n);
    }
  }

  /** Actions that change nothing in the system. */
  lemma QuietKeepsComing(m: Machine, a: Action, n: string)
    requires Possible(m, a) && (a.StartRequest? || a.Wake?) && Coming(m, n)
    ensures Coming(Next(m, a), n) && !Loses(m, a, n)
  {
    if a.Wake? && Ahead(m, n) {
      BeginStartAhead(m.sys, m.phase.name, n);
    }
  }

  lemma OtherKeepsComingIff(m: Machine, a: Action, n: string)
    requires Possible(m, a) && (a.Environment? || a.StopRequest? || a.RestartRequest? || a.Shutdown?)
    requires Known(m.sys) && m.sys.open && n in m.sys.configs && Coming(m, n)
    ensures Coming(Next(m, a), n) <==> !Loses(m, a, n)
  {
    EffectEnabled(m, a);
    RootInClosure(m.sys.configs, n);
    if EffectOf(m, a).Some? && UnderWay(m.sys, n) {
      UnderWayKeptIff(m.sys, EffectOf(m, a).value, n);
    }
  }

  /** One action before shutdown keeps a program coming iff it is not one of the losing actions. */
  lemma ComingKeptIff(m: Machine, a: Action, n: string)
    requires Possible(m, a) && Known(m.sys) && m.sys.open && n in m.sys.configs && Coming(m, n)
    ensures Coming(Next(m, a), n) <==> !Loses(m, a, n)
  {
    if a.Attempt? {
      AttemptKeepsComingIff(m, a, n);
    } else if a.HandleEvent? {
      HandleKeepsComingIff(m, n);
    } else if a.StartRequest? || a.Wake? {
      QuietKeepsComing(m, a, n);
    } else {
      OtherKeepsComingIff(m, a, n);
    }
  }

  ghost predicate NeverLost(m: Machine, acts: seq<Action>, n: string)
    requires IsRun(m, acts)
    decreases |acts|
  {
    acts == [] || (!Loses(m, acts[0], n) && NeverLost(Next(m, acts[0]), acts[1..], n))
  }

  ghost predicate AlwaysComing(m: Machine, acts: seq<Action>, n: string)
    requires IsRun(m, acts)
    decreases |acts|
  {
    Coming(m, n) && (acts == [] || AlwaysComing(Next(m, acts[0]), acts[1..], n))
  }

  lemma {:induction false} ComingIffNeverLost(m: Machine, acts: seq<Action>, n: string)
    requires IsRun(m, acts) && Inv(m.sys) && Final(m, acts).sys.open && n in m.sys.configs && Coming(m, n)
    ensures AlwaysComing(m, acts, n) <==> NeverLost(m, acts, n)
    decreases |acts|
  {
    if acts != [] {
      var m' := Next(m, acts[0]);
      NextKeepsInv(m, acts[0]);
      RunKeepsInv(m', acts[1..]);
      ComingKeptIff(m, acts[0], n);
      if Coming(m', n) {
        ComingIffNeverLost(m', acts[1..], n);
      } else {
        assert !AlwaysComing(m', acts[1..], n);
      }
    }
  }

  /** From any state of any run in which a program runs or is under way, it stays so in every state
      up to shutdown iff no losing action is taken. */
  lemma ComingInRuns(c: Configs, before: seq<Action>, after: seq<Action>, n: string)
    requires IsRun(Initial(c), before) && IsRun(Final(Initial(c), before), after) && n in c
    requires Coming(Final(Initial(c), before), n)
    requires Final(Final(Initial(c), before), after).sys.open
    ensures AlwaysComing(Final(Initial(c), before), after, n) <==> NeverLost(Final(Initial(c), before), after, n)
  {
    LoadedInv(c);
    RunKeepsInv(Initial(c), before);
    ComingIffNeverLost(Final(Initial(c), before), after, n);
  }
}
