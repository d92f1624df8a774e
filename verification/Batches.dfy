/** Starting programs while monitors and timers move between the attempts: what holds of every
    interleaving (cirond/src/process.rs, `start_process`, `restart_process` and
    `start_all_autostart`). */
module Batches {
  import opened Sequences
  import opened Graphs
  import opened Configuration
  import opened Resolution
  import opened Supervisor
  import opened Invariants
  import opened Machine
  import opened Starting
  import opened Operations
  import opened Refinement

  /** Attempts of a batch and moves of the environment, in any order. */
  ghost predicate InsideBatch(acts: seq<Action>) {
    forall a | a in acts :: a.Attempt? || a.Environment?
  }

  /** Every attempt that is made has the outcome that `spawns` has for its program. */
  ghost predicate Follows(m: Machine, acts: seq<Action>, spawns: Spawns)
    requires IsRun(m, acts)
    decreases |acts|
  {
    acts != [] ==>
      && (acts[0].Attempt? && EffectOf(m, acts[0]).Some? ==> acts[0].pid == Outcome(m.phase.todo[0], spawns))
      && Follows(Next(m, acts[0]), acts[1..], spawns)
  }

  /** Some interleaving leads from `m` to an idle manager in state `s'`. */
  ghost predicate Amid(m: Machine, spawns: Spawns, s': System) {
    exists acts :: InsideBatch(acts) && IsRun(m, acts) && Follows(m, acts, spawns)
                   && Final(m, acts) == Machine(s', Idle)
  }

  /** The programs that the `Started` events name, in order. */
  ghost function StartedNames(events: seq<Event>): seq<string> {
    if events == [] then []
    else
      var last := events[|events| - 1];
      StartedNames(events[..|events| - 1]) + if last.Started? then [last.name] else []
  }

  lemma StartedNamesSnoc(events: seq<Event>, e: Event)
    ensures StartedNames(events + [e]) == StartedNames(events) + if e.Started? then [e.name] else []
  {
    assert (events + [e])[..|events|] == events;
  }

  // ---------------------------------------------------------------- one batch

  /** The programs of `done` have been attempted since `s`, whatever else moved: those that could be
      spawned run, each has sent one `Started`, in this order, and no other entry has changed. */
  ghost predicate Progress(s: System, done: seq<string>, spawns: Spawns, s': System) {
    && s'.configs == s.configs && s'.processes.Keys == s.processes.Keys && s'.open == s.open
    && s'.handled == s.handled && s.queue <= s'.queue
    && Running(s') == Running(s) + Elems(done) * spawns.Keys
    && (forall u | u in s.processes && (u !in Elems(done) * spawns.Keys || s.processes[u].running) ::
          s'.processes[u] == s.processes[u])
    && (s.open ==> StartedNames(s'.queue) == StartedNames(s.queue) + NewlyStarted(s, done, spawns))
  }

  lemma NoProgress(s: System, spawns: Spawns)
    ensures Progress(s, [], spawns, s)
  {
    var none: seq<string> := [];
    assert Elems(none) * spawns.Keys == {};
    assert StartedNames(s.queue) + [] == StartedNames(s.queue);
  }

  lemma MoveStartsNothing(s: System, e: Effect)
    requires OfEnvironment(e) && Enabled(s, e)
    ensures StartedNames(Apply(s, e).queue) == StartedNames(s.queue)
  {
    if s.open && Sent(s, e) != [] {
      QueueEffect(s, e);
      StartedNamesSnoc(s.queue, Sent(s, e)[0]);
      assert StartedNames(s.queue) + [] == StartedNames(s.queue);
    }
  }

  /** A move of the environment makes no difference to the progress of a batch. */
  lemma MoveKeepsProgress(s: System, done: seq<string>, spawns: Spawns, mid: System, e: Effect)
    requires Progress(s, done, spawns, mid) && OfEnvironment(e) && Enabled(mid, e)
    ensures Progress(s, done, spawns, Apply(mid, e))
  {
    MoveLeavesManager(mid, e);
    MoveStartsNothing(mid, e);
    assert Running(Apply(mid, e)) == Running(mid);
  }

  lemma AttemptStartsOne(s: System, done: seq<string>, spawns: Spawns, mid: System, u: string)
    requires Progress(s, done, spawns, mid) && s.open && u in mid.processes && u !in Elems(done)
    ensures StartedNames(StartSingle(mid, u, spawns).queue)
         == StartedNames(s.queue) + NewlyStarted(s, done + [u], spawns)
  {
    SingleRunning(mid, u, spawns);
    KeepSnoc(done, u, spawns.Keys - Running(s));
    assert u in Running(mid) <==> u in Running(s);
    var before, newly := StartedNames(s.queue), NewlyStarted(s, done, spawns);
    if u in spawns && u !in Running(s) {
      StartedNamesSnoc(mid.queue, Started(u));
      assert (before + newly) + [u] == before + (newly + [u]);
    } else {
      assert mid.queue + [] == mid.queue && newly + [] == newly;
    }
  }

  /** One more attempt. */
  lemma AttemptMakesProgress(s: System, done: seq<string>, spawns: Spawns, mid: System, u: string)
    requires Progress(s, done, spawns, mid) && s.processes.Keys == s.configs.Keys
    requires u in s.configs && u !in Elems(done)
    ensures Progress(s, done + [u], spawns, StartSingle(mid, u, spawns))
  {
    SingleFrame(mid, u, spawns);
    SingleRunning(mid, u, spawns);
    SnocElems(done, u);
    OneMoreSpawnable(Running(s), Elems(done), u, spawns.Keys);
    if s.open {
      AttemptStartsOne(s, done, spawns, mid, u);
    }
  }

  /** An attempt that follows the outcomes is the attempt of the sequential start. */
  lemma AttemptFollows(s: System, todo: seq<string>, a: Action, spawns: Spawns)
    requires todo != [] && a.Attempt?
    requires EffectOf(Machine(s, Starting(todo)), a).Some? ==> a.pid == Outcome(todo[0], spawns)
    ensures Next(Machine(s, Starting(todo)), a) == Machine(StartSingle(s, todo[0], spawns), Batch(todo[1..]))
  {
    EffectEnabled(Machine(s, Starting(todo)), a);
  }

  /** `done` has been attempted and `rest` is still to do; then `acts` happen. */
  lemma {:induction false} BatchProgress(s: System, done: seq<string>, rest: seq<string>, mid: System,
                                         acts: seq<Action>, spawns: Spawns)
    requires s.processes.Keys == s.configs.Keys && Progress(s, done, spawns, mid)
    requires Distinct(done + rest) && Elems(done + rest) <= s.configs.Keys
    requires InsideBatch(acts) && IsRun(Machine(mid, Batch(rest)), acts)
    requires Follows(Machine(mid, Batch(rest)), acts, spawns) && Final(Machine(mid, Batch(rest)), acts).phase.Idle?
    ensures Progress(s, done + rest, spawns, Final(Machine(mid, Batch(rest)), acts).sys)
    decreases |acts|
  {
    if acts == [] {
      assert done + rest == done;
    } else if acts[0].Environment? {
      MoveKeepsProgress(s, done, spawns, mid, acts[0].effect);
      BatchProgress(s, done, rest, Apply(mid, acts[0].effect), acts[1..], spawns);
    } else {
      var u := rest[0];
      HeadOfRest(done, rest, s.configs.Keys);
      AttemptFollows(mid, rest, acts[0], spawns);
      AttemptMakesProgress(s, done, spawns, mid, u);
      BatchProgress(s, done + [u], rest[1..], StartSingle(mid, u, spawns), acts[1..], spawns);
    }
  }

  lemma HeadOfRest(done: seq<string>, rest: seq<string>, known: set<string>)
    requires rest != [] && Distinct(done + rest) && Elems(done + rest) <= known
    ensures (done + [rest[0]]) + rest[1..] == done + rest
    ensures rest[0] in known && rest[0] !in Elems(done)
  {
    assert (done + rest)[|done|] == rest[0];
    assert rest[0] in Elems(done + rest);
    forall i | 0 <= i < |done| ensures done[i] != rest[0] {
      assert (done + rest)[i] == done[i];
    }
  }

  /** `start_process`, whatever monitors and timers do between its attempts: the running set becomes
      the old one plus the spawnable closure; the `Started` events that join the queue name the newly
      started programs in resolved order; no other entry changes; success means the root runs. */
  lemma StartAmidFacts(s: System, n: string, spawns: Spawns, s': System)
    requires s.processes.Keys == s.configs.Keys && n in s.configs && Amid(BeginStart(s, n), spawns, s')
    ensures Progress(s, StartOrder(s.configs, n), spawns, s')
    ensures Running(s') == Running(s) + Closure(s.configs, n) * spawns.Keys
    ensures StartSucceeds(s, n, spawns) <==> IsRunning(s', n)
  {
    var order := StartOrder(s.configs, n);
    var acts :| InsideBatch(acts) && IsRun(BeginStart(s, n), acts) && Follows(BeginStart(s, n), acts, spawns)
                && Final(BeginStart(s, n), acts) == Machine(s', Idle);
    OrderListsClosureOnce(s.configs, n);
    NoProgress(s, spawns);
    assert [] + order == order;
    BatchProgress(s, [], order, s, acts, spawns);
    RootInClosure(s.configs, n);
    assert IsRunning(s', n) <==> n in Running(s');
    assert IsRunning(s, n) <==> n in Running(s);
  }

  /** Starting the same program again, with the same programs spawnable, spawns nothing, whatever
      monitors and timers do during both starts. */
  lemma StartAgainAmid(s: System, n: string, spawns: Spawns, s': System, s'': System)
    requires s.processes.Keys == s.configs.Keys && n in s.configs
    requires Amid(BeginStart(s, n), spawns, s') && Amid(BeginStart(s', n), spawns, s'')
    ensures s''.processes == s'.processes
    ensures s.open ==> StartedNames(s''.queue) == StartedNames(s'.queue)
  {
    StartAmidFacts(s, n, spawns, s');
    StartAmidFacts(s', n, spawns, s'');
    OrderListsClosureOnce(s.configs, n);
    NothingLeftToStart(s', StartOrder(s.configs, n), spawns, s'');
  }

  lemma NothingLeftToStart(s: System, done: seq<string>, spawns: Spawns, s': System)
    requires Progress(s, done, spawns, s') && Elems(done) * spawns.Keys <= Running(s)
    ensures s'.processes == s.processes
    ensures s.open ==> StartedNames(s'.queue) == StartedNames(s.queue)
  {
    forall u | u in s.processes ensures s'.processes[u] == s.processes[u] {
      assert u in Elems(done) * spawns.Keys ==> u in Running(s);
    }
    KeepNothing(done, spawns.Keys - Running(s));
    assert StartedNames(s.queue) + [] == StartedNames(s.queue);
  }

  lemma {:induction false} FollowsAlike(m: Machine, acts: seq<Action>, one: Spawns, other: Spawns)
    requires IsRun(m, acts) && InsideBatch(acts) && Follows(m, acts, one)
    requires m.phase.Starting? ==> forall u | u in m.phase.todo :: Outcome(u, one) == Outcome(u, other)
    ensures Follows(m, acts, other)
    decreases |acts|
  {
    if acts != [] {
      assert acts[0] in acts;
      if acts[0].Attempt? {
        assert m.phase.todo[0] in m.phase.todo;
        assert forall u | u in m.phase.todo[1..] :: u in m.phase.todo;
      }
      FollowsAlike(Next(m, acts[0]), acts[1..], one, other);
    }
  }

  /** A batch attempts each program at most once, so every run of it follows some outcomes. */
  lemma {:induction false} HasOutcomes(m: Machine, acts: seq<Action>) returns (spawns: Spawns)
    requires IsRun(m, acts) && InsideBatch(acts)
    requires m.phase.Starting? ==> Distinct(m.phase.todo)
    ensures Follows(m, acts, spawns)
    decreases |acts|
  {
    spawns := map[];
    if acts != [] {
      assert acts[0] in acts;
      var m' := Next(m, acts[0]);
      var later := HasOutcomes(m', acts[1..]);
      spawns := later;
      if acts[0].Attempt? {
        var u := m.phase.todo[0];
        spawns := if acts[0].pid.Some? then later[u := acts[0].pid.value] else later - {u};
        assert forall v | v in m.phase.todo[1..] :: v != u;
        FollowsAlike(m', acts[1..], later, spawns);
      }
    }
  }

  /** Every run of attempts and environment moves, from the request to the end of its batch. */
  lemma EveryBatchRun(s: System, n: string, acts: seq<Action>) returns (spawns: Spawns)
    requires s.processes.Keys == s.configs.Keys && n in s.configs
    requires InsideBatch(acts) && IsRun(BeginStart(s, n), acts) && Final(BeginStart(s, n), acts).phase.Idle?
    ensures Follows(BeginStart(s, n), acts, spawns)
    ensures Progress(s, StartOrder(s.configs, n), spawns, Final(BeginStart(s, n), acts).sys)
    ensures Running(Final(BeginStart(s, n), acts).sys) == Running(s) + Closure(s.configs, n) * spawns.Keys
  {
    OrderListsClosureOnce(s.configs, n);
    spawns := HasOutcomes(BeginStart(s, n), acts);
    assert Final(BeginStart(s, n), acts) == Machine(Final(BeginStart(s, n), acts).sys, Idle);
    StartAmidFacts(s, n, spawns, Final(BeginStart(s, n), acts).sys);
  }

  // ---------------------------------------------------------------- step by step

  /** Some interleaving has attempted the first `k` programs of `order`. */
  ghost predicate BatchReaches(s: System, order: seq<string>, k: nat, spawns: Spawns, s': System)
    requires k <= |order|
  {
    exists acts :: InsideBatch(acts) && IsRun(Machine(s, Batch(order)), acts)
                   && Follows(Machine(s, Batch(order)), acts, spawns)
                   && Final(Machine(s, Batch(order)), acts) == Machine(s', Batch(order[k..]))
  }

  lemma {:induction false} FollowsConcat(m: Machine, a: seq<Action>, b: seq<Action>, spawns: Spawns)
    requires IsRun(m, a) && IsRun(Final(m, a), b) && Follows(m, a, spawns) && Follows(Final(m, a), b, spawns)
    ensures IsRun(m, a + b) && Final(m, a + b) == Final(Final(m, a), b) && Follows(m, a + b, spawns)
    decreases |a|
  {
    RunConcat(m, a, b);
    if a == [] {
      assert a + b == b;
    } else {
      assert (a + b)[1..] == a[1..] + b;
      FollowsConcat(Next(m, a[0]), a[1..], b, spawns);
    }
  }

  lemma {:induction false} MovesFollow(m: Machine, acts: seq<Action>, spawns: Spawns)
    requires IsRun(m, acts) && forall a | a in acts :: a.Environment?
    ensures Follows(m, acts, spawns)
    decreases |acts|
  {
    if acts != [] {
      MovesFollow(Next(m, acts[0]), acts[1..], spawns);
    }
  }

  lemma BatchBegins(s: System, order: seq<string>, spawns: Spawns)
    ensures BatchReaches(s, order, 0, spawns, s)
  {
    var none: seq<Action> := [];
    assert order[0..] == order;
    assert InsideBatch(none) && Final(Machine(s, Batch(order)), none) == Machine(s, Batch(order[0..]));
  }

  lemma BatchContinues(s: System, order: seq<string>, k: nat, spawns: Spawns, mid: System,
                       more: seq<Action>, j: nat, s': System)
    requires k <= |order| && j <= |order| && BatchReaches(s, order, k, spawns, mid)
    requires InsideBatch(more) && IsRun(Machine(mid, Batch(order[k..])), more)
    requires Follows(Machine(mid, Batch(order[k..])), more, spawns)
    requires Final(Machine(mid, Batch(order[k..])), more) == Machine(s', Batch(order[j..]))
    ensures BatchReaches(s, order, j, spawns, s')
  {
    var m := Machine(s, Batch(order));
    var acts :| InsideBatch(acts) && IsRun(m, acts) && Follows(m, acts, spawns)
                && Final(m, acts) == Machine(mid, Batch(order[k..]));
    FollowsConcat(m, acts, more, spawns);
    assert InsideBatch(acts + more);
  }

  lemma BatchMoves(s: System, order: seq<string>, k: nat, spawns: Spawns, mid: System, moves: seq<Effect>)
    requires k <= |order| && BatchReaches(s, order, k, spawns, mid)
    ensures BatchReaches(s, order, k, spawns, Moved(mid, moves))
  {
    var acts := MovesAreRun(mid, Batch(order[k..]), moves);
    MovesFollow(Machine(mid, Batch(order[k..])), acts, spawns);
    BatchContinues(s, order, k, spawns, mid, acts, k, Moved(mid, moves));
  }

  lemma BatchAttempts(s: System, order: seq<string>, k: nat, spawns: Spawns, mid: System)
    requires k < |order| && BatchReaches(s, order, k, spawns, mid)
    ensures BatchReaches(s, order, k + 1, spawns, StartSingle(mid, order[k], spawns))
  {
    var rest := order[k..];
    var attempt := Attempt(Outcome(order[k], spawns));
    var acts := [attempt];
    AttemptIsSingle(mid, rest, spawns);
    assert acts[1..] == [] && rest[1..] == order[k + 1..];
    BatchContinues(s, order, k, spawns, mid, acts, k + 1, StartSingle(mid, order[k], spawns));
  }

  lemma BatchEnds(s: System, n: string, spawns: Spawns, s': System)
    requires n in s.configs
    requires BatchReaches(s, StartOrder(s.configs, n), |StartOrder(s.configs, n)|, spawns, s')
    ensures Amid(BeginStart(s, n), spawns, s')
  {
    var order := StartOrder(s.configs, n);
    assert order[|order|..] == [];
  }

  lemma {:induction false} MovesKeepProgress(s: System, done: seq<string>, spawns: Spawns, mid: System,
                                             moves: seq<Effect>)
    requires Progress(s, done, spawns, mid)
    ensures Progress(s, done, spawns, Moved(mid, moves))
    decreases |moves|
  {
    if moves != [] {
      if OfEnvironment(moves[0]) && Enabled(mid, moves[0]) {
        MoveKeepsProgress(s, done, spawns, mid, moves[0]);
        MovesKeepProgress(s, done, spawns, Apply(mid, moves[0]), moves[1..]);
      } else {
        MovesKeepProgress(s, done, spawns, mid, moves[1..]);
      }
    }
  }

  /** The start loop before turn `k`; without environment moves it is the sequential start. */
  ghost predicate BatchAt(s: System, order: seq<string>, k: nat, spawns: Spawns, still: bool, s': System) {
    && k <= |order| && Progress(s, order[..k], spawns, s') && BatchReaches(s, order, k, spawns, s')
    && (still ==> s' == StartUnits(s, order[..k], spawns))
  }

  lemma BatchAtStart(s: System, n: string, spawns: Spawns, still: bool)
    requires n in s.configs
    ensures BatchAt(s, StartOrder(s.configs, n), 0, spawns, still, s)
  {
    NoProgress(s, spawns);
    BatchBegins(s, StartOrder(s.configs, n), spawns);
  }

  /** One turn of the start loop: the environment moves, then the next program is attempted; up to
      then its own entry is as it was before the batch. */
  lemma BatchTurn(s: System, n: string, order: seq<string>, k: nat, spawns: Spawns, still: bool, mid: System,
                  moves: seq<Effect>)
    requires s.processes.Keys == s.configs.Keys && n in s.configs && order == StartOrder(s.configs, n)
    requires k < |order| && BatchAt(s, order, k, spawns, still, mid) && (still ==> moves == [])
    ensures var now := Moved(mid, moves);
            && order[k] in now.processes
            && (order[k] == n ==> (IsRunning(now, n) || n in spawns <==> StartSucceeds(s, n, spawns)))
            && BatchAt(s, order, k + 1, spawns, still, StartSingle(now, order[k], spawns))
  {
    OrderListsClosureOnce(s.configs, n);
    MovesKeepProgress(s, order[..k], spawns, mid, moves);
    BatchMoves(s, order, k, spawns, mid, moves);
    BatchAttempts(s, order, k, spawns, Moved(mid, moves));
    TakeSnoc(order, k);
    DistinctTake(order, k);
    AttemptMakesProgress(s, order[..k], spawns, Moved(mid, moves), order[k]);
    BatchSnoc(s, order[..k], order[k], spawns);
  }

  lemma BatchAtEnd(s: System, n: string, spawns: Spawns, still: bool, s': System)
    requires n in s.configs
    requires BatchAt(s, StartOrder(s.configs, n), |StartOrder(s.configs, n)|, spawns, still, s')
    ensures Amid(BeginStart(s, n), spawns, s')
    ensures still ==> s' == Start(s, n, spawns)
  {
    BatchEnds(s, n, spawns, s');
    TakeAll(StartOrder(s.configs, n));
  }

  lemma MovesAmid(s: System, spawns: Spawns, moves: seq<Effect>)
    ensures Amid(Machine(s, Idle), spawns, Moved(s, moves))
  {
    var acts := MovesAreRun(s, Idle, moves);
    MovesFollow(Machine(s, Idle), acts, spawns);
  }

  // ---------------------------------------------------------------- from batches to runs

  lemma StartAmidIsRun(s: System, n: string, spawns: Spawns, s': System) returns (acts: seq<Action>)
    requires Amid(BeginStart(s, n), spawns, s')
    ensures RunsTo(s, acts, s')
  {
    var rest :| InsideBatch(rest) && IsRun(BeginStart(s, n), rest) && Follows(BeginStart(s, n), rest, spawns)
                && Final(BeginStart(s, n), rest) == Machine(s', Idle);
    acts := [StartRequest(n)] + rest;
    assert acts[1..] == rest;
    assert Next(Machine(s, Idle), StartRequest(n)) == BeginStart(s, n);
  }

  lemma HandleAmidIsRun(s: System, spawns: Spawns, s': System) returns (acts: seq<Action>)
    requires s.queue != [] && s.queue[0].RestartRequested?
    requires Amid(BeginStart(TakeEffect(s), s.queue[0].name), spawns, s')
    ensures RunsTo(s, acts, s') && forall a | a in acts :: a.HandleEvent? || a.Attempt? || a.Environment?
  {
    HandleFirst(s);
    var m := BeginStart(TakeEffect(s), s.queue[0].name);
    var rest :| InsideBatch(rest) && IsRun(m, rest) && Follows(m, rest, spawns) && Final(m, rest) == Machine(s', Idle);
    acts := [HandleEvent] + rest;
    assert acts[1..] == rest;
    assert Next(Machine(s, Idle), HandleEvent) == m;
  }

  /** `restart_process`: a stop, a pause with any environment moves, a start. */
  lemma RestartIsRun(s: System, n: string, moves: seq<Effect>, spawns: Spawns, s': System) returns (acts: seq<Action>)
    requires n in s.configs && Amid(BeginStart(Moved(Stop(s, n), moves), n), spawns, s')
    ensures RunsTo(s, acts, s')
  {
    var mid := Moved(Stop(s, n), moves);
    var pause := MovesAreRun(Stop(s, n), Sleeping(n), moves);
    var batch :| InsideBatch(batch) && IsRun(BeginStart(mid, n), batch) && Follows(BeginStart(mid, n), batch, spawns)
                 && Final(BeginStart(mid, n), batch) == Machine(s', Idle);
    assert Next(Machine(s, Idle), RestartRequest(n)) == Machine(Stop(s, n), Sleeping(n));
    assert Next(Machine(mid, Sleeping(n)), Wake) == BeginStart(mid, n);
    var wake := [Wake] + batch;
    assert wake[1..] == batch;
    RunConcat(Machine(Stop(s, n), Sleeping(n)), pause, wake);
    acts := [RestartRequest(n)] + (pause + wake);
    assert acts[1..] == pause + wake;
  }

  /** A restart leaves the program running iff its own spawn succeeded, whatever happened during the
      pause and between the attempts; the other programs it pulls in come up as far as they can be
      spawned, and nothing else changes its flag. */
  lemma RestartFacts(s: System, n: string, moves: seq<Effect>, spawns: Spawns, s': System)
    requires s.processes.Keys == s.configs.Keys && n in s.configs
    ensures Amid(BeginStart(Moved(Stop(s, n), moves), n), spawns, s') ==>
              && Running(s') == (Running(s) - {n}) + Closure(s.configs, n) * spawns.Keys
              && (IsRunning(s', n) <==> n in spawns)
  {
    StopFacts(s, n);
    MovesLeaveManager(Stop(s, n), moves);
    var mid := Moved(Stop(s, n), moves);
    assert Running(mid) == Running(Stop(s, n));
    if Amid(BeginStart(mid, n), spawns, s') {
      StartAmidFacts(mid, n, spawns, s');
      RootInClosure(s.configs, n);
      assert IsRunning(s', n) <==> n in Running(s');
    }
  }

  lemma RunReached(s: System, acts: seq<Action>, s': System)
    requires Reached(s) && Inv(s) && RunsTo(s, acts, s')
    ensures Reached(s') && Inv(s') && s'.configs == s.configs
  {
    RunKeepsInv(Machine(s, Idle), acts);
    ReachedLater(s, acts, s');
  }

  lemma StartAmidReached(s: System, n: string, spawns: Spawns, s': System)
    requires Reached(s) && Inv(s) && Amid(BeginStart(s, n), spawns, s')
    ensures Reached(s') && Inv(s') && s'.configs == s.configs
  {
    var acts := StartAmidIsRun(s, n, spawns, s');
    RunReached(s, acts, s');
  }

  // ---------------------------------------------------------------- autostart

  /** The visit of one autostart program: one that already runs is skipped. */
  ghost predicate Visited(s: System, root: string, spawns: Spawns, s': System) {
    Amid(if IsRunning(s, root) then Machine(s, Idle) else BeginStart(s, root), spawns, s')
  }

  lemma {:induction false} PauseIsMoves(s: System, acts: seq<Action>, s': System) returns (moves: seq<Effect>)
    requires InsideBatch(acts) && IsRun(Machine(s, Idle), acts) && Final(Machine(s, Idle), acts) == Machine(s', Idle)
    ensures Moved(s, moves) == s'
    decreases |acts|
  {
    if acts == [] {
      moves := [];
    } else {
      var e := acts[0].effect;
      assert Next(Machine(s, Idle), acts[0]) == Machine(Apply(s, e), Idle);
      var rest := PauseIsMoves(Apply(s, e), acts[1..], s');
      moves := [e] + rest;
      assert moves[1..] == rest;
    }
  }

  /** A root that runs already is left alone: nothing is attempted, only monitors and timers move. */
  lemma RunningRootLeftAlone(s: System, root: string, spawns: Spawns, s': System)
    requires IsRunning(s, root)
    ensures Visited(s, root, spawns, s') <==> exists moves :: Moved(s, moves) == s'
  {
    if Visited(s, root, spawns, s') {
      var acts :| InsideBatch(acts) && IsRun(Machine(s, Idle), acts) && Follows(Machine(s, Idle), acts, spawns)
                  && Final(Machine(s, Idle), acts) == Machine(s', Idle);
      var moves := PauseIsMoves(s, acts, s');
    }
    if exists moves :: Moved(s, moves) == s' {
      var moves :| Moved(s, moves) == s';
      MovesAmid(s, spawns, moves);
    }
  }

  /** Some interleaving of the visits of `roots`, in this order, with environment moves; `outcomes(i)`
      has the spawn outcomes of visit `i`. */
  ghost predicate AutostartAmid(s: System, roots: seq<string>, outcomes: nat -> Spawns, s': System) {
    if roots == [] then Amid(Machine(s, Idle), map[], s')
    else
      var front, root := roots[..|roots| - 1], roots[|roots| - 1];
      exists mid :: AutostartAmid(s, front, outcomes, mid) && Visited(mid, root, outcomes(|front|), s')
  }

  lemma PauseFacts(s: System, spawns: Spawns, s': System)
    requires s.processes.Keys == s.configs.Keys && Amid(Machine(s, Idle), spawns, s')
    ensures Progress(s, [], spawns, s') && Running(s') == Running(s)
    ensures s.open ==> StartedNames(s'.queue) == StartedNames(s.queue)
  {
    var none: seq<string> := [];
    var acts :| InsideBatch(acts) && IsRun(Machine(s, Idle), acts) && Follows(Machine(s, Idle), acts, spawns)
                && Final(Machine(s, Idle), acts) == Machine(s', Idle);
    NoProgress(s, spawns);
    assert none + none == none && Elems(none) == {};
    BatchProgress(s, none, none, s, acts, spawns);
    assert NewlyStarted(s, none, spawns) == [] && StartedNames(s.queue) + [] == StartedNames(s.queue);
  }

  /** What autostart has achieved so far; `reliable` are programs whose spawns do not fail. */
  ghost predicate Autostarted(c: Configs, roots: seq<string>, outcomes: nat -> Spawns, reliable: set<string>, s: System) {
    && s.configs == c && s.processes.Keys == c.Keys && s.open && s.handled == []
    && Running(s) == Brought(c, roots, outcomes)
    && Distinct(StartedNames(s.queue)) && Elems(StartedNames(s.queue)) == Running(s)
    && TargetsFirst(c, StartedNames(s.queue), reliable)
  }

  lemma AutostartBegins(s: System, outcomes: nat -> Spawns)
    ensures AutostartAmid(s, [], outcomes, s)
  {
    MovesAmid(s, map[], []);
  }

  lemma AutostartContinues(s: System, front: seq<string>, root: string, outcomes: nat -> Spawns, mid: System,
                           s': System)
    ensures AutostartAmid(s, front, outcomes, mid) && Visited(mid, root, outcomes(|front|), s') ==>
              AutostartAmid(s, front + [root], outcomes, s')
  {
    var roots := front + [root];
    assert roots[..|roots| - 1] == front && roots[|roots| - 1] == root;
  }

  ghost predicate Reliable(outcomes: nat -> Spawns, visits: nat, reliable: set<string>) {
    forall i: nat | i < visits :: reliable <= outcomes(i).Keys
  }

  /** One more root: one that runs already is skipped, any other brings its closure. */
  lemma VisitFacts(c: Configs, front: seq<string>, root: string, outcomes: nat -> Spawns, reliable: set<string>,
                   mid: System, s': System)
    requires Autostarted(c, front, outcomes, reliable, mid) && root in c && reliable <= outcomes(|front|).Keys
    ensures Visited(mid, root, outcomes(|front|), s') ==> Autostarted(c, front + [root], outcomes, reliable, s')
  {
    var spawns := outcomes(|front|);
    BroughtSnoc(c, front, root, outcomes);
    assert IsRunning(mid, root) <==> root in Running(mid);
    if !Visited(mid, root, spawns, s') {
    } else if IsRunning(mid, root) {
      PauseFacts(mid, spawns, s');
    } else {
      StartAmidFacts(mid, root, spawns, s');
      NewlyLaunched(c, root, StartedNames(mid.queue), spawns.Keys, reliable);
    }
  }

  /** A batch joins what has been launched. */
  lemma NewlyLaunched(c: Configs, root: string, launched: seq<string>, spawnable: set<string>, reliable: set<string>)
    requires root in c && Distinct(launched) && reliable <= spawnable && TargetsFirst(c, launched, reliable)
    ensures var all := launched + Keep(StartOrder(c, root), spawnable - Elems(launched));
            && Distinct(all) && TargetsFirst(c, all, reliable)
            && Elems(all) == Elems(launched) + Closure(c, root) * spawnable
  {
    var newly := Keep(StartOrder(c, root), spawnable - Elems(launched));
    LaunchElems(c, root, launched, spawnable);
    OrderListsClosureOnce(c, root);
    KeepElems(StartOrder(c, root), spawnable - Elems(launched));
    DistinctConcat(launched, newly);
    forall k, d | 0 <= k < |newly| && newly[k] in c && d in AfterGraph(c)[newly[k]] && d in reliable
      && !LeadsIntoCycle(AfterGraph(c), newly[k])
      ensures d in launched || d in newly[..k]
    {
      BatchTargetsFirst(c, root, Elems(launched), spawnable, k, d);
    }
    TargetsFirstExtends(c, launched, newly, reliable);
  }

  lemma NothingStartedYet(c: Configs, outcomes: nat -> Spawns, reliable: set<string>)
    ensures Autostarted(c, [], outcomes, reliable, Loaded(c))
  {
    assert Running(Loaded(c)) == {} && StartedNames([]) == [];
    assert Elems(StartedNames([])) == {};
  }

  lemma PauseKeepsAutostarted(c: Configs, roots: seq<string>, outcomes: nat -> Spawns, reliable: set<string>,
                              s: System, s': System)
    requires Autostarted(c, roots, outcomes, reliable, s) && Amid(Machine(s, Idle), map[], s')
    ensures Autostarted(c, roots, outcomes, reliable, s')
  {
    PauseFacts(s, map[], s');
  }

  /** Autostart of a freshly loaded configuration, whatever the order of the roots, whatever each
      visit's spawns turn out to be and whatever monitors and timers do meanwhile: what the visits bring
      runs, each program of it has sent one `Started`, and each with no `after` cycle ahead sent it
      after each of its known `after` targets whose spawns do not fail did. */
  lemma {:induction false} AutostartFacts(c: Configs, roots: seq<string>, outcomes: nat -> Spawns,
                                          reliable: set<string>, s': System)
    requires Elems(roots) <= c.Keys && AutostartAmid(Loaded(c), roots, outcomes, s')
    requires Reliable(outcomes, |roots|, reliable)
    ensures Autostarted(c, roots, outcomes, reliable, s')
  {
    if roots == [] {
      NothingStartedYet(c, outcomes, reliable);
      PauseKeepsAutostarted(c, roots, outcomes, reliable, Loaded(c), s');
    } else {
      var front, root := roots[..|roots| - 1], roots[|roots| - 1];
      var mid := LastVisit(Loaded(c), roots, outcomes, s');
      RootsKnown(c, roots);
      AutostartFacts(c, front, outcomes, reliable, mid);
      VisitFacts(c, front, root, outcomes, reliable, mid, s');
    }
  }

  lemma LastVisit(s: System, roots: seq<string>, outcomes: nat -> Spawns, s': System) returns (mid: System)
    requires roots != [] && AutostartAmid(s, roots, outcomes, s')
    ensures AutostartAmid(s, roots[..|roots| - 1], outcomes, mid)
    ensures Visited(mid, roots[|roots| - 1], outcomes(|roots| - 1), s')
  {
    var front, root := roots[..|roots| - 1], roots[|roots| - 1];
    mid :| AutostartAmid(s, front, outcomes, mid) && Visited(mid, root, outcomes(|front|), s');
  }

  /** With nothing running before: everything the roots pull in whose spawns do not fail runs, nothing
      runs that is not pulled in or could never be spawned, and when the outcomes do not change from
      visit to visit exactly the spawnable part of what the roots pull in runs. */
  lemma AutostartRunning(c: Configs, roots: seq<string>, outcomes: nat -> Spawns, s': System)
    requires Elems(roots) <= c.Keys && AutostartAmid(Loaded(c), roots, outcomes, s')
    ensures forall n | n in Pulled(c, roots) && NeverFails(outcomes, |roots|, n) :: n in Running(s')
    ensures forall n | n in Running(s') :: n in Pulled(c, roots) && MaySucceed(outcomes, |roots|, n)
    ensures forall spawnable | Steady(outcomes, |roots|, spawnable) :: Running(s') == Pulled(c, roots) * spawnable
  {
    AutostartFacts(c, roots, outcomes, {}, s');
    forall n
      ensures n in Pulled(c, roots) && NeverFails(outcomes, |roots|, n) ==> n in Running(s')
      ensures n in Running(s') ==> n in Pulled(c, roots) && MaySucceed(outcomes, |roots|, n)
    {
      BroughtBounds(c, roots, outcomes, n);
    }
    forall spawnable | Steady(outcomes, |roots|, spawnable) ensures Running(s') == Pulled(c, roots) * spawnable {
      BroughtSteadily(c, roots, outcomes, spawnable);
    }
  }

  /** The running set after autostart does not depend on the iteration order of the program map, nor
      on what monitors and timers do meanwhile, as long as the same programs can be spawned. */
  lemma AutostartOrderIrrelevant(c: Configs, roots: seq<string>, roots': seq<string>, outcomes: nat -> Spawns,
                                 spawnable: set<string>)
    requires Elems(roots) <= c.Keys && Elems(roots) == Elems(roots')
    requires Steady(outcomes, |roots|, spawnable) && Steady(outcomes, |roots'|, spawnable)
    ensures forall s, s' | AutostartAmid(Loaded(c), roots, outcomes, s)
                           && AutostartAmid(Loaded(c), roots', outcomes, s') :: Running(s) == Running(s')
  {
    PulledAlike(c, roots, roots');
    forall s, s' | AutostartAmid(Loaded(c), roots, outcomes, s) && AutostartAmid(Loaded(c), roots', outcomes, s')
      ensures Running(s) == Running(s')
    {
      AutostartRunning(c, roots, outcomes, s);
      AutostartRunning(c, roots', outcomes, s');
    }
  }

  lemma PulledAlike(c: Configs, roots: seq<string>, roots': seq<string>)
    requires Elems(roots) == Elems(roots')
    ensures Pulled(c, roots) == Pulled(c, roots')
  {
    assert forall r :: r in roots <==> r in Elems(roots);
    assert forall r :: r in roots' <==> r in Elems(roots');
  }

  lemma {:induction false} StartedNamesList(events: seq<Event>, d: string)
    ensures d in StartedNames(events) <==> Started(d) in events
  {
    if events != [] {
      var front, last := events[..|events| - 1], events[|events| - 1];
      assert events == front + [last];
      StartedNamesList(front, d);
    }
  }

  /** Where the name of an event stands. */
  lemma {:induction false} StartedNamesAt(events: seq<Event>, i: nat)
    requires i < |events| && events[i].Started?
    ensures StartedNames(events[..i]) + [events[i].name] <= StartedNames(events)
    decreases |events|
  {
    var front := events[..|events| - 1];
    if i < |events| - 1 {
      StartedNamesAt(front, i);
      assert front[..i] == events[..i];
    }
  }

  /** Over the whole autostart sequence, whatever the order of the roots and whatever monitors and
      timers do meanwhile: when a program with no `after` cycle ahead is started, every known `after`
      target of it whose spawns do not fail has been started before. */
  lemma AutostartTargetsFirst(c: Configs, roots: seq<string>, outcomes: nat -> Spawns, reliable: set<string>,
                              s': System)
    requires Elems(roots) <= c.Keys && AutostartAmid(Loaded(c), roots, outcomes, s')
    requires Reliable(outcomes, |roots|, reliable)
    ensures forall i, d | 0 <= i < |s'.queue| && StartedAfter(c, s'.queue[i], d) && d in reliable
              && !LeadsIntoCycle(AfterGraph(c), s'.queue[i].name) :: Started(d) in s'.queue[..i]
  {
    AutostartFacts(c, roots, outcomes, reliable, s');
    forall i, d | 0 <= i < |s'.queue| && StartedAfter(c, s'.queue[i], d) && d in reliable
      && !LeadsIntoCycle(AfterGraph(c), s'.queue[i].name)
      ensures Started(d) in s'.queue[..i]
    {
      TargetsFirstInQueue(c, s'.queue, reliable, i, d);
    }
  }

  /** `e` says that a program has been started which has `d` among its known `after` targets. */
  ghost predicate StartedAfter(c: Configs, e: Event, d: string) {
    e.Started? && e.name in c && d in AfterGraph(c)[e.name]
  }

  lemma TargetsFirstInQueue(c: Configs, events: seq<Event>, spawnable: set<string>, i: nat, d: string)
    requires TargetsFirst(c, StartedNames(events), spawnable)
    requires i < |events| && StartedAfter(c, events[i], d) && d in spawnable
    requires !LeadsIntoCycle(AfterGraph(c), events[i].name)
    ensures Started(d) in events[..i]
  {
    var launched, before := StartedNames(events), StartedNames(events[..i]);
    StartedNamesAt(events, i);
    var k := |before|;
    assert launched[k] == (before + [events[i].name])[k] == events[i].name;
    assert launched[..k] == before;
    assert d in launched[..k];
    StartedNamesList(events[..i], d);
  }

  /** With `after` acyclic over the whole configuration and every spawn succeeding this holds of every
      program. */
  lemma AcyclicAutostartTargetsFirst(c: Configs, roots: seq<string>, outcomes: nat -> Spawns, s': System)
    requires Elems(roots) <= c.Keys && Reliable(outcomes, |roots|, c.Keys) && Acyclic(AfterGraph(c), c.Keys)
    ensures AutostartAmid(Loaded(c), roots, outcomes, s') ==>
              forall i, d | 0 <= i < |s'.queue| && StartedAfter(c, s'.queue[i], d) :: Started(d) in s'.queue[..i]
  {
    if AutostartAmid(Loaded(c), roots, outcomes, s') {
      AutostartTargetsFirst(c, roots, outcomes, c.Keys, s');
      forall i, d | 0 <= i < |s'.queue| && StartedAfter(c, s'.queue[i], d) ensures Started(d) in s'.queue[..i] {
        NoCycleAnywhere(c, s'.queue[i].name);
        assert AfterGraph(c)[s'.queue[i].name] <= c.Keys;
      }
    }
  }

  lemma NoCycleAnywhere(c: Configs, u: string)
    requires u in c && Acyclic(AfterGraph(c), c.Keys)
    ensures !LeadsIntoCycle(AfterGraph(c), u)
  {
    var g := AfterGraph(c);
    forall v, n: nat | Walk(g, u, v, n) ensures !OnCycle(g, v) {
      WalkStays(g, c.Keys, u, v, n);
    }
  }
}
