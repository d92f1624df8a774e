/** What starting a program, and starting all autostart programs, does
    (cirond/src/process.rs, `start_process` and `start_all_autostart`). */
module Starting {
  import opened Sequences
  import opened Graphs
  import opened Configuration
  import opened Resolution
  import opened Supervisor

  ghost function Starts(names: seq<string>): seq<Event> {
    if names == [] then [] else Starts(names[..|names| - 1]) + [Started(names[|names| - 1])]
  }

  lemma StartsSnoc(names: seq<string>, n: string)
    ensures Starts(names + [n]) == Starts(names) + [Started(n)]
  {
    assert (names + [n])[..|names|] == names;
  }

  /** The programs a batch newly starts, in batch order. */
  ghost function NewlyStarted(s: System, units: seq<string>, spawns: Spawns): seq<string> {
    Keep(units, spawns.Keys - Running(s))
  }

  /** What starting leaves alone: everything but the programs in `touched` that were not running. */
  ghost predicate OnlyStarts(s: System, s': System, touched: set<string>) {
    && s'.configs == s.configs && s'.processes.Keys == s.processes.Keys && s'.open == s.open
    && s'.dying == s.dying && s'.timers == s.timers && s'.handled == s.handled
    && (forall u | u in s.processes && (u !in touched || s.processes[u].running) :: s'.processes[u] == s.processes[u])
  }

  lemma SingleFrame(s: System, n: string, spawns: Spawns)
    requires s.processes.Keys == s.configs.Keys
    ensures OnlyStarts(s, StartSingle(s, n, spawns), {n})
  {
  }

  lemma SingleRunning(s: System, n: string, spawns: Spawns)
    requires n in s.processes
    ensures Running(StartSingle(s, n, spawns)) == Running(s) + {n} * spawns.Keys
    ensures StartSingle(s, n, spawns).queue
         == s.queue + if s.open && n in spawns && n !in Running(s) then [Started(n)] else []
  {
    assert s.queue + [] == s.queue;
  }

  lemma {:induction false} BatchFrame(s: System, units: seq<string>, spawns: Spawns)
    requires s.processes.Keys == s.configs.Keys
    ensures OnlyStarts(s, StartUnits(s, units, spawns), Elems(units))
  {
    if units != [] {
      var front, last := units[..|units| - 1], units[|units| - 1];
      BatchFrame(s, front, spawns);
      SingleFrame(StartUnits(s, front, spawns), last, spawns);
      assert units == front + [last];
      SnocElems(front, last);
    }
  }

  lemma {:induction false} BatchRunning(s: System, units: seq<string>, spawns: Spawns)
    requires s.processes.Keys == s.configs.Keys && Elems(units) <= s.configs.Keys
    ensures Running(StartUnits(s, units, spawns)) == Running(s) + Elems(units) * spawns.Keys
  {
    if units == [] {
      assert Elems(units) * spawns.Keys == {};
    } else {
      var front, last := units[..|units| - 1], units[|units| - 1];
      assert units == front + [last];
      SnocElems(front, last);
      BatchRunning(s, front, spawns);
      BatchFrame(s, front, spawns);
      SingleRunning(StartUnits(s, front, spawns), last, spawns);
      OneMoreSpawnable(Running(s), Elems(front), last, spawns.Keys);
    }
  }

  lemma OneMoreSpawnable(before: set<string>, front: set<string>, last: string, spawnable: set<string>)
    ensures (before + front * spawnable) + {last} * spawnable == before + (front + {last}) * spawnable
  {
  }

  lemma {:induction false} BatchQueue(s: System, units: seq<string>, spawns: Spawns)
    requires s.processes.Keys == s.configs.Keys && Distinct(units) && Elems(units) <= s.configs.Keys
    ensures StartUnits(s, units, spawns).queue
         == s.queue + if s.open then Starts(NewlyStarted(s, units, spawns)) else []
  {
    if units == [] {
      assert s.queue + [] == s.queue;
    } else {
      var front, last := units[..|units| - 1], units[|units| - 1];
      assert units == front + [last];
      SnocElems(front, last);
      DistinctTake(units, |front|);
      BatchQueue(s, front, spawns);
      BatchRunning(s, front, spawns);
      BatchFrame(s, front, spawns);
      SingleRunning(StartUnits(s, front, spawns), last, spawns);
      QueueOneMore(s, front, last, spawns);
    }
  }

  lemma QueueOneMore(s: System, front: seq<string>, last: string, spawns: Spawns)
    ensures (s.queue + if s.open then Starts(NewlyStarted(s, front, spawns)) else [])
            + (if s.open && last in spawns && last !in Running(s) then [Started(last)] else [])
         == s.queue + if s.open then Starts(NewlyStarted(s, front + [last], spawns)) else []
  {
    var newly := NewlyStarted(s, front, spawns);
    if last in spawns && last !in Running(s) {
      assert NewlyStarted(s, front + [last], spawns) == newly + [last] by {
        KeepSnoc(front, last, spawns.Keys - Running(s));
      }
      StartsSnoc(newly, last);
      QueueSnoc(s.queue, Starts(newly), Started(last));
    } else {
      assert NewlyStarted(s, front + [last], spawns) == newly by {
        KeepSnoc(front, last, spawns.Keys - Running(s));
        assert newly + [] == newly;
      }
    }
  }

  lemma QueueSnoc(queue: seq<Event>, starts: seq<Event>, e: Event)
    ensures (queue + starts) + [e] == queue + (starts + [e])
    ensures (queue + []) + [] == queue + []
  {
  }

  /** `start_process`: the running set becomes the old one plus the spawnable part of the closure;
      `Started` is sent once per newly started program, in resolved order; programs outside the
      closure, and programs that ran already, keep their state; success means the root itself runs. */
  lemma StartFacts(s: System, n: string, spawns: Spawns)
    requires s.processes.Keys == s.configs.Keys && n in s.configs
    ensures Running(Start(s, n, spawns)) == Running(s) + Closure(s.configs, n) * spawns.Keys
    ensures Start(s, n, spawns).queue
         == s.queue + if s.open then Starts(NewlyStarted(s, StartOrder(s.configs, n), spawns)) else []
    ensures OnlyStarts(s, Start(s, n, spawns), Closure(s.configs, n))
    ensures StartSucceeds(s, n, spawns) <==> IsRunning(Start(s, n, spawns), n)
  {
    var order := StartOrder(s.configs, n);
    OrderListsClosureOnce(s.configs, n);
    BatchFrame(s, order, spawns);
    BatchRunning(s, order, spawns);
    BatchQueue(s, order, spawns);
    RootInClosure(s.configs, n);
    assert IsRunning(Start(s, n, spawns), n) <==> n in Running(Start(s, n, spawns));
    assert IsRunning(s, n) <==> n in Running(s);
  }

  lemma RootInClosure(c: Configs, n: string)
    requires n in c
    ensures n in Closure(c, n)
  {
    assert Walk(PullGraph(c), n, n, 0);
  }

  /** A batch with nothing spawnable left to start only records failed attempts. */
  lemma {:induction false} IdleBatch(s: System, units: seq<string>, spawns: Spawns)
    requires s.processes.Keys == s.configs.Keys && Elems(units) <= s.configs.Keys
    requires Elems(units) * spawns.Keys <= Running(s)
    ensures StartUnits(s, units, spawns) == s.(trace := StartUnits(s, units, spawns).trace)
  {
    if units != [] {
      var front, last := units[..|units| - 1], units[|units| - 1];
      assert units == front + [last];
      SnocElems(front, last);
      IdleBatch(s, front, spawns);
      assert last in spawns ==> last in Elems(units) * spawns.Keys;
    }
  }

  /** Starting the same program again, with the same programs spawnable, spawns nothing. */
  lemma StartAgain(s: System, n: string, spawns: Spawns)
    requires s.processes.Keys == s.configs.Keys && n in s.configs
    ensures var once := Start(s, n, spawns);
            Start(once, n, spawns) == once.(trace := Start(once, n, spawns).trace)
  {
    StartFacts(s, n, spawns);
    OrderListsClosureOnce(s.configs, n);
    IdleBatch(Start(s, n, spawns), StartOrder(s.configs, n), spawns);
  }

  // ---------------------------------------------------------------- autostart

  ghost function Pulled(c: Configs, roots: seq<string>): set<string> {
    set n | n in c && exists r :: r in roots && r in c && n in Closure(c, r)
  }

  lemma PulledSnoc(c: Configs, roots: seq<string>, r: string)
    requires r in c
    ensures Pulled(c, roots + [r]) == Pulled(c, roots) + Closure(c, r)
  {
    forall n ensures n in Pulled(c, roots + [r]) <==> n in Pulled(c, roots) || n in Closure(c, r) {
      if n in Closure(c, r) {
        assert r in roots + [r] && n in c;
      }
      if n in Pulled(c, roots) {
        var q :| q in roots && q in c && n in Closure(c, q);
        assert q in roots + [r];
      }
    }
  }

  /** A program pulled in brings in nothing that was not pulled in with it. */
  lemma PulledClosed(c: Configs, roots: seq<string>, r: string)
    requires r in Pulled(c, roots)
    ensures Closure(c, r) <= Pulled(c, roots)
  {
    var q :| q in roots && q in c && r in Closure(c, q);
    ReachableTransitive(PullGraph(c), q, r);
    forall n | n in Closure(c, r) ensures n in Pulled(c, roots) {
      assert n in Closure(c, q);
    }
  }

  /** What runs after the visits of `roots`, with `outcomes(i)` for the attempts of visit `i`: a root
      that runs when its turn comes is skipped, any other brings what can be spawned of its closure. */
  ghost function Brought(c: Configs, roots: seq<string>, outcomes: nat -> Spawns): set<string> {
    if roots == [] then {}
    else
      var k := |roots| - 1;
      var before := Brought(c, roots[..k], outcomes);
      if roots[k] in before then before else before + Closure(c, roots[k]) * outcomes(k).Keys
  }

  lemma BroughtSnoc(c: Configs, front: seq<string>, root: string, outcomes: nat -> Spawns)
    ensures var before := Brought(c, front, outcomes);
            Brought(c, front + [root], outcomes)
            == if root in before then before else before + Closure(c, root) * outcomes(|front|).Keys
  {
    assert (front + [root])[..|front|] == front;
  }

  /** `n` can be spawned in every one of the first `visits` visits. */
  ghost predicate NeverFails(outcomes: nat -> Spawns, visits: nat, n: string) {
    forall i: nat | i < visits :: n in outcomes(i)
  }

  ghost predicate MaySucceed(outcomes: nat -> Spawns, visits: nat, n: string) {
    exists i: nat :: i < visits && n in outcomes(i)
  }

  /** In whatever order the roots are visited: what is pulled in and never fails runs, and what runs
      is pulled in and could be spawned at least once. */
  lemma {:induction false} BroughtBounds(c: Configs, roots: seq<string>, outcomes: nat -> Spawns, n: string)
    requires Elems(roots) <= c.Keys
    ensures n in Pulled(c, roots) && NeverFails(outcomes, |roots|, n) ==> n in Brought(c, roots, outcomes)
    ensures n in Brought(c, roots, outcomes) ==> n in Pulled(c, roots) && MaySucceed(outcomes, |roots|, n)
  {
    if roots != [] {
      var front, root := roots[..|roots| - 1], roots[|roots| - 1];
      RootsKnown(c, roots);
      PulledSnoc(c, front, root);
      BroughtSnoc(c, front, root, outcomes);
      BroughtBounds(c, front, outcomes, n);
      BroughtBounds(c, front, outcomes, root);
      if root in Brought(c, front, outcomes) {
        PulledClosed(c, front, root);
      }
      assert NeverFails(outcomes, |roots|, n) ==> NeverFails(outcomes, |front|, n);
    }
  }

  lemma RootsKnown(c: Configs, roots: seq<string>)
    requires roots != [] && Elems(roots) <= c.Keys
    ensures Elems(roots[..|roots| - 1]) <= c.Keys && roots[|roots| - 1] in c
    ensures roots == roots[..|roots| - 1] + [roots[|roots| - 1]]
  {
    assert roots[|roots| - 1] in Elems(roots);
    assert forall x | x in Elems(roots[..|roots| - 1]) :: x in Elems(roots);
  }

  /** The same programs can be spawned in every visit. */
  ghost predicate Steady(outcomes: nat -> Spawns, visits: nat, spawnable: set<string>) {
    forall i: nat | i < visits :: outcomes(i).Keys == spawnable
  }

  /** Then exactly the spawnable part of what is pulled in runs. */
  lemma BroughtSteadily(c: Configs, roots: seq<string>, outcomes: nat -> Spawns, spawnable: set<string>)
    requires Elems(roots) <= c.Keys && Steady(outcomes, |roots|, spawnable)
    ensures Brought(c, roots, outcomes) == Pulled(c, roots) * spawnable
  {
    forall n ensures n in Brought(c, roots, outcomes) <==> n in Pulled(c, roots) * spawnable {
      BroughtBounds(c, roots, outcomes, n);
    }
  }

  // ---------------------------------------------------------------- after targets come first

  /** Every listed program with no `after` cycle ahead is preceded by each of its known `after`
      targets that are among the spawnable ones. */
  ghost predicate TargetsFirst(c: Configs, launched: seq<string>, spawnable: set<string>) {
    forall i, d | 0 <= i < |launched| && launched[i] in c && d in AfterGraph(c)[launched[i]] && d in spawnable
      && !LeadsIntoCycle(AfterGraph(c), launched[i]) :: d in launched[..i]
  }

  /** In one batch: a newly started program finds each spawnable target running already or newly
      started before it. */
  lemma BatchTargetsFirst(c: Configs, root: string, already: set<string>, spawnable: set<string>, k: nat, d: string)
    requires root in c
    requires var newly := Keep(StartOrder(c, root), spawnable - already);
             k < |newly| && newly[k] in c && d in AfterGraph(c)[newly[k]] && d in spawnable
             && !LeadsIntoCycle(AfterGraph(c), newly[k])
    ensures d in already || d in Keep(StartOrder(c, root), spawnable - already)[..k]
  {
    var order := StartOrder(c, root);
    OrderListsClosureOnce(c, root);
    var i := KeptFrom(order, spawnable - already, k);
    AfterTargetsFirst(c, root, i, d);
    if d !in already {
      var j :| 0 <= j < i && order[j] == d;
      KeptBefore(order, spawnable - already, j, i, k);
    }
  }

  /** Where a kept entry stands in the whole list. */
  lemma KeptFrom(s: seq<string>, keep: set<string>, k: nat) returns (i: nat)
    requires k < |Keep(s, keep)|
    ensures i < |s| && s[i] == Keep(s, keep)[k] && s[i] in keep
  {
    KeepMembers(s, keep);
    assert Keep(s, keep)[k] in Elems(Keep(s, keep));
    i := IndexOf(s, Keep(s, keep)[k]);
  }

  /** A kept entry listed earlier is kept earlier. */
  lemma KeptBefore(s: seq<string>, keep: set<string>, j: nat, i: nat, k: nat)
    requires Distinct(s) && j < i < |s| && s[j] in keep && s[i] in keep
    requires k < |Keep(s, keep)| && Keep(s, keep)[k] == s[i]
    ensures s[j] in Keep(s, keep)[..k]
  {
    var kept := Keep(s, keep);
    KeepDistinct(s, keep);
    KeepOrder(s, keep, j, i);
    var a, b :| 0 <= a < b < |kept| && kept[a] == s[j] && kept[b] == s[i];
    assert b == k;
    assert kept[..k][a] == s[j];
  }

  lemma TargetsFirstExtends(c: Configs, launched: seq<string>, newly: seq<string>, spawnable: set<string>)
    requires TargetsFirst(c, launched, spawnable)
    requires forall k, d | 0 <= k < |newly| && newly[k] in c && d in AfterGraph(c)[newly[k]] && d in spawnable
               && !LeadsIntoCycle(AfterGraph(c), newly[k]) :: d in launched || d in newly[..k]
    ensures TargetsFirst(c, launched + newly, spawnable)
  {
    var all := launched + newly;
    forall i, d | 0 <= i < |all| && all[i] in c && d in AfterGraph(c)[all[i]] && d in spawnable
      && !LeadsIntoCycle(AfterGraph(c), all[i])
      ensures d in all[..i]
    {
      if i < |launched| {
        assert all[..i] == launched[..i];
        assert all[i] == launched[i];
      } else {
        var k := i - |launched|;
        assert all[i] == newly[k];
        assert all[..i] == launched + newly[..k];
      }
    }
  }

  lemma LaunchElems(c: Configs, root: string, launched: seq<string>, spawnable: set<string>)
    requires root in c
    ensures Elems(launched + Keep(StartOrder(c, root), spawnable - Elems(launched)))
         == Elems(launched) + Closure(c, root) * spawnable
  {
    var newly := Keep(StartOrder(c, root), spawnable - Elems(launched));
    OrderListsClosureOnce(c, root);
    KeepElems(StartOrder(c, root), spawnable - Elems(launched));
    assert Elems(launched + newly) == Elems(launched) + Elems(newly);
  }
}
