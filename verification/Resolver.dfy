/** The start-order computation step by step (cirond/src/process.rs, `resolve_start_order`),
    with its mutable lists, sets, maps and queues. */
module Resolver {
  import opened Wrappers
  import opened Sequences
  import opened Graphs
  import opened Configuration
  import opened Worklist
  import opened Discovery
  import opened KahnOrder
  import opened EdgeCounts
  import opened Resolution

  method Discover(c: Configs, root: string) returns (discovered: seq<string>, seen: set<string>)
    requires root in c
    ensures Discovers(c, root, discovered)
    ensures seen == Elems(discovered)
  {
    discovered := [root];
    seen := {root};
    var queue := [root];
    ghost var done: seq<string> := [];
    while queue != []
      invariant discovered == done + queue
      invariant discovered == Found(c, root, done)
      invariant Served(Finding(c, root), done)
      invariant seen == Elems(discovered) && seen <= c.Keys
      decreases |c.Keys| - |done|
    {
      FoundBounded(c, root, done);
      var current := queue[0];
      TakeHead(done, queue);
      assert current in Elems(discovered);
      ServedSnoc(Finding(c, root), done, current);
      done := done + [current];
      assert done[..|done| - 1] + [current] == done;
      queue := queue[1..];
      discovered, seen, queue := Scan(c, DepsOf(c, current), discovered, seen, queue, done);
    }
    assert done == discovered;
  }

  /** One served entry: each known dependency not seen yet joins the list and the queue. */
  method Scan(c: Configs, deps: seq<string>, found: seq<string>, known: set<string>, waiting: seq<string>,
              ghost done: seq<string>)
    returns (discovered: seq<string>, seen: set<string>, queue: seq<string>)
    requires found == done + waiting && known == Elems(found) && known <= c.Keys
    ensures discovered == Admit(c, found, deps)
    ensures discovered == done + queue
    ensures seen == Elems(discovered) && seen <= c.Keys
  {
    discovered, seen, queue := found, known, waiting;
    for i := 0 to |deps|
      invariant discovered == Admit(c, found, deps[..i])
      invariant discovered == done + queue
      invariant seen == Elems(discovered) && seen <= c.Keys
    {
      var dep := deps[i];
      assert deps[..i + 1][..i] == deps[..i];
      if dep in c {
        if dep !in seen {
          assert Elems(discovered + [dep]) == seen + {dep};
          seen := seen + {dep};
          discovered := discovered + [dep];
          queue := queue + [dep];
        } else {
          assert dep in Elems(discovered);
        }
      }
    }
    TakeAll(deps);
  }

  /** Units recorded as coming after `x`. */
  function Recorded(dependents: map<string, seq<string>>, x: string): seq<string> {
    if x in dependents then dependents[x] else []
  }

  /** Every in-degree counts the `after` entries of the units looked at so far. */
  ghost predicate DegreesCounted(c: Configs, units: seq<string>, seen: set<string>, inDegree: map<string, nat>) {
    inDegree.Keys == seen &&
    forall u | u in seen :: inDegree[u] == if u in Elems(units) then Pending(AfterOf(c, u), seen, {}) else 0
  }

  /** Every edge of the units looked at so far is recorded at its target. */
  ghost predicate EdgesRecorded(c: Configs, units: seq<string>, seen: set<string>, dependents: map<string, seq<string>>) {
    forall x | x in seen :: Recorded(dependents, x) == Edges(c, units, x)
  }

  lemma CountedOneMore(c: Configs, units: seq<string>, unit: string, seen: set<string>,
                       counts: map<string, nat>, inDegree: map<string, nat>)
    requires DegreesCounted(c, units, seen, counts) && unit in seen && unit !in Elems(units)
    requires Raised(counts, unit, Pending(AfterOf(c, unit), seen, {}), inDegree)
    ensures DegreesCounted(c, units + [unit], seen, inDegree)
  {
    SnocElems(units, unit);
  }

  lemma RecordedOneMore(c: Configs, units: seq<string>, unit: string, seen: set<string>,
                        recorded: map<string, seq<string>>, dependents: map<string, seq<string>>)
    requires EdgesRecorded(c, units, seen, recorded)
    requires UnitRecorded(unit, AfterOf(c, unit), seen, recorded, dependents)
    ensures EdgesRecorded(c, units + [unit], seen, dependents)
  {
    forall x | x in seen ensures Recorded(dependents, x) == Edges(c, units + [unit], x) {
      EdgesSnoc(c, units, unit, x);
    }
  }

  /** In-degrees and dependents, each edge counted once per `after` entry on both sides. */
  method CountEdges(c: Configs, discovered: seq<string>, seen: set<string>)
    returns (inDegree: map<string, nat>, dependents: map<string, seq<string>>)
    requires Distinct(discovered) && seen == Elems(discovered)
    ensures DegreesCounted(c, discovered, seen, inDegree)
    ensures EdgesRecorded(c, discovered, seen, dependents)
  {
    inDegree := map n | n in seen :: 0;
    dependents := map[];
    for k := 0 to |discovered|
      invariant DegreesCounted(c, discovered[..k], seen, inDegree)
      invariant EdgesRecorded(c, discovered[..k], seen, dependents)
    {
      var unit := discovered[k];
      TakeSnoc(discovered, k);
      DistinctTake(discovered, k);
      ghost var counts, recorded := inDegree, dependents;
      inDegree, dependents := CountUnit(unit, AfterOf(c, unit), seen, inDegree, dependents);
      CountedOneMore(c, discovered[..k], unit, seen, counts, inDegree);
      RecordedOneMore(c, discovered[..k], unit, seen, recorded, dependents);
    }
    TakeAll(discovered);
  }

  /** `unit` has been recorded at its targets, once per entry of `after`. */
  ghost predicate UnitRecorded(unit: string, after: seq<string>, seen: set<string>,
                               recorded: map<string, seq<string>>, dependents: map<string, seq<string>>) {
    forall x | x in seen ::
      Recorded(dependents, x) == Recorded(recorded, x) + Repeat(unit, Occurrences(after, x))
  }

  lemma EntryRecorded(unit: string, after: seq<string>, dep: string, seen: set<string>,
                      recorded: map<string, seq<string>>, before: map<string, seq<string>>,
                      dependents: map<string, seq<string>>)
    requires UnitRecorded(unit, after, seen, recorded, before)
    requires dependents == if dep in seen then before[dep := Recorded(before, dep) + [unit]] else before
    ensures UnitRecorded(unit, after + [dep], seen, recorded, dependents)
  {
    forall x | x in seen
      ensures Recorded(dependents, x) == Recorded(recorded, x) + Repeat(unit, Occurrences(after + [dep], x))
    {
      OccurrencesSnoc(after, dep, x);
      RepeatOnto(Recorded(recorded, x), unit, Occurrences(after, x));
    }
  }

  /** `inDegree` is `counts` with `n` more at `unit`. */
  ghost predicate Raised(counts: map<string, nat>, unit: string, n: nat, inDegree: map<string, nat>)
    requires unit in counts
  {
    inDegree == counts[unit := counts[unit] + n]
  }

  lemma RaisedOnce(counts: map<string, nat>, unit: string, n: nat, inDegree: map<string, nat>)
    requires unit in counts && Raised(counts, unit, n, inDegree)
    ensures Raised(counts, unit, n + 1, inDegree[unit := inDegree[unit] + 1])
  {
  }

  method CountUnit(unit: string, after: seq<string>, seen: set<string>,
                   counts: map<string, nat>, recorded: map<string, seq<string>>)
    returns (inDegree: map<string, nat>, dependents: map<string, seq<string>>)
    requires unit in counts
    ensures Raised(counts, unit, Pending(after, seen, {}), inDegree)
    ensures UnitRecorded(unit, after, seen, recorded, dependents)
  {
    inDegree, dependents := counts, recorded;
    for i := 0 to |after|
      invariant Raised(counts, unit, Pending(after[..i], seen, {}), inDegree)
      invariant UnitRecorded(unit, after[..i], seen, recorded, dependents)
    {
      var dep := after[i];
      TakeSnoc(after, i);
      PendingSnoc(after[..i], dep, seen, {});
      ghost var before := dependents;
      if dep in seen {
        dependents := dependents[dep := Recorded(dependents, dep) + [unit]];
        RaisedOnce(counts, unit, Pending(after[..i], seen, {}), inDegree);
        inDegree := inDegree[unit := inDegree[unit] + 1];
      }
      EntryRecorded(unit, after[..i], dep, seen, recorded, before, dependents);
    }
    TakeAll(after);
  }

  /** Every in-degree is the number of `after` entries whose target is still to be emitted. */
  ghost predicate Balanced(c: Configs, seen: set<string>, emitted: seq<string>, inDegree: map<string, nat>) {
    inDegree.Keys == seen &&
    forall u | u in seen :: inDegree[u] == Pending(AfterOf(c, u), seen, Elems(emitted))
  }

  /** What is emitted plus what waits is all that ever became ready. */
  ghost predicate Queued(g: Graph, discovered: seq<string>, sorted: seq<string>, ready: seq<string>) {
    sorted + ready == Readied(g, discovered, sorted) && Served(Readying(g, discovered), sorted)
  }

  lemma CountedIsBalanced(c: Configs, discovered: seq<string>, seen: set<string>, inDegree: map<string, nat>)
    requires DegreesCounted(c, discovered, seen, inDegree) && seen == Elems(discovered)
    ensures Balanced(c, seen, [], inDegree)
  {
    assert Elems<string>([]) == {};
  }

  lemma HeadIsNew(g: Graph, discovered: seq<string>, sorted: seq<string>, ready: seq<string>)
    requires Distinct(discovered) && Queued(g, discovered, sorted, ready) && ready != []
    ensures ready[0] in discovered && ready[0] !in sorted
    ensures |sorted| < |discovered|
  {
    ServedDistinct(g, discovered, sorted);
    var all := sorted + ready;
    assert all[|sorted|] == ready[0];
    assert ready[0] in Elems(all);
    DistinctTake(all, |sorted|);
    assert all[..|sorted|] == sorted;
  }

  lemma QueuedStep(g: Graph, discovered: seq<string>, sorted: seq<string>, ready: seq<string>)
    requires Queued(g, discovered, sorted, ready) && ready != []
    ensures Queued(g, discovered, sorted + [ready[0]],
              ready[1..] + Keep(discovered, Unblocked(g, discovered, sorted + [ready[0]], ready[0])))
  {
    var unit := ready[0];
    TakeHead(sorted, ready);
    ServedSnoc(Readying(g, discovered), sorted, unit);
    ReadiedSnoc(g, discovered, sorted, unit);
    var released := Keep(discovered, Unblocked(g, discovered, sorted + [unit], unit));
    assert (sorted + [unit]) + (ready[1..] + released) == (sorted + [unit] + ready[1..]) + released;
  }

  /** The ready queue. Each in-degree always equals the number of `after` entries still pending,
      so no decrement goes below zero and no lookup misses; each program becomes ready at most once. */
  method EmitReady(c: Configs, discovered: seq<string>, seen: set<string>,
                   counts: map<string, nat>, dependents: map<string, seq<string>>)
    returns (sorted: seq<string>)
    requires Scope(AfterGraph(c), discovered) && seen == Elems(discovered)
    requires DegreesCounted(c, discovered, seen, counts)
    requires EdgesRecorded(c, discovered, seen, dependents)
    ensures Emits(AfterGraph(c), discovered, sorted)
  {
    ghost var g := AfterGraph(c);
    CountedIsBalanced(c, discovered, seen, counts);
    var inDegree := counts;
    var ready := InitiallyReady(c, discovered, seen, counts);
    sorted := [];
    while ready != []
      invariant Queued(g, discovered, sorted, ready)
      invariant Balanced(c, seen, sorted, inDegree)
      decreases |discovered| - |sorted|
    {
      HeadIsNew(g, discovered, sorted, ready);
      QueuedStep(g, discovered, sorted, ready);
      var unit := ready[0];
      ready := ready[1..];
      inDegree, ready := Release(c, discovered, seen, sorted, unit, Recorded(dependents, unit), inDegree, ready);
      sorted := sorted + [unit];
    }
    assert sorted + [] == sorted;
  }

  method InitiallyReady(c: Configs, discovered: seq<string>, seen: set<string>, inDegree: map<string, nat>)
    returns (ready: seq<string>)
    requires Scope(AfterGraph(c), discovered) && seen == Elems(discovered)
    requires Balanced(c, seen, [], inDegree)
    ensures ready == Keep(discovered, Unordered(AfterGraph(c), discovered))
  {
    ready := [];
    for k := 0 to |discovered|
      invariant ready == Keep(discovered[..k], Unordered(AfterGraph(c), discovered))
    {
      var n := discovered[k];
      assert n in Elems(discovered);
      PendingMeetsGraph(c, discovered, Elems([]), n);
      TakeSnoc(discovered, k);
      KeepSnoc(discovered[..k], n, Unordered(AfterGraph(c), discovered));
      if inDegree[n] == 0 {
        ready := ready + [n];
      }
    }
    TakeAll(discovered);
  }

  /** The counts after serving the dependents in `list`. */
  ghost predicate Lowered(counts: map<string, nat>, list: seq<string>, inDegree: map<string, nat>) {
    inDegree.Keys == counts.Keys &&
    forall u | u in counts :: inDegree[u] + Occurrences(list, u) == counts[u]
  }

  lemma LoweredStep(counts: map<string, nat>, list: seq<string>, inDegree: map<string, nat>, u: string)
    requires Lowered(counts, list, inDegree) && u in counts && inDegree[u] > 0
    ensures Lowered(counts, list + [u], inDegree[u := inDegree[u] - 1])
  {
    forall v | v in counts ensures Occurrences(list + [u], v) == Occurrences(list, v) + if u == v then 1 else 0 {
      OccurrencesSnoc(list, u, v);
    }
  }

  lemma LoweredEnough(counts: map<string, nat>, list: seq<string>, i: nat, inDegree: map<string, nat>)
    requires i < |list| && Lowered(counts, list[..i], inDegree)
    requires list[i] in counts && Occurrences(list, list[i]) <= counts[list[i]]
    ensures inDegree[list[i]] > 0
  {
    TakeSnoc(list, i);
    OccurrencesSnoc(list[..i], list[i], list[i]);
    OccurrencesPrefix(list, i + 1, list[i]);
  }

  /** A dependents list draws on the discovered programs and never exceeds a pending count. */
  lemma EdgesWithinCounts(c: Configs, discovered: seq<string>, seen: set<string>, emitted: seq<string>,
                          unit: string, counts: map<string, nat>)
    requires Scope(AfterGraph(c), discovered) && seen == Elems(discovered)
    requires unit in discovered && unit !in emitted && Balanced(c, seen, emitted, counts)
    ensures forall u | u in Edges(c, discovered, unit) ::
              u in counts && Occurrences(Edges(c, discovered, unit), u) <= counts[u]
    ensures Hits(Edges(c, discovered, unit), counts)
         == Keep(discovered, Unblocked(AfterGraph(c), discovered, emitted + [unit], unit))
  {
    var list := Edges(c, discovered, unit);
    ReleasedMeetsGraph(c, discovered, emitted, unit, counts);
    forall u | u in list ensures u in counts && Occurrences(list, u) <= counts[u] {
      OccursWhenListed(list, u);
      EdgesCountedAlike(c, discovered, unit, u);
    }
  }

  lemma PendingPlusEdges(c: Configs, discovered: seq<string>, seen: set<string>, emitted: seq<string>,
                         unit: string, u: string)
    requires Distinct(discovered) && seen == Elems(discovered) && unit in seen && unit !in emitted && u in seen
    ensures Pending(AfterOf(c, u), seen, Elems(emitted) + {unit}) + Occurrences(Edges(c, discovered, unit), u)
         == Pending(AfterOf(c, u), seen, Elems(emitted))
  {
    PendingAfterEmit(AfterOf(c, u), seen, Elems(emitted), unit);
    EdgesCountedAlike(c, discovered, unit, u);
  }

  lemma LoweredIsBalanced(c: Configs, discovered: seq<string>, seen: set<string>, emitted: seq<string>,
                          unit: string, counts: map<string, nat>, inDegree: map<string, nat>)
    requires Distinct(discovered) && seen == Elems(discovered) && unit in seen && unit !in emitted
    ensures Balanced(c, seen, emitted, counts) && Lowered(counts, Edges(c, discovered, unit), inDegree) ==>
              Balanced(c, seen, emitted + [unit], inDegree)
  {
    SnocElems(emitted, unit);
    if Balanced(c, seen, emitted, counts) && Lowered(counts, Edges(c, discovered, unit), inDegree) {
      forall u | u in seen ensures inDegree[u] == Pending(AfterOf(c, u), seen, Elems(emitted + [unit])) {
        LoweredAt(c, discovered, seen, emitted, unit, counts, inDegree, u);
      }
    }
  }

  lemma LoweredAt(c: Configs, discovered: seq<string>, seen: set<string>, emitted: seq<string>,
                  unit: string, counts: map<string, nat>, inDegree: map<string, nat>, u: string)
    requires Distinct(discovered) && seen == Elems(discovered) && unit in seen && unit !in emitted && u in seen
    requires Balanced(c, seen, emitted, counts) && Lowered(counts, Edges(c, discovered, unit), inDegree)
    ensures inDegree[u] == Pending(AfterOf(c, u), seen, Elems(emitted) + {unit})
  {
    PendingPlusEdges(c, discovered, seen, emitted, unit, u);
    assert counts[u] == Pending(AfterOf(c, u), seen, Elems(emitted));
    assert inDegree[u] + Occurrences(Edges(c, discovered, unit), u) == counts[u];
  }

  /** Serving the dependents of one emitted unit. */
  method Release(c: Configs, discovered: seq<string>, seen: set<string>, ghost emitted: seq<string>,
                 unit: string, list: seq<string>, counts: map<string, nat>, queue: seq<string>)
    returns (inDegree: map<string, nat>, ready: seq<string>)
    requires Scope(AfterGraph(c), discovered) && seen == Elems(discovered)
    requires unit in discovered && unit !in emitted
    requires list == Edges(c, discovered, unit)
    requires Balanced(c, seen, emitted, counts)
    ensures Balanced(c, seen, emitted + [unit], inDegree)
    ensures ready == queue + Keep(discovered, Unblocked(AfterGraph(c), discovered, emitted + [unit], unit))
  {
    EdgesWithinCounts(c, discovered, seen, emitted, unit, counts);
    inDegree, ready := Lower(list, counts, queue);
    LoweredIsBalanced(c, discovered, seen, emitted, unit, counts, inDegree);
  }

  /** The inner loop: one decrement per listed edge; a count that reaches zero queues its unit. */
  method Lower(list: seq<string>, counts: map<string, nat>, queue: seq<string>)
    returns (inDegree: map<string, nat>, ready: seq<string>)
    requires forall u | u in list :: u in counts && Occurrences(list, u) <= counts[u]
    ensures Lowered(counts, list, inDegree)
    ensures ready == queue + Hits(list, counts)
  {
    inDegree := counts;
    ready := queue;
    for i := 0 to |list|
      invariant Lowered(counts, list[..i], inDegree)
      invariant ready == queue + Hits(list[..i], counts)
    {
      var dependent := list[i];
      LoweredEnough(counts, list, i, inDegree);
      LoweredStep(counts, list[..i], inDegree, dependent);
      HitsSnoc(list[..i], dependent, counts);
      TakeSnoc(list, i);
      inDegree := inDegree[dependent := inDegree[dependent] - 1];
      if inDegree[dependent] == 0 {
        ready := ready + [dependent];
      }
    }
    TakeAll(list);
  }

  /** Programs the sort did not emit follow in discovery order. */
  method AppendMissing(discovered: seq<string>, prefix: seq<string>) returns (sorted: seq<string>)
    requires Distinct(discovered) && Distinct(prefix) && Elems(prefix) <= Elems(discovered)
    ensures sorted == prefix + Keep(discovered, Elems(discovered) - Elems(prefix))
  {
    sorted := prefix;
    ghost var missing := Elems(discovered) - Elems(prefix);
    if |sorted| != |discovered| {
      for k := 0 to |discovered|
        invariant sorted == prefix + Keep(discovered[..k], missing)
      {
        var unit := discovered[k];
        TakeSnoc(discovered, k);
        KeepSnoc(discovered[..k], unit, missing);
        MissingOnce(discovered, prefix, k);
        if unit !in sorted {
          sorted := sorted + [unit];
        }
      }
      TakeAll(discovered);
    } else {
      DistinctSize(prefix);
      DistinctSize(discovered);
      SubsetSize(Elems(prefix), Elems(discovered));
      KeepNothing(discovered, missing);
    }
  }

  lemma MissingOnce(discovered: seq<string>, prefix: seq<string>, k: nat)
    requires Distinct(discovered) && k < |discovered|
    ensures var missing := Elems(discovered) - Elems(prefix);
            discovered[k] in prefix + Keep(discovered[..k], missing) <==> discovered[k] !in missing
  {
    var missing := Elems(discovered) - Elems(prefix);
    DistinctTake(discovered, k);
    KeepElems(discovered[..k], missing);
    var kept := Keep(discovered[..k], missing);
    assert discovered[k] in kept <==> discovered[k] in Elems(kept);
  }

  /** The whole computation: an error for an unknown root, the start order otherwise. */
  method ResolveStartOrder(c: Configs, name: string) returns (r: Result<seq<string>, string>)
    ensures r.Ok? <==> name in c
    ensures r.Ok? ==> r.value == StartOrder(c, name)
  {
    if name !in c {
      return Err("Program not found");
    }
    var discovered, seen := Discover(c, name);
    DiscoveryInScope(c, name, discovered);
    var inDegree, dependents := CountEdges(c, discovered, seen);
    var prefix := EmitReady(c, discovered, seen, inDegree, dependents);
    StartOrderUnique(c, name, discovered, prefix);
    EmittedFacts(AfterGraph(c), discovered, prefix);
    var sorted := AppendMissing(discovered, prefix);
    r := Ok(sorted);
  }

  lemma DiscoveryInScope(c: Configs, root: string, disc: seq<string>)
    requires root in c && Discovers(c, root, disc)
    ensures Scope(AfterGraph(c), disc)
  {
    var other := DiscoveryExists(c, root);
    assert disc == other == DiscoveryOf(c, root);
    InScope(c, root);
  }
}
