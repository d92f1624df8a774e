/** The order in which a program and everything it pulls in are started
    (cirond/src/process.rs, `resolve_start_order`). */
module Resolution {
  import opened Sequences
  import opened Graphs
  import opened Configuration
  import opened Discovery
  import opened KahnOrder

  lemma DiscoveryIsDefined(c: Configs, root: string)
    requires root in c
    ensures exists disc :: Discovers(c, root, disc)
  {
    var disc := DiscoveryExists(c, root);
  }

  ghost function DiscoveryOf(c: Configs, root: string): (disc: seq<string>)
    requires root in c
    ensures Discovers(c, root, disc)
  {
    DiscoveryIsDefined(c, root);
    var disc :| Discovers(c, root, disc);
    disc
  }

  lemma EmissionIsDefined(g: Graph, disc: seq<string>)
    requires Distinct(disc)
    ensures exists prefix :: Emits(g, disc, prefix)
  {
    var prefix := EmissionExists(g, disc);
  }

  /** The part of the order that Kahn's algorithm emits. */
  ghost function SortedPart(c: Configs, root: string): (prefix: seq<string>)
    requires root in c
    ensures Emits(AfterGraph(c), DiscoveryOf(c, root), prefix)
  {
    DiscoveryIsClosure(c, root, DiscoveryOf(c, root));
    EmissionIsDefined(AfterGraph(c), DiscoveryOf(c, root));
    var prefix :| Emits(AfterGraph(c), DiscoveryOf(c, root), prefix);
    prefix
  }

  /** What is left when an `after` cycle blocks the sort, in discovery order. */
  ghost function LeftOver(c: Configs, root: string): seq<string>
    requires root in c
  {
    var disc := DiscoveryOf(c, root);
    Keep(disc, Elems(disc) - Elems(SortedPart(c, root)))
  }

  ghost function StartOrder(c: Configs, root: string): seq<string>
    requires root in c
  {
    SortedPart(c, root) + LeftOver(c, root)
  }

  /** Any complete discovery and any complete emission give the start order. */
  lemma StartOrderUnique(c: Configs, root: string, disc: seq<string>, prefix: seq<string>)
    requires root in c && Discovers(c, root, disc) && Emits(AfterGraph(c), disc, prefix)
    ensures disc == DiscoveryOf(c, root) && prefix == SortedPart(c, root)
    ensures StartOrder(c, root) == prefix + Keep(disc, Elems(disc) - Elems(prefix))
  {
    var disc' := DiscoveryExists(c, root);
    DiscoveryIsClosure(c, root, disc);
    assert disc == disc' == DiscoveryOf(c, root);
    var prefix' := EmissionExists(AfterGraph(c), disc);
    assert prefix == prefix' == SortedPart(c, root);
  }

  lemma InScope(c: Configs, root: string)
    requires root in c
    ensures Scope(AfterGraph(c), DiscoveryOf(c, root))
    ensures Elems(DiscoveryOf(c, root)) == Closure(c, root)
  {
    var disc := DiscoveryOf(c, root);
    DiscoveryIsClosure(c, root, disc);
    DiscoveryClosed(c, root, disc);
    forall u | u in disc ensures u in AfterGraph(c) && AfterGraph(c)[u] <= Elems(disc) {
      assert u in Closure(c, root);
      assert AfterGraph(c)[u] <= PullGraph(c)[u];
    }
  }

  /** The order lists every program of the closure once, and nothing else: in particular it
      holds its own root exactly once. */
  lemma OrderListsClosureOnce(c: Configs, root: string)
    requires root in c
    ensures Elems(StartOrder(c, root)) == Closure(c, root)
    ensures Distinct(StartOrder(c, root))
    ensures root in StartOrder(c, root) && Occurrences(StartOrder(c, root), root) == 1
  {
    InScope(c, root);
    var disc, prefix := DiscoveryOf(c, root), SortedPart(c, root);
    EmittedFacts(AfterGraph(c), disc, prefix);
    KeepElems(disc, Elems(disc) - Elems(prefix));
    DistinctConcat(prefix, LeftOver(c, root));
    DiscoveryIsClosure(c, root, disc);
    assert disc[0] in Elems(disc);
    assert root in Elems(StartOrder(c, root));
    OccursOnce(StartOrder(c, root), root);
  }

  lemma {:induction false} OccursOnce(s: seq<string>, x: string)
    requires Distinct(s) && x in s
    ensures Occurrences(s, x) == 1
  {
    var t, last := s[..|s| - 1], s[|s| - 1];
    assert s == t + [last];
    OccursWhenListed(t, x);
    if x == last {
      assert x !in t;
    } else {
      OccursOnce(t, x);
    }
  }

  /** The sorted part is exactly the programs of the closure from which no chain of `after`
      leads into a cycle, each preceded by all its known `after` targets. */
  lemma SortedPartExact(c: Configs, root: string)
    requires root in c
    ensures forall u | u in Closure(c, root) ::
              u in SortedPart(c, root) <==> !LeadsIntoCycle(AfterGraph(c), u)
    ensures forall i | 0 <= i < |SortedPart(c, root)| ::
              SortedPart(c, root)[i] in c &&
              AfterGraph(c)[SortedPart(c, root)[i]] <= Elems(StartOrder(c, root)[..i])
    ensures SortedPart(c, root) <= StartOrder(c, root)
  {
    InScope(c, root);
    var g, disc, prefix := AfterGraph(c), DiscoveryOf(c, root), SortedPart(c, root);
    EmittedFacts(g, disc, prefix);
    forall u | u in Closure(c, root) ensures u in prefix <==> !LeadsIntoCycle(g, u) {
      assert u in Elems(disc);
      EmittedIffNoCycleAhead(g, disc, prefix, u);
    }
    forall i | 0 <= i < |prefix| ensures prefix[i] in c && g[prefix[i]] <= Elems(StartOrder(c, root)[..i]) {
      assert StartOrder(c, root)[..i] == prefix[..i];
    }
  }

  /** A closure member with no cycle ahead is preceded by each of its known `after` targets. */
  lemma AfterTargetsFirst(c: Configs, root: string, i: nat, d: string)
    requires root in c && i < |StartOrder(c, root)|
    requires !LeadsIntoCycle(AfterGraph(c), StartOrder(c, root)[i])
    requires StartOrder(c, root)[i] in c && d in AfterGraph(c)[StartOrder(c, root)[i]]
    ensures exists j | 0 <= j < i :: StartOrder(c, root)[j] == d
  {
    OrderListsClosureOnce(c, root);
    SortedPartExact(c, root);
    var order, prefix := StartOrder(c, root), SortedPart(c, root);
    assert order[i] in Elems(order);
    var k :| 0 <= k < |prefix| && prefix[k] == order[i];
    assert order[k] == prefix[k];
    assert k == i;
    var j := IndexOf(order[..i], d);
  }

  /** The sort covers the whole closure iff `after`, restricted to it, is acyclic. */
  lemma SortCoversIffAcyclic(c: Configs, root: string)
    requires root in c
    ensures |SortedPart(c, root)| == |StartOrder(c, root)| <==> Acyclic(AfterGraph(c), Closure(c, root))
  {
    InScope(c, root);
    var disc, prefix := DiscoveryOf(c, root), SortedPart(c, root);
    EmitsAllIffAcyclic(AfterGraph(c), disc, prefix);
    OrderListsClosureOnce(c, root);
    DistinctSize(StartOrder(c, root));
    DistinctSize(disc);
  }

  /** The rest keeps the discovery order. */
  lemma LeftOverKeepsDiscoveryOrder(c: Configs, root: string, i: nat, j: nat) returns (a: nat, b: nat)
    requires root in c && i < j < |DiscoveryOf(c, root)|
    requires DiscoveryOf(c, root)[i] !in SortedPart(c, root)
    requires DiscoveryOf(c, root)[j] !in SortedPart(c, root)
    ensures |SortedPart(c, root)| <= a < b < |StartOrder(c, root)|
    ensures StartOrder(c, root)[a] == DiscoveryOf(c, root)[i] && StartOrder(c, root)[b] == DiscoveryOf(c, root)[j]
  {
    var disc, prefix, rest := DiscoveryOf(c, root), SortedPart(c, root), LeftOver(c, root);
    KeepOrder(disc, Elems(disc) - Elems(prefix), i, j);
    a, b := PairAfter(prefix, rest, disc[i], disc[j]);
  }

  lemma PairAfter(front: seq<string>, rest: seq<string>, x: string, y: string) returns (a: nat, b: nat)
    requires exists k, l | 0 <= k < l < |rest| :: rest[k] == x && rest[l] == y
    ensures |front| <= a < b < |front + rest| && (front + rest)[a] == x && (front + rest)[b] == y
  {
    var k, l :| 0 <= k < l < |rest| && rest[k] == x && rest[l] == y;
    a, b := |front| + k, |front| + l;
  }

  /** The sorted part comes out in layers of longest `after` chain. */
  lemma SortedPartByDepth(c: Configs, root: string, i: nat, j: nat, n: nat)
    requires root in c && i < j < |SortedPart(c, root)|
    requires ChainFrom(AfterGraph(c), SortedPart(c, root)[i], n)
    ensures ChainFrom(AfterGraph(c), SortedPart(c, root)[j], n)
    ensures n <= i
  {
    InScope(c, root);
    EmittedByDepth(AfterGraph(c), DiscoveryOf(c, root), SortedPart(c, root), i, j, n);
    EmittedDepthBounded(AfterGraph(c), DiscoveryOf(c, root), SortedPart(c, root), i, n);
  }

  /** Hop distance from the root never decreases along the discovered list. */
  lemma DiscoveredByDistance(c: Configs, root: string, i: nat, j: nat, n: nat)
    requires root in c && i < j < |DiscoveryOf(c, root)|
    requires Hops(c, root, DiscoveryOf(c, root)[j], n)
    ensures Within(c, root, DiscoveryOf(c, root)[i], n)
  {
    DiscoveryByDistance(c, root, DiscoveryOf(c, root), i, j, n);
  }

  /** Unlike the documentation has it, `after` alone pulls its known targets in: they are in the
      closure, and so they are started. */
  lemma AfterPullsIn(c: Configs, root: string, u: string, d: string)
    requires root in c && u in Closure(c, root) && d in AfterGraph(c)[u]
    ensures d in Closure(c, root) && d in StartOrder(c, root)
  {
    var n: nat :| Walk(PullGraph(c), root, u, n);
    WalkExtend(PullGraph(c), root, u, d, n);
    OrderListsClosureOnce(c, root);
    assert d in Elems(StartOrder(c, root));
  }

  /** What the documentation has come up with `root`: everything known it reaches over `wants`. */
  ghost function Documented(c: Configs, root: string): set<string> {
    Reachable(WantsGraph(c), root)
  }

  lemma DocumentedInClosure(c: Configs, root: string)
    requires root in c
    ensures root in Documented(c, root) && Documented(c, root) <= Closure(c, root)
  {
    assert Walk(WantsGraph(c), root, root, 0);
    assert Walk(PullGraph(c), root, root, 0);
    forall x | x in Documented(c, root) ensures x in Closure(c, root) {
      var n: nat :| Walk(WantsGraph(c), root, x, n);
      forall u | u in Closure(c, root) && u in WantsGraph(c) ensures WantsGraph(c)[u] <= Closure(c, root) {
        assert WantsGraph(c)[u] <= PullGraph(c)[u];
        OneMoreHop(PullGraph(c), root, u);
      }
      WalkStays(WantsGraph(c), Closure(c, root), root, x, n);
    }
  }

  lemma OneMoreHop(g: Graph, root: string, u: string)
    requires u in Reachable(g, root)
    ensures forall d | d in g[u] && d in g :: d in Reachable(g, root)
  {
    var n: nat :| Walk(g, root, u, n);
    forall d | d in g[u] && d in g ensures d in Reachable(g, root) {
      WalkExtend(g, root, u, d, n);
    }
  }

  /** The code starts what the documentation says iff every program that comes up over `wants` has
      all its known `after` targets among those that come up over `wants`. */
  lemma AsDocumentedIff(c: Configs, root: string)
    requires root in c
    ensures Closure(c, root) == Documented(c, root) <==>
            forall u | u in Documented(c, root) :: AfterGraph(c)[u] <= Documented(c, root)
  {
    DocumentedInClosure(c, root);
    var documented := Documented(c, root);
    if Closure(c, root) == documented {
      forall u, d | u in documented && d in AfterGraph(c)[u] ensures d in documented {
        AfterPullsIn(c, root, u, d);
      }
    }
    if forall u | u in documented :: AfterGraph(c)[u] <= documented {
      ClosedUnderPulls(c, root);
      forall x | x in Closure(c, root) ensures x in documented {
        var n: nat :| Walk(PullGraph(c), root, x, n);
        WalkStays(PullGraph(c), documented, root, x, n);
      }
    }
  }

  lemma ClosedUnderPulls(c: Configs, root: string)
    requires root in c
    requires forall u | u in Documented(c, root) :: AfterGraph(c)[u] <= Documented(c, root)
    ensures forall u | u in Documented(c, root) :: PullGraph(c)[u] <= Documented(c, root)
  {
    forall u, d | u in Documented(c, root) && d in PullGraph(c)[u] ensures d in Documented(c, root) {
      if d in AfterGraph(c)[u] {
      } else {
        OneMoreHop(WantsGraph(c), root, u);
        assert d in WantsGraph(c)[u];
      }
    }
  }

  /** A program that lists nothing is started alone. */
  lemma AloneWithoutDeps(c: Configs, root: string)
    requires root in c && DepsOf(c, root) == []
    ensures StartOrder(c, root) == [root]
  {
    ClosureAlone(c, root);
    OrderListsClosureOnce(c, root);
    ListsOnly(StartOrder(c, root), root);
  }

  lemma ClosureAlone(c: Configs, root: string)
    requires root in c && DepsOf(c, root) == []
    ensures Closure(c, root) == {root}
  {
    var g := PullGraph(c);
    forall x | x in Closure(c, root) ensures x == root {
      var n: nat :| Walk(g, root, x, n);
      assert g[root] == {};
    }
    assert Walk(g, root, root, 0);
  }

  lemma ListsOnly(s: seq<string>, x: string)
    requires Distinct(s) && Elems(s) == {x}
    ensures s == [x]
  {
    DistinctSize(s);
    assert s[0] in Elems(s);
  }
}
