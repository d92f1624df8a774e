/** Directed graphs over program names: walks, reachability and cycles. */
module Graphs {
  import opened Sequences

  /** Successors of every node; only nodes with an entry count as part of the graph. */
  type Graph = map<string, set<string>>

  /** There is a walk of exactly `n` edges from `a` to `b`. */
  ghost predicate Walk(g: Graph, a: string, b: string, n: nat)
    decreases n
  {
    if n == 0 then a == b
    else a in g && exists m | m in g[a] :: Walk(g, m, b, n - 1)
  }

  ghost predicate Reaches(g: Graph, a: string, b: string) {
    exists n: nat :: Walk(g, a, b, n)
  }

  ghost function Reachable(g: Graph, a: string): set<string> {
    set x | x in g && Reaches(g, a, x)
  }

  ghost predicate OnCycle(g: Graph, v: string) {
    exists n: nat :: n > 0 && Walk(g, v, v, n)
  }

  /** Some walk from `u` (possibly empty) ends on a cycle. */
  ghost predicate LeadsIntoCycle(g: Graph, u: string) {
    exists v :: Reaches(g, u, v) && OnCycle(g, v)
  }

  ghost predicate Acyclic(g: Graph, nodes: set<string>) {
    forall v | v in nodes :: !OnCycle(g, v)
  }

  /** Some walk of exactly `n` edges leaves `u`: the longest one gives the depth of `u`. */
  ghost predicate ChainFrom(g: Graph, u: string, n: nat) {
    exists v :: Walk(g, u, v, n)
  }

  lemma {:induction false} WalkAppend(g: Graph, a: string, b: string, c: string, n: nat, m: nat)
    requires Walk(g, a, b, n) && Walk(g, b, c, m)
    ensures Walk(g, a, c, n + m)
    decreases n
  {
    if n > 0 {
      var x :| x in g[a] && Walk(g, x, b, n - 1);
      WalkAppend(g, x, b, c, n - 1, m);
      assert n + m - 1 == (n - 1) + m;
    }
  }

  lemma EdgeIsWalk(g: Graph, a: string, b: string)
    requires a in g && b in g[a]
    ensures Walk(g, a, b, 1)
  {
    assert Walk(g, b, b, 0);
  }

  lemma WalkExtend(g: Graph, a: string, b: string, c: string, n: nat)
    requires Walk(g, a, b, n) && b in g && c in g[b]
    ensures Walk(g, a, c, n + 1)
  {
    EdgeIsWalk(g, b, c);
    WalkAppend(g, a, b, c, n, 1);
  }

  /** The last edge of a non-empty walk. */
  lemma {:induction false} WalkLast(g: Graph, a: string, b: string, n: nat) returns (y: string)
    requires n > 0 && Walk(g, a, b, n)
    ensures Walk(g, a, y, n - 1) && y in g && b in g[y]
    decreases n
  {
    var x :| x in g[a] && Walk(g, x, b, n - 1);
    if n == 1 {
      y := a;
    } else {
      y := WalkLast(g, x, b, n - 1);
      assert Walk(g, x, y, n - 2);
    }
  }

  lemma {:induction false} WalkStays(g: Graph, nodes: set<string>, a: string, b: string, n: nat)
    requires forall u | u in nodes && u in g :: g[u] <= nodes
    requires a in nodes && Walk(g, a, b, n)
    ensures b in nodes
    decreases n
  {
    if n > 0 {
      var x :| x in g[a] && Walk(g, x, b, n - 1);
      WalkStays(g, nodes, x, b, n - 1);
    }
  }

  /** Reachability is transitive. */
  lemma ReachableTransitive(g: Graph, a: string, b: string)
    requires b in Reachable(g, a)
    ensures Reachable(g, b) <= Reachable(g, a)
  {
    forall x | x in Reachable(g, b) ensures x in Reachable(g, a) {
      var n: nat :| Walk(g, a, b, n);
      var m: nat :| Walk(g, b, x, m);
      WalkAppend(g, a, b, x, n, m);
    }
  }

  /** A listed chain of edges is a walk between any two of its entries. */
  lemma {:induction false} ListedWalk(g: Graph, p: seq<string>, i: nat, j: nat)
    requires i <= j < |p|
    requires forall k | 0 <= k < |p| - 1 :: p[k] in g && p[k + 1] in g[p[k]]
    ensures Walk(g, p[i], p[j], j - i)
    decreases j - i
  {
    if i < j {
      ListedWalk(g, p, i + 1, j);
    }
  }

  /** A node from which one can always move on inside a finite set leads into a cycle. */
  lemma EndlessLeadsIntoCycle(g: Graph, nodes: set<string>, u: string)
    requires u in nodes
    requires forall v | v in nodes :: v in g && g[v] * nodes != {}
    ensures LeadsIntoCycle(g, u)
  {
    var p := Wander(g, nodes, u, |nodes| + 1);
    assert Elems(p) <= nodes;
    var i, j := Pigeonhole(p, nodes);
    ListedWalk(g, p, 0, i);
    ListedWalk(g, p, i, j);
    assert Reaches(g, u, p[i]);
    assert OnCycle(g, p[i]);
  }

  lemma {:induction false} Wander(g: Graph, nodes: set<string>, u: string, n: nat) returns (p: seq<string>)
    requires n > 0 && u in nodes
    requires forall v | v in nodes :: v in g && g[v] * nodes != {}
    ensures |p| == n && p[0] == u && forall k | 0 <= k < n :: p[k] in nodes
    ensures forall k | 0 <= k < n - 1 :: p[k] in g && p[k + 1] in g[p[k]]
    decreases n
  {
    p := [u];
    if n > 1 {
      var v :| v in g[u] * nodes;
      var rest := Wander(g, nodes, v, n - 1);
      p := [u] + rest;
      forall k | 0 <= k < n - 1 ensures p[k] in g && p[k + 1] in g[p[k]] {
        if k > 0 {
          assert p[k] == rest[k - 1] && p[k + 1] == rest[(k - 1) + 1];
        }
      }
    }
  }
}
