/** Kahn's algorithm with a FIFO ready queue over the discovered programs
    (cirond/src/process.rs, second half of `resolve_start_order`).
    `g` is the `after` graph and `disc` the discovered list, closed under it. */
module KahnOrder {
  import opened Sequences
  import opened Graphs
  import opened Worklist

  ghost predicate Scope(g: Graph, disc: seq<string>) {
    Distinct(disc) && forall u | u in disc :: u in g && g[u] <= Elems(disc)
  }

  /** Programs whose last outstanding target is `x`, given that `done` (which ends with `x`) is emitted. */
  ghost function Unblocked(g: Graph, disc: seq<string>, done: seq<string>, x: string): set<string> {
    set u | u in disc && u in g && x in g[u] && g[u] <= Elems(done)
  }

  ghost function Unordered(g: Graph, disc: seq<string>): set<string> {
    set u | u in disc && u in g && g[u] == {}
  }

  /** Everything that has entered the ready queue once `done` has been emitted. */
  ghost function Readied(g: Graph, disc: seq<string>, done: seq<string>): seq<string> {
    if done == [] then Keep(disc, Unordered(g, disc))
    else
      Readied(g, disc, done[..|done| - 1]) + Keep(disc, Unblocked(g, disc, done, done[|done| - 1]))
  }

  ghost function Readying(g: Graph, disc: seq<string>): Fill {
    (done: seq<string>) => Readied(g, disc, done)
  }

  /** `prefix` is what the ready queue emits before it runs empty. */
  ghost predicate Emits(g: Graph, disc: seq<string>, prefix: seq<string>) {
    Complete(Readying(g, disc), prefix)
  }

  lemma ReadiedSnoc(g: Graph, disc: seq<string>, done: seq<string>, x: string)
    ensures Readied(g, disc, done + [x])
         == Readied(g, disc, done) + Keep(disc, Unblocked(g, disc, done + [x], x))
  {
    assert (done + [x])[..|done|] == done;
  }

  lemma ReadyingAppends(g: Graph, disc: seq<string>)
    ensures Appends(Readying(g, disc))
  {
    forall done: seq<string>, x: string
      ensures Readying(g, disc)(done) <= Readying(g, disc)(done + [x])
    {
      ReadiedSnoc(g, disc, done, x);
    }
  }

  /** Exactly the programs whose targets are all emitted have become ready (`done` without repeats,
      each of its entries ready when emitted). */
  lemma {:induction false} ReadiedMembers(g: Graph, disc: seq<string>, done: seq<string>)
    ensures Elems(Readied(g, disc, done)) == set u | u in disc && u in g && g[u] <= Elems(done)
  {
    if done == [] {
      KeepElems(disc, Unordered(g, disc));
      assert Elems(done) == {};
    } else {
      var front, last := done[..|done| - 1], done[|done| - 1];
      assert done == front + [last];
      assert Elems(done) == Elems(front) + {last};
      ReadiedMembers(g, disc, front);
      var newly := Unblocked(g, disc, done, last);
      KeepElems(disc, newly);
      assert Elems(Readied(g, disc, done)) == Elems(Readied(g, disc, front)) + Elems(Keep(disc, newly));
      assert Elems(Keep(disc, newly)) == Elems(disc) * newly;
      forall u
        ensures u in Elems(Readied(g, disc, done)) <==> u in disc && u in g && g[u] <= Elems(done)
      {
        assert u in disc <==> u in Elems(disc);
        if u in disc && u in g && g[u] <= Elems(done) && last !in g[u] {
          assert g[u] <= Elems(front);
        }
      }
    }
  }

  lemma {:induction false} ReadiedDistinct(g: Graph, disc: seq<string>, done: seq<string>)
    requires Distinct(disc) && Distinct(done)
    ensures Distinct(Readied(g, disc, done))
  {
    if done == [] {
      KeepElems(disc, Unordered(g, disc));
    } else {
      var front, last := done[..|done| - 1], done[|done| - 1];
      assert last !in Elems(front);
      ReadiedDistinct(g, disc, front);
      ReadiedMembers(g, disc, front);
      var newly := Unblocked(g, disc, done, last);
      KeepElems(disc, newly);
      var before, added := Readied(g, disc, front), Keep(disc, newly);
      assert forall x | x in Elems(added) :: x in newly && !(g[x] <= Elems(front));
      DistinctConcat(before, added);
    }
  }

  /** Served in FIFO order, each program becomes ready at most once. */
  lemma {:induction false} ServedDistinct(g: Graph, disc: seq<string>, done: seq<string>)
    requires Distinct(disc) && Served(Readying(g, disc), done)
    ensures Distinct(done)
    ensures Distinct(Readied(g, disc, done))
    ensures Elems(Readied(g, disc, done)) <= Elems(disc)
    ensures |Readied(g, disc, done)| <= |disc|
  {
    if done != [] {
      var n := |done| - 1;
      ServedFront(Readying(g, disc), done, n);
      ServedDistinct(g, disc, done[..n]);
      assert ServedAt(Readying(g, disc), done, n);
      assert done[..n + 1] == done;
      assert done <= Readied(g, disc, done[..n]);
    }
    ReadiedDistinct(g, disc, done);
    ReadiedMembers(g, disc, done);
    DistinctSize(Readied(g, disc, done));
    DistinctSize(disc);
    SubsetSize(Elems(Readied(g, disc, done)), Elems(disc));
  }

  /** The ready queue runs empty, with exactly one possible outcome. */
  lemma EmissionExists(g: Graph, disc: seq<string>) returns (prefix: seq<string>)
    requires Distinct(disc)
    ensures Emits(g, disc, prefix)
    ensures forall other | Emits(g, disc, other) :: other == prefix
  {
    var fill := Readying(g, disc);
    ReadyingAppends(g, disc);
    forall s | Served(fill, s) ensures |fill(s)| <= |disc| {
      ServedDistinct(g, disc, s);
    }
    prefix := RunsEmpty(fill, [], |disc|);
    forall other | Emits(g, disc, other) ensures other == prefix {
      Unique(fill, other, prefix);
    }
  }

  /** Every emitted program comes after all its targets; nothing is emitted twice; and whatever
      has all its targets emitted is emitted. */
  lemma EmittedFacts(g: Graph, disc: seq<string>, prefix: seq<string>)
    requires Scope(g, disc) && Emits(g, disc, prefix)
    ensures Distinct(prefix) && Elems(prefix) <= Elems(disc)
    ensures forall u | u in disc :: u in prefix <==> g[u] <= Elems(prefix)
    ensures forall i | 0 <= i < |prefix| :: prefix[i] in g && g[prefix[i]] <= Elems(prefix[..i])
  {
    ServedDistinct(g, disc, prefix);
    ReadiedMembers(g, disc, prefix);
    forall i | 0 <= i < |prefix| ensures prefix[i] in g && g[prefix[i]] <= Elems(prefix[..i]) {
      ReadiedMembers(g, disc, prefix[..i]);
      assert ServedAt(Readying(g, disc), prefix, i);
      assert prefix[..i + 1][i] in Elems(Readied(g, disc, prefix[..i]));
    }
    forall u | u in disc ensures u in prefix <==> g[u] <= Elems(prefix) {
      assert u in prefix <==> u in Elems(prefix);
    }
  }

  /** A target of an emitted program was emitted before it. */
  lemma TargetEmittedBefore(g: Graph, disc: seq<string>, prefix: seq<string>, i: nat, x: string) returns (k: nat)
    requires Scope(g, disc) && Emits(g, disc, prefix)
    requires i < |prefix| && prefix[i] in g && x in g[prefix[i]]
    ensures k < i && prefix[k] == x
  {
    EmittedFacts(g, disc, prefix);
    k := IndexOf(prefix[..i], x);
  }

  /** Walking from an emitted program goes strictly back in the emitted list. */
  lemma {:induction false} WalkGoesBack(g: Graph, disc: seq<string>, prefix: seq<string>, i: nat, v: string, n: nat)
    returns (j: nat)
    requires Scope(g, disc) && Emits(g, disc, prefix)
    requires i < |prefix| && Walk(g, prefix[i], v, n)
    ensures j < |prefix| && prefix[j] == v && j + n <= i
    decreases n
  {
    if n == 0 {
      j := i;
    } else {
      var x :| x in g[prefix[i]] && Walk(g, x, v, n - 1);
      var k := TargetEmittedBefore(g, disc, prefix, i, x);
      j := WalkGoesBack(g, disc, prefix, k, v, n - 1);
    }
  }

  lemma EmittedAvoidsCycles(g: Graph, disc: seq<string>, prefix: seq<string>, i: nat)
    requires Scope(g, disc) && Emits(g, disc, prefix) && i < |prefix|
    ensures !LeadsIntoCycle(g, prefix[i])
  {
    if LeadsIntoCycle(g, prefix[i]) {
      var v :| Reaches(g, prefix[i], v) && OnCycle(g, v);
      var n: nat :| Walk(g, prefix[i], v, n);
      var m: nat :| m > 0 && Walk(g, v, v, m);
      var j := WalkGoesBack(g, disc, prefix, i, v, n);
      // the positions of v must shrink forever
      CycleGoesBack(g, disc, prefix, j, m);
    }
  }

  lemma {:induction false} CycleGoesBack(g: Graph, disc: seq<string>, prefix: seq<string>, j: nat, m: nat)
    requires Scope(g, disc) && Emits(g, disc, prefix)
    requires j < |prefix| && m > 0
    ensures !Walk(g, prefix[j], prefix[j], m)
  {
    if Walk(g, prefix[j], prefix[j], m) {
      var k := WalkGoesBack(g, disc, prefix, j, prefix[j], m);
      CycleGoesBack(g, disc, prefix, k, m);
    }
  }

  lemma LeftOutLeadsIntoCycle(g: Graph, disc: seq<string>, prefix: seq<string>, u: string)
    requires Scope(g, disc) && Emits(g, disc, prefix) && u in Elems(disc) - Elems(prefix)
    ensures LeadsIntoCycle(g, u)
  {
    EmittedFacts(g, disc, prefix);
    var stuck := Elems(disc) - Elems(prefix);
    forall v | v in stuck ensures v in g && g[v] * stuck != {} {
      assert v in disc && v !in prefix;
      var d :| d in g[v] && d !in Elems(prefix);
      assert d in g[v] * stuck;
    }
    EndlessLeadsIntoCycle(g, stuck, u);
  }

  /** The emitted programs are exactly those from which no `after` walk leads into a cycle. */
  lemma EmittedIffNoCycleAhead(g: Graph, disc: seq<string>, prefix: seq<string>, u: string)
    requires Scope(g, disc) && Emits(g, disc, prefix) && u in disc
    ensures u in prefix <==> !LeadsIntoCycle(g, u)
  {
    if u in prefix {
      var i :| 0 <= i < |prefix| && prefix[i] == u;
      EmittedAvoidsCycles(g, disc, prefix, i);
    } else {
      LeftOutLeadsIntoCycle(g, disc, prefix, u);
    }
  }

  /** The ready queue emits everything iff the discovered programs contain no `after` cycle. */
  lemma EmitsAllIffAcyclic(g: Graph, disc: seq<string>, prefix: seq<string>)
    requires Scope(g, disc) && Emits(g, disc, prefix)
    ensures |prefix| == |disc| <==> Acyclic(g, Elems(disc))
  {
    EmittedFacts(g, disc, prefix);
    DistinctSize(prefix);
    DistinctSize(disc);
    SubsetSize(Elems(prefix), Elems(disc));
    if |prefix| == |disc| {
      forall v | v in Elems(disc) ensures !OnCycle(g, v) {
        assert v in Elems(prefix);
        EmittedIffNoCycleAhead(g, disc, prefix, v);
        assert Walk(g, v, v, 0);
      }
    }
    if Acyclic(g, Elems(disc)) {
      forall u | u in Elems(disc) ensures u in Elems(prefix) {
        EmittedIffNoCycleAhead(g, disc, prefix, u);
        AcyclicHasNoCycleAhead(g, disc, u);
      }
      assert Elems(prefix) == Elems(disc);
    }
  }

  lemma AcyclicHasNoCycleAhead(g: Graph, disc: seq<string>, u: string)
    requires Scope(g, disc) && Acyclic(g, Elems(disc)) && u in disc
    ensures !LeadsIntoCycle(g, u)
  {
    if LeadsIntoCycle(g, u) {
      var v :| Reaches(g, u, v) && OnCycle(g, v);
      var n: nat :| Walk(g, u, v, n);
      WalkStays(g, Elems(disc), u, v, n);
    }
  }

  /** The shortest emitted part that contains every target of `prefix[j]`. */
  lemma ShortestCover(targets: set<string>, prefix: seq<string>, j: nat) returns (n: nat)
    requires j <= |prefix| && targets <= Elems(prefix[..j])
    ensures n <= j && targets <= Elems(prefix[..n])
    ensures n > 0 ==> prefix[n - 1] in targets && !(targets <= Elems(prefix[..n - 1]))
  {
    n := 0;
    while !(targets <= Elems(prefix[..n]))
      invariant n <= j
      invariant n > 0 ==> !(targets <= Elems(prefix[..n - 1]))
      decreases j - n
    {
      n := n + 1;
    }
    if n > 0 {
      assert prefix[..n] == prefix[..n - 1] + [prefix[n - 1]];
      assert Elems(prefix[..n]) == Elems(prefix[..n - 1]) + {prefix[n - 1]};
    }
  }

  /** First in, first out: once `prefix[j]` is ready, so is everything emitted before it. */
  lemma ReadyBefore(g: Graph, disc: seq<string>, prefix: seq<string>, i: nat, j: nat, n: nat)
    requires Scope(g, disc) && Emits(g, disc, prefix)
    requires i < j < |prefix| && n <= |prefix|
    requires prefix[j] in g && g[prefix[j]] <= Elems(prefix[..n])
    ensures prefix[i] in g && g[prefix[i]] <= Elems(prefix[..n])
  {
    ReadyingAppends(g, disc);
    FillGrows(Readying(g, disc), prefix, n);
    var list := Readied(g, disc, prefix[..n]);
    assert list <= prefix;
    ReadiedMembers(g, disc, prefix[..n]);
    EmittedFacts(g, disc, prefix);
    assert prefix[j] in Elems(prefix);
    var at := IndexOf(list, prefix[j]);
    assert at == j;
    assert list[i] in Elems(list);
  }

  /** The target whose emission released `prefix[j]`: by then everything emitted before `j`
      had all its targets emitted too. */
  lemma ReleasedBy(g: Graph, disc: seq<string>, prefix: seq<string>, i: nat, j: nat) returns (q: nat)
    requires Scope(g, disc) && Emits(g, disc, prefix)
    requires i < j < |prefix| && prefix[i] in g && g[prefix[i]] != {}
    ensures prefix[j] in g && q < j && prefix[q] in g[prefix[j]]
    ensures g[prefix[i]] <= Elems(prefix[..q + 1])
  {
    TargetsBefore(g, disc, prefix, j);
    var n := ShortestCover(g[prefix[j]], prefix, j);
    ReadyBefore(g, disc, prefix, i, j, n);
    NothingBeforeFirst(prefix);
    q := n - 1;
  }

  lemma NothingBeforeFirst(prefix: seq<string>)
    ensures Elems(prefix[..0]) == {}
  {
  }

  lemma TargetsBefore(g: Graph, disc: seq<string>, prefix: seq<string>, j: nat)
    requires Scope(g, disc) && Emits(g, disc, prefix) && j < |prefix|
    ensures prefix[j] in g && g[prefix[j]] <= Elems(prefix[..j])
  {
    EmittedFacts(g, disc, prefix);
  }

  /** The emitted list comes out in layers: any `after` chain ahead of an earlier program is
      matched, in length, by one ahead of every later program. */
  lemma {:induction false} EmittedByDepth(g: Graph, disc: seq<string>, prefix: seq<string>, i: nat, j: nat, n: nat)
    requires Scope(g, disc) && Emits(g, disc, prefix)
    requires i < j < |prefix| && ChainFrom(g, prefix[i], n)
    ensures ChainFrom(g, prefix[j], n)
    decreases n
  {
    if n == 0 {
      assert Walk(g, prefix[j], prefix[j], 0);
    } else {
      var d := FirstHop(g, prefix[i], n);
      var q := ReleasedBy(g, disc, prefix, i, j);
      var p := IndexOf(prefix[..q + 1], d);
      if p < q {
        EmittedByDepth(g, disc, prefix, p, q, n - 1);
      }
      var v :| Walk(g, prefix[q], v, n - 1);
      assert Walk(g, prefix[j], v, n);
    }
  }

  lemma FirstHop(g: Graph, u: string, n: nat) returns (d: string)
    requires n > 0 && ChainFrom(g, u, n)
    ensures u in g && d in g[u] && ChainFrom(g, d, n - 1)
  {
    var v :| Walk(g, u, v, n);
    d :| d in g[u] && Walk(g, d, v, n - 1);
  }

  /** Depth is well defined along the emitted list: no chain is longer than the position. */
  lemma EmittedDepthBounded(g: Graph, disc: seq<string>, prefix: seq<string>, i: nat, n: nat)
    requires Scope(g, disc) && Emits(g, disc, prefix)
    requires i < |prefix| && ChainFrom(g, prefix[i], n)
    ensures n <= i
  {
    var v :| Walk(g, prefix[i], v, n);
    var j := WalkGoesBack(g, disc, prefix, i, v, n);
  }
}
