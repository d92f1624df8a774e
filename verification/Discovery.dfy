/** Breadth-first discovery of everything that must come up with a program
    (cirond/src/process.rs, first loop of `resolve_start_order`). */
module Discovery {
  import opened Sequences
  import opened Graphs
  import opened Configuration
  import opened Worklist

  /** The discovered list after scanning `deps`: known names not seen before join at the tail. */
  ghost function Admit(c: Configs, found: seq<string>, deps: seq<string>): seq<string> {
    if deps == [] then found
    else
      var front := Admit(c, found, deps[..|deps| - 1]);
      var d := deps[|deps| - 1];
      if d in c && d !in front then front + [d] else front
  }

  /** The discovered list once the entries of `done` have been taken off the queue. */
  ghost function Found(c: Configs, root: string, done: seq<string>): seq<string> {
    if done == [] then [root]
    else Admit(c, Found(c, root, done[..|done| - 1]), DepsOf(c, done[|done| - 1]))
  }

  ghost function Finding(c: Configs, root: string): Fill {
    (done: seq<string>) => Found(c, root, done)
  }

  /** `disc` is the complete breadth-first discovery from `root`. */
  ghost predicate Discovers(c: Configs, root: string, disc: seq<string>) {
    Complete(Finding(c, root), disc)
  }

  lemma {:induction false} AdmitFacts(c: Configs, found: seq<string>, deps: seq<string>)
    ensures found <= Admit(c, found, deps)
    ensures Elems(Admit(c, found, deps)) == Elems(found) + (set d | d in deps && d in c)
    ensures Distinct(found) ==> Distinct(Admit(c, found, deps))
  {
    if deps != [] {
      var front, d := deps[..|deps| - 1], deps[|deps| - 1];
      AdmitFacts(c, found, front);
      assert deps == front + [d];
      var r := Admit(c, found, front);
      assert Elems(r + [d]) == Elems(r) + {d};
      assert d in r <==> d in Elems(r);
    }
  }

  lemma FindingAppends(c: Configs, root: string)
    ensures Appends(Finding(c, root))
  {
    forall done: seq<string>, x: string
      ensures Finding(c, root)(done) <= Finding(c, root)(done + [x])
    {
      assert (done + [x])[..|done|] == done;
      AdmitFacts(c, Found(c, root, done), DepsOf(c, x));
    }
  }

  /** Everything known that the entries of `done` list. */
  ghost function ListedBy(c: Configs, done: seq<string>): set<string> {
    set x | x in c && exists p :: 0 <= p < |done| && x in DepsOf(c, done[p])
  }

  lemma ListedBySnoc(c: Configs, done: seq<string>, u: string)
    ensures ListedBy(c, done + [u]) == ListedBy(c, done) + (set d | d in DepsOf(c, u) && d in c)
  {
    var more := done + [u];
    forall x ensures x in ListedBy(c, more) <==> x in ListedBy(c, done) || (x in DepsOf(c, u) && x in c) {
      ListedSnoc(c, done, u, x);
    }
  }

  lemma ListedSnoc(c: Configs, done: seq<string>, u: string, x: string)
    ensures x in ListedBy(c, done + [u]) <==> x in ListedBy(c, done) || (x in DepsOf(c, u) && x in c)
  {
    var more := done + [u];
    assert more[|done|] == u;
    assert forall p | 0 <= p < |done| :: more[p] == done[p];
  }

  lemma {:induction false} FoundElems(c: Configs, root: string, done: seq<string>)
    ensures Distinct(Found(c, root, done))
    ensures [root] <= Found(c, root, done)
    ensures Elems(Found(c, root, done)) == {root} + ListedBy(c, done)
  {
    if done == [] {
      assert ListedBy(c, done) == {};
    } else {
      var front, last := done[..|done| - 1], done[|done| - 1];
      assert done == front + [last];
      FoundElems(c, root, front);
      AdmitFacts(c, Found(c, root, front), DepsOf(c, last));
      ListedBySnoc(c, front, last);
    }
  }

  lemma FoundFacts(c: Configs, root: string, done: seq<string>)
    ensures Distinct(Found(c, root, done))
    ensures [root] <= Found(c, root, done)
    ensures forall x :: x in Found(c, root, done) <==>
                        x == root || exists p | 0 <= p < |done| :: done[p] in c && x in PullGraph(c)[done[p]]
  {
    FoundElems(c, root, done);
    forall x
      ensures x in Found(c, root, done) <==>
              x == root || exists p | 0 <= p < |done| :: done[p] in c && x in PullGraph(c)[done[p]]
    {
      assert x in Found(c, root, done) <==> x in Elems(Found(c, root, done));
      if x in ListedBy(c, done) {
        var p :| 0 <= p < |done| && x in DepsOf(c, done[p]);
        assert done[p] in c && x in PullGraph(c)[done[p]];
      }
    }
  }

  lemma FoundBounded(c: Configs, root: string, done: seq<string>)
    requires root in c
    ensures |Found(c, root, done)| <= |c.Keys|
  {
    FoundFacts(c, root, done);
    DistinctSize(Found(c, root, done));
    SubsetSize(Elems(Found(c, root, done)), c.Keys);
  }

  /** Discovery ends, with exactly one possible outcome. */
  lemma DiscoveryExists(c: Configs, root: string) returns (disc: seq<string>)
    requires root in c
    ensures Discovers(c, root, disc)
    ensures forall other | Discovers(c, root, other) :: other == disc
  {
    var fill := Finding(c, root);
    FindingAppends(c, root);
    forall s | Served(fill, s) ensures |fill(s)| <= |c.Keys| {
      FoundBounded(c, root, s);
    }
    disc := RunsEmpty(fill, [], |c.Keys|);
    forall other | Discovers(c, root, other) ensures other == disc {
      Unique(fill, other, disc);
    }
  }

  /** What was in the queue when entry `j` was taken is the root or was listed by an earlier entry. */
  lemma FoundEarlier(c: Configs, root: string, disc: seq<string>, j: nat)
    requires Discovers(c, root, disc) && j < |disc|
    ensures disc[j] == root || exists p | 0 <= p < j :: disc[p] in c && disc[j] in PullGraph(c)[disc[p]]
  {
    var done := disc[..j];
    assert ServedAt(Finding(c, root), disc, j);
    assert disc[..j + 1][j] == disc[j];
    FoundFacts(c, root, done);
    assert disc[j] in Found(c, root, done);
  }

  lemma {:induction false} FoundReachable(c: Configs, root: string, disc: seq<string>, j: nat)
    requires root in c && Discovers(c, root, disc) && j < |disc|
    ensures disc[j] in Closure(c, root)
  {
    FoundEarlier(c, root, disc, j);
    var g := PullGraph(c);
    if disc[j] == root {
      assert Walk(g, root, root, 0);
    } else {
      var p :| 0 <= p < j && disc[p] in c && disc[j] in g[disc[p]];
      FoundReachable(c, root, disc, p);
      var n: nat :| Walk(g, root, disc[p], n);
      WalkExtend(g, root, disc[p], disc[j], n);
    }
  }

  /** Everything an entry lists has been discovered. */
  lemma DiscoveryClosed(c: Configs, root: string, disc: seq<string>)
    requires Discovers(c, root, disc)
    ensures forall u | u in disc && u in c :: PullGraph(c)[u] <= Elems(disc)
  {
    FoundFacts(c, root, disc);
    forall u, v | u in disc && u in c && v in PullGraph(c)[u] ensures v in Elems(disc) {
      var p :| 0 <= p < |disc| && disc[p] == u;
      assert v in Found(c, root, disc);
    }
  }

  /** Discovery returns exactly the closure of the root, without duplicates, root first. */
  lemma DiscoveryIsClosure(c: Configs, root: string, disc: seq<string>)
    requires root in c && Discovers(c, root, disc)
    ensures Elems(disc) == Closure(c, root)
    ensures Distinct(disc)
    ensures |disc| > 0 && disc[0] == root
  {
    FoundFacts(c, root, disc);
    DiscoveryClosed(c, root, disc);
    var g := PullGraph(c);
    forall x | x in Closure(c, root) ensures x in Elems(disc) {
      var n: nat :| Walk(g, root, x, n);
      assert disc[0] in Elems(disc);
      WalkStays(g, Elems(disc), root, x, n);
    }
    forall x | x in Elems(disc) ensures x in Closure(c, root) {
      var j :| 0 <= j < |disc| && disc[j] == x;
      FoundReachable(c, root, disc, j);
    }
  }

  /** `b` is reached from `a` in exactly `n` hops over the pull graph. */
  ghost predicate Hops(c: Configs, a: string, b: string, n: nat) {
    Walk(PullGraph(c), a, b, n)
  }

  ghost predicate Within(c: Configs, a: string, b: string, n: nat) {
    exists m: nat :: m <= n && Hops(c, a, b, m)
  }

  lemma WithinStep(c: Configs, a: string, b: string, d: string, n: nat)
    requires Within(c, a, b, n) && b in c && d in PullGraph(c)[b]
    ensures Within(c, a, d, n + 1)
  {
    var m: nat :| m <= n && Hops(c, a, b, m);
    WalkExtend(PullGraph(c), a, b, d, m);
    assert Hops(c, a, d, m + 1);
  }

  /** Entry `q` of the list names entry `j`. */
  ghost predicate Names(c: Configs, disc: seq<string>, q: nat, j: nat) {
    j < |disc| && q < |disc| && disc[q] in c && disc[j] in PullGraph(c)[disc[q]]
  }

  ghost predicate EntryHops(c: Configs, root: string, disc: seq<string>, j: nat, n: nat) {
    j < |disc| && Hops(c, root, disc[j], n)
  }

  ghost predicate EntryWithin(c: Configs, root: string, disc: seq<string>, j: nat, n: nat) {
    j < |disc| && Within(c, root, disc[j], n)
  }

  lemma EntryWithinSelf(c: Configs, root: string, disc: seq<string>, j: nat, n: nat)
    requires EntryHops(c, root, disc, j, n)
    ensures EntryWithin(c, root, disc, j, n)
  {
  }

  lemma EntryWithinStep(c: Configs, root: string, disc: seq<string>, p: nat, i: nat, n: nat)
    requires EntryWithin(c, root, disc, p, n) && Names(c, disc, p, i)
    ensures EntryWithin(c, root, disc, i, n + 1)
  {
    WithinStep(c, root, disc[p], disc[i], n);
  }

  /** Where the hop before a later entry leads, and who named the earlier entry no later. */
  lemma EarlierHop(c: Configs, root: string, disc: seq<string>, i: nat, j: nat, n: nat) returns (p: nat, q: nat)
    requires root in c && Discovers(c, root, disc)
    requires 0 < i < j && EntryHops(c, root, disc, j, n)
    ensures n > 0 && p <= q && Names(c, disc, p, i) && EntryHops(c, root, disc, q, n - 1)
  {
    OnlyFirstIsRoot(c, root, disc, j);
    OnlyFirstIsRoot(c, root, disc, i);
    q := PriorHop(c, root, disc, j, n);
    p := ServedBy(c, root, disc, i, j, q);
  }

  lemma RootWithin(c: Configs, root: string, disc: seq<string>, n: nat)
    requires root in c && Discovers(c, root, disc)
    ensures EntryWithin(c, root, disc, 0, n)
  {
    DiscoveryIsClosure(c, root, disc);
    assert Hops(c, root, disc[0], 0);
  }

  /** A relation between the entries of a list and numbers. */
  type Reach = (nat, nat) -> bool

  ghost predicate Prior(hops: Reach, names: Reach, i: nat, n: nat, p: nat, q: nat) {
    n > 0 && p <= q && names(p, i) && hops(q, n - 1)
  }

  /** An entry before one that is `n` hops away was named no later than by the hop before. */
  ghost predicate FirstInFirstOut(hops: Reach, names: Reach, i: nat, j: nat, n: nat) {
    0 < i < j && hops(j, n) ==> exists p: nat, q: nat :: Prior(hops, names, i, n, p, q)
  }

  /** What is named by something near is near. */
  ghost predicate NamedIsNear(within: Reach, names: Reach, p: nat, i: nat, n: nat) {
    within(p, n) && names(p, i) ==> within(i, n + 1)
  }

  ghost predicate NearAlready(hops: Reach, within: Reach, p: nat, n: nat) {
    p == 0 || hops(p, n) ==> within(p, n)
  }

  lemma {:induction false} FifoByDistance(hops: Reach, within: Reach, names: Reach, i: nat, j: nat, n: nat)
    requires forall i: nat, j: nat, n: nat :: FirstInFirstOut(hops, names, i, j, n)
    requires forall p: nat, i: nat, n: nat :: NamedIsNear(within, names, p, i, n)
    requires forall p: nat, n: nat :: NearAlready(hops, within, p, n)
    requires 0 < i < j && hops(j, n)
    ensures within(i, n)
    decreases n
  {
    assert FirstInFirstOut(hops, names, i, j, n);
    var p: nat, q: nat :| Prior(hops, names, i, n, p, q);
    if 0 < p < q {
      FifoByDistance(hops, within, names, p, q, n - 1);
    } else {
      assert NearAlready(hops, within, p, n - 1);
    }
    assert NamedIsNear(within, names, p, i, n - 1);
  }

  ghost function HopsOf(c: Configs, root: string, disc: seq<string>): Reach {
    (j: nat, n: nat) => EntryHops(c, root, disc, j, n)
  }

  ghost function NearOf(c: Configs, root: string, disc: seq<string>): Reach {
    (j: nat, n: nat) => EntryWithin(c, root, disc, j, n)
  }

  ghost function NamesOf(c: Configs, disc: seq<string>): Reach {
    (p: nat, i: nat) => Names(c, disc, p, i)
  }

  lemma DiscoveredFirst(c: Configs, root: string, disc: seq<string>, i: nat, j: nat, n: nat)
    requires root in c && Discovers(c, root, disc)
    ensures FirstInFirstOut(HopsOf(c, root, disc), NamesOf(c, disc), i, j, n)
  {
    if 0 < i < j && EntryHops(c, root, disc, j, n) {
      var p, q := EarlierHop(c, root, disc, i, j, n);
      assert NamesOf(c, disc)(p, i) && HopsOf(c, root, disc)(q, n - 1);
      assert Prior(HopsOf(c, root, disc), NamesOf(c, disc), i, n, p, q);
    }
  }

  lemma DiscoveredNear(c: Configs, root: string, disc: seq<string>, p: nat, i: nat, n: nat)
    requires root in c && Discovers(c, root, disc)
    ensures NamedIsNear(NearOf(c, root, disc), NamesOf(c, disc), p, i, n)
    ensures NearAlready(HopsOf(c, root, disc), NearOf(c, root, disc), p, n)
  {
    if EntryWithin(c, root, disc, p, n) && Names(c, disc, p, i) {
      EntryWithinStep(c, root, disc, p, i, n);
    }
    if p == 0 {
      RootWithin(c, root, disc, n);
    } else if EntryHops(c, root, disc, p, n) {
      EntryWithinSelf(c, root, disc, p, n);
    }
  }

  lemma ByDistance(c: Configs, root: string, disc: seq<string>, i: nat, j: nat, n: nat)
    requires root in c && Discovers(c, root, disc)
    requires 0 < i < j && EntryHops(c, root, disc, j, n)
    ensures EntryWithin(c, root, disc, i, n)
  {
    var hops, within, names := HopsOf(c, root, disc), NearOf(c, root, disc), NamesOf(c, disc);
    forall i: nat, j: nat, n: nat ensures FirstInFirstOut(hops, names, i, j, n) {
      DiscoveredFirst(c, root, disc, i, j, n);
    }
    forall p: nat, i: nat, n: nat ensures NamedIsNear(within, names, p, i, n) && NearAlready(hops, within, p, n) {
      DiscoveredNear(c, root, disc, p, i, n);
    }
    assert forall p: nat, n: nat :: NearAlready(hops, within, p, n) by {
      assert forall p: nat, n: nat :: NamedIsNear(within, names, p, 0, n) && NearAlready(hops, within, p, n);
    }
    FifoByDistance(hops, within, names, i, j, n);
  }

  /** Hop distance never decreases along the discovered list: whatever reaches a later entry
      in `n` hops, an earlier entry is reached in no more. */
  lemma DiscoveryByDistance(c: Configs, root: string, disc: seq<string>, i: nat, j: nat, n: nat)
    requires root in c && Discovers(c, root, disc)
    requires i < j < |disc| && Hops(c, root, disc[j], n)
    ensures Within(c, root, disc[i], n)
  {
    if i == 0 {
      RootWithin(c, root, disc, n);
    } else {
      ByDistance(c, root, disc, i, j, n);
    }
  }

  lemma OnlyFirstIsRoot(c: Configs, root: string, disc: seq<string>, j: nat)
    requires root in c && Discovers(c, root, disc) && 0 < j < |disc|
    ensures disc[j] != root
  {
    DiscoveryIsClosure(c, root, disc);
  }

  lemma PriorHop(c: Configs, root: string, disc: seq<string>, j: nat, n: nat) returns (q: nat)
    requires root in c && Discovers(c, root, disc) && j < |disc|
    requires n > 0 && Hops(c, root, disc[j], n)
    ensures q < |disc| && disc[q] in c && disc[j] in PullGraph(c)[disc[q]]
    ensures Hops(c, root, disc[q], n - 1)
  {
    var y := LastHop(c, root, disc[j], n);
    q := PositionOf(c, root, disc, y, n - 1);
  }

  lemma LastHop(c: Configs, root: string, x: string, n: nat) returns (y: string)
    requires n > 0 && Hops(c, root, x, n)
    ensures y in c && x in PullGraph(c)[y] && Hops(c, root, y, n - 1)
  {
    y := WalkLast(PullGraph(c), root, x, n);
  }

  lemma PositionOf(c: Configs, root: string, disc: seq<string>, y: string, n: nat) returns (q: nat)
    requires root in c && Discovers(c, root, disc)
    requires y in c && Hops(c, root, y, n)
    ensures q < |disc| && disc[q] == y
  {
    DiscoveryIsClosure(c, root, disc);
    assert y in Closure(c, root);
    assert y in Elems(disc);
    q :| 0 <= q < |disc| && disc[q] == y;
  }

  /** First in, first out: an entry that precedes one listed by `disc[q]` was itself listed
      by some `disc[p]` with `p` no later than `q`. */
  lemma ServedBy(c: Configs, root: string, disc: seq<string>, i: nat, j: nat, q: nat) returns (p: nat)
    requires root in c && Discovers(c, root, disc)
    requires i < j < |disc| && q < |disc| && disc[i] != root
    requires disc[q] in c && disc[j] in PullGraph(c)[disc[q]]
    ensures p <= q && disc[p] in c && disc[i] in PullGraph(c)[disc[p]]
  {
    FoundBy(c, root, disc, q);
    DiscoveryIsClosure(c, root, disc);
    NamedIsFound(c, root, disc, q, disc[j]);
    PrefixHolds(Found(c, root, disc[..q + 1]), disc, i, j);
    p := FoundName(c, root, disc, q, disc[i]);
  }

  /** What has been found when entry `q` has been taken is a first part of the list. */
  lemma FoundBy(c: Configs, root: string, disc: seq<string>, q: nat)
    requires Discovers(c, root, disc) && q < |disc|
    ensures Found(c, root, disc[..q + 1]) <= disc
  {
    FindingAppends(c, root);
    FillGrows(Finding(c, root), disc, q + 1);
  }

  lemma NamedIsFound(c: Configs, root: string, disc: seq<string>, q: nat, x: string)
    requires q < |disc| && disc[q] in c && x in PullGraph(c)[disc[q]]
    ensures x in Found(c, root, disc[..q + 1])
  {
    FoundFacts(c, root, disc[..q + 1]);
    assert disc[..q + 1][q] == disc[q];
  }

  /** Who named an entry found by then. */
  lemma FoundName(c: Configs, root: string, disc: seq<string>, q: nat, x: string) returns (p: nat)
    requires q < |disc| && x in Found(c, root, disc[..q + 1]) && x != root
    ensures p <= q && disc[p] in c && x in PullGraph(c)[disc[p]]
  {
    var done := disc[..q + 1];
    FoundFacts(c, root, done);
    p :| 0 <= p < |done| && done[p] in c && x in PullGraph(c)[done[p]];
  }

  lemma PrefixHolds(front: seq<string>, s: seq<string>, i: nat, j: nat)
    requires Distinct(s) && front <= s && i < j < |s| && s[j] in front
    ensures s[i] in front
  {
    var at :| 0 <= at < |front| && front[at] == s[j];
    assert s[at] == s[j];
    assert front[i] == s[i];
  }
}
