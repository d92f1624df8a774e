/** In what order programs are discovered and started, told from the lists in the configuration and
    from positions alone: `after` entries before `wants` entries, each list as it is written, and
    programs of one release in discovery order (cirond/src/process.rs, `resolve_start_order`). */
module ListingOrder {
  import opened Wrappers
  import opened Sequences
  import opened Graphs
  import opened Configuration
  import opened Worklist
  import opened Discovery
  import opened KahnOrder
  import opened Resolution

  function Length(list: Option<seq<string>>): nat {
    if list.Some? then |list.value| else 0
  }

  /** `x` is entry `k` of what `u` lists: first the entries of `after`, then those of `wants`. */
  predicate Lists(c: Configs, u: string, k: nat, x: string) {
    u in c &&
    var ordered := Length(c[u].after);
    if k < ordered then c[u].after.value[k] == x
    else k - ordered < Length(c[u].wants) && c[u].wants.value[k - ordered] == x
  }

  ghost predicate NotListed(c: Configs, u: string, x: string) {
    forall l: nat :: !Lists(c, u, l, x)
  }

  /** Entry `p` of the list is the first to list `x`, and does so first at place `k`. */
  ghost predicate FirstListed(c: Configs, disc: seq<string>, p: nat, k: nat, x: string) {
    && p < |disc| && Lists(c, disc[p], k, x)
    && (forall l: nat | l < k :: !Lists(c, disc[p], l, x))
    && (forall q | 0 <= q < p :: NotListed(c, disc[q], x))
  }

  /** The edges, read off the configuration: the known entries of `after` order programs, those of
      `wants` are the documented pulls, and those of either pull programs in. */
  lemma GraphsOfConfig(c: Configs, u: string, d: string)
    requires u in c
    ensures u in AfterGraph(c) && u in WantsGraph(c) && u in PullGraph(c)
    ensures d in AfterGraph(c)[u] <==> d in c && c[u].after.Some? && d in c[u].after.value
    ensures d in WantsGraph(c)[u] <==> d in c && c[u].wants.Some? && d in c[u].wants.value
    ensures d in PullGraph(c)[u] <==> d in AfterGraph(c)[u] || d in WantsGraph(c)[u]
  {
  }

  lemma ListsIsDeps(c: Configs, u: string, k: nat, x: string)
    ensures Lists(c, u, k, x) <==> k < |DepsOf(c, u)| && DepsOf(c, u)[k] == x
  {
  }

  lemma NotListedIff(c: Configs, u: string, x: string)
    ensures NotListed(c, u, x) <==> x !in DepsOf(c, u)
  {
    forall l: nat ensures Lists(c, u, l, x) <==> l < |DepsOf(c, u)| && DepsOf(c, u)[l] == x {
      ListsIsDeps(c, u, l, x);
    }
    if x in DepsOf(c, u) {
      var l :| 0 <= l < |DepsOf(c, u)| && DepsOf(c, u)[l] == x;
      assert Lists(c, u, l, x);
    }
  }

  /** What has been found when entry `p` is being scanned, its place `k` included. */
  ghost function FoundAt(c: Configs, root: string, disc: seq<string>, p: nat, k: nat): seq<string>
    requires p < |disc| && k < |DepsOf(c, disc[p])|
  {
    Admit(c, Found(c, root, disc[..p]), DepsOf(c, disc[p])[..k + 1])
  }

  lemma {:induction false} AdmitGrows(c: Configs, found: seq<string>, deps: seq<string>, n: nat)
    requires n <= |deps|
    ensures Admit(c, found, deps[..n]) <= Admit(c, found, deps)
    decreases |deps|
  {
    if n == |deps| {
      assert deps[..n] == deps;
    } else {
      assert deps[..|deps| - 1][..n] == deps[..n];
      AdmitGrows(c, found, deps[..|deps| - 1], n);
    }
  }

  lemma FoundAtIsPrefix(c: Configs, root: string, disc: seq<string>, p: nat, k: nat)
    requires Discovers(c, root, disc) && p < |disc| && k < |DepsOf(c, disc[p])|
    ensures FoundAt(c, root, disc, p, k) <= disc
  {
    AdmitGrows(c, Found(c, root, disc[..p]), DepsOf(c, disc[p]), k + 1);
    FoundStep(c, root, disc, p);
    FoundBy(c, root, disc, p);
  }

  lemma FoundStep(c: Configs, root: string, disc: seq<string>, p: nat)
    requires p < |disc|
    ensures Found(c, root, disc[..p + 1]) == Admit(c, Found(c, root, disc[..p]), DepsOf(c, disc[p]))
  {
    assert disc[..p + 1][..p] == disc[..p];
  }

  /** Nobody listed it yet: it has not been found. */
  lemma NotFoundAt(c: Configs, root: string, disc: seq<string>, p: nat, k: nat, y: string)
    requires p < |disc| && k < |DepsOf(c, disc[p])| && y != root
    requires forall q | 0 <= q < p :: NotListed(c, disc[q], y)
    requires forall l: nat | l <= k :: !Lists(c, disc[p], l, y)
    ensures y !in FoundAt(c, root, disc, p, k)
  {
    var done, deps := disc[..p], DepsOf(c, disc[p])[..k + 1];
    FoundElems(c, root, done);
    AdmitFacts(c, Found(c, root, done), deps);
    forall q | 0 <= q < p ensures y !in DepsOf(c, done[q]) {
      assert done[q] == disc[q];
      NotListedIff(c, disc[q], y);
    }
    forall l: nat | l <= k ensures deps[l] != y {
      ListsIsDeps(c, disc[p], l, y);
    }
    assert y !in Elems(FoundAt(c, root, disc, p, k));
  }

  lemma IsFoundAt(c: Configs, root: string, disc: seq<string>, p: nat, k: nat, x: string)
    requires p < |disc| && x in c && Lists(c, disc[p], k, x)
    ensures k < |DepsOf(c, disc[p])| && x in FoundAt(c, root, disc, p, k)
  {
    ListsIsDeps(c, disc[p], k, x);
    var deps := DepsOf(c, disc[p])[..k + 1];
    assert deps[k] == x;
    AdmitFacts(c, Found(c, root, disc[..p]), deps);
    assert x in Elems(FoundAt(c, root, disc, p, k));
  }

  lemma InsideAndOutside(front: seq<string>, s: seq<string>, i: nat, j: nat)
    requires Distinct(s) && front <= s && i < |s| && j < |s|
    requires s[i] in front && s[j] !in front
    ensures i < j
  {
    if j <= i {
      PrefixHoldsUpTo(front, s, j, i);
    }
  }

  lemma PrefixHoldsUpTo(front: seq<string>, s: seq<string>, i: nat, j: nat)
    requires Distinct(s) && front <= s && i <= j < |s| && s[j] in front
    ensures s[i] in front
  {
    if i < j {
      PrefixHolds(front, s, i, j);
    }
  }

  /** Lexicographic order of two places. */
  predicate Earlier(p: nat, k: nat, q: nat, l: nat) {
    p < q || (p == q && k < l)
  }

  lemma ListedEarlier(c: Configs, root: string, disc: seq<string>, i: nat, p: nat, k: nat, j: nat, q: nat, l: nat)
    requires root in c && Discovers(c, root, disc)
    requires 0 < i < |disc| && 0 < j < |disc|
    requires FirstListed(c, disc, p, k, disc[i]) && FirstListed(c, disc, q, l, disc[j])
    requires Earlier(p, k, q, l)
    ensures i < j
  {
    DiscoveryIsClosure(c, root, disc);
    assert disc[i] in Elems(disc);
    IsFoundAt(c, root, disc, p, k, disc[i]);
    FoundAtIsPrefix(c, root, disc, p, k);
    assert p < q ==> NotListed(c, disc[p], disc[j]);
    NotFoundAt(c, root, disc, p, k, disc[j]);
    InsideAndOutside(FoundAt(c, root, disc, p, k), disc, i, j);
  }

  /** The discovered list is in the order in which its entries are first listed: by the earlier
      entry, and of one entry's list at the earlier place of `after` followed by `wants`. */
  lemma DiscoveredAsListed(c: Configs, root: string, i: nat, p: nat, k: nat, j: nat, q: nat, l: nat)
    requires root in c
    requires 0 < i < |DiscoveryOf(c, root)| && 0 < j < |DiscoveryOf(c, root)|
    requires FirstListed(c, DiscoveryOf(c, root), p, k, DiscoveryOf(c, root)[i])
    requires FirstListed(c, DiscoveryOf(c, root), q, l, DiscoveryOf(c, root)[j])
    ensures i < j <==> p < q || (p == q && k < l)
  {
    var disc := DiscoveryOf(c, root);
    DiscoveryIsClosure(c, root, disc);
    if Earlier(p, k, q, l) {
      ListedEarlier(c, root, disc, i, p, k, j, q, l);
    } else if Earlier(q, l, p, k) {
      ListedEarlier(c, root, disc, j, q, l, i, p, k);
    } else {
      assert disc[i] == disc[j];
    }
  }

  /** Everything discovered besides the root was first listed somewhere, by an earlier entry. */
  lemma FirstListedBefore(c: Configs, root: string, i: nat) returns (p: nat, k: nat)
    requires root in c && 0 < i < |DiscoveryOf(c, root)|
    ensures p < i && FirstListed(c, DiscoveryOf(c, root), p, k, DiscoveryOf(c, root)[i])
  {
    var disc := DiscoveryOf(c, root);
    var at := Lister(c, root, disc, i);
    p := FirstLister(c, disc, at, disc[i]);
    k := FirstPlace(c, disc[p], disc[i]);
  }

  lemma Lister(c: Configs, root: string, disc: seq<string>, i: nat) returns (at: nat)
    requires root in c && Discovers(c, root, disc) && 0 < i < |disc|
    ensures at < i && !NotListed(c, disc[at], disc[i])
  {
    OnlyFirstIsRoot(c, root, disc, i);
    FoundEarlier(c, root, disc, i);
    at :| 0 <= at < i && disc[at] in c && disc[i] in PullGraph(c)[disc[at]];
    NotListedIff(c, disc[at], disc[i]);
  }

  lemma FirstLister(c: Configs, disc: seq<string>, at: nat, x: string) returns (p: nat)
    requires at < |disc| && !NotListed(c, disc[at], x)
    ensures p <= at && !NotListed(c, disc[p], x) && forall q | 0 <= q < p :: NotListed(c, disc[q], x)
  {
    p := 0;
    while NotListed(c, disc[p], x)
      invariant p <= at
      invariant forall q | 0 <= q < p :: NotListed(c, disc[q], x)
      decreases at - p
    {
      p := p + 1;
    }
  }

  lemma FirstPlace(c: Configs, u: string, x: string) returns (k: nat)
    requires !NotListed(c, u, x)
    ensures Lists(c, u, k, x) && forall l: nat | l < k :: !Lists(c, u, l, x)
  {
    var at: nat :| Lists(c, u, at, x);
    k := 0;
    while !Lists(c, u, k, x)
      invariant k <= at
      invariant forall l: nat | l < k :: !Lists(c, u, l, x)
      decreases at - k
    {
      k := k + 1;
    }
  }

  // ---------------------------------------------------------------- emission

  /** The first `n` emitted programs are the fewest that hold every target of `u`. */
  ghost predicate ReleasedAt(g: Graph, prefix: seq<string>, n: nat, u: string) {
    && n <= |prefix| && u in g && g[u] <= Elems(prefix[..n])
    && (n > 0 ==> !(g[u] <= Elems(prefix[..n - 1])))
  }

  lemma {:induction false} NotReleasedBefore(g: Graph, prefix: seq<string>, n: nat, m: nat, u: string)
    requires ReleasedAt(g, prefix, m, u) && n < m
    ensures !(g[u] <= Elems(prefix[..n]))
  {
    assert Elems(prefix[..n]) <= Elems(prefix[..m - 1]);
  }

  lemma ReadiedIsPrefix(g: Graph, disc: seq<string>, prefix: seq<string>, n: nat)
    requires Emits(g, disc, prefix) && n <= |prefix|
    ensures Readied(g, disc, prefix[..n]) <= prefix
  {
    ReadyingAppends(g, disc);
    FillGrows(Readying(g, disc), prefix, n);
  }

  lemma ReadiedIff(g: Graph, disc: seq<string>, done: seq<string>, u: string)
    ensures u in Readied(g, disc, done) <==> u in disc && u in g && g[u] <= Elems(done)
  {
    ReadiedMembers(g, disc, done);
    assert u in Readied(g, disc, done) <==> u in Elems(Readied(g, disc, done));
  }

  lemma EarlierRelease(g: Graph, disc: seq<string>, prefix: seq<string>, i: nat, n: nat, j: nat, m: nat)
    requires Scope(g, disc) && Emits(g, disc, prefix) && i < |prefix| && j < |prefix|
    requires ReleasedAt(g, prefix, n, prefix[i]) && ReleasedAt(g, prefix, m, prefix[j]) && n < m
    ensures i < j
  {
    EmittedFacts(g, disc, prefix);
    assert prefix[i] in Elems(prefix);
    ReadiedIsPrefix(g, disc, prefix, n);
    ReadiedIff(g, disc, prefix[..n], prefix[i]);
    ReadiedIff(g, disc, prefix[..n], prefix[j]);
    NotReleasedBefore(g, prefix, n, m, prefix[j]);
    InsideAndOutside(Readied(g, disc, prefix[..n]), prefix, i, j);
  }

  /** The programs that become ready with emission `n`. */
  ghost function ReleasedWith(g: Graph, disc: seq<string>, prefix: seq<string>, n: nat): set<string>
    requires n <= |prefix|
  {
    if n == 0 then Unordered(g, disc) else Unblocked(g, disc, prefix[..n], prefix[n - 1])
  }

  lemma ReleasedTogether(g: Graph, disc: seq<string>, prefix: seq<string>, n: nat, u: string)
    requires ReleasedAt(g, prefix, n, u) && u in disc
    ensures u in ReleasedWith(g, disc, prefix, n)
  {
    if n > 0 {
      TakeSnoc(prefix, n - 1);
      SnocElems(prefix[..n - 1], prefix[n - 1]);
    }
  }

  /** They stand in the emitted list as one block, in discovery order. */
  lemma ReleasedBlock(g: Graph, disc: seq<string>, prefix: seq<string>, n: nat) returns (front: seq<string>)
    requires Emits(g, disc, prefix) && n <= |prefix|
    ensures front + Keep(disc, ReleasedWith(g, disc, prefix, n)) <= prefix
  {
    ReadiedIsPrefix(g, disc, prefix, n);
    if n == 0 {
      front := [];
      assert front + Keep(disc, Unordered(g, disc)) == Readied(g, disc, prefix[..0]);
    } else {
      front := Readied(g, disc, prefix[..n - 1]);
      TakeSnoc(prefix, n - 1);
      ReadiedSnoc(g, disc, prefix[..n - 1], prefix[n - 1]);
    }
  }

  lemma BlockKeepsOrder(disc: seq<string>, keep: set<string>, front: seq<string>, prefix: seq<string>,
                        a: nat, i: nat, b: nat, j: nat)
    requires Distinct(prefix) && front + Keep(disc, keep) <= prefix
    requires a < b < |disc| && i < |prefix| && j < |prefix|
    requires disc[a] == prefix[i] && disc[b] == prefix[j]
    requires disc[a] in keep && disc[b] in keep
    ensures i < j
  {
    KeepOrder(disc, keep, a, b);
    var s, t := PairAfter(front, Keep(disc, keep), disc[a], disc[b]);
    assert prefix[s] == prefix[i] && prefix[t] == prefix[j];
  }

  lemma SameRelease(g: Graph, disc: seq<string>, prefix: seq<string>, i: nat, a: nat, j: nat, b: nat, n: nat)
    requires Scope(g, disc) && Emits(g, disc, prefix) && i < |prefix| && j < |prefix|
    requires ReleasedAt(g, prefix, n, prefix[i]) && ReleasedAt(g, prefix, n, prefix[j])
    requires a < b < |disc| && disc[a] == prefix[i] && disc[b] == prefix[j]
    ensures i < j
  {
    EmittedFacts(g, disc, prefix);
    ReleasedTogether(g, disc, prefix, n, disc[a]);
    ReleasedTogether(g, disc, prefix, n, disc[b]);
    var front := ReleasedBlock(g, disc, prefix, n);
    BlockKeepsOrder(disc, ReleasedWith(g, disc, prefix, n), front, prefix, a, i, b, j);
  }

  /** The emitted list is in the order of release, and within one release in discovery order. */
  lemma EmittedAsReleased(g: Graph, disc: seq<string>, prefix: seq<string>,
                          i: nat, n: nat, a: nat, j: nat, m: nat, b: nat)
    requires Scope(g, disc) && Emits(g, disc, prefix) && i < |prefix| && j < |prefix|
    requires ReleasedAt(g, prefix, n, prefix[i]) && ReleasedAt(g, prefix, m, prefix[j])
    requires a < |disc| && b < |disc| && disc[a] == prefix[i] && disc[b] == prefix[j]
    ensures i < j <==> n < m || (n == m && a < b)
  {
    EmittedFacts(g, disc, prefix);
    if n < m {
      EarlierRelease(g, disc, prefix, i, n, j, m);
    } else if m < n {
      EarlierRelease(g, disc, prefix, j, m, i, n);
    } else if a < b {
      SameRelease(g, disc, prefix, i, a, j, b, n);
    } else if b < a {
      SameRelease(g, disc, prefix, j, b, i, a, n);
    } else {
      assert prefix[i] == prefix[j];
    }
  }

  /** The start order up to the first program blocked by a cycle: by the moment the last known
      `after` target is placed, and for programs released at one moment by discovery. */
  lemma SortedAsReleased(c: Configs, root: string, i: nat, n: nat, a: nat, j: nat, m: nat, b: nat)
    requires root in c && i < |SortedPart(c, root)| && j < |SortedPart(c, root)|
    requires ReleasedAt(AfterGraph(c), SortedPart(c, root), n, StartOrder(c, root)[i])
    requires ReleasedAt(AfterGraph(c), SortedPart(c, root), m, StartOrder(c, root)[j])
    requires a < |DiscoveryOf(c, root)| && DiscoveryOf(c, root)[a] == StartOrder(c, root)[i]
    requires b < |DiscoveryOf(c, root)| && DiscoveryOf(c, root)[b] == StartOrder(c, root)[j]
    ensures i < j <==> n < m || (n == m && a < b)
  {
    InScope(c, root);
    EmittedAsReleased(AfterGraph(c), DiscoveryOf(c, root), SortedPart(c, root), i, n, a, j, m, b);
  }

  /** Every program of the sorted part has such a moment, before its own place. */
  lemma ReleasedBefore(c: Configs, root: string, i: nat) returns (n: nat, a: nat)
    requires root in c && i < |SortedPart(c, root)|
    ensures n <= i && ReleasedAt(AfterGraph(c), SortedPart(c, root), n, StartOrder(c, root)[i])
    ensures a < |DiscoveryOf(c, root)| && DiscoveryOf(c, root)[a] == StartOrder(c, root)[i]
  {
    InScope(c, root);
    var g, disc, prefix := AfterGraph(c), DiscoveryOf(c, root), SortedPart(c, root);
    EmittedFacts(g, disc, prefix);
    assert prefix[i] in Elems(prefix);
    a := IndexOf(disc, prefix[i]);
    n := ShortestCover(g[prefix[i]], prefix, i);
  }

  lemma FreeIsReleasedFirst(c: Configs, root: string, u: string)
    requires root in c && u in c && AfterGraph(c)[u] == {}
    ensures ReleasedAt(AfterGraph(c), SortedPart(c, root), 0, u)
  {
  }

  lemma FreeIsSorted(c: Configs, root: string, a: nat) returns (i: nat)
    requires root in c && a < |DiscoveryOf(c, root)|
    requires DiscoveryOf(c, root)[a] in c && AfterGraph(c)[DiscoveryOf(c, root)[a]] == {}
    ensures i < |SortedPart(c, root)| && StartOrder(c, root)[i] == DiscoveryOf(c, root)[a]
  {
    InScope(c, root);
    EmittedFacts(AfterGraph(c), DiscoveryOf(c, root), SortedPart(c, root));
    assert DiscoveryOf(c, root)[a] in SortedPart(c, root);
    i := IndexOf(SortedPart(c, root), DiscoveryOf(c, root)[a]);
  }

  /** Programs without a known `after` target are started in the order of discovery. */
  lemma FreeKeepDiscoveryOrder(c: Configs, root: string, a: nat, b: nat) returns (i: nat, j: nat)
    requires root in c && a < b < |DiscoveryOf(c, root)|
    requires DiscoveryOf(c, root)[a] in c && AfterGraph(c)[DiscoveryOf(c, root)[a]] == {}
    requires DiscoveryOf(c, root)[b] in c && AfterGraph(c)[DiscoveryOf(c, root)[b]] == {}
    ensures i < j < |StartOrder(c, root)|
    ensures StartOrder(c, root)[i] == DiscoveryOf(c, root)[a] && StartOrder(c, root)[j] == DiscoveryOf(c, root)[b]
  {
    i := FreeIsSorted(c, root, a);
    j := FreeIsSorted(c, root, b);
    FreeIsReleasedFirst(c, root, DiscoveryOf(c, root)[a]);
    FreeIsReleasedFirst(c, root, DiscoveryOf(c, root)[b]);
    SortedAsReleased(c, root, i, 0, a, j, 0, b);
  }

  /** And before every other program. */
  lemma FreeComeFirst(c: Configs, root: string, i: nat, j: nat)
    requires root in c && i < |StartOrder(c, root)| && j < |StartOrder(c, root)|
    requires StartOrder(c, root)[i] in c && AfterGraph(c)[StartOrder(c, root)[i]] == {}
    requires StartOrder(c, root)[j] in c && AfterGraph(c)[StartOrder(c, root)[j]] != {}
    ensures i < j
  {
    OrderListsClosureOnce(c, root);
    InScope(c, root);
    assert StartOrder(c, root)[i] in Elems(StartOrder(c, root));
    var a := IndexOf(DiscoveryOf(c, root), StartOrder(c, root)[i]);
    var at := FreeIsSorted(c, root, a);
    assert at == i;
    if j < |SortedPart(c, root)| {
      var m, b := ReleasedBefore(c, root, j);
      FreeIsReleasedFirst(c, root, StartOrder(c, root)[i]);
      NothingBeforeFirst(SortedPart(c, root));
      SortedAsReleased(c, root, i, 0, a, j, m, b);
    }
  }
}
