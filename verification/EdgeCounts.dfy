/** Edge bookkeeping of the topological sort: `after` entries counted with multiplicity,
    on the side of the in-degree and on the side of the dependents list. */
module EdgeCounts {
  import opened Sequences
  import opened Configuration
  import opened KahnOrder

  /** Entries of `list` that name a discovered program not emitted yet, with multiplicity. */
  ghost function Pending(list: seq<string>, seen: set<string>, emitted: set<string>): nat {
    if list == [] then 0
    else
      var last := list[|list| - 1];
      Pending(list[..|list| - 1], seen, emitted) + if last in seen && last !in emitted then 1 else 0
  }

  ghost function Repeat(u: string, n: nat): seq<string> {
    if n == 0 then [] else Repeat(u, n - 1) + [u]
  }

  /** One entry for each time a unit of `units` lists `x` in `after`, in unit order. */
  ghost function Edges(c: Configs, units: seq<string>, x: string): seq<string> {
    if units == [] then []
    else
      var u := units[|units| - 1];
      Edges(c, units[..|units| - 1], x) + Repeat(u, Occurrences(AfterOf(c, u), x))
  }

  /** Entries of `list` that bring their unit's count, `pending` before, down to zero. */
  ghost function Hits(list: seq<string>, pending: map<string, nat>): seq<string> {
    if list == [] then []
    else
      var last := list[|list| - 1];
      Hits(list[..|list| - 1], pending)
      + if last in pending && Occurrences(list, last) == pending[last] then [last] else []
  }

  lemma {:induction false} PendingAfterEmit(list: seq<string>, seen: set<string>, emitted: set<string>, x: string)
    requires x in seen && x !in emitted
    ensures Pending(list, seen, emitted) == Pending(list, seen, emitted + {x}) + Occurrences(list, x)
  {
    if list != [] {
      PendingAfterEmit(list[..|list| - 1], seen, emitted, x);
    }
  }

  lemma {:induction false} NothingPending(list: seq<string>, seen: set<string>, emitted: set<string>)
    ensures Pending(list, seen, emitted) == 0 <==> forall d | d in list && d in seen :: d in emitted
  {
    if list != [] {
      var front, last := list[..|list| - 1], list[|list| - 1];
      NothingPending(front, seen, emitted);
      assert list == front + [last];
    }
  }

  lemma {:induction false} OccurrencesConcat(a: seq<string>, b: seq<string>, x: string)
    ensures Occurrences(a + b, x) == Occurrences(a, x) + Occurrences(b, x)
  {
    if b == [] {
      assert a + b == a;
    } else {
      var front, last := b[..|b| - 1], b[|b| - 1];
      OccurrencesConcat(a, front, x);
      assert (a + b)[..|a + b| - 1] == a + front;
    }
  }

  lemma {:induction false} OccurrencesRepeat(u: string, n: nat, x: string)
    ensures Occurrences(Repeat(u, n), x) == if x == u then n else 0
  {
    if n > 0 {
      OccurrencesRepeat(u, n - 1, x);
      assert Repeat(u, n)[..|Repeat(u, n)| - 1] == Repeat(u, n - 1);
    }
  }

  /** Both sides count an edge the same number of times. */
  lemma {:induction false} EdgesCountedAlike(c: Configs, units: seq<string>, x: string, u: string)
    requires Distinct(units)
    ensures Occurrences(Edges(c, units, x), u) == if u in units then Occurrences(AfterOf(c, u), x) else 0
  {
    if units != [] {
      var front, last := units[..|units| - 1], units[|units| - 1];
      assert units == front + [last];
      EdgesCountedAlike(c, front, x, u);
      var n := Occurrences(AfterOf(c, last), x);
      OccurrencesConcat(Edges(c, front, x), Repeat(last, n), u);
      OccurrencesRepeat(last, n, u);
    }
  }

  lemma PendingSnoc(list: seq<string>, x: string, seen: set<string>, emitted: set<string>)
    ensures Pending(list + [x], seen, emitted)
         == Pending(list, seen, emitted) + if x in seen && x !in emitted then 1 else 0
  {
    assert (list + [x])[..|list|] == list;
  }

  lemma OccurrencesSnoc(list: seq<string>, y: string, x: string)
    ensures Occurrences(list + [y], x) == Occurrences(list, x) + if y == x then 1 else 0
  {
    assert (list + [y])[..|list|] == list;
  }

  lemma EdgesSnoc(c: Configs, units: seq<string>, u: string, x: string)
    ensures Edges(c, units + [u], x) == Edges(c, units, x) + Repeat(u, Occurrences(AfterOf(c, u), x))
  {
    assert (units + [u])[..|units|] == units;
  }

  lemma HitsSnoc(list: seq<string>, u: string, pending: map<string, nat>)
    requires u in pending
    ensures Hits(list + [u], pending)
         == Hits(list, pending) + if Occurrences(list, u) + 1 == pending[u] then [u] else []
  {
    assert (list + [u])[..|list|] == list;
    OccurrencesSnoc(list, u, u);
  }

  lemma RepeatOnto(list: seq<string>, u: string, n: nat)
    ensures list + Repeat(u, n + 1) == (list + Repeat(u, n)) + [u]
  {
  }

  lemma OccurrencesAfterRepeat(list: seq<string>, u: string, n: nat)
    requires Occurrences(list, u) == 0
    ensures Occurrences(list + Repeat(u, n), u) == n
  {
    OccurrencesConcat(list, Repeat(u, n), u);
    OccurrencesRepeat(u, n, u);
  }

  lemma {:induction false} HitsRepeat(list: seq<string>, u: string, n: nat, pending: map<string, nat>)
    requires Occurrences(list, u) == 0 && u in pending && n <= pending[u]
    ensures Hits(list + Repeat(u, n), pending)
         == Hits(list, pending) + if n > 0 && n == pending[u] then [u] else []
  {
    if n == 0 {
      assert list + Repeat(u, 0) == list;
    } else {
      HitsRepeat(list, u, n - 1, pending);
      assert Hits(list + Repeat(u, n - 1), pending) == Hits(list, pending) by {
        assert Hits(list, pending) + [] == Hits(list, pending);
      }
      RepeatOnto(list, u, n - 1);
      OccurrencesAfterRepeat(list, u, n - 1);
      HitsSnoc(list + Repeat(u, n - 1), u, pending);
    }
  }

  /** Serving the dependents of `x` releases exactly the units whose whole count was on `x`,
      each once, in unit order. */
  lemma {:induction false} HitsAreReleased(c: Configs, units: seq<string>, x: string,
                                           pending: map<string, nat>, released: set<string>)
    requires Distinct(units)
    requires forall u | u in units :: u in pending && Occurrences(AfterOf(c, u), x) <= pending[u]
    requires forall u | u in units ::
               u in released <==> Occurrences(AfterOf(c, u), x) > 0 && Occurrences(AfterOf(c, u), x) == pending[u]
    ensures Hits(Edges(c, units, x), pending) == Keep(units, released)
  {
    if units != [] {
      var front, last := units[..|units| - 1], units[|units| - 1];
      assert units == front + [last];
      HitsAreReleased(c, front, x, pending, released);
      EdgesCountedAlike(c, front, x, last);
      EdgesSnoc(c, front, last, x);
      HitsRepeat(Edges(c, front, x), last, Occurrences(AfterOf(c, last), x), pending);
    }
  }

  lemma {:induction false} OccurrencesPrefix(list: seq<string>, i: nat, u: string)
    requires i <= |list|
    ensures Occurrences(list[..i], u) <= Occurrences(list, u)
  {
    OccurrencesConcat(list[..i], list[i..], u);
    assert list[..i] + list[i..] == list;
  }

  /** In a closed scope a unit has nothing pending iff all its known targets are emitted. */
  lemma PendingMeetsGraph(c: Configs, disc: seq<string>, emitted: set<string>, u: string)
    requires Scope(AfterGraph(c), disc) && u in disc
    ensures Pending(AfterOf(c, u), Elems(disc), emitted) == 0 <==> AfterGraph(c)[u] <= emitted
  {
    NothingPending(AfterOf(c, u), Elems(disc), emitted);
    assert forall d | d in AfterOf(c, u) :: d in Elems(disc) ==> d in c by {
      assert forall d | d in disc :: d in AfterGraph(c);
    }
    assert forall d | d in AfterGraph(c)[u] :: d in AfterOf(c, u) && d in Elems(disc);
  }

  /** The programs released by emitting `x`, told from the counts. */
  lemma ReleasedMeetsGraph(c: Configs, disc: seq<string>, sorted: seq<string>, x: string, pending: map<string, nat>)
    requires Scope(AfterGraph(c), disc) && x in disc && x !in sorted
    requires forall u | u in disc :: u in pending && pending[u] == Pending(AfterOf(c, u), Elems(disc), Elems(sorted))
    ensures forall u | u in disc :: Occurrences(AfterOf(c, u), x) <= pending[u]
    ensures Hits(Edges(c, disc, x), pending) == Keep(disc, Unblocked(AfterGraph(c), disc, sorted + [x], x))
  {
    var released := Unblocked(AfterGraph(c), disc, sorted + [x], x);
    assert Elems(sorted + [x]) == Elems(sorted) + {x};
    forall u | u in disc
      ensures Occurrences(AfterOf(c, u), x) <= pending[u]
      ensures u in released <==> Occurrences(AfterOf(c, u), x) > 0 && Occurrences(AfterOf(c, u), x) == pending[u]
    {
      PendingAfterEmit(AfterOf(c, u), Elems(disc), Elems(sorted), x);
      PendingMeetsGraph(c, disc, Elems(sorted) + {x}, u);
      OccursWhenListed(AfterOf(c, u), x);
      assert x in c by { assert x in AfterGraph(c); }
    }
    HitsAreReleased(c, disc, x, pending, released);
  }
}
