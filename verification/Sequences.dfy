/** Sequence facts shared by the start-order and supervision models. */
module Sequences {

  ghost predicate Distinct<T>(s: seq<T>) {
    forall i, j | 0 <= i < j < |s| :: s[i] != s[j]
  }

  ghost function Elems<T>(s: seq<T>): set<T> {
    set x | x in s
  }

  /** The entries of `s` that belong to `keep`, in their order in `s`. */
  ghost function Keep<T>(s: seq<T>, keep: set<T>): seq<T> {
    if s == [] then []
    else
      var last := s[|s| - 1];
      Keep(s[..|s| - 1], keep) + if last in keep then [last] else []
  }

  /** How often `x` is listed in `s`. */
  ghost function Occurrences<T>(s: seq<T>, x: T): nat {
    if s == [] then 0
    else Occurrences(s[..|s| - 1], x) + if s[|s| - 1] == x then 1 else 0
  }

  lemma OccursWhenListed<T>(s: seq<T>, x: T)
    ensures Occurrences(s, x) > 0 <==> x in s
  {
    if s != [] {
      OccursWhenListed(s[..|s| - 1], x);
      assert s == s[..|s| - 1] + [s[|s| - 1]];
    }
  }

  lemma KeepElems<T>(s: seq<T>, keep: set<T>)
    ensures Elems(Keep(s, keep)) == Elems(s) * keep
    ensures Distinct(s) ==> Distinct(Keep(s, keep))
  {
    KeepMembers(s, keep);
    if Distinct(s) {
      KeepDistinct(s, keep);
    }
  }

  lemma {:induction false} KeepMembers<T>(s: seq<T>, keep: set<T>)
    ensures Elems(Keep(s, keep)) == Elems(s) * keep
  {
    if s != [] {
      var t, last := s[..|s| - 1], s[|s| - 1];
      KeepMembers(t, keep);
      assert s == t + [last];
      SnocElems(t, last);
      if last in keep {
        SnocElems(Keep(t, keep), last);
      } else {
        assert Keep(t, keep) + [] == Keep(t, keep);
      }
    }
  }

  lemma {:induction false} KeepDistinct<T>(s: seq<T>, keep: set<T>)
    requires Distinct(s)
    ensures Distinct(Keep(s, keep))
  {
    if s != [] {
      var t, last := s[..|s| - 1], s[|s| - 1];
      DistinctTake(s, |t|);
      KeepDistinct(t, keep);
      KeepMembers(t, keep);
      if last in keep {
        assert last !in Elems(Keep(t, keep));
        assert forall i | 0 <= i < |Keep(t, keep)| :: Keep(t, keep)[i] in Elems(Keep(t, keep));
      } else {
        assert Keep(t, keep) + [] == Keep(t, keep);
      }
    }
  }

  lemma KeepSnoc<T>(s: seq<T>, x: T, keep: set<T>)
    ensures Keep(s + [x], keep) == Keep(s, keep) + if x in keep then [x] else []
  {
    assert (s + [x])[..|s|] == s;
  }

  lemma {:induction false} KeepNothing<T>(s: seq<T>, keep: set<T>)
    requires Elems(s) !! keep
    ensures Keep(s, keep) == []
  {
    if s != [] {
      assert s[|s| - 1] in Elems(s);
      assert Elems(s[..|s| - 1]) <= Elems(s);
      KeepNothing(s[..|s| - 1], keep);
    }
  }

  /** `Keep` preserves relative order. */
  lemma {:induction false} KeepOrder<T>(s: seq<T>, keep: set<T>, i: nat, j: nat)
    requires i < j < |s| && s[i] in keep && s[j] in keep
    ensures exists a, b | 0 <= a < b < |Keep(s, keep)| :: Keep(s, keep)[a] == s[i] && Keep(s, keep)[b] == s[j]
  {
    var t := s[..|s| - 1];
    var k := Keep(t, keep);
    if j < |s| - 1 {
      KeepOrder(t, keep, i, j);
      var a, b :| 0 <= a < b < |k| && k[a] == t[i] && k[b] == t[j];
      assert Keep(s, keep)[a] == s[i] && Keep(s, keep)[b] == s[j];
    } else {
      KeepElems(t, keep);
      assert t[i] in Elems(t) * keep;
      assert s[i] in Elems(k);
      var a :| 0 <= a < |k| && k[a] == s[i];
      assert Keep(s, keep)[a] == s[i] && Keep(s, keep)[|k|] == s[j];
    }
  }

  lemma DistinctConcat<T>(a: seq<T>, b: seq<T>)
    requires Distinct(a) && Distinct(b) && Elems(a) !! Elems(b)
    ensures Distinct(a + b)
    ensures Elems(a + b) == Elems(a) + Elems(b)
  {
    forall i, j | 0 <= i < |a| && 0 <= j < |b| ensures a[i] != b[j] {
      assert a[i] in Elems(a) && b[j] in Elems(b);
    }
  }

  /** Taking the head of a queue leaves served plus waiting unchanged. */
  lemma TakeHead<T>(done: seq<T>, queue: seq<T>)
    requires queue != []
    ensures done + [queue[0]] + queue[1..] == done + queue
    ensures done + [queue[0]] <= done + queue
  {
  }

  lemma TakeSnoc<T>(s: seq<T>, k: nat)
    requires k < |s|
    ensures s[..k + 1] == s[..k] + [s[k]]
  {
  }

  lemma DistinctTake<T>(s: seq<T>, k: nat)
    requires Distinct(s) && k < |s|
    ensures Distinct(s[..k])
    ensures s[k] in Elems(s) && s[k] !in Elems(s[..k])
  {
  }

  lemma TakeAll<T>(s: seq<T>)
    ensures s[..|s|] == s
  {
  }

  lemma SnocElems<T>(s: seq<T>, x: T)
    ensures Elems(s + [x]) == Elems(s) + {x}
  {
  }

  lemma IndexOf<T>(s: seq<T>, x: T) returns (i: nat)
    requires x in Elems(s)
    ensures i < |s| && s[i] == x
  {
    i :| 0 <= i < |s| && s[i] == x;
  }

  lemma {:induction false} DistinctSize<T>(s: seq<T>)
    requires Distinct(s)
    ensures |Elems(s)| == |s|
  {
    if s != [] {
      var t, last := s[..|s| - 1], s[|s| - 1];
      DistinctSize(t);
      assert s == t + [last];
      assert Elems(s) == Elems(t) + {last};
    }
  }

  lemma {:induction false} SubsetSize<T>(a: set<T>, b: set<T>)
    requires a <= b
    ensures |a| <= |b|
    ensures |a| == |b| ==> a == b
  {
    if a != {} {
      var x :| x in a;
      SubsetSize(a - {x}, b - {x});
      assert a == (a - {x}) + {x} && b == (b - {x}) + {x};
    }
  }

  lemma NothingLeft<T>(done: set<T>, all: set<T>)
    requires done <= all && all - done == {}
    ensures done == all
  {
    assert all == (all - done) + done;
  }

  /** A listing longer than the set it draws from repeats an entry. */
  lemma Pigeonhole<T>(s: seq<T>, pool: set<T>) returns (i: nat, j: nat)
    requires Elems(s) <= pool && |pool| < |s|
    ensures i < j < |s| && s[i] == s[j]
  {
    if Distinct(s) {
      DistinctSize(s);
      SubsetSize(Elems(s), pool);
      assert false;
    }
    i, j :| 0 <= i < j < |s| && s[i] == s[j];
  }
}
