/** A FIFO worklist, seen as the listing of everything that ever enters its queue.
    `fill(done)` is that listing once the entries of `done` have been served: what has
    been served plus what still waits, in order of entry. Both loops of the start-order
    computation have this shape. */
module Worklist {

  type Fill = seq<string> -> seq<string>

  /** Serving one more entry only adds at the tail of the queue. */
  ghost predicate Appends(fill: Fill) {
    forall done: seq<string>, x: string :: fill(done) <= fill(done + [x])
  }

  /** `done` was served in FIFO order: entry `i` stood at position `i` of the listing when
      it was taken. */
  ghost predicate Served(fill: Fill, done: seq<string>) {
    forall i | 0 <= i < |done| :: ServedAt(fill, done, i)
  }

  ghost predicate ServedAt(fill: Fill, done: seq<string>, i: nat)
    requires i < |done|
  {
    done[..i + 1] <= fill(done[..i])
  }

  /** The queue ran empty: everything that ever entered has been served. */
  ghost predicate Complete(fill: Fill, done: seq<string>) {
    Served(fill, done) && fill(done) == done
  }

  lemma {:induction false} FillGrows(fill: Fill, done: seq<string>, n: nat)
    requires Appends(fill) && n <= |done|
    ensures fill(done[..n]) <= fill(done)
    decreases |done| - n
  {
    if n == |done| {
      assert done[..n] == done;
    } else {
      assert done[..n + 1] == done[..n] + [done[n]];
      FillGrows(fill, done, n + 1);
    }
  }

  lemma ServedIsPrefix(fill: Fill, done: seq<string>)
    requires Appends(fill) && Served(fill, done)
    ensures done <= fill(done)
  {
    if done != [] {
      var n := |done| - 1;
      assert ServedAt(fill, done, n);
      assert done[..n + 1] == done;
      FillGrows(fill, done, n);
    }
  }

  lemma ServedSnoc(fill: Fill, done: seq<string>, x: string)
    requires Served(fill, done) && done + [x] <= fill(done)
    ensures Served(fill, done + [x])
  {
    var next := done + [x];
    forall i: nat | i < |next| ensures ServedAt(fill, next, i) {
      if i < |done| {
        assert ServedAt(fill, done, i);
        assert next[..i + 1] == done[..i + 1] && next[..i] == done[..i];
      } else {
        assert next[..i + 1] == next && next[..i] == done;
      }
    }
  }

  lemma ServedFront(fill: Fill, done: seq<string>, n: nat)
    requires Served(fill, done) && n <= |done|
    ensures Served(fill, done[..n])
  {
    forall i: nat | i < n ensures ServedAt(fill, done[..n], i) {
      assert ServedAt(fill, done, i);
      assert done[..n][..i + 1] == done[..i + 1] && done[..n][..i] == done[..i];
    }
  }

  lemma {:induction false} CommonPrefix(fill: Fill, s: seq<string>, t: seq<string>, n: nat)
    requires Appends(fill) && Complete(fill, s) && Complete(fill, t)
    requires n <= |s|
    ensures n <= |t| && s[..n] == t[..n]
    decreases n
  {
    if n > 0 {
      CommonPrefix(fill, s, t, n - 1);
      assert ServedAt(fill, s, n - 1);
      FillGrows(fill, t, n - 1);
      assert s[..n] <= t;
    }
  }

  /** A worklist has exactly one complete run. */
  lemma Unique(fill: Fill, s: seq<string>, t: seq<string>)
    requires Appends(fill) && Complete(fill, s) && Complete(fill, t)
    ensures s == t
  {
    CommonPrefix(fill, s, t, |s|);
    CommonPrefix(fill, t, s, |t|);
    assert s[..|s|] == s && t[..|t|] == t;
  }

  /** A worklist whose queue never lists more than `bound` entries runs empty. */
  lemma {:induction false} RunsEmpty(fill: Fill, done: seq<string>, bound: nat) returns (all: seq<string>)
    requires Appends(fill) && Served(fill, done)
    requires forall s | Served(fill, s) :: |fill(s)| <= bound
    ensures Complete(fill, all)
    decreases bound - |done|
  {
    ServedIsPrefix(fill, done);
    if fill(done) == done {
      all := done;
    } else {
      var x := fill(done)[|done|];
      assert done + [x] <= fill(done);
      ServedSnoc(fill, done, x);
      ServedIsPrefix(fill, done + [x]);
      all := RunsEmpty(fill, done + [x], bound);
    }
  }
}
