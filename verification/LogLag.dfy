/** What a follower that falls behind loses (cirond/src/process.rs, the broadcast channel of
    `load_from_config`; cirond/src/grpc_server.rs, `get_logs`). */
module LogLag {
  import opened LogFollow

  ghost function Span(from: nat, to: nat): (r: set<nat>)
    ensures forall p: nat :: p in r <==> from <= p < to
  {
    if to <= from then {} else Span(from, to - 1) + {to - 1}
  }

  /** A follower may lag, losing any number of lines, just when it is more than 1000 lines behind. */
  lemma LagPossibleIff(s: Stream)
    requires s.subscription.Some?
    ensures (exists k :: Possible(s, Lag(k))) <==>
            SnapshotForwarded(s) && |s.sent| > s.subscription.value.cursor + 1000
  {
    if SnapshotForwarded(s) && |s.sent| > s.subscription.value.cursor + 1000 {
      assert Possible(s, Lag(s.subscription.value.cursor + 1));
    }
  }

  /** The positions of the broadcast that an action skips. */
  ghost function Skips(s: Stream, a: Action): set<nat>
    requires Possible(s, a)
  {
    if a.Lag? then Span(s.subscription.value.cursor, a.to) else {}
  }

  /** The positions that the lags of a run have skipped. */
  ghost function Skipped(s: Stream, acts: seq<Action>): set<nat>
    requires IsRun(s, acts)
    decreases |acts|
  {
    if acts == [] then {} else Skips(s, acts[0]) + Skipped(Next(s, acts[0]), acts[1..])
  }

  /** Of the positions the subscription has passed, exactly those not skipped have been received, and
      none of the last 1000 lines has been skipped. */
  ghost predicate Accounted(s: Stream, skipped: set<nat>) {
    && (s.subscription.None? ==> skipped == {})
    && (s.subscription.Some? ==>
          && (forall p | p in skipped :: s.subscription.value.start <= p < s.subscription.value.cursor)
          && (forall p: nat | s.subscription.value.start <= p < s.subscription.value.cursor ::
                p in s.subscription.value.taken <==> p !in skipped))
    && (forall p | p in skipped :: p + LogBuffer.LOG_BUFFER_CAPACITY < |s.sent|)
  }

  lemma ReceiveAccounted(s: Stream, skipped: set<nat>)
    requires Inv(s) && Possible(s, Receive) && Accounted(s, skipped)
    ensures Accounted(Next(s, Receive), skipped)
  {
    var f, c := s.subscription.value, s.subscription.value.cursor;
    forall p: nat ensures p in f.taken + [c] <==> p in f.taken || p == c {
    }
  }

  lemma LagAccounted(s: Stream, k: nat, skipped: set<nat>)
    requires Inv(s) && Possible(s, Lag(k)) && Accounted(s, skipped)
    ensures Accounted(Next(s, Lag(k)), skipped + Skips(s, Lag(k)))
  {
    var f := s.subscription.value;
    forall p: nat | f.cursor <= p < k ensures p !in f.taken {
      assert forall i | 0 <= i < |f.taken| :: f.taken[i] < f.cursor;
    }
  }

  lemma StepAccounted(s: Stream, a: Action, skipped: set<nat>)
    requires Inv(s) && Possible(s, a) && Accounted(s, skipped)
    ensures Accounted(Next(s, a), skipped + Skips(s, a))
  {
    NoMore(skipped);
    if a.Receive? {
      ReceiveAccounted(s, skipped);
    } else if a.Lag? {
      LagAccounted(s, a.to, skipped);
    }
  }

  lemma {:induction false} RunAccounted(s: Stream, acts: seq<Action>, skipped: set<nat>)
    requires Inv(s) && IsRun(s, acts) && Accounted(s, skipped)
    ensures Accounted(Final(s, acts), skipped + Skipped(s, acts))
    decreases |acts|
  {
    if acts == [] {
      NoMore(skipped);
    } else {
      var s' := Next(s, acts[0]);
      NextKeepsInv(s, acts[0]);
      StepAccounted(s, acts[0], skipped);
      RunAccounted(s', acts[1..], skipped + Skips(s, acts[0]));
      Regroup(skipped, Skips(s, acts[0]), Skipped(s', acts[1..]));
    }
  }

  lemma NoMore(a: set<nat>)
    ensures a + {} == a && {} + a == a
  {
  }

  lemma Regroup(a: set<nat>, b: set<nat>, c: set<nat>)
    ensures (a + b) + c == a + (b + c)
  {
  }

  lemma EveryRunAccounted(acts: seq<Action>)
    requires IsRun(Empty(), acts)
    ensures Inv(Final(Empty(), acts)) && Accounted(Final(Empty(), acts), Skipped(Empty(), acts))
  {
    EveryRun(acts);
    assert Inv(Empty());
    RunAccounted(Empty(), acts, {});
    NoMore(Skipped(Empty(), acts));
  }

  // ---------------------------------------------------------------- what is lost

  lemma SamePosition(lines: seq<Line>, i: nat, j: nat)
    requires Numbered(lines) && i < |lines| && j < |lines| && lines[i] == lines[j]
    ensures i == j
  {
    if i < j {
      EarlierIsSmaller(lines, i, j);
    } else if j < i {
      EarlierIsSmaller(lines, j, i);
    }
  }

  lemma AfterFront(out: seq<Line>, n: nat, l: Line, k: nat)
    requires n <= |out| && l !in out[..n] && k < |out| && out[k] == l
    ensures n <= k
  {
    assert forall j | 0 <= j < n :: out[..n][j] == out[j];
  }

  /** A line that came over the subscription is at one position only. */
  lemma ReceivedAt(s: Stream, p: nat, k: nat)
    requires Inv(s) && s.subscription.Some? && p < |s.sent|
    requires s.forwarded <= k < |s.out| && s.out[k] == s.sent[p]
    ensures p in s.subscription.value.taken
  {
    OutFromFollow(s, k);
    SamePosition(s.sent, p, s.subscription.value.taken[k - s.forwarded]);
  }

  lemma ReceivedIsOut(s: Stream, p: nat)
    requires Inv(s) && s.subscription.Some? && p in s.subscription.value.taken
    ensures p < |s.sent| && s.sent[p] in s.out
  {
    var i :| 0 <= i < |TakenBy(s)| && TakenBy(s)[i] == p;
    assert s.out[s.forwarded + i] == s.sent[TakenBy(s)[i]];
  }

  lemma FrontIsOut(out: seq<Line>, n: nat, l: Line)
    requires n <= |out| && l in out[..n]
    ensures l in out
  {
  }

  /** A broadcast line that the client has was received or was in the snapshot. */
  lemma DeliveredIff(s: Stream, p: nat)
    requires Inv(s) && s.subscription.Some? && p < |s.sent| && s.forwarded <= |s.out|
    ensures s.sent[p] in s.out <==> p in s.subscription.value.taken || s.sent[p] in s.out[..s.forwarded]
  {
    if p in s.subscription.value.taken {
      ReceivedIsOut(s, p);
    } else if s.sent[p] in s.out[..s.forwarded] {
      FrontIsOut(s.out, s.forwarded, s.sent[p]);
    } else if s.sent[p] in s.out {
      var k :| 0 <= k < |s.out| && s.out[k] == s.sent[p];
      AfterFront(s.out, s.forwarded, s.sent[p], k);
      ReceivedAt(s, p, k);
    }
  }

  /** Exactly what a follower loses: of the lines its subscription has passed, those that a lag has
      skipped and that were not in its snapshot. */
  lemma LostIff(acts: seq<Action>, p: nat)
    requires IsRun(Empty(), acts) && Final(Empty(), acts).subscription.Some?
    requires Final(Empty(), acts).subscription.value.start <= p < Final(Empty(), acts).subscription.value.cursor
    ensures var s := Final(Empty(), acts);
            && p < |s.sent| && s.forwarded <= |s.out|
            && (s.sent[p] !in s.out <==> p in Skipped(Empty(), acts) && s.sent[p] !in s.out[..s.forwarded])
  {
    EveryRunAccounted(acts);
    DeliveredIff(Final(Empty(), acts), p);
  }

  /** The newest 1000 lines are never lost. */
  lemma NewestDelivered(acts: seq<Action>, p: nat)
    requires IsRun(Empty(), acts) && Final(Empty(), acts).subscription.Some?
    requires Final(Empty(), acts).subscription.value.start <= p < Final(Empty(), acts).subscription.value.cursor
    requires |Final(Empty(), acts).sent| <= p + LogBuffer.LOG_BUFFER_CAPACITY
    ensures p < |Final(Empty(), acts).sent| && Final(Empty(), acts).sent[p] in Final(Empty(), acts).out
  {
    EveryRunAccounted(acts);
    LostIff(acts, p);
  }

  lemma {:induction false} SkippedNothingIff(s: Stream, acts: seq<Action>)
    requires IsRun(s, acts)
    ensures Skipped(s, acts) == {} <==> forall a | a in acts :: !a.Lag?
    decreases |acts|
  {
    if acts != [] {
      SkippedNothingIff(Next(s, acts[0]), acts[1..]);
      assert acts == [acts[0]] + acts[1..];
      if acts[0].Lag? {
        assert s.subscription.value.cursor in Skips(s, acts[0]);
      }
    }
  }

  /** A follower has received everything its subscription has passed iff it has never lagged. */
  lemma CompleteIffNeverLagged(acts: seq<Action>)
    requires IsRun(Empty(), acts) && Final(Empty(), acts).subscription.Some?
    ensures var f := Final(Empty(), acts).subscription.value;
            (forall p: nat | f.start <= p < f.cursor :: p in f.taken) <==> forall a | a in acts :: !a.Lag?
  {
    EveryRunAccounted(acts);
    SkippedNothingIff(Empty(), acts);
    var f, skipped := Final(Empty(), acts).subscription.value, Skipped(Empty(), acts);
    if skipped != {} {
      var p :| p in skipped;
      assert f.start <= p < f.cursor && p !in f.taken;
    }
  }

  /** In no state of the run is the follower more than 1000 lines behind. */
  ghost predicate NeverFarBehind(s: Stream, acts: seq<Action>)
    requires IsRun(s, acts)
    decreases |acts|
  {
    && (s.subscription.Some? ==> |s.sent| <= s.subscription.value.cursor + LogBuffer.LOG_BUFFER_CAPACITY)
    && (acts == [] || NeverFarBehind(Next(s, acts[0]), acts[1..]))
  }

  lemma {:induction false} NearNeverLags(s: Stream, acts: seq<Action>)
    requires IsRun(s, acts) && NeverFarBehind(s, acts)
    ensures forall a | a in acts :: !a.Lag?
    decreases |acts|
  {
    if acts != [] {
      NearNeverLags(Next(s, acts[0]), acts[1..]);
      assert acts == [acts[0]] + acts[1..];
    }
  }

  /** A follower that is never more than 1000 lines behind gets every line broadcast since it
      subscribed, as far as it has come. */
  lemma NearGetsEverything(acts: seq<Action>, p: nat)
    requires IsRun(Empty(), acts) && NeverFarBehind(Empty(), acts) && Final(Empty(), acts).subscription.Some?
    requires Final(Empty(), acts).subscription.value.start <= p < Final(Empty(), acts).subscription.value.cursor
    ensures p < |Final(Empty(), acts).sent| && Final(Empty(), acts).sent[p] in Final(Empty(), acts).out
  {
    NearNeverLags(Empty(), acts);
    SkippedNothingIff(Empty(), acts);
    LostIff(acts, p);
  }
}
