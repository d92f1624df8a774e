/** The task that serves one log request (cirond/src/grpc_server.rs, `get_logs`). */
module GetLogs {
  import opened Wrappers
  import opened LogBuffer

  /** What one `recv` on the subscription yields. */
  datatype Received = Next(line: LogLine) | Lagged(skipped: nat) | Closed

  /** `at` are exactly the positions before the first `Closed` at which a line was received, in order,
      and `lines` are those lines. */
  ghost predicate Follows(results: seq<Received>, at: seq<nat>, lines: seq<LogLine>) {
    && |lines| == |at|
    && (forall k | 0 <= k < |at| :: at[k] < |results| && results[at[k]] == Next(lines[k]))
    && (forall k, l | 0 <= k < l < |at| :: at[k] < at[l])
    && (forall i | 0 <= i < |results| :: i in at <==> results[i].Next? && Closed !in results[..i])
  }

  /** The positions before `n`, and before the first `Closed`, at which a line is received. */
  ghost function Heard(results: seq<Received>, n: nat): seq<nat>
    requires n <= |results|
  {
    if n == 0 then []
    else
      Heard(results, n - 1) + if results[n - 1].Next? && Closed !in results[..n - 1] then [n - 1] else []
  }

  lemma {:induction false} HeardExactly(results: seq<Received>, n: nat)
    requires n <= |results|
    ensures forall i: nat :: i in Heard(results, n) <==> i < n && results[i].Next? && Closed !in results[..i]
    ensures forall k, l | 0 <= k < l < |Heard(results, n)| :: Heard(results, n)[k] < Heard(results, n)[l]
  {
    if n > 0 {
      HeardExactly(results, n - 1);
      var before := Heard(results, n - 1);
      assert forall k | 0 <= k < |before| :: before[k] in before;
    }
  }

  ghost function LinesAt(results: seq<Received>, n: nat): (lines: seq<LogLine>)
    requires n <= |results|
    ensures |lines| == |Heard(results, n)|
  {
    if n == 0 then []
    else
      LinesAt(results, n - 1)
      + if results[n - 1].Next? && Closed !in results[..n - 1] then [results[n - 1].line] else []
  }

  lemma {:induction false} LinesAtHeard(results: seq<Received>, n: nat, k: nat)
    requires n <= |results| && k < |Heard(results, n)|
    ensures Heard(results, n)[k] < n && results[Heard(results, n)[k]] == Next(LinesAt(results, n)[k])
  {
    if k < |Heard(results, n - 1)| {
      LinesAtHeard(results, n - 1, k);
    }
  }

  /** Hearing all results out. */
  lemma AllFollow(results: seq<Received>)
    ensures Follows(results, Heard(results, |results|), LinesAt(results, |results|))
  {
    HeardExactly(results, |results|);
    forall k | 0 <= k < |Heard(results, |results|)|
      ensures Heard(results, |results|)[k] < |results|
      ensures results[Heard(results, |results|)[k]] == Next(LinesAt(results, |results|)[k])
    {
      LinesAtHeard(results, |results|, k);
    }
  }

  lemma {:induction false} LinesGrow(results: seq<Received>, n: nat, m: nat)
    requires n <= m <= |results|
    ensures LinesAt(results, n) <= LinesAt(results, m)
    ensures Closed in results[..n] ==> LinesAt(results, n) == LinesAt(results, m)
    decreases m - n
  {
    if n < m {
      LinesGrow(results, n, m - 1);
      assert Closed in results[..n] ==> Closed in results[..m - 1] by {
        assert results[..m - 1][..n] == results[..n];
      }
    }
  }

  /** What the client has got of the snapshot and, when following, of the results: everything, or
      as much as was accepted. */
  ghost predicate Streamed(recent: seq<LogLine>, follow: Option<seq<Received>>, accepted: nat, out: seq<LogLine>) {
    match follow
    case None => AcceptedPart(recent, accepted, out)
    case Some(results) => exists at, lines :: Follows(results, at, lines) && AcceptedPart(recent + lines, accepted, out)
  }

  ghost predicate AcceptedPart(all: seq<LogLine>, accepted: nat, out: seq<LogLine>) {
    out <= all && |out| == Min(accepted, |all|)
  }

  /** Ending after `n` results is right when all have been heard, the channel is closed or the client
      is gone. */
  lemma MayEnd(recent: seq<LogLine>, results: seq<Received>, n: nat, accepted: nat, out: seq<LogLine>)
    requires n <= |results| && out == recent + LinesAt(results, n) && |out| <= accepted
    requires n == |results| || Closed in results[..n] || |out| == accepted
    ensures Streamed(recent, Some(results), accepted, out)
  {
    AllFollow(results);
    LinesGrow(results, n, |results|);
    assert AcceptedPart(recent + LinesAt(results, |results|), accepted, out);
  }

  lemma StillOpen(results: seq<Received>, n: nat)
    requires n < |results| && Closed !in results[..n]
    ensures !results[n].Closed? ==> Closed !in results[..n + 1]
    ensures results[n].Closed? ==> Closed in results[..n + 1] && LinesAt(results, n + 1) == LinesAt(results, n)
  {
    assert results[..n + 1] == results[..n] + [results[n]];
    assert results[..n + 1][n] == results[n];
    assert LinesAt(results, n) + [] == LinesAt(results, n);
  }

  /** Forwards the snapshot, then what the subscription yields; `accepted` is how many sends succeed
      before the client is gone. */
  method Forward(recent: seq<LogLine>, follow: Option<seq<Received>>, accepted: nat)
    returns (out: seq<LogLine>)
    ensures Streamed(recent, follow, accepted, out)
  {
    out := [];
    for i := 0 to |recent|
      invariant out == recent[..i] && i <= accepted
    {
      if |out| == accepted {
        PartOfSnapshot(recent, follow, accepted, out);
        return;
      }
      assert recent[..i + 1] == recent[..i] + [recent[i]];
      out := out + [recent[i]];
    }
    assert recent[..|recent|] == recent;
    if follow.None? {
      return;
    }
    out := ForwardFollow(recent, follow.value, accepted);
  }

  lemma PartOfSnapshot(recent: seq<LogLine>, follow: Option<seq<Received>>, accepted: nat, out: seq<LogLine>)
    requires out <= recent && |out| == accepted
    ensures Streamed(recent, follow, accepted, out)
  {
    if follow.Some? {
      AllFollow(follow.value);
      assert AcceptedPart(recent + LinesAt(follow.value, |follow.value|), accepted, out);
    }
  }

  /** The follow loop: a line is sent, a lag is skipped, a closed channel or a failed send is the end. */
  method ForwardFollow(recent: seq<LogLine>, results: seq<Received>, accepted: nat) returns (out: seq<LogLine>)
    requires |recent| <= accepted
    ensures Streamed(recent, Some(results), accepted, out)
  {
    out := recent;
    var n := 0;
    assert recent + LinesAt(results, 0) == recent;
    while n < |results|
      invariant n <= |results| && |out| <= accepted
      invariant out == recent + LinesAt(results, n) && Closed !in results[..n]
    {
      StillOpen(results, n);
      match results[n] {
        case Next(line) =>
          if |out| == accepted {
            MayEnd(recent, results, n, accepted, out);
            return;
          }
          assert (recent + LinesAt(results, n)) + [line] == recent + (LinesAt(results, n) + [line]);
          out := out + [line];
        case Lagged(_) =>
          assert LinesAt(results, n) + [] == LinesAt(results, n);
        case Closed =>
          MayEnd(recent, results, n + 1, accepted, out);
          return;
      }
      n := n + 1;
    }
    MayEnd(recent, results, n, accepted, out);
  }

  /** A request for `n` lines: zero and below mean everything buffered. */
  function RequestedCount(n: int): nat {
    if n <= 0 then 0 else n
  }

  /** One request against the registry of logs, with the subscription's results when following. */
  method Serve(logs: map<string, ProcessLog>, name: string, lines: int, follow: Option<seq<Received>>, accepted: nat)
    returns (r: Result<seq<LogLine>, string>)
    requires forall n | n in logs :: logs[n].Valid()
    ensures r.Ok? <==> name in logs && logs[name].logForward
    ensures r.Ok? ==> exists recent ::
              && Newest(logs[name].history, if lines <= 0 then 0 else lines, recent)
              && Streamed(recent, follow, accepted, r.value)
  {
    var recent := GetRecentLogs(logs, name, RequestedCount(lines));
    if recent.Err? {
      return Err(recent.error);
    }
    var out := Forward(recent.value, follow, accepted);
    r := Ok(out);
  }
}
