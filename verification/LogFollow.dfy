/** Following a log while it is being written: a snapshot of the buffer, then a subscription to
    the broadcast channel (cirond/src/process.rs, `spawn_log_reader`; cirond/src/grpc_server.rs,
    `get_logs`). A writer pushes a line to the buffer and broadcasts it in two separate steps;
    the reader takes its snapshot and subscribes in two separate steps. */
module LogFollow {
  import opened Wrappers
  import LogBuffer

  /** The `number`-th line of writer `writer`, counted from zero. */
  datatype Line = Line(writer: nat, number: nat)

  /** The reader's snapshot: its lines, how many lines had been pushed when it was taken, and how
      many had been broadcast. */
  datatype Snapshot = Snapshot(lines: seq<Line>, upTo: nat, sentBy: nat)

  /** The subscription: where it began, the next position to receive, and the positions received. */
  datatype Subscription = Subscription(start: nat, cursor: nat, taken: seq<nat>)

  /** `pushed` and `sent` are all lines pushed to the buffer and broadcast so far; `forwarded` counts
      the snapshot lines passed on; `out` is what the client has received. */
  datatype Stream = Stream(
    pushed: seq<Line>,
    sent: seq<Line>,
    snapshot: Option<Snapshot>,
    subscription: Option<Subscription>,
    forwarded: nat,
    out: seq<Line>)

  datatype Action =
    | Push(writer: nat)
    | Broadcast(writer: nat)
    | TakeSnapshot(lines: nat)
    | Subscribe
    | ForwardSnapshot
    | Receive
    | Lag(to: nat)

  ghost function CountOf(lines: seq<Line>, w: nat): nat {
    if lines == [] then 0
    else CountOf(lines[..|lines| - 1], w) + if lines[|lines| - 1].writer == w then 1 else 0
  }

  ghost predicate SnapshotForwarded(s: Stream) {
    s.snapshot.Some? && s.forwarded == |s.snapshot.value.lines|
  }

  /** Without `follow` there is simply no `Subscribe`. The channel keeps at least the newest lines it
      was made for, so a lagging receiver skips no further than to the last 1000. */
  ghost predicate Possible(s: Stream, a: Action) {
    match a
    case Push(w) => CountOf(s.pushed, w) == CountOf(s.sent, w)
    case Broadcast(w) => CountOf(s.pushed, w) == CountOf(s.sent, w) + 1
    case TakeSnapshot(_) => s.snapshot.None?
    case Subscribe => s.snapshot.Some? && s.subscription.None? && s.forwarded == 0
    case ForwardSnapshot => s.snapshot.Some? && s.forwarded < |s.snapshot.value.lines|
    case Receive =>
      SnapshotForwarded(s) && s.subscription.Some? && s.subscription.value.cursor < |s.sent|
    case Lag(k) =>
      && SnapshotForwarded(s) && s.subscription.Some?
      && s.subscription.value.cursor < k && k + LogBuffer.LOG_BUFFER_CAPACITY <= |s.sent|
  }

  /** `get_recent_logs` over everything pushed so far. */
  function Recent(pushed: seq<Line>, lines: nat): seq<Line> {
    LogBuffer.LastN(pushed, if lines == 0 then LogBuffer.LOG_BUFFER_CAPACITY
                            else LogBuffer.Min(lines, LogBuffer.LOG_BUFFER_CAPACITY))
  }

  ghost function Next(s: Stream, a: Action): Stream
    requires Possible(s, a)
  {
    match a
    case Push(w) => s.(pushed := s.pushed + [Line(w, CountOf(s.pushed, w))])
    case Broadcast(w) => s.(sent := s.sent + [Line(w, CountOf(s.sent, w))])
    case TakeSnapshot(lines) =>
      s.(snapshot := Some(Snapshot(Recent(s.pushed, lines), |s.pushed|, |s.sent|)))
    case Subscribe => s.(subscription := Some(Subscription(|s.sent|, |s.sent|, [])))
    case ForwardSnapshot =>
      s.(forwarded := s.forwarded + 1, out := s.out + [s.snapshot.value.lines[s.forwarded]])
    case Receive =>
      var c := s.subscription.value.cursor;
      s.(subscription := Some(s.subscription.value.(cursor := c + 1, taken := s.subscription.value.taken + [c])),
      out := s.out + [s.sent[c]])
    case Lag(k) => s.(subscription := Some(s.subscription.value.(cursor := k)))
  }

  /** The snapshot takes the newest lines, as many as were asked for, and marks how far buffer and
      broadcast have come. */
  lemma SnapshotTakesNewest(s: Stream, lines: nat)
    requires Possible(s, TakeSnapshot(lines))
    ensures var p := Next(s, TakeSnapshot(lines)).snapshot.value;
            LogBuffer.Newest(s.pushed, lines, p.lines) && p.upTo == |s.pushed| && p.sentBy == |s.sent|
  {
    LogBuffer.LastIsNewest(s.pushed, lines);
  }

  ghost predicate IsRun(s: Stream, acts: seq<Action>)
    decreases |acts|
  {
    acts == [] || (Possible(s, acts[0]) && IsRun(Next(s, acts[0]), acts[1..]))
  }

  ghost function Final(s: Stream, acts: seq<Action>): Stream
    requires IsRun(s, acts)
    decreases |acts|
  {
    if acts == [] then s else Final(Next(s, acts[0]), acts[1..])
  }

  ghost function Empty(): Stream {
    Stream([], [], None, None, 0, [])
  }

  // ---------------------------------------------------------------- the invariant

  /** Each writer's lines come in order, without gaps. */
  ghost predicate Numbered(lines: seq<Line>) {
    forall i | 0 <= i < |lines| :: lines[i].number == CountOf(lines[..i], lines[i].writer)
  }

  /** Each writer is at most one broadcast behind its pushes. */
  ghost predicate AtMostOneBehind(pushed: seq<Line>, sent: seq<Line>) {
    forall w :: CountOf(sent, w) <= CountOf(pushed, w) <= CountOf(sent, w) + 1
  }

  ghost predicate SnapshotOk(s: Stream) {
    s.snapshot.Some? ==>
      var p := s.snapshot.value;
      && |p.lines| <= p.upTo <= |s.pushed| && p.sentBy <= |s.sent| && s.forwarded <= |p.lines|
      && p.lines == s.pushed[p.upTo - |p.lines|..p.upTo]
      && AtMostOneBehind(s.pushed[..p.upTo], s.sent[..p.sentBy])
  }

  ghost predicate Increasing(positions: seq<nat>) {
    forall i, j | 0 <= i < j < |positions| :: positions[i] < positions[j]
  }

  ghost predicate SubscriptionOk(s: Stream) {
    s.subscription.Some? ==>
      var f := s.subscription.value;
      && s.snapshot.Some? && s.snapshot.value.sentBy <= f.start <= f.cursor <= |s.sent|
      && Increasing(f.taken) && (forall k | 0 <= k < |f.taken| :: f.start <= f.taken[k] < f.cursor)
      && |f.taken| <= f.cursor - f.start
      && (f.taken != [] ==> SnapshotForwarded(s))
  }

  ghost function TakenBy(s: Stream): seq<nat> {
    if s.subscription.None? then [] else s.subscription.value.taken
  }

  /** The client's lines: first some of the snapshot, then the received positions of the broadcast. */
  ghost predicate OutOk(s: Stream) {
    && |s.out| == s.forwarded + |TakenBy(s)|
    && (s.snapshot.None? ==> s.forwarded == 0)
    && (s.snapshot.Some? ==>
          s.forwarded <= |s.snapshot.value.lines| &&
          forall k | 0 <= k < s.forwarded :: s.out[k] == s.snapshot.value.lines[k])
    && (forall k | 0 <= k < |TakenBy(s)| ::
          TakenBy(s)[k] < |s.sent| && s.out[s.forwarded + k] == s.sent[TakenBy(s)[k]])
  }

  ghost predicate Inv(s: Stream) {
    && Numbered(s.pushed) && Numbered(s.sent) && AtMostOneBehind(s.pushed, s.sent)
    && (s.snapshot.None? ==> s.subscription.None?)
    && SnapshotOk(s) && SubscriptionOk(s) && OutOk(s)
  }

  lemma CountSnoc(lines: seq<Line>, x: Line, w: nat)
    ensures CountOf(lines + [x], w) == CountOf(lines, w) + if x.writer == w then 1 else 0
  {
    assert (lines + [x])[..|lines|] == lines;
  }

  lemma NumberedSnoc(lines: seq<Line>, w: nat)
    requires Numbered(lines)
    ensures Numbered(lines + [Line(w, CountOf(lines, w))])
  {
    var more := lines + [Line(w, CountOf(lines, w))];
    forall i | 0 <= i < |more| ensures more[i].number == CountOf(more[..i], more[i].writer) {
      assert more[..i] == lines[..i];
      if i == |lines| {
        assert lines[..i] == lines;
      }
    }
  }

  lemma {:induction false} CountGrows(lines: seq<Line>, i: nat, j: nat, w: nat)
    requires i <= j <= |lines|
    ensures CountOf(lines[..i], w) <= CountOf(lines[..j], w)
    ensures i < j && lines[i].writer == w ==> CountOf(lines[..i], w) < CountOf(lines[..j], w)
    decreases j - i
  {
    if i < j {
      assert lines[..i + 1] == lines[..i] + [lines[i]];
      CountSnoc(lines[..i], lines[i], w);
      CountGrows(lines, i + 1, j, w);
    }
  }

  lemma BehindAfterPush(s: Stream, w: nat)
    requires AtMostOneBehind(s.pushed, s.sent) && Possible(s, Push(w))
    ensures AtMostOneBehind(Next(s, Push(w)).pushed, s.sent)
  {
    forall v ensures CountOf(s.sent, v) <= CountOf(Next(s, Push(w)).pushed, v) <= CountOf(s.sent, v) + 1 {
      CountSnoc(s.pushed, Line(w, CountOf(s.pushed, w)), v);
    }
  }

  lemma BehindAfterBroadcast(s: Stream, w: nat)
    requires AtMostOneBehind(s.pushed, s.sent) && Possible(s, Broadcast(w))
    ensures AtMostOneBehind(s.pushed, Next(s, Broadcast(w)).sent)
  {
    var sent := Next(s, Broadcast(w)).sent;
    forall v ensures CountOf(sent, v) <= CountOf(s.pushed, v) <= CountOf(sent, v) + 1 {
      CountSnoc(s.sent, Line(w, CountOf(s.sent, w)), v);
    }
  }

  /** Writing more leaves what the reader has fixed alone. */
  lemma SnapshotStays(s: Stream, s': Stream)
    requires SnapshotOk(s) && s.pushed <= s'.pushed && s.sent <= s'.sent
    requires s'.snapshot == s.snapshot && s'.forwarded == s.forwarded
    ensures SnapshotOk(s')
  {
    if s.snapshot.Some? {
      var p := s.snapshot.value;
      assert s'.pushed[..p.upTo] == s.pushed[..p.upTo];
      assert s'.sent[..p.sentBy] == s.sent[..p.sentBy];
      assert s'.pushed[p.upTo - |p.lines|..p.upTo] == s.pushed[p.upTo - |p.lines|..p.upTo];
    }
  }

  lemma OutStays(s: Stream, s': Stream)
    requires OutOk(s) && s.sent <= s'.sent
    requires s'.snapshot == s.snapshot && s'.forwarded == s.forwarded && s'.out == s.out && TakenBy(s') == TakenBy(s)
    ensures OutOk(s')
  {
    forall k | 0 <= k < |TakenBy(s')|
      ensures TakenBy(s')[k] < |s'.sent| && s'.out[s'.forwarded + k] == s'.sent[TakenBy(s')[k]]
    {
      assert s.out[s.forwarded + k] == s.sent[TakenBy(s)[k]];
    }
  }

  lemma SubscriptionStays(s: Stream, s': Stream)
    requires SubscriptionOk(s) && |s.sent| <= |s'.sent|
    requires s'.snapshot == s.snapshot && s'.forwarded == s.forwarded && s'.subscription == s.subscription
    ensures SubscriptionOk(s')
  {
  }

  lemma PushKeepsInv(s: Stream, w: nat)
    requires Inv(s) && Possible(s, Push(w))
    ensures Inv(Next(s, Push(w)))
  {
    var s' := Next(s, Push(w));
    NumberedSnoc(s.pushed, w);
    BehindAfterPush(s, w);
    SnapshotStays(s, s');
    OutStays(s, s');
    SubscriptionStays(s, s');
  }

  lemma BroadcastKeepsInv(s: Stream, w: nat)
    requires Inv(s) && Possible(s, Broadcast(w))
    ensures Inv(Next(s, Broadcast(w)))
  {
    var s' := Next(s, Broadcast(w));
    NumberedSnoc(s.sent, w);
    BehindAfterBroadcast(s, w);
    SnapshotStays(s, s');
    OutStays(s, s');
    SubscriptionStays(s, s');
  }

  lemma SnapshotKeepsInv(s: Stream, lines: nat)
    requires Inv(s) && Possible(s, TakeSnapshot(lines))
    ensures Inv(Next(s, TakeSnapshot(lines)))
  {
    assert s.pushed[..|s.pushed|] == s.pushed && s.sent[..|s.sent|] == s.sent;
    var recent := Recent(s.pushed, lines);
    assert recent == s.pushed[|s.pushed| - |recent|..|s.pushed|];
  }

  lemma ForwardKeepsInv(s: Stream)
    requires Inv(s) && Possible(s, ForwardSnapshot)
    ensures Inv(Next(s, ForwardSnapshot))
  {
    ForwardKeepsOut(s);
    ForwardKeepsReader(s);
  }

  lemma ForwardKeepsOut(s: Stream)
    requires OutOk(s) && SubscriptionOk(s) && Possible(s, ForwardSnapshot)
    ensures OutOk(Next(s, ForwardSnapshot))
  {
    assert TakenBy(s) == [];
  }

  lemma ForwardKeepsReader(s: Stream)
    requires SnapshotOk(s) && SubscriptionOk(s) && Possible(s, ForwardSnapshot)
    ensures SnapshotOk(Next(s, ForwardSnapshot)) && SubscriptionOk(Next(s, ForwardSnapshot))
  {
  }

  lemma IncreasingSnoc(positions: seq<nat>, c: nat)
    requires Increasing(positions) && forall k | 0 <= k < |positions| :: positions[k] < c
    ensures Increasing(positions + [c])
  {
  }

  lemma ReceiveKeepsOut(s: Stream)
    requires OutOk(s) && Possible(s, Receive)
    ensures OutOk(Next(s, Receive))
  {
    var s', c := Next(s, Receive), s.subscription.value.cursor;
    assert TakenBy(s') == TakenBy(s) + [c];
    forall k | 0 <= k < |TakenBy(s')|
      ensures TakenBy(s')[k] < |s'.sent| && s'.out[s'.forwarded + k] == s'.sent[TakenBy(s')[k]]
    {
      if k < |TakenBy(s)| {
        assert s.out[s.forwarded + k] == s.sent[TakenBy(s)[k]];
      }
    }
  }

  lemma ReceiveKeepsInv(s: Stream)
    requires Inv(s) && Possible(s, Receive)
    ensures Inv(Next(s, Receive))
  {
    ReceiveKeepsOut(s);
    ReceiveKeepsSubscription(s);
    SnapshotStays(s, Next(s, Receive));
  }

  lemma ReceiveKeepsSubscription(s: Stream)
    requires SubscriptionOk(s) && Possible(s, Receive)
    ensures SubscriptionOk(Next(s, Receive))
  {
    IncreasingSnoc(s.subscription.value.taken, s.subscription.value.cursor);
  }

  lemma SubscribeKeepsInv(s: Stream)
    requires Inv(s) && Possible(s, Subscribe)
    ensures Inv(Next(s, Subscribe))
  {
    var s' := Next(s, Subscribe);
    SnapshotStays(s, s');
    OutStays(s, s');
  }

  lemma LagKeepsInv(s: Stream, k: nat)
    requires Inv(s) && Possible(s, Lag(k))
    ensures Inv(Next(s, Lag(k)))
  {
    var s' := Next(s, Lag(k));
    SnapshotStays(s, s');
    OutStays(s, s');
  }

  lemma NextKeepsInv(s: Stream, a: Action)
    requires Inv(s) && Possible(s, a)
    ensures Inv(Next(s, a))
  {
    match a
    case Push(w) => PushKeepsInv(s, w);
    case Broadcast(w) => BroadcastKeepsInv(s, w);
    case TakeSnapshot(lines) => SnapshotKeepsInv(s, lines);
    case ForwardSnapshot => ForwardKeepsInv(s);
    case Receive => ReceiveKeepsInv(s);
    case Subscribe => SubscribeKeepsInv(s);
    case Lag(k) => LagKeepsInv(s, k);
  }

  lemma {:induction false} RunKeepsInv(s: Stream, acts: seq<Action>)
    requires Inv(s) && IsRun(s, acts)
    ensures Inv(Final(s, acts))
    decreases |acts|
  {
    if acts != [] {
      NextKeepsInv(s, acts[0]);
      RunKeepsInv(Next(s, acts[0]), acts[1..]);
    }
  }

  lemma EveryRun(acts: seq<Action>)
    requires IsRun(Empty(), acts)
    ensures Inv(Final(Empty(), acts))
  {
    assert Inv(Empty());
    RunKeepsInv(Empty(), acts);
  }

  /** Nobody waits for anybody: a writer can always push or broadcast, one of the two; the reader can
      take a snapshot of any size, then subscribe or forward, then receive what has been broadcast. */
  lemma NothingRuledOut(s: Stream, w: nat, lines: nat)
    requires Inv(s)
    ensures Possible(s, Push(w)) <==> !Possible(s, Broadcast(w))
    ensures s.snapshot.None? ==> Possible(s, TakeSnapshot(lines))
    ensures s.snapshot.Some? && s.subscription.None? && s.forwarded == 0 ==> Possible(s, Subscribe)
    ensures s.snapshot.Some? && !SnapshotForwarded(s) ==> Possible(s, ForwardSnapshot)
    ensures SnapshotForwarded(s) && s.subscription.Some? && s.subscription.value.cursor < |s.sent| ==>
              Possible(s, Receive)
  {
    assert CountOf(s.sent, w) <= CountOf(s.pushed, w) <= CountOf(s.sent, w) + 1;
  }

  // ---------------------------------------------------------------- what the client sees

  lemma EarlierIsSmaller(lines: seq<Line>, i: nat, j: nat)
    requires Numbered(lines) && i < j < |lines| && lines[i].writer == lines[j].writer
    ensures lines[i].number < lines[j].number
  {
    CountGrows(lines, i, j, lines[i].writer);
  }

  /** A line pushed before the snapshot against one broadcast after it: never backwards, and equal
      only for the line that was pushed but not yet broadcast at the snapshot. */
  lemma AcrossTheSeam(pushed: seq<Line>, sent: seq<Line>, upTo: nat, sentBy: nat, i: nat, t: nat)
    requires Numbered(pushed) && Numbered(sent)
    requires i < upTo <= |pushed| && sentBy <= t < |sent|
    requires AtMostOneBehind(pushed[..upTo], sent[..sentBy])
    requires pushed[i].writer == sent[t].writer
    ensures pushed[i].number <= sent[t].number
    ensures pushed[i].number == sent[t].number ==>
              && CountOf(pushed[..upTo], pushed[i].writer) == pushed[i].number + 1
              && CountOf(sent[..sentBy], pushed[i].writer) == pushed[i].number
  {
    CountGrows(pushed, i, upTo, pushed[i].writer);
    CountGrows(sent, sentBy, t, pushed[i].writer);
  }

  lemma OutFromSnapshot(s: Stream, k: nat)
    requires Inv(s) && k < s.forwarded
    ensures k < |s.out| && s.snapshot.Some?
    ensures var p := s.snapshot.value; |p.lines| <= p.upTo && s.out[k] == s.pushed[p.upTo - |p.lines| + k]
  {
  }

  lemma OutFromFollow(s: Stream, k: nat)
    requires Inv(s) && s.forwarded <= k < |s.out|
    ensures s.subscription.Some? && k - s.forwarded < |s.subscription.value.taken|
    ensures var t := s.subscription.value.taken[k - s.forwarded];
            s.subscription.value.start <= t < |s.sent| && s.out[k] == s.sent[t]
  {
  }

  lemma SnapshotStart(s: Stream, i: nat, j: nat) returns (from: nat)
    requires Inv(s) && i < j < s.forwarded
    ensures s.forwarded <= |s.out| && from + j < |s.pushed|
    ensures s.out[i] == s.pushed[from + i] && s.out[j] == s.pushed[from + j]
  {
    OutFromSnapshot(s, j);
    OutFromSnapshot(s, i);
    assert |s.snapshot.value.lines| <= s.snapshot.value.upTo <= |s.pushed|;
    from := s.snapshot.value.upTo - |s.snapshot.value.lines|;
  }

  lemma SnapshotPartInOrder(s: Stream, i: nat, j: nat)
    requires Inv(s) && i < j < s.forwarded && s.out[i].writer == s.out[j].writer
    ensures s.out[i].number < s.out[j].number
  {
    var from := SnapshotStart(s, i, j);
    EarlierIsSmaller(s.pushed, from + i, from + j);
  }

  lemma FollowPartInOrder(s: Stream, i: nat, j: nat)
    requires Inv(s) && s.forwarded <= i < j < |s.out| && s.out[i].writer == s.out[j].writer
    ensures s.out[i].number < s.out[j].number
  {
    OutFromFollow(s, i);
    OutFromFollow(s, j);
    var taken := s.subscription.value.taken;
    EarlierIsSmaller(s.sent, taken[i - s.forwarded], taken[j - s.forwarded]);
  }

  lemma SeamInOrder(s: Stream, i: nat, j: nat)
    requires Inv(s) && i < s.forwarded <= j < |s.out| && s.out[i].writer == s.out[j].writer
    ensures s.out[i].number <= s.out[j].number
    ensures s.snapshot.Some? && s.subscription.Some? && s.snapshot.value.upTo <= |s.pushed|
    ensures s.snapshot.value.sentBy <= s.subscription.value.start <= |s.sent|
    ensures s.out[i] == s.out[j] ==>
              && CountOf(s.pushed[..s.snapshot.value.upTo], s.out[i].writer) == s.out[i].number + 1
              && CountOf(s.sent[..s.snapshot.value.sentBy], s.out[i].writer) == s.out[i].number
              && CountOf(s.sent[..s.subscription.value.start], s.out[i].writer) == s.out[i].number
  {
    OutFromSnapshot(s, i);
    OutFromFollow(s, j);
    var p, f := s.snapshot.value, s.subscription.value;
    var t := f.taken[j - s.forwarded];
    AcrossTheSeam(s.pushed, s.sent, p.upTo, p.sentBy, p.upTo - |p.lines| + i, t);
    CountGrows(s.sent, p.sentBy, f.start, s.out[i].writer);
    CountGrows(s.sent, f.start, t, s.out[i].writer);
  }

  lemma OutInOrder(s: Stream, i: nat, j: nat)
    requires Inv(s) && i < j < |s.out| && s.out[i].writer == s.out[j].writer
    ensures s.out[i].number < s.out[j].number || (s.out[i] == s.out[j] && i < s.forwarded <= j)
  {
    if j < s.forwarded {
      SnapshotPartInOrder(s, i, j);
    } else if s.forwarded <= i {
      FollowPartInOrder(s, i, j);
    } else {
      SeamInOrder(s, i, j);
    }
  }

  /** A repeated line is its writer's last one in the snapshot part and its first one after. */
  lemma RepeatIsAtSeam(s: Stream, i: nat, j: nat, k: nat)
    requires Inv(s) && i < j < |s.out| && s.out[i] == s.out[j]
    requires i < k < j
    ensures s.out[k].writer != s.out[i].writer
  {
    if s.out[k].writer == s.out[i].writer {
      OutInOrder(s, i, k);
      OutInOrder(s, k, j);
    }
  }

  /** For every interleaving of any number of writers with snapshot, subscription and lag: the lines
      of one writer reach the client in strictly increasing order, but for a line repeated across the
      seam between snapshot and follow. */
  lemma DeliveredInOrder(acts: seq<Action>, i: nat, j: nat)
    requires IsRun(Empty(), acts)
    requires i < j < |Final(Empty(), acts).out|
    requires Final(Empty(), acts).out[i].writer == Final(Empty(), acts).out[j].writer
    ensures var s := Final(Empty(), acts);
            || s.out[i].number < s.out[j].number
            || (s.out[i] == s.out[j] && i < s.forwarded <= j)
  {
    EveryRun(acts);
    OutInOrder(Final(Empty(), acts), i, j);
  }

  /** Each writer has at most one repeated line, repeated once: no line of the same writer lies
      between the two, and any two such pairs are the same. */
  lemma OneRepeatPerWriter(acts: seq<Action>, i: nat, j: nat, i': nat, j': nat)
    requires IsRun(Empty(), acts)
    requires i < j < |Final(Empty(), acts).out| && i' < j' < |Final(Empty(), acts).out|
    requires Final(Empty(), acts).out[i] == Final(Empty(), acts).out[j]
    requires Final(Empty(), acts).out[i'] == Final(Empty(), acts).out[j']
    requires Final(Empty(), acts).out[i].writer == Final(Empty(), acts).out[i'].writer
    ensures i == i' && j == j'
    ensures forall k | i < k < j :: Final(Empty(), acts).out[k].writer != Final(Empty(), acts).out[i].writer
  {
    EveryRun(acts);
    var s := Final(Empty(), acts);
    OutInOrder(s, i, j);
    OutInOrder(s, i', j');
    forall k | i < k < j ensures s.out[k].writer != s.out[i].writer {
      RepeatIsAtSeam(s, i, j, k);
    }
    forall k | i' < k < j' ensures s.out[k].writer != s.out[i'].writer {
      RepeatIsAtSeam(s, i', j', k);
    }
    assert i < s.forwarded <= j && i' < s.forwarded <= j';
  }

  /** A line comes twice only if it was in flight, pushed but not broadcast, all the way from the
      snapshot to the subscription. */
  lemma RepeatedWasInFlight(acts: seq<Action>, i: nat, j: nat)
    requires IsRun(Empty(), acts)
    requires i < j < |Final(Empty(), acts).out| && Final(Empty(), acts).out[i] == Final(Empty(), acts).out[j]
    ensures var s := Final(Empty(), acts);
            var l := s.out[i];
            && s.snapshot.Some? && s.subscription.Some?
            && s.snapshot.value.upTo <= |s.pushed| && s.subscription.value.start <= |s.sent|
            && CountOf(s.pushed[..s.snapshot.value.upTo], l.writer) == l.number + 1
            && CountOf(s.sent[..s.subscription.value.start], l.writer) == l.number
  {
    EveryRun(acts);
    OutInOrder(Final(Empty(), acts), i, j);
    SeamInOrder(Final(Empty(), acts), i, j);
  }

  // ---------------------------------------------------------------- what is missing

  /** The client has been given all its subscription holds so far, and never lagged. */
  ghost predicate CaughtUp(s: Stream) {
    && s.subscription.Some? && SnapshotForwarded(s)
    && s.subscription.value.cursor == |s.sent| && s.subscription.value.start <= |s.sent|
    && |s.subscription.value.taken| == |s.sent| - s.subscription.value.start
  }

  lemma {:induction false} AtLeast(positions: seq<nat>, start: nat, k: nat)
    requires Increasing(positions) && k < |positions|
    requires forall j | 0 <= j < |positions| :: start <= positions[j]
    ensures positions[k] >= start + k
  {
    if k > 0 {
      AtLeast(positions, start, k - 1);
    }
  }

  lemma {:induction false} AtMost(positions: seq<nat>, start: nat, k: nat)
    requires Increasing(positions) && k < |positions|
    requires forall j | 0 <= j < |positions| :: positions[j] < start + |positions|
    ensures positions[k] <= start + k
    decreases |positions| - k
  {
    if k < |positions| - 1 {
      AtMost(positions, start, k + 1);
    }
  }

  /** Without lag a caught-up client has the snapshot followed by everything broadcast since it
      subscribed: nothing else, and nothing less. */
  lemma CaughtUpExactly(acts: seq<Action>)
    requires IsRun(Empty(), acts) && CaughtUp(Final(Empty(), acts))
    ensures var s := Final(Empty(), acts);
            s.out == s.snapshot.value.lines + s.sent[s.subscription.value.start..]
  {
    EveryRun(acts);
    var s := Final(Empty(), acts);
    var f := s.subscription.value;
    forall k | 0 <= k < |f.taken| ensures f.taken[k] == f.start + k {
      AtLeast(f.taken, f.start, k);
      AtMost(f.taken, f.start, k);
    }
    TakenInARow(s);
  }

  lemma TakenInARow(s: Stream)
    requires Inv(s) && CaughtUp(s)
    requires forall k | 0 <= k < |s.subscription.value.taken| ::
               s.subscription.value.taken[k] == s.subscription.value.start + k
    ensures s.out == s.snapshot.value.lines + s.sent[s.subscription.value.start..]
  {
    var lines, tail := s.snapshot.value.lines, s.sent[s.subscription.value.start..];
    forall k | 0 <= k < |s.out| ensures s.out[k] == (lines + tail)[k] {
      if k >= s.forwarded {
        OutFromFollow(s, k);
      }
    }
  }

  lemma {:induction false} PositionOf(lines: seq<Line>, l: Line) returns (k: nat)
    requires Numbered(lines) && l.number < CountOf(lines, l.writer)
    ensures k < |lines| && lines[k] == l
  {
    var last := |lines| - 1;
    if lines[last].writer == l.writer && l.number == CountOf(lines[..last], l.writer) {
      k := last;
    } else {
      assert forall i | 0 <= i < last :: lines[..last][..i] == lines[..i];
      k := PositionOf(lines[..last], l);
    }
  }

  /** A line lies at or after position `n` iff the part before does not count it. */
  lemma LaterIff(lines: seq<Line>, n: nat, l: Line)
    requires Numbered(lines) && n <= |lines| && l.number < CountOf(lines, l.writer)
    ensures l in lines[n..] <==> CountOf(lines[..n], l.writer) <= l.number
  {
    var k := PositionOf(lines, l);
    if k >= n {
      CountGrows(lines, n, k, l.writer);
      InTail(lines, n, k);
    } else {
      CountGrows(lines, k, n, l.writer);
      forall j | n <= j < |lines| ensures lines[j] != l {
        CountGrows(lines, k, j, l.writer);
      }
      NotInTail(lines, n, l);
    }
  }

  lemma InTail(lines: seq<Line>, n: nat, k: nat)
    requires n <= k < |lines|
    ensures lines[k] in lines[n..]
  {
    assert lines[n..][k - n] == lines[k];
  }

  lemma NotAmongEarlier(lines: seq<Line>, n: nat, l: Line)
    requires Numbered(lines) && n <= |lines| && CountOf(lines[..n], l.writer) <= l.number
    ensures l !in lines[..n]
  {
    forall i | 0 <= i < n ensures lines[i] != l {
      CountGrows(lines, i, n, lines[i].writer);
    }
  }

  lemma PartOfPrefix(lines: seq<Line>, n: nat, part: seq<Line>, l: Line)
    requires |part| <= n <= |lines| && part == lines[n - |part|..n] && l !in lines[..n]
    ensures l !in part
  {
    forall i | 0 <= i < |part| ensures part[i] != l {
      assert part[i] == lines[..n][n - |part| + i];
    }
  }

  lemma BroadcastHasNumber(lines: seq<Line>, k: nat)
    requires Numbered(lines) && k < |lines|
    ensures lines[k].number < CountOf(lines, lines[k].writer)
  {
    CountGrows(lines, k, |lines|, lines[k].writer);
    assert lines[..|lines|] == lines;
  }

  ghost predicate Twice(out: seq<Line>, l: Line) {
    exists i, j :: 0 <= i < j < |out| && out[i] == l && out[j] == l
  }

  lemma InBothParts(a: seq<Line>, b: seq<Line>, l: Line)
    requires l in a && l in b
    ensures Twice(a + b, l)
  {
    var i :| 0 <= i < |a| && a[i] == l;
    var k :| 0 <= k < |b| && b[k] == l;
    assert (a + b)[i] == l && (a + b)[|a| + k] == l;
  }

  lemma RepeatInBothParts(s: Stream, l: Line)
    requires Inv(s) && CaughtUp(s) && Twice(s.out, l)
    requires s.out == s.snapshot.value.lines + s.sent[s.subscription.value.start..]
    ensures l in s.snapshot.value.lines && l in s.sent[s.subscription.value.start..]
  {
    var i, j :| 0 <= i < j < |s.out| && s.out[i] == l && s.out[j] == l;
    OutInOrder(s, i, j);
    assert s.out[i] == s.snapshot.value.lines[i];
    assert s.out[j] == s.sent[s.subscription.value.start..][j - |s.snapshot.value.lines|];
  }

  /** A line lies at or after position `n` iff it has come by now, but not before. */
  lemma CameLaterIff(lines: seq<Line>, n: nat, l: Line)
    requires Numbered(lines) && n <= |lines|
    ensures l in lines[n..] <==> CountOf(lines[..n], l.writer) <= l.number < CountOf(lines, l.writer)
  {
    if l.number < CountOf(lines, l.writer) {
      LaterIff(lines, n, l);
    } else {
      forall k | n <= k < |lines| ensures lines[k] != l {
        BroadcastHasNumber(lines, k);
      }
      NotInTail(lines, n, l);
    }
  }

  lemma NotInTail(lines: seq<Line>, n: nat, l: Line)
    requires n <= |lines| && forall k | n <= k < |lines| :: lines[k] != l
    ensures l !in lines[n..]
  {
  }

  /** Exactly which lines a caught-up client that never lagged has received twice: those of the
      snapshot that were broadcast by now, but not before the subscription. */
  lemma RepeatedIff(acts: seq<Action>, l: Line)
    requires IsRun(Empty(), acts) && CaughtUp(Final(Empty(), acts))
    ensures Twice(Final(Empty(), acts).out, l) <==>
            var s := Final(Empty(), acts);
            && l in s.snapshot.value.lines
            && CountOf(s.sent[..s.subscription.value.start], l.writer) <= l.number < CountOf(s.sent, l.writer)
  {
    EveryRun(acts);
    var s := Final(Empty(), acts);
    var start := s.subscription.value.start;
    CaughtUpExactly(acts);
    CameLaterIff(s.sent, start, l);
    if Twice(s.out, l) {
      RepeatInBothParts(s, l);
    } else if l in s.snapshot.value.lines && l in s.sent[start..] {
      InBothParts(s.snapshot.value.lines, s.sent[start..], l);
    }
  }

  /** The exact gap of a caught-up client that never lagged: a line pushed after the snapshot and
      broadcast by now is missing iff it was broadcast before the subscription. */
  lemma MissedIff(acts: seq<Action>, l: Line)
    requires IsRun(Empty(), acts) && CaughtUp(Final(Empty(), acts))
    requires var s := Final(Empty(), acts);
             && s.snapshot.Some? && s.snapshot.value.upTo <= |s.pushed|
             && CountOf(s.pushed[..s.snapshot.value.upTo], l.writer) <= l.number < CountOf(s.sent, l.writer)
    ensures var s := Final(Empty(), acts);
            l !in s.out <==> l.number < CountOf(s.sent[..s.subscription.value.start], l.writer)
  {
    EveryRun(acts);
    var s := Final(Empty(), acts);
    var p, f := s.snapshot.value, s.subscription.value;
    CaughtUpExactly(acts);
    NotAmongEarlier(s.pushed, p.upTo, l);
    PartOfPrefix(s.pushed, p.upTo, p.lines, l);
    LaterIff(s.sent, f.start, l);
  }
}
