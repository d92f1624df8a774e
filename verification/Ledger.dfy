/** Counting events, monitors and marks. */
module Ledger {
  import opened Wrappers
  import opened Sequences
  import opened Configuration
  import opened Supervisor

  /** The restart policies as they are documented: `always`, or `on-failure` after a nonzero code. */
  ghost predicate Restartable(policy: Option<string>, code: int) {
    policy == Some("always") || (policy == Some("on-failure") && code != 0)
  }

  /** A class of events about one program. */
  datatype Kind =
    | StartOf(name: string)
    | EndOf(name: string)
    | RequestOf(name: string)
    | RestartableExitOf(name: string, policy: Option<string>)
    | FailureExitOf(name: string)
    | ExitOf(name: string)

  ghost predicate Matches(k: Kind, e: Event) {
    match k
    case StartOf(n) => e == Started(n)
    case EndOf(n) => (e.Exited? || e.Failed?) && e.name == n
    case RequestOf(n) => e == RestartRequested(n)
    case RestartableExitOf(n, policy) => e.Exited? && e.name == n && Restartable(policy, e.code)
    case FailureExitOf(n) => e.Exited? && e.name == n && e.code != 0
    case ExitOf(n) => e.Exited? && e.name == n
  }

  ghost function Count(events: seq<Event>, k: Kind): nat {
    if events == [] then 0
    else Count(events[..|events| - 1], k) + if Matches(k, events[|events| - 1]) then 1 else 0
  }

  /** Every event ever sent, in order: handled ones, then queued ones. */
  ghost function History(s: System): seq<Event> {
    s.handled + s.queue
  }

  /** The tasks of `tasks` that watch program `n`. */
  ghost function Tasks(tasks: map<nat, string>, n: string): set<nat> {
    set m | m in tasks && tasks[m] == n
  }

  ghost function Policy(s: System, n: string): Option<string> {
    PolicyOf(s.configs, n)
  }

  /** In every prefix, events of kind `less` are no more numerous than events of kind `more`. */
  ghost predicate Dominated(events: seq<Event>, less: Kind, more: Kind) {
    forall i | 0 <= i <= |events| :: Count(events[..i], less) <= Count(events[..i], more)
  }

  lemma CountSnoc(events: seq<Event>, e: Event, k: Kind)
    ensures Count(events + [e], k) == Count(events, k) + if Matches(k, e) then 1 else 0
  {
    assert (events + [e])[..|events|] == events;
  }

  lemma {:induction false} CountConcat(a: seq<Event>, b: seq<Event>, k: Kind)
    ensures Count(a + b, k) == Count(a, k) + Count(b, k)
  {
    if b == [] {
      assert a + b == a;
    } else {
      var front, last := b[..|b| - 1], b[|b| - 1];
      CountConcat(a, front, k);
      assert a + b == (a + front) + [last];
      CountSnoc(a + front, last, k);
    }
  }

  lemma CountOne(e: Event, k: Kind)
    ensures Count([e], k) == if Matches(k, e) then 1 else 0
  {
    CountSnoc([], e, k);
    assert [] + [e] == [e];
  }

  lemma CountHead(events: seq<Event>, k: Kind)
    requires events != []
    ensures Count(events, k) == Count(events[1..], k) + if Matches(k, events[0]) then 1 else 0
  {
    CountConcat([events[0]], events[1..], k);
    CountOne(events[0], k);
    assert [events[0]] + events[1..] == events;
  }

  lemma {:induction false} CountPositive(events: seq<Event>, k: Kind)
    ensures Count(events, k) > 0 <==> exists i | 0 <= i < |events| :: Matches(k, events[i])
  {
    if events != [] {
      var front := events[..|events| - 1];
      CountPositive(front, k);
      if Count(front, k) > 0 {
        var i :| 0 <= i < |front| && Matches(k, front[i]);
        assert Matches(k, events[i]);
      }
    }
  }

  lemma DominatedEmpty(less: Kind, more: Kind)
    ensures Dominated([], less, more)
  {
    var none: seq<Event> := [];
    assert none[..0] == [];
  }

  lemma DominatedSnoc(events: seq<Event>, e: Event, less: Kind, more: Kind)
    requires Dominated(events, less, more)
    requires Count(events + [e], less) <= Count(events + [e], more)
    ensures Dominated(events + [e], less, more)
  {
    var longer := events + [e];
    forall i | 0 <= i <= |longer| ensures Count(longer[..i], less) <= Count(longer[..i], more) {
      if i <= |events| {
        assert longer[..i] == events[..i];
      } else {
        assert longer[..i] == longer;
      }
    }
  }

  lemma TasksAdd(tasks: map<nat, string>, m: nat, v: string, n: string)
    requires m !in tasks
    ensures |Tasks(tasks[m := v], n)| == |Tasks(tasks, n)| + if v == n then 1 else 0
  {
    if v == n {
      assert Tasks(tasks[m := v], n) == Tasks(tasks, n) + {m};
    } else {
      assert Tasks(tasks[m := v], n) == Tasks(tasks, n);
    }
  }

  lemma TasksRemove(tasks: map<nat, string>, m: nat, n: string)
    requires m in tasks
    ensures |Tasks(tasks - {m}, n)| == |Tasks(tasks, n)| - if tasks[m] == n then 1 else 0
  {
    if tasks[m] == n {
      assert Tasks(tasks, n) == Tasks(tasks - {m}, n) + {m};
    } else {
      assert Tasks(tasks - {m}, n) == Tasks(tasks, n);
    }
  }

  lemma MarksSnoc(trace: seq<Mark>, x: Mark, y: Mark)
    ensures Occurrences(trace + [x], y) == Occurrences(trace, y) + if x == y then 1 else 0
  {
    assert (trace + [x])[..|trace|] == trace;
  }

  /** The entry of `events` that is preceded by exactly `k` events of kind `kind` and is one itself. */
  lemma {:induction false} Nth(events: seq<Event>, kind: Kind, k: nat) returns (j: nat)
    requires k < Count(events, kind)
    ensures j < |events| && Matches(kind, events[j]) && Count(events[..j], kind) == k
  {
    var last := |events| - 1;
    if Matches(kind, events[last]) && Count(events[..last], kind) == k {
      j := last;
    } else {
      j := Nth(events[..last], kind, k);
      assert events[..last][..j] == events[..j];
    }
  }
}
