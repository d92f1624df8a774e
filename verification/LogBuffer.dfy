/** The in-memory log of one process: a ring buffer fed by a stdout and a stderr reader
    (cirond/src/process.rs, `spawn_log_reader` and `get_recent_logs`). */
module LogBuffer {
  import opened Wrappers

  const LOG_BUFFER_CAPACITY: nat := 1000

  datatype LogSource = Stdout | Stderr

  datatype LogLine = LogLine(timestamp: nat, source: LogSource, message: string)

  function LastN<T>(s: seq<T>, n: nat): seq<T> {
    if |s| <= n then s else s[|s| - n..]
  }

  function Min(a: nat, b: nat): (m: nat)
    ensures m <= a && m <= b && (m == a || m == b)
  {
    if a <= b then a else b
  }

  /** `recent` are the last lines of `history`: as many as were asked for, but no more than there are,
      and never more than 1000; without a number, all that are buffered. */
  ghost predicate Newest<T>(history: seq<T>, lines: nat, recent: seq<T>) {
    && |recent| == Min(Min(|history|, 1000), if lines == 0 then 1000 else lines)
    && recent == history[|history| - |recent|..]
  }

  lemma LastIsNewest<T>(history: seq<T>, lines: nat)
    ensures Newest(history, lines,
              LastN(history, if lines == 0 then LOG_BUFFER_CAPACITY else Min(lines, LOG_BUFFER_CAPACITY)))
  {
  }

  ghost predicate IsSuffix<T>(a: seq<T>, b: seq<T>) {
    |a| <= |b| && a == b[|b| - |a|..]
  }

  /** What a source contributed to a listing of lines. */
  ghost function FromSource(lines: seq<LogLine>, source: LogSource): seq<LogLine> {
    if lines == [] then []
    else
      (if lines[0].source == source then [lines[0]] else []) + FromSource(lines[1..], source)
  }

  lemma {:induction false} FromSourceConcat(a: seq<LogLine>, b: seq<LogLine>, source: LogSource)
    ensures FromSource(a + b, source) == FromSource(a, source) + FromSource(b, source)
  {
    if a == [] {
      assert a + b == b;
    } else {
      FromSourceConcat(a[1..], b, source);
      FromSourceHead(a[0], a[1..] + b, source);
      FromSourceHead(a[0], a[1..], source);
      assert a + b == [a[0]] + (a[1..] + b) && a == [a[0]] + a[1..];
      Regroup(FromSource([a[0]], source), FromSource(a[1..], source), FromSource(b, source));
    }
  }

  lemma FromSourceHead(line: LogLine, rest: seq<LogLine>, source: LogSource)
    ensures FromSource([line] + rest, source) == FromSource([line], source) + FromSource(rest, source)
  {
    assert ([line] + rest)[1..] == rest;
    var own := if line.source == source then [line] else [];
    assert FromSource([line], source) == own + [] == own;
  }

  lemma Regroup<T>(a: seq<T>, b: seq<T>, c: seq<T>)
    ensures a + (b + c) == (a + b) + c
  {
  }

  /** Of each source, the newest lines hold a suffix of everything that source ever pushed. */
  lemma NewestHoldSuffixPerSource(history: seq<LogLine>, lines: nat, recent: seq<LogLine>, source: LogSource)
    requires Newest(history, lines, recent)
    ensures IsSuffix(FromSource(recent, source), FromSource(history, source))
  {
    var k := |history| - |recent|;
    assert history == history[..k] + history[k..];
    FromSourceConcat(history[..k], history[k..], source);
  }

  /** The buffer holds the newest lines of the history, so its own newest lines are. */
  lemma BufferedIsNewest(history: seq<LogLine>, buffer: seq<LogLine>, lines: nat, start: nat)
    requires buffer == LastN(history, LOG_BUFFER_CAPACITY)
    requires start == if lines == 0 || lines >= |buffer| then 0 else |buffer| - lines
    ensures Newest(history, lines, buffer[start..])
  {
  }

  class ProcessLog {
    const logForward: bool
    var buffer: seq<LogLine>
    ghost var history: seq<LogLine>

    /** The buffer is the newest part of everything pushed. */
    ghost predicate Valid()
      reads this
    {
      buffer == LastN(history, LOG_BUFFER_CAPACITY)
    }

    constructor (forward: bool)
      ensures Valid() && history == [] && logForward == forward
    {
      logForward := forward;
      buffer, history := [], [];
    }

    /** The locked part of a log reader: the oldest line makes room. */
    method Push(entry: LogLine)
      requires Valid()
      modifies this
      ensures Valid() && history == old(history) + [entry]
      ensures |buffer| == Min(1000, |history|) && buffer == history[|history| - |buffer|..]
    {
      if |buffer| >= LOG_BUFFER_CAPACITY {
        buffer := buffer[1..];
      }
      buffer := buffer + [entry];
      history := history + [entry];
    }

    method RecentLines(lines: nat) returns (recent: seq<LogLine>)
      requires Valid()
      ensures Newest(history, lines, recent)
      ensures forall source :: IsSuffix(FromSource(recent, source), FromSource(history, source))
    {
      var start := if lines == 0 || lines >= |buffer| then 0 else |buffer| - lines;
      recent := buffer[start..];
      BufferedIsNewest(history, buffer, lines, start);
      forall source ensures IsSuffix(FromSource(recent, source), FromSource(history, source)) {
        NewestHoldSuffixPerSource(history, lines, recent, source);
      }
    }
  }

  /** `get_recent_logs`: unknown programs and programs without `log_forward` are errors. */
  method GetRecentLogs(logs: map<string, ProcessLog>, name: string, lines: nat)
    returns (r: Result<seq<LogLine>, string>)
    requires forall n | n in logs :: logs[n].Valid()
    ensures r.Ok? <==> name in logs && logs[name].logForward
    ensures r.Ok? ==> Newest(logs[name].history, lines, r.value)
  {
    if name !in logs {
      return Err("Program not found");
    }
    if !logs[name].logForward {
      return Err("Log forwarding is disabled");
    }
    var recent := logs[name].RecentLines(lines);
    r := Ok(recent);
  }
}
