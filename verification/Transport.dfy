/** Transport addresses: parsing and printing (ciron-common/src/transport.rs). */
module Transport {
  import opened Wrappers

  const U16_MAX: nat := 0xFFFF
  const U32_MAX: nat := 0xFFFF_FFFF

  /** A path is its text: only UTF-8 paths are modelled. */
  datatype Transport =
    | Inet(host: string, port: nat)
    | Unix(path: string)
    | Vsock(cid: nat, port: nat)

  /** Values the source's field types can hold. */
  predicate InRange(t: Transport) {
    match t
    case Inet(_, port) => port <= U16_MAX
    case Unix(_) => true
    case Vsock(cid, port) => cid <= U32_MAX && port <= U32_MAX
  }

  // ---------------------------------------------------------------- numbers

  predicate IsDigit(c: char) {
    '0' <= c <= '9'
  }

  function DigitValue(c: char): nat
    requires IsDigit(c)
  {
    c as nat - '0' as nat
  }

  function DigitChar(d: nat): (c: char)
    requires d < 10
    ensures IsDigit(c) && DigitValue(c) == d
  {
    ('0' as nat + d) as char
  }

  /** The digit loop of `from_str`: every step checks the digit, the product and the sum. */
  function ParseDigits(s: string, max: nat): Option<nat> {
    if s == "" then Some(0)
    else
      match ParseDigits(s[..|s| - 1], max)
      case None => None
      case Some(high) =>
        var c := s[|s| - 1];
        if !IsDigit(c) || high * 10 > max || high * 10 + DigitValue(c) > max then None
        else Some(high * 10 + DigitValue(c))
  }

  /** `str::parse` for an unsigned type: at least one digit, after at most one leading '+'. */
  function ParseUnsigned(s: string, max: nat): Option<nat> {
    if s == "" then None
    else if s[0] == '+' then (if |s| == 1 then None else ParseDigits(s[1..], max))
    else ParseDigits(s, max)
  }

  function PrintNumber(n: nat): string {
    if n < 10 then [DigitChar(n)] else PrintNumber(n / 10) + [DigitChar(n % 10)]
  }

  /** The value a string of digits denotes. */
  ghost function Value(s: string): nat
    requires forall i | 0 <= i < |s| :: IsDigit(s[i])
  {
    if s == "" then 0 else Value(s[..|s| - 1]) * 10 + DigitValue(s[|s| - 1])
  }

  /** Checking every step accepts exactly the digit strings whose value is in range. */
  lemma {:induction false} ParseDigitsExact(s: string, max: nat)
    ensures ParseDigits(s, max).Some? <==> (forall i | 0 <= i < |s| :: IsDigit(s[i])) && Value(s) <= max
    ensures ParseDigits(s, max).Some? ==> ParseDigits(s, max).value == Value(s)
  {
    if s != "" {
      ParseDigitsExact(s[..|s| - 1], max);
    }
  }

  lemma {:induction false} PrintedDigits(n: nat)
    ensures PrintNumber(n) != "" && forall i | 0 <= i < |PrintNumber(n)| :: IsDigit(PrintNumber(n)[i])
    ensures Value(PrintNumber(n)) == n
  {
    if n < 10 {
      assert PrintNumber(n)[..0] == "";
    } else {
      PrintedDigits(n / 10);
      var s := PrintNumber(n);
      assert s[..|s| - 1] == PrintNumber(n / 10);
    }
  }

  lemma NumberRoundTrip(n: nat, max: nat)
    ensures ParseUnsigned(PrintNumber(n), max) == if n <= max then Some(n) else None
  {
    PrintedDigits(n);
    assert PrintNumber(n)[0] != '+';
    ParseDigitsExact(PrintNumber(n), max);
  }

  lemma ParsedInRange(s: string, max: nat)
    ensures ParseUnsigned(s, max).Some? ==> ParseUnsigned(s, max).value <= max
  {
    ParseDigitsExact(s, max);
    if s != "" {
      ParseDigitsExact(s[1..], max);
    }
  }

  // ---------------------------------------------------------------- splitting

  /** `split(c)`: one part more than there are separators. */
  function Split(s: string, c: char): (parts: seq<string>)
    ensures |parts| > 0
  {
    if s == "" then [""]
    else
      var rest := Split(s[1..], c);
      if s[0] == c then [""] + rest else [[s[0]] + rest[0]] + rest[1..]
  }

  ghost function Join(parts: seq<string>, c: char): string
    requires |parts| > 0
  {
    if |parts| == 1 then parts[0] else parts[0] + [c] + Join(parts[1..], c)
  }

  /** Splitting loses nothing and leaves no separator behind. */
  lemma {:induction false} SplitJoins(s: string, c: char)
    ensures Join(Split(s, c), c) == s
    ensures forall i | 0 <= i < |Split(s, c)| :: c !in Split(s, c)[i]
  {
    if s != "" {
      var rest := Split(s[1..], c);
      SplitJoins(s[1..], c);
      if s[0] == c {
        assert ([""] + rest)[1..] == rest;
        assert s == "" + [c] + s[1..];
      } else {
        var parts := Split(s, c);
        assert parts == [[s[0]] + rest[0]] + rest[1..];
        if |rest| == 1 {
          assert s == [s[0]] + rest[0];
        } else {
          assert parts[1..] == rest[1..];
          assert [s[0]] + (rest[0] + [c] + Join(rest[1..], c)) == ([s[0]] + rest[0]) + [c] + Join(rest[1..], c);
          assert s == [s[0]] + s[1..];
        }
      }
    }
  }

  lemma {:induction false} SplitWithout(s: string, c: char)
    requires c !in s
    ensures Split(s, c) == [s]
  {
    if s != "" {
      SplitWithout(s[1..], c);
      assert s == [s[0]] + s[1..];
    }
  }

  lemma {:induction false} SplitFirst(a: string, rest: string, c: char)
    requires c !in a
    ensures Split(a + [c] + rest, c) == [a] + Split(rest, c)
  {
    if a == "" {
      assert (a + [c] + rest)[1..] == rest;
    } else {
      var whole := a + [c] + rest;
      assert whole[1..] == a[1..] + [c] + rest;
      SplitFirst(a[1..], rest, c);
      assert a == [a[0]] + a[1..];
    }
  }

  /** Two parts mean one separator, between them. */
  lemma SplitInTwo(s: string, c: char, a: string, b: string)
    ensures Split(s, c) == [a, b] <==> s == a + [c] + b && c !in a && c !in b
  {
    if Split(s, c) == [a, b] {
      SplitJoins(s, c);
      assert [a, b][1..] == [b];
      assert c !in Split(s, c)[0] && c !in Split(s, c)[1];
    }
    if s == a + [c] + b && c !in a && c !in b {
      SplitFirst(a, b, c);
      SplitWithout(b, c);
    }
  }

  lemma {:induction false} SeparatorSplits(s: string, c: char)
    requires c in s
    ensures |Split(s, c)| >= 2
  {
    if s[0] != c {
      SeparatorSplits(s[1..], c);
    }
  }

  lemma SplitFirstSeparator(a: string, b: string, c: char, i: nat)
    requires i < |a| && a[i] == c && c !in a[..i]
    ensures |Split(a + [c] + b, c)| > 2
  {
    var tail := a[i + 1..];
    assert a + [c] + b == a[..i] + [c] + (tail + [c] + b);
    SplitFirst(a[..i], tail + [c] + b, c);
    assert (tail + [c] + b)[|tail|] == c;
    SeparatorSplits(tail + [c] + b, c);
  }

  // ---------------------------------------------------------------- parse and print

  function ParseInet(addr: string): Result<Transport, string> {
    var parts := Split(addr, ':');
    if |parts| != 2 then Err("Invalid inet address format. Expected host:port")
    else
      match ParseUnsigned(parts[1], U16_MAX)
      case None => Err("Invalid port number")
      case Some(port) => Ok(Inet(parts[0], port))
  }

  function ParseVsock(addr: string): Result<Transport, string> {
    var parts := Split(addr, ':');
    if |parts| != 2 then Err("Invalid vsock address format. Expected cid:port")
    else
      match ParseUnsigned(parts[0], U32_MAX)
      case None => Err("Invalid CID")
      case Some(cid) =>
        match ParseUnsigned(parts[1], U32_MAX)
        case None => Err("Invalid port")
        case Some(port) => Ok(Vsock(cid, port))
  }

  function Parse(s: string): Result<Transport, string> {
    if "inet://" <= s then ParseInet(s[|"inet://"|..])
    else if "tcp://" <= s then ParseInet(s[|"tcp://"|..])
    else if "unix://" <= s then Ok(Unix(s[|"unix://"|..]))
    else if "vsock://" <= s then ParseVsock(s[|"vsock://"|..])
    else Err("Unknown transport type. Use inet://, unix://, or vsock:// prefix")
  }

  function Display(t: Transport): string {
    match t
    case Inet(host, port) => "inet://" + (host + [':'] + PrintNumber(port))
    case Unix(path) => "unix://" + path
    case Vsock(cid, port) => "vsock://" + (PrintNumber(cid) + [':'] + PrintNumber(port))
  }

  lemma NumberHasNoColon(n: nat)
    ensures ':' !in PrintNumber(n)
  {
    PrintedDigits(n);
  }

  lemma InetRoundTrip(host: string, port: nat)
    requires port <= U16_MAX
    ensures ParseInet(host + [':'] + PrintNumber(port)) == Ok(Inet(host, port)) <==> ':' !in host
    ensures ':' in host ==> ParseInet(host + [':'] + PrintNumber(port)).Err?
  {
    NumberRoundTrip(port, U16_MAX);
    NumberHasNoColon(port);
    if ':' in host {
      FirstColon(host, PrintNumber(port));
    } else {
      SplitInTwo(host + [':'] + PrintNumber(port), ':', host, PrintNumber(port));
    }
  }

  lemma FirstColon(host: string, rest: string)
    requires ':' in host
    ensures |Split(host + [':'] + rest, ':')| > 2
  {
    var i := 0;
    while host[i] != ':'
      invariant 0 <= i < |host| && ':' !in host[..i]
      invariant ':' in host[i..]
      decreases |host| - i
    {
      i := i + 1;
    }
    SplitFirstSeparator(host, rest, ':', i);
  }

  lemma VsockRoundTrip(cid: nat, port: nat)
    requires cid <= U32_MAX && port <= U32_MAX
    ensures ParseVsock(PrintNumber(cid) + [':'] + PrintNumber(port)) == Ok(Vsock(cid, port))
  {
    NumberRoundTrip(cid, U32_MAX);
    NumberRoundTrip(port, U32_MAX);
    NumberHasNoColon(cid);
    NumberHasNoColon(port);
    SplitInTwo(PrintNumber(cid) + [':'] + PrintNumber(port), ':', PrintNumber(cid), PrintNumber(port));
  }

  /** Printing then parsing gives a transport back, over the full ranges, unless it is an inet host
      with a colon in it; such a host is refused. */
  lemma PrintThenParse(t: Transport)
    requires InRange(t)
    ensures Parse(Display(t)) == Ok(t) <==> !(t.Inet? && ':' in t.host)
    ensures t.Inet? && ':' in t.host ==> Parse(Display(t)).Err?
  {
    match t
    case Inet(host, port) =>
      assert Display(t)[|"inet://"|..] == host + [':'] + PrintNumber(port);
      InetRoundTrip(host, port);
    case Unix(path) =>
      assert Display(t)[0] == 'u';
      assert Display(t)[|"unix://"|..] == path;
    case Vsock(cid, port) =>
      assert Display(t)[0] == 'v';
      assert Display(t)[|"vsock://"|..] == PrintNumber(cid) + [':'] + PrintNumber(port);
      VsockRoundTrip(cid, port);
  }

  // ---------------------------------------------------------------- exactly what is accepted

  ghost predicate AllDigits(s: string) {
    forall i | 0 <= i < |s| :: IsDigit(s[i])
  }

  /** At least one digit, after at most one '+', of this value. */
  ghost predicate Numeral(text: string, value: nat) {
    var digits := if text != "" && text[0] == '+' then text[1..] else text;
    digits != "" && AllDigits(digits) && Value(digits) == value
  }

  lemma ParseUnsignedExact(text: string, max: nat, value: nat)
    ensures ParseUnsigned(text, max) == Some(value) <==> Numeral(text, value) && value <= max
  {
    if text != "" {
      ParseDigitsExact(text, max);
      ParseDigitsExact(text[1..], max);
    }
  }

  lemma NumeralHasNoColon(text: string, value: nat)
    requires Numeral(text, value)
    ensures ':' !in text
  {
    if text[0] == '+' {
      assert text == ['+'] + text[1..];
    }
  }

  ghost predicate InetText(addr: string, host: string, port: nat) {
    ':' !in host && port <= 65535 && exists text :: addr == host + ":" + text && Numeral(text, port)
  }

  ghost predicate VsockText(addr: string, cid: nat, port: nat) {
    cid <= 4294967295 && port <= 4294967295
    && exists text, text' :: addr == text + ":" + text' && Numeral(text, cid) && Numeral(text', port)
  }

  /** `s` is a way to write down `t`. */
  ghost predicate Denotes(s: string, t: Transport) {
    match t
    case Inet(host, port) => exists addr :: (s == "inet://" + addr || s == "tcp://" + addr) && InetText(addr, host, port)
    case Unix(path) => s == "unix://" + path
    case Vsock(cid, port) => exists addr :: s == "vsock://" + addr && VsockText(addr, cid, port)
  }

  /** Exactly the accepted inet addresses. */
  lemma AcceptedInet(addr: string, host: string, port: nat)
    ensures ParseInet(addr) == Ok(Inet(host, port)) <==> InetText(addr, host, port)
  {
    if ParseInet(addr) == Ok(Inet(host, port)) {
      var parts := Split(addr, ':');
      assert parts == [host, parts[1]];
      SplitInTwo(addr, ':', host, parts[1]);
      ParseUnsignedExact(parts[1], U16_MAX, port);
      assert addr == host + ":" + parts[1];
    }
    if InetText(addr, host, port) {
      var text :| addr == host + ":" + text && Numeral(text, port);
      NumeralHasNoColon(text, port);
      SplitInTwo(addr, ':', host, text);
      ParseUnsignedExact(text, U16_MAX, port);
    }
  }

  lemma AcceptedVsock(addr: string, cid: nat, port: nat)
    ensures ParseVsock(addr) == Ok(Vsock(cid, port)) <==> VsockText(addr, cid, port)
  {
    if ParseVsock(addr) == Ok(Vsock(cid, port)) {
      var parts := Split(addr, ':');
      assert parts == [parts[0], parts[1]];
      SplitInTwo(addr, ':', parts[0], parts[1]);
      ParseUnsignedExact(parts[0], U32_MAX, cid);
      ParseUnsignedExact(parts[1], U32_MAX, port);
      assert addr == parts[0] + ":" + parts[1];
    }
    if VsockText(addr, cid, port) {
      var text, text' :| addr == text + ":" + text' && Numeral(text, cid) && Numeral(text', port);
      NumeralHasNoColon(text, cid);
      NumeralHasNoColon(text', port);
      SplitInTwo(addr, ':', text, text');
      ParseUnsignedExact(text, U32_MAX, cid);
      ParseUnsignedExact(text', U32_MAX, port);
    }
  }

  /** Which prefix a text has: at most one of them. */
  lemma PrefixOf(s: string, prefix: string, addr: string)
    requires s == prefix + addr
    ensures prefix <= s && s[|prefix|..] == addr
  {
  }

  lemma OnePrefix(s: string)
    ensures !("inet://" <= s && "tcp://" <= s) && !("inet://" <= s && "unix://" <= s)
    ensures !("inet://" <= s && "vsock://" <= s) && !("tcp://" <= s && "unix://" <= s)
    ensures !("tcp://" <= s && "vsock://" <= s) && !("unix://" <= s && "vsock://" <= s)
  {
    if s != "" {
      assert "inet://"[0] == 'i' && "tcp://"[0] == 't' && "unix://"[0] == 'u' && "vsock://"[0] == 'v';
    }
  }

  lemma InetAccepts(s: string, host: string, port: nat)
    ensures Parse(s) == Ok(Inet(host, port)) <==> Denotes(s, Inet(host, port))
  {
    if Parse(s) == Ok(Inet(host, port)) {
      InetDenoted(s, host, port);
    }
    if Denotes(s, Inet(host, port)) {
      var addr :| (s == "inet://" + addr || s == "tcp://" + addr) && InetText(addr, host, port);
      EitherPrefix(s, addr);
      AcceptedInet(addr, host, port);
    }
  }

  lemma EitherPrefix(s: string, addr: string)
    requires s == "inet://" + addr || s == "tcp://" + addr
    ensures Parse(s) == ParseInet(addr)
  {
    OnePrefix(s);
    if s == "inet://" + addr {
      PrefixOf(s, "inet://", addr);
    } else {
      PrefixOf(s, "tcp://", addr);
    }
  }

  lemma PrefixCut(s: string, prefix: string) returns (addr: string)
    requires prefix <= s
    ensures s == prefix + addr
  {
    addr := s[|prefix|..];
  }

  lemma InetDenoted(s: string, host: string, port: nat)
    requires Parse(s) == Ok(Inet(host, port))
    ensures Denotes(s, Inet(host, port))
  {
    OnlyInetIsInet(s, host, port);
    var addr: string;
    if "inet://" <= s {
      addr := PrefixCut(s, "inet://");
    } else {
      addr := PrefixCut(s, "tcp://");
    }
    EitherPrefix(s, addr);
    AcceptedInet(addr, host, port);
  }

  lemma OnlyInetIsInet(s: string, host: string, port: nat)
    requires Parse(s) == Ok(Inet(host, port))
    ensures "inet://" <= s || "tcp://" <= s
  {
    if !("inet://" <= s || "tcp://" <= s) && !("unix://" <= s) && "vsock://" <= s {
      VsockInRange(s[|"vsock://"|..]);
    }
  }

  lemma UnixAccepts(s: string, path: string)
    ensures Parse(s) == Ok(Unix(path)) <==> Denotes(s, Unix(path))
  {
    OnePrefix(s);
    if "inet://" <= s {
      InetPrintable(s[|"inet://"|..]);
    } else if "tcp://" <= s {
      InetPrintable(s[|"tcp://"|..]);
    } else if "unix://" <= s {
      assert s == "unix://" + s[|"unix://"|..];
    } else if "vsock://" <= s {
      VsockInRange(s[|"vsock://"|..]);
    }
    if s == "unix://" + path {
      PrefixOf(s, "unix://", path);
    }
  }

  lemma VsockAccepts(s: string, cid: nat, port: nat)
    ensures Parse(s) == Ok(Vsock(cid, port)) <==> Denotes(s, Vsock(cid, port))
  {
    OnePrefix(s);
    if Parse(s) == Ok(Vsock(cid, port)) {
      if "inet://" <= s {
        InetPrintable(s[|"inet://"|..]);
      } else if "tcp://" <= s {
        InetPrintable(s[|"tcp://"|..]);
      }
      AcceptedVsock(s[|"vsock://"|..], cid, port);
      assert s == "vsock://" + s[|"vsock://"|..];
    }
    if Denotes(s, Vsock(cid, port)) {
      var addr :| s == "vsock://" + addr && VsockText(addr, cid, port);
      AcceptedVsock(addr, cid, port);
      PrefixOf(s, "vsock://", addr);
    }
  }

  /** A string is parsed as a transport iff it is a way to write it down: `inet://` or `tcp://` with
      host and port, `unix://` with any path, `vsock://` with cid and port, where a number has at
      least one digit, perhaps a '+' before it, and fits its type. */
  lemma ParseExact(s: string, t: Transport)
    ensures Parse(s) == Ok(t) <==> Denotes(s, t)
  {
    match t
    case Inet(host, port) => InetAccepts(s, host, port);
    case Unix(path) => UnixAccepts(s, path);
    case Vsock(cid, port) => VsockAccepts(s, cid, port);
  }

  /** Every other string is refused. */
  lemma RefusedIff(s: string)
    ensures Parse(s).Err? <==> forall t :: !Denotes(s, t)
  {
    if Parse(s).Ok? {
      ParseExact(s, Parse(s).value);
    } else {
      forall t ensures !Denotes(s, t) {
        ParseExact(s, t);
      }
    }
  }

  lemma ParsedIsPrintable(s: string)
    ensures Parse(s).Ok? ==> InRange(Parse(s).value) && !(Parse(s).value.Inet? && ':' in Parse(s).value.host)
  {
    if "inet://" <= s {
      InetPrintable(s[|"inet://"|..]);
    } else if "tcp://" <= s {
      InetPrintable(s[|"tcp://"|..]);
    } else if !("unix://" <= s) && "vsock://" <= s {
      VsockInRange(s[|"vsock://"|..]);
    }
  }

  lemma InetPrintable(addr: string)
    ensures ParseInet(addr).Ok? ==>
              ParseInet(addr).value.Inet? && InRange(ParseInet(addr).value) && ':' !in ParseInet(addr).value.host
  {
    if ParseInet(addr).Ok? {
      SplitJoins(addr, ':');
      ParsedInRange(Split(addr, ':')[1], U16_MAX);
    }
  }

  lemma VsockInRange(addr: string)
    ensures ParseVsock(addr).Ok? ==> ParseVsock(addr).value.Vsock? && InRange(ParseVsock(addr).value)
  {
    if |Split(addr, ':')| == 2 {
      ParsedInRange(Split(addr, ':')[0], U32_MAX);
      ParsedInRange(Split(addr, ':')[1], U32_MAX);
    }
  }

  /** Whatever string was accepted, with either inet prefix, leading zeros or a leading '+', the
      printed form parses to the same transport. */
  lemma AcceptedThenPrinted(s: string)
    requires Parse(s).Ok?
    ensures Parse(Display(Parse(s).value)) == Parse(s)
  {
    ParsedIsPrintable(s);
    PrintThenParse(Parse(s).value);
  }

  /** A number is printed in the shortest way: no sign, and no zero in front. */
  lemma {:induction false} PrintedShort(n: nat)
    ensures AllDigits(PrintNumber(n)) && Value(PrintNumber(n)) == n
    ensures |PrintNumber(n)| > 1 ==> PrintNumber(n)[0] != '0'
  {
    PrintedDigits(n);
    if n >= 10 {
      PrintedShort(n / 10);
      if n / 10 < 10 {
        assert DigitValue(PrintNumber(n)[0]) == n / 10;
      }
    }
  }

  ghost predicate Shortest(text: string, value: nat) {
    && text != "" && AllDigits(text) && Value(text) == value
    && (|text| > 1 ==> text[0] != '0')
  }

  ghost predicate ShortInet(s: string, host: string, port: nat, text: string) {
    s == "inet://" + host + ":" + text && Shortest(text, port)
  }

  ghost predicate ShortVsock(s: string, cid: nat, port: nat, text: string, text': string) {
    s == "vsock://" + text + ":" + text' && Shortest(text, cid) && Shortest(text', port)
  }

  /** How a transport is printed: with the prefix of its kind, and its numbers in the shortest way. */
  lemma PrintedForm(t: Transport)
    ensures t.Inet? ==> exists text :: ShortInet(Display(t), t.host, t.port, text)
    ensures t.Unix? ==> Display(t) == "unix://" + t.path
    ensures t.Vsock? ==> exists text, text' :: ShortVsock(Display(t), t.cid, t.port, text, text')
  {
    match t
    case Inet(host, port) => PrintedInet(host, port);
    case Unix(_) =>
    case Vsock(cid, port) => PrintedVsock(cid, port);
  }

  lemma Flat(prefix: string, first: string, second: string)
    ensures prefix + (first + [':'] + second) == prefix + first + ":" + second
  {
  }

  lemma PrintedInet(host: string, port: nat)
    ensures ShortInet(Display(Inet(host, port)), host, port, PrintNumber(port))
  {
    PrintedShort(port);
    PrintedDigits(port);
    Flat("inet://", host, PrintNumber(port));
  }

  lemma PrintedVsock(cid: nat, port: nat)
    ensures ShortVsock(Display(Vsock(cid, port)), cid, port, PrintNumber(cid), PrintNumber(port))
  {
    PrintedShort(cid);
    PrintedShort(port);
    PrintedDigits(cid);
    PrintedDigits(port);
    Flat("vsock://", PrintNumber(cid), PrintNumber(port));
  }

  // ---------------------------------------------------------------- status reporting

  datatype TransportType = TypeInet | TypeUnix | TypeVsock | TypeUnspecified

  /** The type reported for a printed transport (cirond/src/grpc_server.rs, `parse_transport_info`). */
  function ReportedType(s: string): TransportType {
    if "inet://" <= s || "tcp://" <= s then TypeInet
    else if "unix://" <= s then TypeUnix
    else if "vsock://" <= s then TypeVsock
    else TypeUnspecified
  }

  /** Of every accepted address, however it is written, the reported type is the variant it parses to. */
  lemma ReportedTypeOfAccepted(s: string)
    ensures Parse(s).Ok? ==>
              ReportedType(s) ==
              match Parse(s).value case Inet(_, _) => TypeInet case Unix(_) => TypeUnix case Vsock(_, _) => TypeVsock
  {
    if "inet://" <= s {
      InetPrintable(s[|"inet://"|..]);
    } else if "tcp://" <= s {
      InetPrintable(s[|"tcp://"|..]);
    } else if !("unix://" <= s) && "vsock://" <= s {
      VsockInRange(s[|"vsock://"|..]);
    }
  }

  /** The reported type tells the variant of the served transport, and is never unspecified. */
  lemma ReportedTypeIsVariant(t: Transport)
    ensures ReportedType(Display(t)) ==
            match t case Inet(_, _) => TypeInet case Unix(_) => TypeUnix case Vsock(_, _) => TypeVsock
  {
    assert Display(t)[0] == match t case Inet(_, _) => 'i' case Unix(_) => 'u' case Vsock(_, _) => 'v';
  }
}
