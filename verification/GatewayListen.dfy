// GATEWAY_LISTEN (internal/container/gateway.go): what the user may write, what the
// container is told, and that the two agree.
module GatewayListen {
  import opened Sequences
  import opened Decimal
  import opened PublishedPorts

  const DEFAULT_GATEWAY_LISTEN := ":4566,:443"
  const DEFAULT_BIND_HOST := "127.0.0.1"

  // ----- Host and port -----

  // net.SplitHostPort: "host:port" or "[host]:port", a bracketed host being one with
  // colons.
  function SplitHostPort(s: string): Option<(string, string)> {
    var i := LastIndex(s, ':');
    if i < 0 then None
    else if s[0] == '[' then
      var end := IndexByte(s, ']');
      if end < 0 || end + 1 != i || '[' in s[1..] || ']' in s[end + 1..] then None
      else Some((s[1..end], s[i + 1..]))
    else if ':' in s[..i] || '[' in s || ']' in s then None
    else Some((s[..i], s[i + 1..]))
  }

  // net.JoinHostPort.
  function JoinHostPort(host: string, port: string): string {
    if ':' in host then ['['] + host + [']'] + [':'] + port else host + [':'] + port
  }

  predicate NoBrackets(s: string) {
    '[' !in s && ']' !in s
  }

  lemma BracketedIndexes(host: string, port: string, s: string)
    requires NoBrackets(host) && NoBrackets(port) && ':' !in port
    requires s == ['['] + host + [']'] + [':'] + port
    ensures LastIndex(s, ':') == |host| + 2 && IndexByte(s, ']') == |host| + 1
  {
    LastIndexOf(['['] + host + [']'], port, ':');
    assert ']' !in ['['] + host;
    IndexByteIs(['['] + host, [':'] + port, ']');
    assert s == (['['] + host) + [']'] + ([':'] + port);
  }

  lemma BracketedParts(host: string, port: string, s: string)
    requires NoBrackets(host) && NoBrackets(port)
    requires s == ['['] + host + [']'] + [':'] + port
    ensures s[0] == '[' && s[1..|host| + 1] == host && s[|host| + 3..] == port
    ensures '[' !in s[1..] && ']' !in s[|host| + 2..]
  {
    assert s[1..] == host + [']'] + [':'] + port;
    assert s[|host| + 2..] == [':'] + port;
  }

  // Splitting undoes joining when neither part has a bracket and the port no colon.
  lemma SplitOfJoinHostPort(host: string, port: string)
    requires NoBrackets(host) && NoBrackets(port) && ':' !in port
    ensures SplitHostPort(JoinHostPort(host, port)) == Some((host, port))
  {
    var s := JoinHostPort(host, port);
    if ':' in host {
      BracketedIndexes(host, port, s);
      BracketedParts(host, port, s);
    } else {
      LastIndexOf(host, port, ':');
      assert s[..|host|] == host && s[|host| + 1..] == port;
      assert s[0] == if host == "" then ':' else host[0];
    }
  }

  lemma SplitPartsHaveNoBrackets(s: string)
    requires SplitHostPort(s).Some?
    ensures NoBrackets(SplitHostPort(s).value.0)
    ensures forall c :: c in SplitHostPort(s).value.0 ==> c in s
  {
    var i := LastIndex(s, ':');
    if s[0] == '[' {
      var end := IndexByte(s, ']');
      assert forall c :: c in s[1..end] ==> c in s[1..] && c in s[..end];
    }
  }

  // The two ways of writing a host and a port.
  predicate Writes(s: string, host: string, port: string) {
    && NoBrackets(host) && NoBrackets(port) && ':' !in port
    && (s == ['['] + host + [']'] + [':'] + port || (':' !in host && s == host + [':'] + port))
  }

  lemma {:induction false} AfterLastIndex(s: string, c: char)
    ensures LastIndex(s, c) >= 0 ==> c !in s[LastIndex(s, c) + 1..]
    ensures LastIndex(s, c) == -1 ==> c !in s
  {
    if s == "" || s[|s| - 1] == c {
    } else {
      var front := s[..|s| - 1];
      AfterLastIndex(front, c);
      assert s == front + [s[|s| - 1]];
      if LastIndex(s, c) >= 0 {
        assert s[LastIndex(s, c) + 1..] == front[LastIndex(s, c) + 1..] + [s[|s| - 1]];
      }
    }
  }

  lemma SplitIsWritten(s: string)
    requires SplitHostPort(s).Some?
    ensures Writes(s, SplitHostPort(s).value.0, SplitHostPort(s).value.1)
  {
    var i := LastIndex(s, ':');
    AfterLastIndex(s, ':');
    SplitPartsHaveNoBrackets(s);
    if s[0] == '[' {
      var end := IndexByte(s, ']');
      assert s == ['['] + s[1..end] + [']'] + [':'] + s[i + 1..];
      assert forall c :: c in s[i + 1..] ==> c in s[1..] && c in s[end + 1..];
    } else {
      assert s == s[..i] + [':'] + s[i + 1..];
    }
  }

  lemma WrittenSplits(s: string, host: string, port: string)
    requires Writes(s, host, port)
    ensures SplitHostPort(s) == Some((host, port))
  {
    if s == ['['] + host + [']'] + [':'] + port {
      BracketedIndexes(host, port, s);
      BracketedParts(host, port, s);
      assert s[|host| + 2..] == [':'] + port;
    } else {
      SplitOfJoinHostPort(host, port);
    }
  }

  // Joining writes a host and a port in one of the two ways, with brackets around a host
  // that has colons and around no other.
  lemma BracketsForColons(host: string, port: string)
    requires NoBrackets(host) && NoBrackets(port) && ':' !in port
    ensures Writes(JoinHostPort(host, port), host, port)
    ensures '[' in JoinHostPort(host, port) <==> ':' in host
  {
    if ':' in host {
      assert JoinHostPort(host, port)[0] == '[';
    }
  }

  // ----- Entries -----

  // netip.ParseAddr decides what an address is; one without a colon is four numbers
  // with dots.
  ghost predicate DottedWithoutColon(valid: string -> bool) {
    forall h :: valid(h) && h != "" && ':' !in h ==> AllDotted(h)
  }

  predicate AllDotted(h: string) {
    forall i :: 0 <= i < |h| ==> IsDigit(h[i]) || h[i] == '.'
  }

  function ParseEntry(entry: string, valid: string -> bool): Option<GatewayEntry> {
    var s := if ':' in entry then entry else [':'] + entry;
    match SplitHostPort(s)
    case None => None
    case Some((host, port)) =>
      if Atoi(port) == None || (host != "" && !valid(host)) then None else Some(GatewayEntry(host, port))
  }

  lemma SplitIffWritten(s: string, host: string, port: string)
    ensures SplitHostPort(s) == Some((host, port)) <==> Writes(s, host, port)
  {
    if SplitHostPort(s) == Some((host, port)) {
      SplitIsWritten(s);
    }
    if Writes(s, host, port) {
      WrittenSplits(s, host, port);
    }
  }

  lemma BarePortIsWritten(entry: string, host: string, port: string)
    requires ':' !in entry
    ensures Writes([':'] + entry, host, port) <==> host == "" && port == entry && NoBrackets(port)
    ensures !Writes(entry, host, port)
  {
    var s := [':'] + entry;
    assert s[0] == ':' && s[1..] == entry;
    if host == "" {
      assert host + [':'] + port == [':'] + port;
    } else {
      assert (host + [':'] + port)[0] == host[0];
    }
    assert (host + [':'] + port)[|host|] == ':' && (['['] + host + [']'] + [':'] + port)[|host| + 2] == ':';
  }

  // An entry is accepted exactly if it is a port, or a host and a port, the port being a
  // number and the host an address or nothing.
  lemma EntryIsAccepted(entry: string, valid: string -> bool, host: string, port: string)
    ensures ParseEntry(entry, valid) == Some(GatewayEntry(host, port)) <==>
      && (Writes(entry, host, port) || (':' !in entry && entry == port && host == "" && NoBrackets(port)))
      && Atoi(port).Some? && (host == "" || valid(host))
  {
    var s := if ':' in entry then entry else [':'] + entry;
    SplitIffWritten(s, host, port);
    if ':' !in entry {
      BarePortIsWritten(entry, host, port);
    }
    ChecksDecide(s, valid, host, port);
  }

  lemma ChecksDecide(s: string, valid: string -> bool, host: string, port: string)
    requires ':' in s
    ensures ParseEntry(s, valid) == Some(GatewayEntry(host, port)) <==>
      SplitHostPort(s) == Some((host, port)) && Atoi(port).Some? && (host == "" || valid(host))
  {
  }

  // A part of the list: blank parts are passed over.
  datatype Part = Blank | Bad | Entry(e: GatewayEntry)

  function ReadPart(part: string, valid: string -> bool): Part {
    var text := TrimSpace(part);
    if text == "" then Blank
    else match ParseEntry(text, valid)
      case None => Bad
      case Some(e) => Entry(e)
  }

  function Reader(valid: string -> bool): string -> Part {
    part => ReadPart(part, valid)
  }

  function Collect(parts: seq<string>, read: string -> Part): Option<seq<GatewayEntry>> {
    if parts == [] then Some([])
    else
      var before := Collect(parts[..|parts| - 1], read);
      if before == None then None
      else match read(parts[|parts| - 1])
        case Blank => before
        case Bad => None
        case Entry(e) => Some(before.value + [e])
  }

  function Parse(value: string, valid: string -> bool): Option<seq<GatewayEntry>> {
    var text := if TrimSpace(value) == "" then DEFAULT_GATEWAY_LISTEN else value;
    var entries := Collect(Split(text, ','), Reader(valid));
    if entries == Some([]) then None else entries
  }

  lemma {:induction false} ErrorsStay(parts: seq<string>, k: nat, read: string -> Part)
    requires k <= |parts| && Collect(parts[..k], read) == None
    ensures Collect(parts, read) == None
  {
    if k < |parts| {
      assert parts[..|parts| - 1][..k] == parts[..k];
      ErrorsStay(parts[..|parts| - 1], k, read);
    } else {
      assert parts[..k] == parts;
    }
  }

  // The parts that are not blank, in order.
  function Filled(parts: seq<string>): seq<string> {
    if parts == [] then []
    else
      var text := TrimSpace(parts[|parts| - 1]);
      Filled(parts[..|parts| - 1]) + if text == "" then [] else [text]
  }

  // Each text parses to the entry in its place.
  predicate ParseTo(texts: seq<string>, valid: string -> bool, g: seq<GatewayEntry>)
    decreases |g|
  {
    && |texts| == |g|
    && (g != [] ==>
          var n := |g| - 1;
          ParseEntry(texts[n], valid) == Some(g[n]) && ParseTo(texts[..n], valid, g[..n]))
  }

  lemma {:induction false} CollectIsParse(parts: seq<string>, valid: string -> bool, g: seq<GatewayEntry>)
    ensures Collect(parts, Reader(valid)) == Some(g) <==> ParseTo(Filled(parts), valid, g)
    decreases |parts|
  {
    if parts == [] {
    } else {
      var front, last := parts[..|parts| - 1], parts[|parts| - 1];
      assert Reader(valid)(last) == ReadPart(last, valid);
      CollectIsParse(front, valid, if g == [] || TrimSpace(last) == "" then g else g[..|g| - 1]);
      CollectedNext(Collect(front, Reader(valid)), Filled(front), last, valid, g);
    }
  }

  lemma CollectedNext(before: Option<seq<GatewayEntry>>, texts: seq<string>, last: string, valid: string -> bool,
                      g: seq<GatewayEntry>)
    requires var g' := if g == [] || TrimSpace(last) == "" then g else g[..|g| - 1];
      before == Some(g') <==> ParseTo(texts, valid, g')
    ensures var after :=
        if before == None then None
        else match ReadPart(last, valid)
          case Blank => before
          case Bad => None
          case Entry(e) => Some(before.value + [e]);
      var text := TrimSpace(last);
      after == Some(g) <==> ParseTo(texts + if text == "" then [] else [text], valid, g)
  {
    var text := TrimSpace(last);
    assert texts + [] == texts && (texts + [text])[..|texts|] == texts;
    if g != [] {
      assert g == g[..|g| - 1] + [g[|g| - 1]];
    }
  }

  // The list is accepted exactly if something is listed and all of it parses, and then it
  // is what was listed, in order; a blank value stands for the default.
  lemma ListIsAccepted(value: string, valid: string -> bool, g: seq<GatewayEntry>)
    ensures Parse(value, valid) == Some(g) <==>
      g != [] && ParseTo(Filled(Split(if TrimSpace(value) == "" then ":4566,:443" else value, ',')), valid, g)
  {
    CollectIsParse(Split(if TrimSpace(value) == "" then ":4566,:443" else value, ','), valid, g);
  }

  method ParseGatewayListen(value: string, valid: string -> bool) returns (r: Option<seq<GatewayEntry>>)
    ensures r == Parse(value, valid)
  {
    var text := value;
    if TrimSpace(value) == "" {
      text := DEFAULT_GATEWAY_LISTEN;
    }
    r := ReadParts(Split(text, ','), Reader(valid));
    if r == Some([]) {
      r := None;
    }
  }

  // The loop of ParseGatewayListen.
  method ReadParts(parts: seq<string>, read: string -> Part) returns (r: Option<seq<GatewayEntry>>)
    ensures r == Collect(parts, read)
  {
    var entries: seq<GatewayEntry> := [];
    for k := 0 to |parts|
      invariant Collect(parts[..k], read) == Some(entries)
    {
      assert parts[..k + 1][..k] == parts[..k];
      match read(parts[k]) {
        case Blank =>
        case Bad =>
          ErrorsStay(parts, k + 1, read);
          return None;
        case Entry(e) =>
          entries := entries + [e];
      }
    }
    assert parts[..|parts|] == parts;
    return Some(entries);
  }

  // ----- What the container is told -----

  // Loopback is blanked: inside the container the gateway listens everywhere.
  function Inside(e: GatewayEntry): GatewayEntry {
    if e.host == DEFAULT_BIND_HOST then GatewayEntry("", e.port) else e
  }

  function AllInside(g: seq<GatewayEntry>): seq<GatewayEntry> {
    seq(|g|, i requires 0 <= i < |g| => Inside(g[i]))
  }

  // The same ports with the same hosts, but for loopback.
  ghost predicate IsInside(inside: seq<GatewayEntry>, g: seq<GatewayEntry>) {
    && |inside| == |g|
    && forall i :: 0 <= i < |g| ==>
         inside[i].port == g[i].port && inside[i].host == if g[i].host == "127.0.0.1" then "" else g[i].host
  }

  function Printed(g: seq<GatewayEntry>): seq<string> {
    seq(|g|, i requires 0 <= i < |g| => JoinHostPort(g[i].host, g[i].port))
  }

  function EnvValue(g: seq<GatewayEntry>): string {
    Join(Printed(AllInside(g)), ',')
  }

  method ContainerEnvValue(g: seq<GatewayEntry>) returns (value: string)
    ensures value == EnvValue(g)
  {
    var parts := new string[|g|];
    for i := 0 to |g|
      invariant forall k :: 0 <= k < i ==> parts[k] == JoinHostPort(Inside(g[k]).host, g[k].port)
    {
      var host := g[i].host;
      if host == DEFAULT_BIND_HOST {
        host := "";
      }
      parts[i] := JoinHostPort(host, g[i].port);
    }
    assert parts[..] == Printed(AllInside(g));
    return Join(parts[..], ',');
  }

  // ----- The container hears what the user wrote -----

  // What a parsed entry is like, however it was written.
  ghost predicate Sound(e: GatewayEntry, valid: string -> bool) {
    && Atoi(e.port).Some? && (e.host != "" ==> valid(e.host))
    && NoBrackets(e.host) && ',' !in e.host
  }

  lemma {:induction false} TrimmedChars(s: string, c: char)
    requires c in TrimSpace(s)
    ensures c in s
  {
    TrimRightChars(TrimLeft(s), c);
    TrimLeftChars(s, c);
  }

  lemma {:induction false} TrimLeftChars(s: string, c: char)
    requires c in TrimLeft(s)
    ensures c in s
  {
    if s != "" && IsSpace(s[0]) {
      TrimLeftChars(s[1..], c);
    }
  }

  lemma {:induction false} TrimRightChars(s: string, c: char)
    requires c in TrimRight(s)
    ensures c in s
  {
    if s != "" && IsSpace(s[|s| - 1]) {
      TrimRightChars(s[..|s| - 1], c);
    }
  }

  lemma ParsedEntryIsSound(part: string, valid: string -> bool)
    requires ',' !in part && ParseEntry(part, valid).Some?
    ensures Sound(ParseEntry(part, valid).value, valid)
  {
    var s := if ':' in part then part else [':'] + part;
    SplitPartsHaveNoBrackets(s);
    assert ',' !in s;
  }

  lemma ReadPartIsSound(part: string, valid: string -> bool)
    requires ',' !in part && ReadPart(part, valid).Entry?
    ensures Sound(ReadPart(part, valid).e, valid)
  {
    if ',' in TrimSpace(part) {
      TrimmedChars(part, ',');
    }
    ParsedEntryIsSound(TrimSpace(part), valid);
  }

  lemma {:induction false} ReadPartsAreSound(parts: seq<string>, valid: string -> bool)
    requires Collect(parts, Reader(valid)).Some? && forall p :: p in parts ==> ',' !in p
    ensures forall e :: e in Collect(parts, Reader(valid)).value ==> Sound(e, valid)
  {
    if parts == [] {
    } else {
      var last := parts[|parts| - 1];
      ReadPartsAreSound(parts[..|parts| - 1], valid);
      assert Reader(valid)(last) == ReadPart(last, valid);
      if ReadPart(last, valid).Entry? {
        ReadPartIsSound(last, valid);
      }
    }
  }

  lemma PortChars(port: string, c: char)
    requires Atoi(port).Some? && c in port
    ensures IsDigit(c) || c == '+' || c == '-'
  {
    var i :| 0 <= i < |port| && port[i] == c;
    if i > 0 {
      assert c == port[1..][i - 1];
    }
  }

  lemma PortEnds(port: string)
    requires Atoi(port).Some?
    ensures port != "" && IsDigit(port[|port| - 1])
  {
    if |port| > 1 {
      assert port[|port| - 1] == port[1..][|port| - 2];
    }
  }

  lemma {:induction false} TrimStartsWithText(s: string)
    requires s != "" && !IsSpace(s[0])
    ensures TrimSpace(s) != ""
  {
    assert TrimLeft(s) == s;
    TrimRightKeepsStart(s);
  }

  lemma {:induction false} TrimRightKeepsStart(s: string)
    requires s != "" && !IsSpace(s[0])
    ensures TrimRight(s) != ""
  {
    if |s| > 1 && IsSpace(s[|s| - 1]) {
      TrimRightKeepsStart(s[..|s| - 1]);
    }
  }

  lemma PrintedEnds(e: GatewayEntry, valid: string -> bool)
    requires Sound(e, valid) && DottedWithoutColon(valid)
    ensures var s := JoinHostPort(e.host, e.port);
      s != "" && !IsSpace(s[0]) && !IsSpace(s[|s| - 1])
  {
    PortEnds(e.port);
    var s := JoinHostPort(e.host, e.port);
    assert s[|s| - 1] == e.port[|e.port| - 1];
    assert e.host != "" && ':' !in e.host ==> AllDotted(e.host);
  }

  lemma PortIsPlain(port: string)
    requires Atoi(port).Some?
    ensures ',' !in port && ':' !in port && NoBrackets(port)
  {
    forall c | c in port
      ensures c != ',' && c != ':' && c != '[' && c != ']'
    {
      PortChars(port, c);
    }
  }

  lemma PrintedEntryParses(e: GatewayEntry, valid: string -> bool)
    requires Sound(e, valid)
    ensures ParseEntry(JoinHostPort(e.host, e.port), valid) == Some(e)
    ensures ',' !in JoinHostPort(e.host, e.port)
  {
    PortIsPlain(e.port);
    SplitOfJoinHostPort(e.host, e.port);
    assert ':' in JoinHostPort(e.host, e.port);
  }

  lemma PrintedPartReads(e: GatewayEntry, valid: string -> bool)
    requires Sound(e, valid) && DottedWithoutColon(valid)
    ensures Reader(valid)(JoinHostPort(e.host, e.port)) == Entry(e)
  {
    var s := JoinHostPort(e.host, e.port);
    PrintedEnds(e, valid);
    TrimUnspaced(s);
    PrintedEntryParses(e, valid);
    assert Reader(valid)(s) == ReadPart(s, valid);
  }

  lemma {:induction false} CollectPrinted(g: seq<GatewayEntry>, read: string -> Part)
    requires forall e :: e in g ==> read(JoinHostPort(e.host, e.port)) == Entry(e)
    ensures Collect(Printed(g), read) == Some(g)
  {
    if g == [] {
    } else {
      var front, last := g[..|g| - 1], g[|g| - 1];
      CollectPrinted(front, read);
      assert Printed(g)[..|g| - 1] == Printed(front);
      assert g == front + [last];
    }
  }

  lemma PrintedPartsParse(g: seq<GatewayEntry>, valid: string -> bool)
    requires DottedWithoutColon(valid) && forall e :: e in g ==> Sound(e, valid)
    ensures Collect(Printed(g), Reader(valid)) == Some(g)
  {
    forall e | e in g
      ensures Reader(valid)(JoinHostPort(e.host, e.port)) == Entry(e)
    {
      PrintedPartReads(e, valid);
    }
    CollectPrinted(g, Reader(valid));
  }

  lemma PrintedPartsHaveNoComma(g: seq<GatewayEntry>, valid: string -> bool)
    requires forall e :: e in g ==> Sound(e, valid)
    ensures forall p :: p in Printed(g) ==> ',' !in p
  {
    forall p | p in Printed(g)
      ensures ',' !in p
    {
      var i :| 0 <= i < |g| && p == Printed(g)[i];
      assert g[i] in g;
      PrintedEntryParses(g[i], valid);
    }
  }

  lemma JoinStartsLike(parts: seq<string>, sep: char)
    requires parts != [] && parts[0] != ""
    ensures Join(parts, sep) != "" && Join(parts, sep)[0] == parts[0][0]
  {
  }

  lemma PrintedParses(g: seq<GatewayEntry>, valid: string -> bool)
    requires DottedWithoutColon(valid) && g != [] && forall e :: e in g ==> Sound(e, valid)
    ensures Parse(Join(Printed(g), ','), valid) == Some(g)
  {
    PrintedPartsParse(g, valid);
    PrintedPartsHaveNoComma(g, valid);
    SplitOfJoin(Printed(g), ',');
    PrintedEnds(g[0], valid);
    JoinStartsLike(Printed(g), ',');
    TrimStartsWithText(Join(Printed(g), ','));
  }

  lemma ParsedIsSound(value: string, valid: string -> bool)
    requires Parse(value, valid).Some?
    ensures Parse(value, valid).value != []
    ensures forall e :: e in Parse(value, valid).value ==> Sound(e, valid)
  {
    var text := if TrimSpace(value) == "" then DEFAULT_GATEWAY_LISTEN else value;
    SplitPiecesAreFree(text, ',');
    ReadPartsAreSound(Split(text, ','), valid);
  }

  // Whatever the user writes, if lstk accepts it the container reads the same entries in
  // the same order, with loopback hosts blanked; and so it listens on the ports that lstk
  // publishes.
  lemma EnvValueReadsBack(value: string, valid: string -> bool)
    requires DottedWithoutColon(valid) && Parse(value, valid).Some?
    ensures Parse(EnvValue(Parse(value, valid).value), valid) == Some(AllInside(Parse(value, valid).value))
    ensures IsInside(AllInside(Parse(value, valid).value), Parse(value, valid).value)
  {
    var g := Parse(value, valid).value;
    ParsedIsSound(value, valid);
    forall e | e in AllInside(g)
      ensures Sound(e, valid)
    {
      var i :| 0 <= i < |g| && e == Inside(g[i]);
      assert g[i] in g;
    }
    PrintedParses(AllInside(g), valid);
  }

  lemma {:induction false} SamePortsInside(g: seq<GatewayEntry>, primary: string, optional: bool)
    ensures ExtraPorts(AllInside(g), primary, optional) == ExtraPorts(g, primary, optional)
  {
    if g == [] {
    } else {
      SamePortsInside(g[..|g| - 1], primary, optional);
      assert AllInside(g)[..|g| - 1] == AllInside(g[..|g| - 1]);
    }
  }
}
