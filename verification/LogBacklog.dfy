// The filtered log tail of internal/container/logs.go: bounded line reading, the ring
// of recent lines and the over-fetching loop.
module LogBacklog {
  import opened Sequences

  type Bytes = string

  // ----- Reading one line -----

  // What one ReadSlice('\n') returns: a stretch up to and including a newline, a reader
  // buffer full of bytes without one, or the last bytes of the stream.
  datatype Read = Line(bytes: Bytes) | Full(bytes: Bytes) | End(bytes: Bytes, failed: bool)

  datatype Status = More | Eof | Failed

  class Reader {
    var pending: seq<Read>

    constructor (input: seq<Read>)
      ensures pending == input
    {
      pending := input;
    }

    method ReadSlice() returns (r: Read)
      modifies this
      ensures old(pending) == [] ==> r == End([], false) && pending == []
      ensures old(pending) != [] ==> r == old(pending)[0] && pending == old(pending)[1..]
    {
      if pending == [] {
        return End([], false);
      }
      r := pending[0];
      pending := pending[1..];
    }
  }

  function TrimEOL(b: Bytes): Bytes {
    if b != [] && b[|b| - 1] == '\n' then
      if |b| >= 2 && b[|b| - 2] == '\r' then b[..|b| - 2] else b[..|b| - 1]
    else b
  }

  // A newline is cut off the end, with at most one carriage return before it; nothing else
  // is.
  lemma TrimsLineEnd(b: Bytes)
    ensures TrimEOL(b + "\r\n") == b
    ensures b == [] || b[|b| - 1] != '\r' ==> TrimEOL(b + "\n") == b
    ensures b == [] || b[|b| - 1] != '\n' ==> TrimEOL(b) == b
  {
    assert (b + "\r\n")[|b| + 1] == '\n' && (b + "\n")[|b|] == '\n';
  }

  // The content bytes of the next line: only the stretch with the newline is trimmed.
  function Content(input: seq<Read>): Bytes {
    if input == [] then []
    else match input[0]
      case Full(b) => b + Content(input[1..])
      case Line(b) => TrimEOL(b)
      case End(b, _) => b
  }

  function LineStatus(input: seq<Read>): Status {
    if input == [] then Eof
    else match input[0]
      case Full(_) => LineStatus(input[1..])
      case Line(_) => More
      case End(_, failed) => if failed then Failed else Eof
  }

  function AfterLine(input: seq<Read>): (rest: seq<Read>)
    ensures |rest| <= |input|
    ensures input != [] ==> |rest| < |input|
  {
    if input == [] then [] else if input[0].Full? then AfterLine(input[1..]) else input[1..]
  }

  // Appends as much of a chunk as there is room for, and counts the rest.
  method KeepChunk(kept: Bytes, dropped: nat, chunk: Bytes, max: nat, ghost seen: Bytes)
    returns (line: Bytes, truncated: nat)
    requires kept == FirstN(seen, max) && |kept| + dropped == |seen|
    ensures |line| <= max
    ensures line == FirstN(seen + chunk, max) && |line| + truncated == |seen + chunk|
  {
    line, truncated := kept, dropped;
    var room := max - |line|;
    if room > 0 {
      if |chunk| <= room {
        line := line + chunk;
      } else {
        line := line + chunk[..room];
        truncated := truncated + (|chunk| - room);
      }
    } else {
      truncated := truncated + |chunk|;
    }
  }

  // Keeps the first max content bytes and counts the others; the buffer never holds
  // more than max bytes.
  method ReadBoundedLine(r: Reader, max: nat) returns (line: Bytes, truncated: nat, ok: bool, status: Status)
    modifies r
    ensures line == FirstN(Content(old(r.pending)), max)
    ensures |line| + truncated == |Content(old(r.pending))|
    ensures status == LineStatus(old(r.pending)) && r.pending == AfterLine(old(r.pending))
    ensures ok <==> Content(old(r.pending)) != [] || status == More
  {
    line, truncated, ok := [], 0, false;
    ghost var seen, goal := [], Content(r.pending);
    while true
      invariant |line| <= max
      invariant line == FirstN(seen, max) && |line| + truncated == |seen|
      invariant ok <==> seen != []
      invariant goal == seen + Content(r.pending)
      invariant LineStatus(old(r.pending)) == LineStatus(r.pending)
      invariant AfterLine(old(r.pending)) == AfterLine(r.pending)
      decreases |r.pending|
    {
      var read := r.ReadSlice();
      var chunk := read.bytes;
      if read.Line? {
        chunk := TrimEOL(chunk);
      }
      ok := ok || |chunk| > 0 || read.Line?;
      line, truncated := KeepChunk(line, truncated, chunk, max, seen);
      if !read.Full? {
        status := if read.Line? then More else if read.failed then Failed else Eof;
        return;
      }
      Regroup(seen, chunk, Content(r.pending));
      seen := seen + chunk;
    }
  }

  // A line as a reader may cut it: full buffers, then the stretch that ends the line
  // or, on the last line of a log without a final newline, the stream.
  datatype RawLine = RawLine(fulls: seq<Bytes>, last: Bytes, ended: bool) {
    // The bytes as the container wrote them.
    function Written(): Bytes {
      Flatten(fulls) + last
    }

    // What should be shown of it.
    function Text(): Bytes {
      if ended then TrimEOL(Written()) else Written()
    }

    function Kept(): Bytes {
      Flatten(fulls) + if ended then TrimEOL(last) else last
    }

    // A read ends at the first newline.
    ghost predicate Valid() {
      && '\n' !in Flatten(fulls)
      && if ended then last != [] && last[|last| - 1] == '\n' && '\n' !in last[..|last| - 1]
         else Kept() != [] && '\n' !in last
    }

    // A carriage return closing a full buffer, with its newline alone in the next read.
    ghost predicate CutsCRLF() {
      ended && last == "\n" && Flatten(fulls) != [] && Flatten(fulls)[|Flatten(fulls)| - 1] == '\r'
    }

    function Reads(): seq<Read>
      decreases |fulls|
    {
      if fulls != [] then [Full(fulls[0])] + RawLine(fulls[1..], last, ended).Reads()
      else [if ended then Line(last) else End(last, false)]
    }
  }

  lemma {:induction false} ReadsOfLine(l: RawLine, rest: seq<Read>)
    ensures Content(l.Reads() + rest) == l.Kept()
    ensures LineStatus(l.Reads() + rest) == if l.ended then More else Eof
    ensures AfterLine(l.Reads() + rest) == rest
    decreases |l.fulls|
  {
    var input := l.Reads() + rest;
    if l.fulls == [] {
      assert input[1..] == rest;
      assert Flatten(l.fulls) + TrimEOL(l.last) == TrimEOL(l.last);
      assert Flatten(l.fulls) + l.last == l.last;
    } else {
      var l' := RawLine(l.fulls[1..], l.last, l.ended);
      ReadsOfLine(l', rest);
      assert input[0] == Full(l.fulls[0]) && input[1..] == l'.Reads() + rest;
      Regroup(l.fulls[0], Flatten(l.fulls[1..]), if l.ended then TrimEOL(l.last) else l.last);
    }
  }

  // However a newline-terminated line is cut, the text kept is the first max bytes of
  // its content, as long as a full buffer holds more than max bytes; and the number of
  // bytes dropped is right, except that it counts a carriage return which a full buffer
  // parts from its newline.
  lemma KeptTextIgnoresTheCut(l: RawLine, max: nat)
    requires l.Valid() && l.ended
    requires l.fulls != [] ==> |l.fulls[0]| > max
    ensures FirstN(l.Kept(), max) == FirstN(TrimEOL(l.Written()), max)
    ensures |l.Kept()| - |FirstN(l.Kept(), max)|
         == |TrimEOL(l.Written())| - |FirstN(TrimEOL(l.Written()), max)| + if l.CutsCRLF() then 1 else 0
  {
    var x := Flatten(l.fulls);
    if l.CutsCRLF() {
      assert TrimEOL(l.Written()) == x[..|x| - 1];
      assert l.Kept() == x;
      assert |x| >= |l.fulls[0]|;
    } else {
      TrimAppended(x, l.last);
    }
  }

  lemma TrimAppended(x: Bytes, last: Bytes)
    requires last != [] && last[|last| - 1] == '\n'
    requires last == "\n" && x != [] ==> x[|x| - 1] != '\r'
    ensures TrimEOL(x + last) == x + TrimEOL(last)
  {
  }

  // ----- The ring of recent lines -----

  type Level = int

  datatype LogLine = LogLine(text: Bytes, truncated: nat, level: Level)

  // The lines a ring holds, oldest first.
  function Held<T>(buf: seq<T>, next: nat, full: bool): seq<T>
    requires next <= |buf|
  {
    if full then buf[next..] + buf[..next] else buf[..next]
  }

  lemma OpenRingStep<T>(buf: seq<T>, next: nat, x: T)
    requires next < |buf|
    ensures var wraps := next + 1 == |buf|;
      Held(buf[next := x], if wraps then 0 else next + 1, wraps) == LastN(Held(buf, next, false) + [x], |buf|)
  {
    assert buf[next := x][..next + 1] == buf[..next] + [x];
  }

  lemma FullRingStep<T>(buf: seq<T>, next: nat, x: T)
    requires next < |buf|
    ensures var wraps := next + 1 == |buf|;
      Held(buf[next := x], if wraps then 0 else next + 1, true) == LastN(Held(buf, next, true) + [x], |buf|)
  {
    var kept := buf[next + 1..] + buf[..next] + [x];
    assert Held(buf, next, true) + [x] == [buf[next]] + kept;
    assert buf[next := x][..next + 1] == buf[..next] + [x];
    assert buf[next := x][next + 1..] == buf[next + 1..];
  }

  // Overwriting the oldest slot drops the oldest line.
  lemma RingStep<T>(buf: seq<T>, next: nat, full: bool, x: T)
    requires next < |buf|
    ensures var wraps := next + 1 == |buf|;
      Held(buf[next := x], if wraps then 0 else next + 1, full || wraps) == LastN(Held(buf, next, full) + [x], |buf|)
  {
    if full {
      FullRingStep(buf, next, x);
    } else {
      OpenRingStep(buf, next, x);
    }
  }

  lemma HeldAt<T>(buf: seq<T>, next: nat, full: bool, i: nat)
    requires next <= |buf| && i < |Held(buf, next, full)|
    ensures var k := (if full then next else 0) + i;
      Held(buf, next, full)[i] == buf[if k < |buf| then k else k - |buf|]
  {
  }

  lemma WrapIndex(k: nat, n: nat)
    requires 0 < n && k < 2 * n
    ensures k % n == if k < n then k else k - n
  {
  }

  // Keeps the most recent lines, overwriting the oldest.
  class LineRing {
    var buf: array<LogLine>
    var next: nat
    var full: bool

    ghost predicate Valid()
      reads this
    {
      if buf.Length == 0 then next == 0 && !full else next < buf.Length
    }

    // The lines held, oldest first.
    ghost function Contents(): seq<LogLine>
      reads this, buf
      requires Valid()
    {
      Held(buf[..], next, full)
    }

    constructor (n: nat)
      ensures Valid() && fresh(buf) && buf.Length == n && Contents() == []
    {
      buf := new LogLine[n];
      next, full := 0, false;
    }

    method Add(l: LogLine)
      requires Valid()
      modifies this, buf
      ensures Valid() && buf == old(buf)
      ensures Contents() == LastN(old(Contents()) + [l], buf.Length)
    {
      if buf.Length == 0 {
        return;
      }
      RingStep(buf[..], next, full, l);
      WrapIndex(next + 1, buf.Length);
      buf[next] := l;
      next := (next + 1) % buf.Length;
      if next == 0 {
        full := true;
      }
      assert buf[..] == old(buf[..])[old(next) := l];
    }

    method Len() returns (n: nat)
      requires Valid()
      ensures n == |Contents()|
    {
      n := if full then buf.Length else next;
    }

    method Reset()
      requires Valid()
      modifies this
      ensures Valid() && buf == old(buf) && Contents() == []
    {
      next, full := 0, false;
    }

    method Emit() returns (emitted: seq<LogLine>)
      requires Valid()
      ensures emitted == Contents()
    {
      var start := if full then next else 0;
      emitted := [];
      var n := Len();
      ghost var held := Contents();
      for i := 0 to n
        invariant emitted == held[..i]
      {
        HeldAt(buf[..], next, full, i);
        WrapIndex(start + i, buf.Length);
        emitted := emitted + [buf[(start + i) % buf.Length]];
      }
    }
  }

  // ----- Filtering a stream -----

  const MAX_LOG_LINE_BYTES: nat := 8 * 1024

  datatype Bounded = Bounded(text: Bytes, truncated: nat)

  function Bound(content: Bytes): Bounded {
    var kept := FirstN(content, MAX_LOG_LINE_BYTES);
    Bounded(kept, |content| - |kept|)
  }

  // The next line, unless the stream ended before one.
  function NextLine(input: seq<Read>): seq<Bounded> {
    if Content(input) != [] || LineStatus(input) == More then [Bound(Content(input))] else []
  }

  // The lines of a whole stream.
  function StreamLines(input: seq<Read>): seq<Bounded>
    decreases |input|
  {
    NextLine(input) + if LineStatus(input) == More then StreamLines(AfterLine(input)) else []
  }

  predicate StreamFails(input: seq<Read>)
    decreases |input|
  {
    if LineStatus(input) == More then StreamFails(AfterLine(input)) else LineStatus(input) == Failed
  }

  // What decides which lines are shown; how it decides is left open.
  datatype Filter = Filter(drops: Bytes -> bool, level: Bytes -> Level, verbose: bool) {
    function Keep(l: Bounded): seq<LogLine> {
      if verbose || !drops(l.text) then [LogLine(l.text, l.truncated, level(l.text))] else []
    }
  }

  // The lines that survive filtering, in order.
  function Survivors(lines: seq<Bounded>, f: Filter): seq<LogLine> {
    if lines == [] then [] else f.Keep(lines[0]) + Survivors(lines[1..], f)
  }

  // The filter drops a line or shows it, with its level, and leaves the others to
  // themselves.
  lemma SurvivorsAre(l: Bounded, rest: seq<Bounded>, f: Filter)
    ensures Survivors([], f) == []
    ensures f.drops(l.text) && !f.verbose ==> Survivors([l] + rest, f) == Survivors(rest, f)
    ensures !f.drops(l.text) || f.verbose ==>
      Survivors([l] + rest, f) == [LogLine(l.text, l.truncated, f.level(l.text))] + Survivors(rest, f)
  {
    assert ([l] + rest)[1..] == rest;
  }

  lemma {:induction false} SurvivorsAppend(a: seq<Bounded>, b: seq<Bounded>, f: Filter)
    ensures Survivors(a + b, f) == Survivors(a, f) + Survivors(b, f)
  {
    if a == [] {
      assert a + b == b;
    } else {
      SurvivorsAppend(a[1..], b, f);
      assert (a + b)[1..] == a[1..] + b;
      Regroup(f.Keep(a[0]), Survivors(a[1..], f), Survivors(b, f));
    }
  }

  // Adding the lines of a stream to a ring one after another.
  ghost function Fill(held: seq<LogLine>, lines: seq<Bounded>, f: Filter, n: nat): seq<LogLine> {
    LastN(held + Survivors(lines, f), n)
  }

  lemma FillStep(held: seq<LogLine>, next: seq<Bounded>, rest: seq<Bounded>, f: Filter, n: nat)
    ensures Fill(Fill(held, next, f, n), rest, f, n) == Fill(held, next + rest, f, n)
  {
    SurvivorsAppend(next, rest, f);
    LastNAppend(held + Survivors(next, f), Survivors(rest, f), n);
    Regroup(held, Survivors(next, f), Survivors(rest, f));
  }

  lemma FillNothing(held: seq<LogLine>, f: Filter, n: nat)
    requires |held| <= n
    ensures Fill(held, [], f, n) == held
  {
    assert held + [] == held;
  }

  // Reads one line, if there is one, and adds it to the ring if it survives.
  method ShowNextLine(r: Reader, f: Filter, ring: LineRing) returns (ok: bool, status: Status)
    requires ring.Valid() && |ring.Contents()| <= ring.buf.Length
    modifies r, ring, ring.buf
    ensures ring.Valid() && ring.buf == old(ring.buf)
    ensures ok == (NextLine(old(r.pending)) != [])
    ensures status == LineStatus(old(r.pending)) && r.pending == AfterLine(old(r.pending))
    ensures ring.Contents() == Fill(old(ring.Contents()), NextLine(old(r.pending)), f, ring.buf.Length)
  {
    ghost var held, next, n := ring.Contents(), NextLine(r.pending), ring.buf.Length;
    var line, truncated;
    line, truncated, ok, status := ReadBoundedLine(r, MAX_LOG_LINE_BYTES);
    if ok {
      assert next == [Bounded(line, truncated)];
      assert Survivors(next, f) == f.Keep(next[0]);
      if f.verbose || !f.drops(line) {
        ring.Add(LogLine(line, truncated, f.level(line)));
        return;
      }
    }
    assert Survivors(next, f) == [];
    assert held + [] == held;
  }

  // The lines of a stream after its next one.
  ghost function LaterLines(input: seq<Read>): seq<Bounded> {
    if LineStatus(input) == More then StreamLines(AfterLine(input)) else []
  }

  lemma StreamStep(held: seq<LogLine>, input: seq<Read>, f: Filter, n: nat)
    ensures Fill(held, StreamLines(input), f, n) == Fill(Fill(held, NextLine(input), f, n), LaterLines(input), f, n)
    ensures |StreamLines(input)| == |NextLine(input)| + |LaterLines(input)| && |NextLine(input)| <= 1
    ensures StreamFails(input) ==
      if LineStatus(input) == More then StreamFails(AfterLine(input)) else LineStatus(input) == Failed
  {
    FillStep(held, NextLine(input), LaterLines(input), f, n);
  }

  // Streams every surviving line into the ring, and counts the raw lines.
  method ForEachLogLine(r: Reader, f: Filter, ring: LineRing) returns (raw: nat, failed: bool)
    requires ring.Valid() && |ring.Contents()| <= ring.buf.Length
    modifies r, ring, ring.buf
    ensures ring.Valid() && ring.buf == old(ring.buf)
    ensures raw == |StreamLines(old(r.pending))| && failed == StreamFails(old(r.pending))
    ensures ring.Contents() == Fill(old(ring.Contents()), StreamLines(old(r.pending)), f, ring.buf.Length)
  {
    raw := 0;
    ghost var count, fails, n := |StreamLines(r.pending)|, StreamFails(r.pending), ring.buf.Length;
    ghost var goal := Fill(ring.Contents(), StreamLines(r.pending), f, n);
    while true
      invariant ring.Valid() && ring.buf == old(ring.buf) && |ring.Contents()| <= n
      invariant count == raw + |StreamLines(r.pending)| && fails == StreamFails(r.pending)
      invariant goal == Fill(ring.Contents(), StreamLines(r.pending), f, n)
      decreases |r.pending|
    {
      StreamStep(ring.Contents(), r.pending, f, n);
      var ok, status := ShowNextLine(r, f, ring);
      if ok {
        raw := raw + 1;
      }
      if status != More {
        failed := status == Failed;
        FillNothing(ring.Contents(), f, n);
        return;
      }
    }
  }

  // ----- The daemon -----

  // The log a fetch finds: only the last line may lack its newline. The log may differ
  // from one fetch to the next in any way; growing is one of them.
  ghost predicate ValidHistory(h: seq<RawLine>) {
    forall i :: 0 <= i < |h| ==> h[i].Valid() && (i < |h| - 1 ==> h[i].ended)
  }

  // A log streamed to its end; a stream that broke off after some reads; or one that the
  // caller cancelled, which ends like a log of what was delivered until then.
  datatype Reply =
    | Complete(history: seq<RawLine>)
    | Broken(pieces: seq<Read>)
    | Cancelled(delivered: seq<RawLine>)
  {
    ghost predicate Valid() {
      match this
      case Complete(h) => ValidHistory(h)
      case Broken(d) => forall i :: 0 <= i < |d| ==> !d[i].End?
      case Cancelled(h) => ValidHistory(h)
    }

    // The lines among which the last ones are looked for.
    function Shown(): seq<RawLine>
      requires !Broken?
    {
      if Complete? then history else delivered
    }

    // The lines that come when the daemon is asked for the last n.
    function Lines(n: Option<nat>): seq<RawLine>
      requires !Broken?
    {
      if Complete? && n.Some? then LastN(history, n.value) else Shown()
    }

    // What the reader sees when the daemon is asked for the last n lines.
    function Tail(n: Option<nat>): seq<Read> {
      if Broken? then pieces + [End([], true)] else Stream(Lines(n))
    }
  }

  function Stream(lines: seq<RawLine>): seq<Read> {
    if lines == [] then [End([], false)]
    else lines[0].Reads() + if lines[0].ended then Stream(lines[1..]) else []
  }

  function LinesOf(h: seq<RawLine>): (lines: seq<Bounded>)
    ensures |lines| == |h|
  {
    if h == [] then [] else [Bound(h[0].Kept())] + LinesOf(h[1..])
  }

  lemma {:induction false} StreamedLines(h: seq<RawLine>)
    requires ValidHistory(h)
    ensures StreamLines(Stream(h)) == LinesOf(h) && !StreamFails(Stream(h))
  {
    if h == [] {
    } else {
      ReadsOfLine(h[0], if h[0].ended then Stream(h[1..]) else []);
      if h[0].ended {
        assert ValidHistory(h[1..]);
        StreamedLines(h[1..]);
      } else {
        assert h == [h[0]];
        assert LinesOf(h) == [Bound(h[0].Kept())];
      }
    }
  }

  lemma {:induction false} BrokenStreamFails(d: seq<Read>)
    requires forall i :: 0 <= i < |d| ==> !d[i].End?
    ensures StreamFails(d + [End([], true)])
    decreases |d|
  {
    var input := d + [End([], true)];
    if d != [] {
      assert input[0] == d[0] && input[1..] == d[1..] + [End([], true)];
      BrokenStreamFails(d[1..]);
    }
  }

  // ----- The over-fetching loop -----

  const BACKLOG_FETCH_FACTOR := 8
  const MAX_BACKLOG_FETCH := 100_000

  // Go's int on a 64-bit machine: arithmetic wraps around.
  function Int64(x: int): int {
    (x + 0x8000_0000_0000_0000) % 0x1_0000_0000_0000_0000 - 0x8000_0000_0000_0000
  }

  lemma Int64InRange(x: int)
    requires -0x8000_0000_0000_0000 <= x < 0x8000_0000_0000_0000
    ensures Int64(x) == x
  {
  }

  function Backlog(h: seq<RawLine>, f: Filter, limit: nat): seq<LogLine> {
    LastN(Survivors(LinesOf(h), f), limit)
  }

  lemma {:induction false} LinesOfSuffix(h: seq<RawLine>, k: nat)
    requires k <= |h|
    ensures LinesOf(h[k..]) == LinesOf(h)[k..]
  {
    if k > 0 {
      LinesOfSuffix(h[1..], k - 1);
      assert h[1..][k - 1..] == h[k..];
    } else {
      assert h[0..] == h;
    }
  }

  lemma LastNOfSuffix<T>(a: seq<T>, b: seq<T>, n: nat)
    requires |LastN(b, n)| == n
    ensures LastN(a + b, n) == LastN(b, n)
  {
  }

  lemma SurvivorsOfSuffix(h: seq<RawLine>, k: nat, f: Filter)
    requires k <= |h|
    ensures Survivors(LinesOf(h), f) == Survivors(LinesOf(h)[..k], f) + Survivors(LinesOf(h[k..]), f)
  {
    LinesOfSuffix(h, k);
    var lines := LinesOf(h);
    assert lines == lines[..k] + lines[k..];
    SurvivorsAppend(lines[..k], lines[k..], f);
  }

  // A suffix of the log with enough survivors shows what the whole log would.
  lemma SuffixIsEnough(h: seq<RawLine>, n: nat, f: Filter, limit: nat)
    requires |Backlog(LastN(h, n), f, limit)| == limit || |LastN(h, n)| < n
    ensures Backlog(LastN(h, n), f, limit) == Backlog(h, f, limit)
  {
    if |h| > n {
      var k := |h| - n;
      SurvivorsOfSuffix(h, k, f);
      LastNOfSuffix(Survivors(LinesOf(h)[..k], f), Survivors(LinesOf(h[k..]), f), limit);
    }
  }

  lemma ValidSuffix(h: seq<RawLine>, n: nat)
    requires ValidHistory(h)
    ensures ValidHistory(LastN(h, n))
  {
  }

  // One fetch of the last lines of a log into an empty ring.
  method FetchBacklog(reply: Reply, tail: Option<nat>, f: Filter, ring: LineRing) returns (raw: nat, failed: bool)
    requires reply.Valid() && ring.Valid() && ring.Contents() == []
    modifies ring, ring.buf
    ensures ring.Valid() && ring.buf == old(ring.buf)
    ensures failed == reply.Broken?
    ensures !failed ==> raw == |reply.Lines(tail)|
    ensures !failed ==> ring.Contents() == Backlog(reply.Lines(tail), f, ring.buf.Length)
  {
    var r := new Reader(reply.Tail(tail));
    raw, failed := ForEachLogLine(r, f, ring);
    if reply.Broken? {
      BrokenStreamFails(reply.pieces);
    } else {
      ghost var h := reply.Lines(tail);
      if tail.Some? {
        ValidSuffix(reply.Shown(), tail.value);
      }
      StreamedLines(h);
      assert [] + Survivors(LinesOf(h), f) == Survivors(LinesOf(h), f);
    }
  }

  // The lines that came fill the ring, or they are all there are.
  predicate Enough(lines: seq<RawLine>, fetch: int, f: Filter, limit: nat) {
    |Backlog(lines, f, limit)| == limit || |lines| < fetch
  }

  // How many lines are asked for: all of them outside the bounds.
  function TailArg(fetch: int): Option<nat> {
    if 0 < fetch <= MAX_BACKLOG_FETCH then Some(fetch) else None
  }

  // One round of the loop: fetches, and decides whether that was enough.
  method FetchRound(reply: Reply, fetch: int, f: Filter, ring: LineRing)
    returns (done: bool, failed: bool)
    requires reply.Valid() && ring.Valid()
    modifies ring, ring.buf
    ensures ring.Valid() && ring.buf == old(ring.buf)
    ensures failed == reply.Broken?
    ensures done && !failed ==> ring.Contents() == Backlog(reply.Shown(), f, ring.buf.Length)
    ensures !failed ==> (done <==> !TooLittle(reply, ring.buf.Length, f, TailArg(fetch)))
  {
    var unbounded := fetch <= 0 || fetch > MAX_BACKLOG_FETCH;
    var tail := if unbounded then None else Some(fetch);
    ring.Reset();
    var raw;
    raw, failed := FetchBacklog(reply, tail, f, ring);
    if failed {
      return true, true;
    }
    var held := ring.Len();
    done := unbounded || held == ring.buf.Length || raw < fetch;
    if done && !unbounded && reply.Complete? {
      SuffixIsEnough(reply.history, fetch, f, ring.buf.Length);
    }
  }

  // A wrapped product is still a multiple of the factor.
  lemma WrappedProduct(limit: nat)
    ensures Int64(limit * BACKLOG_FETCH_FACTOR) > 0 ==> Int64(limit * BACKLOG_FETCH_FACTOR) >= BACKLOG_FETCH_FACTOR
  {
    var x := limit * 8 + 0x8000_0000_0000_0000;
    var q, r := x / 0x1_0000_0000_0000_0000, x % 0x1_0000_0000_0000_0000;
    assert r == 8 * (limit + 0x1000_0000_0000_0000 - q * 0x2000_0000_0000_0000);
  }

  predicate TooLittle(reply: Reply, limit: nat, f: Filter, tail: Option<nat>) {
    !reply.Broken? && tail.Some? && !Enough(reply.Lines(tail), tail.value, f, limit)
  }

  // What is asked for from fetch number k on, which is of the given size.
  function PlanFrom(daemon: nat -> Reply, limit: nat, f: Filter, k: nat, fetch: int): (asked: seq<Option<nat>>)
    ensures asked != []
    decreases if 0 < fetch <= MAX_BACKLOG_FETCH then MAX_BACKLOG_FETCH + 1 - fetch else 0
  {
    var tail := TailArg(fetch);
    if TooLittle(daemon(k), limit, f, tail) then
      [tail] + PlanFrom(daemon, limit, f, k + 1, Int64(fetch * BACKLOG_FETCH_FACTOR))
    else [tail]
  }

  function FirstFetch(limit: nat): int {
    Int64(limit * BACKLOG_FETCH_FACTOR)
  }

  function Plan(daemon: nat -> Reply, limit: nat, f: Filter): seq<Option<nat>> {
    if limit == 0 then [] else PlanFrom(daemon, limit, f, 0, FirstFetch(limit))
  }

  // What the given last fetch brings.
  predicate IsBacklog(emitted: seq<LogLine>, failed: bool, reply: Reply, limit: nat, f: Filter) {
    failed == reply.Broken? && emitted == if failed then [] else Backlog(reply.Shown(), f, limit)
  }

  // With these fetches made and one of the given size due, the plan is kept to.
  ghost predicate OnPlan(daemon: nat -> Reply, limit: nat, f: Filter, asked: seq<Option<nat>>, fetch: int,
                         plan: seq<Option<nat>>) {
    asked + PlanFrom(daemon, limit, f, |asked|, fetch) == plan
  }

  lemma NextOnPlan(daemon: nat -> Reply, limit: nat, f: Filter, asked: seq<Option<nat>>, fetch: int,
                   plan: seq<Option<nat>>)
    requires OnPlan(daemon, limit, f, asked, fetch, plan)
    ensures |asked| < |plan|
    ensures var after := asked + [TailArg(fetch)];
      if TooLittle(daemon(|asked|), limit, f, TailArg(fetch))
      then OnPlan(daemon, limit, f, after, Int64(fetch * BACKLOG_FETCH_FACTOR), plan)
      else after == plan
  {
    var next := PlanFrom(daemon, limit, f, |asked| + 1, Int64(fetch * BACKLOG_FETCH_FACTOR));
    Regroup(asked, [TailArg(fetch)], next);
  }

  lemma PlanBegins(daemon: nat -> Reply, limit: nat, f: Filter)
    requires limit > 0
    ensures OnPlan(daemon, limit, f, [], FirstFetch(limit), Plan(daemon, limit, f))
  {
    assert [] + Plan(daemon, limit, f) == Plan(daemon, limit, f);
  }

  // The fetch that is due: it ends the plan with what the ring holds then, or there is a
  // next one.
  method FetchOnPlan(daemon: nat -> Reply, limit: nat, f: Filter, ring: LineRing, asked: seq<Option<nat>>, fetch: int,
                     ghost plan: seq<Option<nat>>)
    returns (done: bool, emitted: seq<LogLine>, failed: bool, after: seq<Option<nat>>, next: int)
    requires ring.Valid() && ring.buf.Length == limit && daemon(|asked|).Valid()
    requires OnPlan(daemon, limit, f, asked, fetch, plan)
    modifies ring, ring.buf
    ensures ring.Valid() && ring.buf == old(ring.buf)
    ensures |after| == |asked| + 1 <= |plan|
    ensures done ==> after == plan && IsBacklog(emitted, failed, daemon(|asked|), limit, f)
    ensures !done ==> OnPlan(daemon, limit, f, after, next, plan)
  {
    NextOnPlan(daemon, limit, f, asked, fetch, plan);
    done, failed := FetchRound(daemon(|asked|), fetch, f, ring);
    emitted, after, next := [], asked + [TailArg(fetch)], Int64(fetch * BACKLOG_FETCH_FACTOR);
    if failed {
      done := true;
    } else if done {
      emitted := ring.Emit();
    }
  }

  // Fetches more and more until that is enough.
  method FetchUntilEnough(daemon: nat -> Reply, limit: nat, f: Filter, ring: LineRing)
    returns (emitted: seq<LogLine>, failed: bool, asked: seq<Option<nat>>)
    requires ring.Valid() && ring.buf.Length == limit > 0
    requires forall k :: daemon(k).Valid()
    modifies ring, ring.buf
    ensures asked == Plan(daemon, limit, f)
    ensures IsBacklog(emitted, failed, daemon(|asked| - 1), limit, f)
  {
    asked := [];
    var fetch := FirstFetch(limit);
    ghost var plan := Plan(daemon, limit, f);
    PlanBegins(daemon, limit, f);
    while true
      invariant ring.Valid() && ring.buf == old(ring.buf)
      invariant OnPlan(daemon, limit, f, asked, fetch, plan)
      decreases |plan| - |asked|
    {
      var done;
      done, emitted, failed, asked, fetch := FetchOnPlan(daemon, limit, f, ring, asked, fetch, plan);
      if done {
        return;
      }
    }
  }

  // The last limit lines that survive filtering. daemon(k) is what fetch number k finds;
  // the result is right for the log that the final fetch saw, or for what it was given
  // of it before the caller cancelled.
  method EmitFilteredBacklog(daemon: nat -> Reply, limit: nat, f: Filter)
    returns (emitted: seq<LogLine>, failed: bool, asked: seq<Option<nat>>)
    requires forall k :: daemon(k).Valid()
    ensures asked == Plan(daemon, limit, f)
    ensures if limit == 0 then !failed && emitted == [] else IsBacklog(emitted, failed, daemon(|asked| - 1), limit, f)
  {
    if limit == 0 {
      return [], false, [];
    }
    var ring := new LineRing(limit);
    emitted, failed, asked := FetchUntilEnough(daemon, limit, f, ring);
  }

  function Power8(n: nat): nat {
    if n == 0 then 1 else 8 * Power8(n - 1)
  }

  // What fetch number k asks for if nothing wraps.
  function Size(limit: nat, k: nat): nat {
    8 * if k == 0 then limit else Size(limit, k - 1)
  }

  lemma {:induction false} SizeIsPositive(limit: nat, k: nat)
    requires limit > 0
    ensures Size(limit, k) > 0
  {
    if k == 0 {
    } else {
      SizeIsPositive(limit, k - 1);
    }
  }

  // The product does not wrap while the fetch is bounded, and grows beyond the bound.
  lemma FetchGrows(fetch: int, k: nat)
    requires k <= 5 && Power8(k + 1) <= fetch <= MAX_BACKLOG_FETCH
    ensures k <= 4 && Int64(fetch * BACKLOG_FETCH_FACTOR) == 8 * fetch >= Power8(k + 2)
  {
    assert Power8(6) == 262_144;
    Int64InRange(fetch * BACKLOG_FETCH_FACTOR);
  }

  // Fetch number k is of this size: never too small, and exact unless it wraps.
  predicate IsSize(fetch: int, limit: nat, k: nat) {
    && (k > 0 || fetch > 0 ==> fetch >= Power8(k + 1))
    && (Size(limit, k) < 0x8000_0000_0000_0000 ==> fetch == Size(limit, k))
  }

  lemma NextSize(fetch: int, limit: nat, k: nat)
    requires k <= 5 && IsSize(fetch, limit, k) && 0 < fetch <= MAX_BACKLOG_FETCH
    ensures k <= 4 && IsSize(Int64(fetch * BACKLOG_FETCH_FACTOR), limit, k + 1)
  {
    FetchGrows(fetch, k);
  }

  lemma FirstSize(limit: nat)
    requires limit > 0
    ensures IsSize(Int64(limit * BACKLOG_FETCH_FACTOR), limit, 0)
  {
    WrappedProduct(limit);
    if 8 * limit < 0x8000_0000_0000_0000 {
      Int64InRange(limit * BACKLOG_FETCH_FACTOR);
    }
  }

  // A tail of this size, or all of the log if that is out of bounds.
  ghost predicate Asks(tail: Option<nat>, size: nat) {
    size < 0x8000_0000_0000_0000 ==> tail == if size <= MAX_BACKLOG_FETCH then Some(size) else None
  }

  // A fetch of the last n lines came through with as many, and too few of them survive.
  predicate FallsShort(reply: Reply, limit: nat, f: Filter, tail: Option<nat>) {
    && !reply.Broken? && tail.Some?
    && |reply.Lines(tail)| >= tail.value && |Survivors(LinesOf(reply.Lines(tail)), f)| < limit
  }

  // Every fetch but the last fell short, and each asks for eight times as much as the one
  // before, the first for eight times the limit.
  ghost predicate AskedInTurn(daemon: nat -> Reply, limit: nat, f: Filter, k: nat, asked: seq<Option<nat>>)
    decreases |asked|
  {
    asked != [] ==>
      && Asks(asked[0], Size(limit, k))
      && (FallsShort(daemon(k), limit, f, asked[0]) <==> |asked| > 1)
      && AskedInTurn(daemon, limit, f, k + 1, asked[1..])
  }

  lemma AskedFirst(daemon: nat -> Reply, limit: nat, f: Filter, k: nat, tail: Option<nat>, later: seq<Option<nat>>)
    requires AskedInTurn(daemon, limit, f, k + 1, later)
    requires TooLittle(daemon(k), limit, f, tail) <==> later != []
    requires Asks(tail, Size(limit, k))
    ensures AskedInTurn(daemon, limit, f, k, [tail] + later)
  {
    assert ([tail] + later)[1..] == later;
  }

  lemma AsksForSize(fetch: int, limit: nat, k: nat)
    requires limit > 0 && IsSize(fetch, limit, k)
    ensures Asks(TailArg(fetch), Size(limit, k))
  {
    SizeIsPositive(limit, k);
  }

  lemma {:induction false} PlanFromIsInTurn(daemon: nat -> Reply, limit: nat, f: Filter, k: nat, fetch: int)
    requires limit > 0 && k <= 5 && IsSize(fetch, limit, k)
    ensures k + |PlanFrom(daemon, limit, f, k, fetch)| <= 6
    ensures AskedInTurn(daemon, limit, f, k, PlanFrom(daemon, limit, f, k, fetch))
    decreases 6 - k
  {
    var next := Int64(fetch * BACKLOG_FETCH_FACTOR);
    AsksForSize(fetch, limit, k);
    if TooLittle(daemon(k), limit, f, TailArg(fetch)) {
      NextSize(fetch, limit, k);
      PlanFromIsInTurn(daemon, limit, f, k + 1, next);
      AskedFirst(daemon, limit, f, k, TailArg(fetch), PlanFrom(daemon, limit, f, k + 1, next));
    } else {
      AskedFirst(daemon, limit, f, k, TailArg(fetch), []);
    }
  }

  // At most six fetches, each further one made exactly because the one before fell short,
  // and asking for eight times as much.
  lemma FetchesAreInTurn(daemon: nat -> Reply, limit: nat, f: Filter)
    ensures |Plan(daemon, limit, f)| <= 6 && (Plan(daemon, limit, f) == [] <==> limit == 0)
    ensures AskedInTurn(daemon, limit, f, 0, Plan(daemon, limit, f))
  {
    if limit > 0 {
      FirstSize(limit);
      PlanFromIsInTurn(daemon, limit, f, 0, Int64(limit * BACKLOG_FETCH_FACTOR));
    }
  }

  // ----- The backlog as the container wrote it -----

  const LOG_READER_BUFFER_SIZE := 64 * 1024

  // Reads without a newline are reader buffers full.
  ghost predicate FullReads(h: seq<RawLine>) {
    forall l :: l in h ==> forall b :: b in l.fulls ==> |b| == LOG_READER_BUFFER_SIZE
  }

  function WrittenLinesOf(h: seq<RawLine>): seq<Bounded> {
    if h == [] then [] else [Bound(h[0].Text())] + WrittenLinesOf(h[1..])
  }

  // The bytes of a log.
  function Written(h: seq<RawLine>): Bytes {
    if h == [] then [] else h[0].Written() + Written(h[1..])
  }

  function WithoutCR(b: Bytes): Bytes {
    if b != [] && b[|b| - 1] == '\r' then b[..|b| - 1] else b
  }

  // The lines of a text cut at its newlines: what follows the last newline is a line if
  // there is something.
  function LinesOfPieces(pieces: seq<Bytes>): seq<Bounded>
    requires pieces != []
  {
    if |pieces| > 1 then [Bound(WithoutCR(pieces[0]))] + LinesOfPieces(pieces[1..])
    else if pieces[0] == [] then []
    else [Bound(pieces[0])]
  }

  lemma TrimmedText(before: Bytes, last: Bytes, text: Bytes)
    requires last != [] && last[|last| - 1] == '\n' && '\n' !in before && '\n' !in last[..|last| - 1]
    requires text == before + last[..|last| - 1]
    ensures before + last == text + ['\n'] && '\n' !in text
    ensures TrimEOL(text + ['\n']) == WithoutCR(text)
  {
    TrimsLineEnd(text);
    if text != [] && text[|text| - 1] == '\r' {
      var bare := text[..|text| - 1];
      TrimsLineEnd(bare);
      assert text + ['\n'] == bare + "\r\n";
    }
  }

  lemma EndedText(l: RawLine) returns (text: Bytes)
    requires l.Valid() && l.ended
    ensures l.Written() == text + ['\n'] && '\n' !in text && l.Text() == WithoutCR(text)
  {
    text := Flatten(l.fulls) + l.last[..|l.last| - 1];
    TrimmedText(Flatten(l.fulls), l.last, text);
  }

  lemma FirstOfPieces(text: Bytes, rest: Bytes)
    requires '\n' !in text
    ensures LinesOfPieces(Split(text + ['\n'] + rest, '\n')) ==
            [Bound(WithoutCR(text))] + LinesOfPieces(Split(rest, '\n'))
  {
    SplitAtSeparator(text, rest, '\n');
    SplitWithoutSeparator(text, '\n');
    assert ([text] + Split(rest, '\n'))[1..] == Split(rest, '\n');
  }

  // The lines as written are the stretches between the newlines of the log.
  lemma {:induction false} WrittenLinesAreSplit(h: seq<RawLine>)
    requires ValidHistory(h)
    ensures WrittenLinesOf(h) == LinesOfPieces(Split(Written(h), '\n'))
  {
    if h == [] {
    } else if h[0].ended {
      var text := EndedText(h[0]);
      assert ValidHistory(h[1..]);
      WrittenLinesAreSplit(h[1..]);
      FirstOfPieces(text, Written(h[1..]));
    } else {
      assert |h| == 1 && Written(h) == h[0].Written() + [] == h[0].Written();
      SplitWithoutSeparator(h[0].Written(), '\n');
      assert WrittenLinesOf(h) == [Bound(h[0].Text())] + [];
    }
  }

  // What the tail should show: this depends on the bytes of the log and not on how they
  // were read.
  function WrittenBacklog(log: Bytes, f: Filter, limit: nat): seq<LogLine> {
    LastN(Survivors(LinesOfPieces(Split(log, '\n')), f), limit)
  }

  // The same text at the same level; the count of bytes dropped may be one too many.
  predicate Shows(a: LogLine, b: LogLine) {
    a.text == b.text && a.level == b.level && b.truncated <= a.truncated <= b.truncated + 1
  }

  ghost predicate ShowsAll(a: seq<LogLine>, b: seq<LogLine>) {
    |a| == |b| && forall i :: 0 <= i < |a| ==> Shows(a[i], b[i])
  }

  lemma LineAsWritten(l: RawLine)
    requires l.Valid() && forall b :: b in l.fulls ==> |b| == LOG_READER_BUFFER_SIZE
    ensures Bound(l.Kept()).text == Bound(l.Text()).text
    ensures Bound(l.Kept()).truncated == Bound(l.Text()).truncated + if l.CutsCRLF() then 1 else 0
  {
    if l.ended {
      KeptTextIgnoresTheCut(l, MAX_LOG_LINE_BYTES);
    }
  }

  lemma LaterHistory(h: seq<RawLine>)
    requires h != [] && ValidHistory(h) && FullReads(h)
    ensures h[0].Valid() && (forall b :: b in h[0].fulls ==> |b| == LOG_READER_BUFFER_SIZE)
    ensures ValidHistory(h[1..]) && FullReads(h[1..])
  {
    assert h[0] in h;
  }

  lemma {:induction false} SurvivorsAsWritten(h: seq<RawLine>, f: Filter)
    requires ValidHistory(h) && FullReads(h)
    ensures ShowsAll(Survivors(LinesOf(h), f), Survivors(WrittenLinesOf(h), f))
  {
    if h == [] {
    } else {
      LaterHistory(h);
      LineAsWritten(h[0]);
      SurvivorsAsWritten(h[1..], f);
      FirstAsWritten(Bound(h[0].Kept()), Bound(h[0].Text()), LinesOf(h[1..]), WrittenLinesOf(h[1..]), f);
    }
  }

  lemma FirstAsWritten(a: Bounded, b: Bounded, later: seq<Bounded>, later': seq<Bounded>, f: Filter)
    requires a.text == b.text && b.truncated <= a.truncated <= b.truncated + 1
    requires ShowsAll(Survivors(later, f), Survivors(later', f))
    ensures ShowsAll(Survivors([a] + later, f), Survivors([b] + later', f))
  {
    assert ([a] + later)[1..] == later && ([b] + later')[1..] == later';
  }

  lemma {:induction false} LinesAsWritten(h: seq<RawLine>)
    requires ValidHistory(h) && FullReads(h) && forall l :: l in h ==> !l.CutsCRLF()
    ensures LinesOf(h) == WrittenLinesOf(h)
  {
    if h == [] {
    } else {
      LaterHistory(h);
      LineAsWritten(h[0]);
      LinesAsWritten(h[1..]);
    }
  }

  lemma LastNShows(a: seq<LogLine>, b: seq<LogLine>, n: nat)
    requires ShowsAll(a, b)
    ensures ShowsAll(LastN(a, n), LastN(b, n))
  {
  }

  // However the log is cut into reads, the tail shows what was written: the same lines
  // with the same text, and exactly the same unless a read parts a carriage return from
  // its newline.
  lemma BacklogAsWritten(h: seq<RawLine>, f: Filter, limit: nat)
    requires ValidHistory(h) && FullReads(h)
    ensures ShowsAll(Backlog(h, f, limit), WrittenBacklog(Written(h), f, limit))
    ensures (forall l :: l in h ==> !l.CutsCRLF()) ==> Backlog(h, f, limit) == WrittenBacklog(Written(h), f, limit)
  {
    WrittenLinesAreSplit(h);
    SurvivorsAsWritten(h, f);
    LastNShows(Survivors(LinesOf(h), f), Survivors(WrittenLinesOf(h), f), limit);
    if forall l :: l in h ==> !l.CutsCRLF() {
      LinesAsWritten(h);
    }
  }
}
