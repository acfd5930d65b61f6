// The in-place rewrite of the emulator type in the config file
// (internal/config/emulator_type.go), as a lens: what it reads, what it writes, and the
// laws between the two.
module EmulatorTypeLens {
  import opened Sequences

  // ----- Lines -----

  predicate LineStart(s: string, i: nat) {
    i <= |s| && (i == 0 || s[i - 1] == '\n')
  }

  // The text up to its first newline.
  function FirstLine(s: string): (line: string)
    ensures |line| <= |s|
  {
    if s == "" || s[0] == '\n' then "" else [s[0]] + FirstLine(s[1..])
  }

  lemma {:induction false} FirstLineIsPrefix(s: string)
    ensures FirstLine(s) == s[..|FirstLine(s)|] && '\n' !in FirstLine(s)
    ensures |FirstLine(s)| < |s| ==> s[|FirstLine(s)|] == '\n'
  {
    if s != "" && s[0] != '\n' {
      FirstLineIsPrefix(s[1..]);
      assert s == [s[0]] + s[1..];
    }
  }

  lemma {:induction false} FirstLineIs(line: string, rest: string)
    requires '\n' !in line && (rest == "" || rest[0] == '\n')
    ensures FirstLine(line + rest) == line
  {
    if line == "" {
      assert line + rest == rest;
    } else {
      FirstLineIs(line[1..], rest);
      assert (line + rest)[1..] == line[1..] + rest;
      assert line == [line[0]] + line[1..];
    }
  }

  lemma {:induction false} NewlineEndsLine(s: string, k: nat)
    requires k < |s| && s[k] == '\n'
    ensures |FirstLine(s)| <= k
  {
    if k > 0 && s[0] != '\n' {
      NewlineEndsLine(s[1..], k - 1);
    }
  }

  lemma CharAgrees(s: string, s': string, i: nat, n: nat)
    requires i < n <= |s| && n <= |s'| && s[..n] == s'[..n]
    ensures s[i] == s'[i]
  {
    assert s[i] == s[..n][i] == s'[..n][i];
  }

  lemma SliceAgrees(s: string, s': string, i: nat, e: nat, n: nat)
    requires i <= e <= n <= |s| && n <= |s'| && s[..n] == s'[..n]
    ensures s[i..e] == s'[i..e]
  {
    forall k | i <= k < e
      ensures s[k] == s'[k]
    {
      CharAgrees(s, s', k, n);
    }
  }

  // Two texts that agree up to the end of a line have that line in common.
  lemma SameFirstLine(s: string, s': string, i: nat, n: nat)
    requires i < n <= |s| && n <= |s'| && s[..n] == s'[..n] && s[n - 1] == '\n'
    ensures FirstLine(s[i..]) == FirstLine(s'[i..])
  {
    NewlineEndsLine(s[i..], n - 1 - i);
    FirstLineIsPrefix(s[i..]);
    var line := FirstLine(s[i..]);
    var e := i + |line|;
    SliceAgrees(s, s', i, e, n);
    CharAgrees(s, s', e, n);
    assert line == s'[i..e];
    assert s'[i..] == line + s'[e..];
    FirstLineIs(line, s'[e..]);
  }

  lemma {:induction false} FirstLineStarts(s: string, e: nat)
    requires e <= |s| && '\n' !in s[..e]
    ensures e <= |FirstLine(s)| && FirstLine(s)[..e] == s[..e]
  {
    if e > 0 {
      assert s[..e][0] == s[0] && s[..e][1..] == s[1..][..e - 1];
      FirstLineStarts(s[1..], e - 1);
    }
  }

  // ----- Patterns, each anchored at a line start and kept within the line -----

  datatype Span = Span(start: nat, end: nat)

  // What the patterns find on a line: the end of a containers header, a table header, and
  // the value of a type assignment.
  datatype Grammar = Grammar(header: string -> Option<nat>, table: string -> bool, typeValue: string -> Option<Span>)

  // The text with another value in the given place.
  function Splice(data: string, v: Span, to: string): string
    requires v.start <= v.end <= |data|
  {
    data[..v.start] + to + data[v.end..]
  }

  predicate IsWordChar(c: char) {
    'a' <= c <= 'z' || 'A' <= c <= 'Z' || '0' <= c <= '9' || c == '_'
  }

  predicate IsWord(to: string) {
    to != "" && forall i :: 0 <= i < |to| ==> IsWordChar(to[i])
  }

  // A header is recognised by its own characters alone.
  ghost predicate HeaderLaw(g: Grammar, line: string, line': string) {
    match g.header(line)
    case None => true
    case Some(e) => e <= |line| && (e <= |line'| && line[..e] == line'[..e] ==> g.header(line') == Some(e))
  }

  // A type line stays one when its value is replaced by another word, and it is not a
  // table header.
  ghost predicate TypeLaw(g: Grammar, line: string, to: string) {
    g.typeValue(line).Some? ==>
      var v := g.typeValue(line).value;
      && v.start < v.end < |line| && !g.table(line)
      && (IsWord(to) ==> g.typeValue(Splice(line, v, to)) == Some(Span(v.start, v.start + |to|)))
  }

  ghost predicate Sound(g: Grammar) {
    && (forall line, line' :: HeaderLaw(g, line, line'))
    && (forall line, to :: TypeLaw(g, line, to))
    && g.typeValue("") == None
  }

  datatype Pattern = Header | Table | TypeLine | TableOrType

  predicate Matches(g: Grammar, p: Pattern, line: string) {
    match p
    case Header => g.header(line).Some?
    case Table => g.table(line)
    case TypeLine => g.typeValue(line).Some?
    case TableOrType => g.table(line) || g.typeValue(line).Some?
  }

  // The first line start from i on whose line matches.
  function FirstMatch(g: Grammar, p: Pattern, s: string, i: nat): (m: Option<nat>)
    requires i <= |s|
    ensures m.Some? ==> i <= m.value <= |s|
    decreases |s| - i
  {
    if LineStart(s, i) && Matches(g, p, FirstLine(s[i..])) then Some(i)
    else if i == |s| then None
    else FirstMatch(g, p, s, i + 1)
  }

  lemma {:induction false} FirstMatchMatches(g: Grammar, p: Pattern, s: string, i: nat)
    requires i <= |s| && FirstMatch(g, p, s, i).Some?
    ensures LineStart(s, FirstMatch(g, p, s, i).value)
    ensures Matches(g, p, FirstLine(s[FirstMatch(g, p, s, i).value..]))
    decreases |s| - i
  {
    if !(LineStart(s, i) && Matches(g, p, FirstLine(s[i..]))) {
      FirstMatchMatches(g, p, s, i + 1);
    }
  }

  // No earlier line matches, and if nothing is found no line does.
  lemma {:induction false} FirstMatchIsFirst(g: Grammar, p: Pattern, s: string, i: nat, k: nat)
    requires i <= k <= |s| && LineStart(s, k) && Matches(g, p, FirstLine(s[k..]))
    ensures FirstMatch(g, p, s, i).Some? && FirstMatch(g, p, s, i).value <= k
    decreases k - i
  {
    if i < k {
      FirstMatchIsFirst(g, p, s, i + 1, k);
    }
  }

  lemma LineStartAgrees(s: string, s': string, i: nat, n: nat)
    requires i <= n <= |s| && n <= |s'| && s[..n] == s'[..n]
    ensures LineStart(s', i) <==> LineStart(s, i)
  {
    if i > 0 {
      CharAgrees(s, s', i - 1, n);
    }
  }

  // The search stops at the same line in a text that agrees up to it.
  lemma {:induction false} FirstMatchAgrees(g: Grammar, p: Pattern, s: string, s': string, i: nat, n: nat)
    requires i <= n <= |s| && n <= |s'| && s[..n] == s'[..n]
    requires FirstMatch(g, p, s, i) == Some(n) && Matches(g, p, FirstLine(s'[n..]))
    ensures FirstMatch(g, p, s', i) == Some(n)
    decreases n - i
  {
    FirstMatchMatches(g, p, s, i);
    LineStartAgrees(s, s', i, n);
    if i < n {
      SameFirstLine(s, s', i, n);
      FirstMatchAgrees(g, p, s, s', i + 1, n);
    }
  }

  // ----- Where the value is -----

  datatype Location = Found(span: Span) | NoContainers | NoType

  // The value on the line starting at t.
  function ValueAt(g: Grammar, block: string, t: nat): Option<Span>
    requires t <= |block|
  {
    match g.typeValue(FirstLine(block[t..]))
    case None => None
    case Some(v) => Some(Span(t + v.start, t + v.end))
  }

  // The type line of the block: its first line that is a type line, with no table header
  // before it.
  function LocateInBlock(g: Grammar, block: string): Option<Span> {
    var m := FirstMatch(g, TableOrType, block, 0);
    if m == None then None else ValueAt(g, block, m.value)
  }

  // Just after the first containers header.
  function BlockStart(g: Grammar, data: string): Option<nat> {
    var h := FirstMatch(g, Header, data, 0);
    if h == None then None
    else match g.header(FirstLine(data[h.value..]))
      case None => None
      case Some(e) => Some(h.value + e)
  }

  function Locate(g: Grammar, data: string): Location {
    match BlockStart(g, data)
    case None => NoContainers
    case Some(b) =>
      if b > |data| then NoContainers
      else match LocateInBlock(g, data[b..])
        case None => NoType
        case Some(v) => Found(Span(b + v.start, b + v.end))
  }

  lemma BlockStartInRange(g: Grammar, data: string)
    requires Sound(g)
    ensures BlockStart(g, data).Some? ==> BlockStart(g, data).value <= |data|
    ensures BlockStart(g, data) == None <==> FirstMatch(g, Header, data, 0) == None
  {
    var h := FirstMatch(g, Header, data, 0);
    if h.Some? {
      FirstMatchMatches(g, Header, data, 0);
      assert HeaderLaw(g, FirstLine(data[h.value..]), "");
    }
  }

  lemma BlockSpanInRange(g: Grammar, block: string)
    requires Sound(g)
    ensures LocateInBlock(g, block).Some? ==>
      LocateInBlock(g, block).value.start < LocateInBlock(g, block).value.end < |block|
  {
    var m := FirstMatch(g, TableOrType, block, 0);
    if m.Some? {
      assert TypeLaw(g, FirstLine(block[m.value..]), "");
    }
  }

  lemma LocationInRange(g: Grammar, data: string)
    requires Sound(g)
    ensures Locate(g, data).Found? ==> Locate(g, data).span.start < Locate(g, data).span.end < |data|
  {
    BlockStartInRange(g, data);
    if Locate(g, data).Found? {
      BlockSpanInRange(g, data[BlockStart(g, data).value..]);
    }
  }

  // ----- The lens -----

  function Get(g: Grammar, data: string): Option<string>
    requires Sound(g)
  {
    LocationInRange(g, data);
    match Locate(g, data)
    case Found(v) => Some(data[v.start..v.end])
    case _ => None
  }

  function Set(g: Grammar, data: string, to: string): string
    requires Sound(g)
  {
    LocationInRange(g, data);
    match Locate(g, data)
    case Found(v) => Splice(data, v, to)
    case _ => data
  }

  // A change within the middle of three pieces.
  lemma SpliceMiddle(a: string, b: string, c: string, w: Span, to: string)
    requires w.start <= w.end <= |b|
    ensures Splice(a + (b + c), Span(|a| + w.start, |a| + w.end), to) == a + (Splice(b, w, to) + c)
  {
    var s := a + (b + c);
    assert s[..|a| + w.start] == a + b[..w.start];
    assert s[|a| + w.end..] == b[w.end..] + c;
    RegroupSplice(a, b[..w.start], to, b[w.end..], c);
  }

  lemma RegroupSplice(a: string, b: string, c: string, d: string, e: string)
    ensures (a + b) + c + (d + e) == a + ((b + c + d) + e)
  {
  }

  lemma SplicedLineIsLine(line: string, w: Span, to: string, rest: string)
    requires w.start <= w.end <= |line| && '\n' !in line && '\n' !in to && (rest == "" || rest[0] == '\n')
    ensures FirstLine(Splice(line, w, to) + rest) == Splice(line, w, to)
  {
    FirstLineIs(Splice(line, w, to), rest);
  }

  lemma DropPrefix(a: string, b: string)
    ensures (a + b)[|a|..] == b && (a + b)[..|a|] == a
  {
  }

  lemma SplicedTail(head: string, tail: string, line: string, w: Span, to: string, block: string, t: nat)
    requires t == |head| && block == head + tail && line == FirstLine(tail)
    requires w.start <= w.end <= |line| && '\n' !in to
    ensures FirstLine(Splice(block, Span(t + w.start, t + w.end), to)[t..]) == Splice(line, w, to)
    ensures Splice(block, Span(t + w.start, t + w.end), to)[..t] == head
  {
    FirstLineIsPrefix(tail);
    var rest := tail[|line|..];
    assert tail == line + rest;
    SpliceMiddle(head, line, rest, w, to);
    SplicedLineIsLine(line, w, to, rest);
    DropPrefix(head, Splice(line, w, to) + rest);
  }

  lemma TypeLineStays(g: Grammar, line: string, w: Span, to: string)
    requires Sound(g) && g.typeValue(line) == Some(w) && IsWord(to)
    ensures w.start < w.end < |line| && '\n' !in to
    ensures g.typeValue(Splice(line, w, to)) == Some(Span(w.start, w.start + |to|))
  {
    assert TypeLaw(g, line, to);
  }

  lemma SplicedBlock(g: Grammar, block: string, to: string, t: nat, w: Span, block': string)
    requires Sound(g) && IsWord(to) && FirstMatch(g, TableOrType, block, 0) == Some(t)
    requires t <= |block| && g.typeValue(FirstLine(block[t..])) == Some(w) && w.start < w.end < |FirstLine(block[t..])|
    requires block' == Splice(block, Span(t + w.start, t + w.end), to)
    ensures FirstMatch(g, TableOrType, block', 0) == Some(t)
    ensures g.typeValue(FirstLine(block'[t..])) == Some(Span(w.start, w.start + |to|))
  {
    TypeLineStays(g, FirstLine(block[t..]), w, to);
    assert block == block[..t] + block[t..];
    SplicedTail(block[..t], block[t..], FirstLine(block[t..]), w, to, block, t);
    FirstMatchAgrees(g, TableOrType, block, block', 0, t);
  }

  // Writing a value moves nothing but the end of the value.
  lemma SplicedBlockLocation(g: Grammar, block: string, to: string, v: Span)
    requires Sound(g) && LocateInBlock(g, block) == Some(v) && IsWord(to)
    ensures v.start < v.end < |block|
    ensures LocateInBlock(g, Splice(block, v, to)) == Some(Span(v.start, v.start + |to|))
  {
    var t := FirstMatch(g, TableOrType, block, 0).value;
    var w := g.typeValue(FirstLine(block[t..])).value;
    TypeLineStays(g, FirstLine(block[t..]), w, to);
    SplicedBlock(g, block, to, t, w, Splice(block, v, to));
  }

  lemma SameStart(s: string, s': string, h: nat, e: nat, n: nat)
    requires h + e <= n <= |s| && n <= |s'| && s[..n] == s'[..n]
    ensures s[h..][..e] == s'[h..][..e] && s[..h] == s'[..h]
  {
    SliceAgrees(s, s', h, h + e, n);
    SliceAgrees(s, s', 0, h, n);
    assert s[h..][..e] == s[h..h + e] && s'[h..][..e] == s'[h..h + e];
  }

  lemma HeaderLineStays(g: Grammar, tail: string, tail': string, e: nat)
    requires Sound(g) && g.header(FirstLine(tail)) == Some(e)
    requires e <= |tail| && e <= |tail'| && tail[..e] == tail'[..e]
    ensures g.header(FirstLine(tail')) == Some(e)
  {
    assert HeaderLaw(g, FirstLine(tail), FirstLine(tail'));
    FirstLineIsPrefix(tail);
    assert FirstLine(tail)[..e] == tail[..e];
    FirstLineStarts(tail', e);
  }

  // A change after the header leaves the block where it starts.
  lemma HeaderStays(g: Grammar, data: string, data': string, h: nat, e: nat, n: nat)
    requires Sound(g) && FirstMatch(g, Header, data, 0) == Some(h)
    requires h <= |data| && g.header(FirstLine(data[h..])) == Some(e)
    requires h + e <= n <= |data| && n <= |data'| && data[..n] == data'[..n]
    ensures FirstMatch(g, Header, data', 0) == Some(h) && g.header(FirstLine(data'[h..])) == Some(e)
  {
    SameStart(data, data', h, e, n);
    var tail, tail' := data[h..], data'[h..];
    HeaderLineStays(g, tail, tail', e);
    assert Matches(g, Header, FirstLine(tail'));
    FirstMatchAgrees(g, Header, data, data', 0, h);
  }

  lemma BlockStays(g: Grammar, data: string, data': string, b: nat, n: nat)
    requires Sound(g) && BlockStart(g, data) == Some(b)
    requires b <= n <= |data| && n <= |data'| && data[..n] == data'[..n]
    ensures BlockStart(g, data') == Some(b)
  {
    var h := FirstMatch(g, Header, data, 0).value;
    HeaderStays(g, data, data', h, g.header(FirstLine(data[h..])).value, n);
  }

  lemma SpliceInBlock(data: string, b: nat, w: Span, to: string)
    requires b <= |data| && w.start <= w.end <= |data| - b
    ensures Splice(data, Span(b + w.start, b + w.end), to)[..b + w.start] == data[..b + w.start]
    ensures Splice(data, Span(b + w.start, b + w.end), to)[b..] == Splice(data[b..], w, to)
  {
    assert data[..b + w.start] == data[..b] + data[b..][..w.start];
    assert data[b..][w.end..] == data[b + w.end..];
  }

  lemma FoundInBlock(g: Grammar, data: string, b: nat, w: Span)
    requires BlockStart(g, data) == Some(b) && b <= |data| && LocateInBlock(g, data[b..]) == Some(w)
    ensures Locate(g, data) == Found(Span(b + w.start, b + w.end))
  {
  }

  // Writing leaves the value where it starts.
  lemma SetKeepsLocation(g: Grammar, data: string, to: string, v: Span)
    requires Sound(g) && Locate(g, data) == Found(v) && IsWord(to)
    ensures v.start < v.end < |data|
    ensures Locate(g, Splice(data, v, to)) == Found(Span(v.start, v.start + |to|))
  {
    LocationInRange(g, data);
    var b := BlockStart(g, data).value;
    var w := LocateInBlock(g, data[b..]).value;
    SplicedBlockLocation(g, data[b..], to, w);
    SpliceInBlock(data, b, w, to);
    BlockStays(g, data, Splice(data, v, to), b, v.start);
    FoundInBlock(g, Splice(data, v, to), b, Span(w.start, w.start + |to|));
  }

  lemma SpliceReads(data: string, v: Span, to: string, second: string)
    requires v.start <= v.end <= |data|
    ensures Splice(data, v, to)[v.start..v.start + |to|] == to
    ensures Splice(data, v, data[v.start..v.end]) == data
    ensures Splice(Splice(data, v, to), Span(v.start, v.start + |to|), second) == Splice(data, v, second)
  {
    var data' := Splice(data, v, to);
    assert data'[..v.start] == data[..v.start] && data'[v.start + |to|..] == data[v.end..];
  }

  // Reading after writing gives the written value.
  lemma ReadAfterWrite(g: Grammar, data: string, to: string)
    requires Sound(g) && Get(g, data).Some? && IsWord(to)
    ensures Get(g, Set(g, data, to)) == Some(to)
  {
    var v := Locate(g, data).span;
    SetKeepsLocation(g, data, to, v);
    SpliceReads(data, v, to, to);
  }

  // Writing the current value changes nothing.
  lemma WriteCurrent(g: Grammar, data: string)
    requires Sound(g) && Get(g, data).Some?
    ensures Set(g, data, Get(g, data).value) == data
  {
    LocationInRange(g, data);
    SpliceReads(data, Locate(g, data).span, "", "");
  }

  // The second of two writes wins.
  lemma WriteTwice(g: Grammar, data: string, first: string, second: string)
    requires Sound(g) && IsWord(first)
    ensures Set(g, Set(g, data, first), second) == Set(g, data, second)
  {
    if Locate(g, data).Found? {
      var v := Locate(g, data).span;
      SetKeepsLocation(g, data, first, v);
      SpliceReads(data, v, first, second);
    }
  }

  // Every byte outside the value stays as it was.
  lemma WriteTouchesOnlyTheValue(g: Grammar, data: string, to: string, v: Span)
    requires Sound(g) && Locate(g, data) == Found(v)
    ensures v.start < v.end < |data| && |Set(g, data, to)| == |data| - (v.end - v.start) + |to|
    ensures forall i :: 0 <= i < v.start ==> Set(g, data, to)[i] == data[i]
    ensures forall i :: v.end <= i < |data| ==> Set(g, data, to)[i - v.end + v.start + |to|] == data[i]
  {
    LocationInRange(g, data);
    assert Set(g, data, to) == data[..v.start] + to + data[v.end..];
  }

  // ----- The search as the program makes it -----

  // It cuts the block at the next table header first, and then looks for a type line.
  function CutAtTable(g: Grammar, block: string): string {
    var next := FirstMatch(g, Table, block, 0);
    if next.Some? then block[..next.value] else block
  }

  lemma {:induction false} FirstOfTwo(g: Grammar, s: string, i: nat)
    requires i <= |s|
    ensures FirstMatch(g, Table, s, i) == None ==>
      FirstMatch(g, TableOrType, s, i) == FirstMatch(g, TypeLine, s, i)
    ensures FirstMatch(g, TypeLine, s, i) == None ==>
      FirstMatch(g, TableOrType, s, i) == FirstMatch(g, Table, s, i)
    ensures FirstMatch(g, Table, s, i).Some? && FirstMatch(g, TypeLine, s, i).Some? ==>
      var t, v := FirstMatch(g, Table, s, i).value, FirstMatch(g, TypeLine, s, i).value;
      FirstMatch(g, TableOrType, s, i) == Some(if t < v then t else v)
    decreases |s| - i
  {
    if i < |s| {
      FirstOfTwo(g, s, i + 1);
    }
  }

  lemma {:induction false} NoMatchInPrefix(g: Grammar, s: string, i: nat, n: nat)
    requires Sound(g) && i <= n <= |s| && LineStart(s, n)
    requires FirstMatch(g, TypeLine, s, i) == None || FirstMatch(g, TypeLine, s, i).value >= n
    ensures FirstMatch(g, TypeLine, s[..n], i) == None
    decreases n - i
  {
    LineStartAgrees(s, s[..n], i, n);
    if i < n {
      SameFirstLine(s, s[..n], i, n);
      NoMatchInPrefix(g, s, i + 1, n);
    } else {
      assert s[..n][n..] == "" && FirstLine("") == "";
    }
  }

  lemma CutBeforeTable(g: Grammar, block: string, n: nat, t: nat)
    requires n <= |block| && t < n && LineStart(block, n) && FirstMatch(g, TypeLine, block, 0) == Some(t)
    ensures FirstMatch(g, TypeLine, block[..n], 0) == Some(t) && FirstLine(block[..n][t..]) == FirstLine(block[t..])
  {
    FirstMatchMatches(g, TypeLine, block, 0);
    SameFirstLine(block, block[..n], t, n);
    assert block[..n][..t] == block[..t];
    FirstMatchAgrees(g, TypeLine, block, block[..n], 0, t);
  }

  lemma TypeLineBeforeTable(g: Grammar, block: string, n: nat, t: nat)
    requires Sound(g) && FirstMatch(g, Table, block, 0) == Some(n)
    requires FirstMatch(g, TypeLine, block, 0) == Some(t) && t < n
    ensures FirstMatch(g, TypeLine, block[..n], 0) == Some(t)
    ensures ValueAt(g, block[..n], t).Some? && LocateInBlock(g, block) == ValueAt(g, block[..n], t)
  {
    FirstMatchMatches(g, TypeLine, block, 0);
    FirstMatchMatches(g, Table, block, 0);
    CutBeforeTable(g, block, n, t);
    FirstOfTwo(g, block, 0);
  }

  lemma NoTypeLineBeforeTable(g: Grammar, block: string, n: nat)
    requires Sound(g) && FirstMatch(g, Table, block, 0) == Some(n)
    requires FirstMatch(g, TypeLine, block, 0) == None || FirstMatch(g, TypeLine, block, 0).value >= n
    ensures FirstMatch(g, TypeLine, block[..n], 0) == None && LocateInBlock(g, block) == None
  {
    FirstMatchMatches(g, Table, block, 0);
    assert TypeLaw(g, FirstLine(block[n..]), "");
    NoMatchInPrefix(g, block, 0, n);
    FirstOfTwo(g, block, 0);
  }

  // Cutting first and searching then finds the type line of the block, or nothing.
  lemma CutSearchAgrees(g: Grammar, block: string, cut: string, m: Option<nat>)
    requires Sound(g) && cut == CutAtTable(g, block) && m == FirstMatch(g, TypeLine, cut, 0)
    ensures m == None ==> LocateInBlock(g, block) == None
    ensures m.Some? ==> ValueAt(g, cut, m.value).Some? && LocateInBlock(g, block) == ValueAt(g, cut, m.value)
  {
    var n, t := FirstMatch(g, Table, block, 0), FirstMatch(g, TypeLine, block, 0);
    if n == None {
      FirstOfTwo(g, block, 0);
      if m.Some? {
        FirstMatchMatches(g, TypeLine, cut, 0);
      }
    } else if t.Some? && t.value < n.value {
      TypeLineBeforeTable(g, block, n.value, t.value);
    } else {
      NoTypeLineBeforeTable(g, block, n.value);
    }
  }

  // Finds the type line of the block.
  method FindInBlock(g: Grammar, data: string) returns (v: Option<Span>)
    requires Sound(g)
    ensures v == LocateInBlock(g, data)
  {
    var block := data;
    var next := FirstMatch(g, Table, block, 0);
    if next.Some? {
      block := block[..next.value];
    }
    var loc := FirstMatch(g, TypeLine, block, 0);
    CutSearchAgrees(g, data, block, loc);
    if loc == None {
      v := None;
    } else {
      v := ValueAt(g, block, loc.value);
    }
  }

  // Finds the value as the program does: just after the first header, then within the
  // block.
  method Find(g: Grammar, data: string) returns (l: Location)
    requires Sound(g)
    ensures l == Locate(g, data)
  {
    BlockStartInRange(g, data);
    var header := BlockStart(g, data);
    if header == None {
      return NoContainers;
    }
    var blockStart := header.value;
    var loc := FindInBlock(g, data[blockStart..]);
    if loc == None {
      return NoType;
    }
    return Found(Span(blockStart + loc.value.start, blockStart + loc.value.end));
  }

  // ----- The patterns of the config file -----

  // Skips blanks.
  function Skip(s: string, i: nat): (j: nat)
    requires i <= |s|
    ensures i <= j <= |s| && (j < |s| ==> s[j] != ' ' && s[j] != '\t')
    decreases |s| - i
  {
    if i < |s| && (s[i] == ' ' || s[i] == '\t') then Skip(s, i + 1) else i
  }

  lemma {:induction false} SkipAgrees(s: string, s': string, i: nat, n: nat)
    requires i <= |s| && Skip(s, i) < n <= |s| && n <= |s'| && s[..n] == s'[..n]
    ensures Skip(s', i) == Skip(s, i)
    decreases n - i
  {
    CharAgrees(s, s', i, n);
    if s[i] == ' ' || s[i] == '\t' {
      SkipAgrees(s, s', i + 1, n);
    }
  }

  function WordEnd(s: string, i: nat): (j: nat)
    requires i <= |s|
    ensures i <= j <= |s|
    decreases |s| - i
  {
    if i < |s| && IsWordChar(s[i]) then WordEnd(s, i + 1) else i
  }

  lemma {:induction false} WordEndIs(s: string, i: nat, j: nat)
    requires i <= j < |s| && !IsWordChar(s[j]) && forall k :: i <= k < j ==> IsWordChar(s[k])
    ensures WordEnd(s, i) == j
    decreases j - i
  {
    if i < j {
      WordEndIs(s, i + 1, j);
    }
  }

  predicate At(s: string, i: nat, word: string)
    requires i <= |s|
  {
    i + |word| <= |s| && s[i..i + |word|] == word
  }

  predicate IsQuote(c: char) {
    c == '"' || c == '\''
  }

  function HeaderEnd(line: string): Option<nat> {
    var i := Skip(line, 0);
    if At(line, i, "[[containers]]") then Some(i + 14) else None
  }

  predicate IsTableHeader(line: string) {
    var i := Skip(line, 0);
    i < |line| && line[i] == '['
  }

  // Just after the opening quote of the value.
  function ValueStart(line: string): (r: Option<nat>)
    ensures r.Some? ==> r.value <= |line|
  {
    var i := Skip(line, 0);
    if !At(line, i, "type") then None else
    var j := Skip(line, i + 4);
    if j == |line| || line[j] != '=' then None else
    var k := Skip(line, j + 1);
    if k == |line| || !IsQuote(line[k]) then None else Some(k + 1)
  }

  function TypeValue(line: string): Option<Span> {
    match ValueStart(line)
    case None => None
    case Some(v) =>
      var e := WordEnd(line, v);
      if v < e < |line| && IsQuote(line[e]) then Some(Span(v, e)) else None
  }

  // ----- What the patterns match -----

  predicate Blanks(s: string, i: nat, j: nat) {
    i <= j <= |s| && forall k :: i <= k < j ==> s[k] == ' ' || s[k] == '\t'
  }

  lemma {:induction false} SkipIsBlank(s: string, i: nat)
    requires i <= |s|
    ensures Blanks(s, i, Skip(s, i))
    decreases |s| - i
  {
    if i < |s| && (s[i] == ' ' || s[i] == '\t') {
      SkipIsBlank(s, i + 1);
    }
  }

  lemma {:induction false} SkipIs(s: string, i: nat, j: nat)
    requires Blanks(s, i, j) && (j < |s| ==> s[j] != ' ' && s[j] != '\t')
    ensures Skip(s, i) == j
    decreases j - i
  {
    if i < j {
      SkipIs(s, i + 1, j);
    }
  }

  lemma {:induction false} WordEndIsWord(s: string, i: nat)
    requires i <= |s|
    ensures forall k :: i <= k < WordEnd(s, i) ==> IsWordChar(s[k])
    decreases |s| - i
  {
    if i < |s| && IsWordChar(s[i]) {
      WordEndIsWord(s, i + 1);
    }
  }

  // "[[containers]]" at i, after blanks.
  predicate HeaderShape(line: string, i: nat, e: nat) {
    Blanks(line, 0, i) && e == i + 14 && At(line, i, "[[containers]]")
  }

  // type at i, an equals sign at j, a quote at k, and between blanks; then a word from v
  // to e and another quote.
  predicate TypeShape(line: string, i: nat, j: nat, k: nat, v: nat, e: nat) {
    && Blanks(line, 0, i) && At(line, i, "type")
    && Blanks(line, i + 4, j) && j < |line| && line[j] == '='
    && Blanks(line, j + 1, k) && k < |line| && IsQuote(line[k])
    && v == k + 1 && v < e < |line| && IsQuote(line[e])
    && forall n :: v <= n < e ==> IsWordChar(line[n])
  }

  lemma HeaderPattern(line: string, e: nat)
    ensures HeaderEnd(line) == Some(e) <==> exists i :: HeaderShape(line, i, e)
  {
    SkipIsBlank(line, 0);
    if HeaderEnd(line) == Some(e) {
      assert HeaderShape(line, Skip(line, 0), e);
    }
    if i: nat :| HeaderShape(line, i, e) {
      assert line[i] == line[i..i + 14][0] == '[';
      SkipIs(line, 0, i);
    }
  }

  lemma TablePattern(line: string)
    ensures IsTableHeader(line) <==> exists i: nat :: Blanks(line, 0, i) && At(line, i, "[")
  {
    var j := Skip(line, 0);
    SkipIsBlank(line, 0);
    if IsTableHeader(line) {
      assert line[j..j + 1] == "[";
      assert Blanks(line, 0, j) && At(line, j, "[");
    }
    if i: nat :| Blanks(line, 0, i) && At(line, i, "[") {
      assert line[i] == line[i..i + 1][0] == '[';
      SkipIs(line, 0, i);
    }
  }

  lemma TypeHasShape(line: string, v: nat, e: nat) returns (i: nat, j: nat, k: nat)
    requires TypeValue(line) == Some(Span(v, e))
    ensures TypeShape(line, i, j, k, v, e)
  {
    i := Skip(line, 0);
    j := Skip(line, i + 4);
    k := Skip(line, j + 1);
    SkipIsBlank(line, 0);
    SkipIsBlank(line, i + 4);
    SkipIsBlank(line, j + 1);
    WordEndIsWord(line, v);
  }

  lemma ShapeIsType(line: string, i: nat, j: nat, k: nat, v: nat, e: nat)
    requires TypeShape(line, i, j, k, v, e)
    ensures TypeValue(line) == Some(Span(v, e))
  {
    assert line[i] == line[i..i + 4][0] == 't';
    SkipIs(line, 0, i);
    SkipIs(line, i + 4, j);
    SkipIs(line, j + 1, k);
    WordEndIs(line, v, e);
  }

  // The value of a type line is what the pattern captures, and there is one exactly where
  // the pattern matches.
  lemma TypePattern(line: string, v: nat, e: nat)
    ensures TypeValue(line) == Some(Span(v, e)) <==> exists i, j, k :: TypeShape(line, i, j, k, v, e)
  {
    if TypeValue(line) == Some(Span(v, e)) {
      var i, j, k := TypeHasShape(line, v, e);
    }
    if i: nat, j: nat, k: nat :| TypeShape(line, i, j, k, v, e) {
      ShapeIsType(line, i, j, k, v, e);
    }
  }

  // ----- The patterns meet the laws -----

  const TOML := Grammar(HeaderEnd, IsTableHeader, TypeValue)

  lemma AtAgrees(s: string, s': string, i: nat, word: string, n: nat)
    requires i + |word| <= n <= |s| && n <= |s'| && s[..n] == s'[..n]
    ensures At(s', i, word) <==> At(s, i, word)
  {
    SliceAgrees(s, s', i, i + |word|, n);
  }

  lemma HeaderEndAgrees(line: string, line': string, e: nat)
    requires HeaderEnd(line) == Some(e) && e <= |line| && e <= |line'| && line[..e] == line'[..e]
    ensures HeaderEnd(line') == Some(e)
  {
    SkipAgrees(line, line', 0, e);
    AtAgrees(line, line', Skip(line, 0), "[[containers]]", e);
  }

  lemma ValueStartAgrees(line: string, line': string, v: nat)
    requires ValueStart(line) == Some(v) && v <= |line'| && line[..v] == line'[..v]
    ensures ValueStart(line') == Some(v)
  {
    var i := Skip(line, 0);
    var j := Skip(line, i + 4);
    var k := Skip(line, j + 1);
    SkipAgrees(line, line', 0, v);
    AtAgrees(line, line', i, "type", v);
    SkipAgrees(line, line', i + 4, v);
    SkipAgrees(line, line', j + 1, v);
    CharAgrees(line, line', j, v);
    CharAgrees(line, line', k, v);
  }

  // Another word between the same quotes makes a type line again.
  lemma TypeValueStays(line: string, v: Span, to: string)
    requires TypeValue(line) == Some(v) && v.start < v.end < |line| && IsWord(to)
    ensures TypeValue(Splice(line, v, to)) == Some(Span(v.start, v.start + |to|))
  {
    var line' := Splice(line, v, to);
    assert line[..v.start] == line'[..v.start];
    ValueStartAgrees(line, line', v.start);
    forall k | v.start <= k < v.start + |to|
      ensures IsWordChar(line'[k])
    {
      assert line'[k] == to[k - v.start];
    }
    assert line'[v.start + |to|] == line[v.end];
    WordEndIs(line', v.start, v.start + |to|);
  }

  lemma TypeLineIsNoTable(line: string)
    requires TypeValue(line).Some?
    ensures !IsTableHeader(line)
  {
    assert line[Skip(line, 0)] == line[Skip(line, 0)..Skip(line, 0) + 4][0] == 't';
  }

  // The patterns meet the laws the lens needs.
  lemma TomlIsSound()
    ensures Sound(TOML)
  {
    forall line, line'
      ensures HeaderLaw(TOML, line, line')
    {
      if HeaderEnd(line).Some? {
        var e := HeaderEnd(line).value;
        if e <= |line'| && line[..e] == line'[..e] {
          HeaderEndAgrees(line, line', e);
        }
      }
    }
    forall line, to
      ensures TypeLaw(TOML, line, to)
    {
      if TypeValue(line).Some? {
        TypeLineIsNoTable(line);
        if IsWord(to) {
          TypeValueStays(line, TypeValue(line).value, to);
        }
      }
    }
  }

  // The three lens laws for the config file, whatever it holds.
  lemma TomlLens(data: string, first: string, second: string)
    requires IsWord(first)
    ensures Sound(TOML)
    ensures Get(TOML, data).Some? ==> Get(TOML, Set(TOML, data, first)) == Some(first)
    ensures Get(TOML, data).Some? ==> Set(TOML, data, Get(TOML, data).value) == data
    ensures Set(TOML, Set(TOML, data, first), second) == Set(TOML, data, second)
    ensures Get(TOML, data) == None ==> Set(TOML, data, first) == data
  {
    TomlIsSound();
    if Get(TOML, data).Some? {
      ReadAfterWrite(TOML, data, first);
      WriteCurrent(TOML, data);
    }
    WriteTwice(TOML, data, first, second);
  }

  // ----- The rewrite -----

  datatype SetResult = Ok | NoContainersBlock | NoTypeField

  function ResultFor(l: Location): SetResult {
    match l
    case Found(_) => Ok
    case NoContainers => NoContainersBlock
    case NoType => NoTypeField
  }

  // The rewritten text, put together piece by piece.
  method Rewrite(data: string, v: Span, to: string) returns (updated: string)
    requires v.start <= v.end <= |data|
    ensures updated == Splice(data, v, to)
  {
    updated := [];
    updated := updated + data[..v.start];
    updated := updated + to;
    updated := updated + data[v.end..];
  }

  class ConfigFile {
    var data: string

    // Sets the emulator type in the file; nothing is written if it is set already.
    method SetEmulatorType(to: string) returns (r: SetResult)
      modifies this
      ensures Sound(TOML) && r == ResultFor(Locate(TOML, old(data)))
      ensures data == Set(TOML, old(data), to)
    {
      TomlIsSound();
      var l := Find(TOML, data);
      r := ResultFor(l);
      if l.Found? {
        LocationInRange(TOML, data);
        if data[l.span.start..l.span.end] != to {
          data := Rewrite(data, l.span, to);
        } else {
          WriteCurrent(TOML, data);
        }
      }
    }
  }
}
