// The snapshot archive format of internal/snap/snap.go: parser, printer, and the guarded
// rewriting of one entry.
module SnapArchive {
  import opened Sequences

  datatype Entry = Entry(name: string, value: string)

  // In pieces short enough for the verifier to search for newlines.
  const HEADER_LINE_1 := "Snapshots created by " + "internal/snap. " + "UPDATE_SNAPS=true " + "go test rewrites"
  const HEADER_LINE_2 := "this file."
  const HEADER := HEADER_LINE_1 + "\n" + HEADER_LINE_2 + "\n\n"
  const TERMINATOR := "---"

  datatype ParseResult = Parsed(entries: seq<Entry>) | Unterminated(name: string) {
    function After(before: seq<Entry>): ParseResult {
      if Parsed? then Parsed(before + entries) else this
    }
  }

  // ----- Parsing -----

  // The name on a "[name]" line.
  function EntryName(line: string): Option<string> {
    if |line| >= 3 && line[0] == '[' && line[|line| - 1] == ']' then Some(line[1..|line| - 1]) else None
  }

  // How many lines come before the first terminator line.
  function TerminatorAt(lines: seq<string>): (k: nat)
    ensures k <= |lines|
  {
    if lines == [] || lines[0] == TERMINATOR then 0 else 1 + TerminatorAt(lines[1..])
  }

  lemma {:induction false} TerminatorIsFirst(lines: seq<string>)
    ensures TERMINATOR !in lines[..TerminatorAt(lines)]
    ensures TerminatorAt(lines) < |lines| <==> TERMINATOR in lines
  {
    if lines != [] && lines[0] != TERMINATOR {
      var k := TerminatorAt(lines[1..]);
      TerminatorIsFirst(lines[1..]);
      assert lines[..k + 1] == [lines[0]] + lines[1..][..k];
      assert lines == [lines[0]] + lines[1..];
    }
  }

  // Every line with its newline.
  function Unlines(lines: seq<string>): string {
    if lines == [] then "" else Unlines(lines[..|lines| - 1]) + lines[|lines| - 1] + "\n"
  }

  function ParseLines(lines: seq<string>): ParseResult {
    if lines == [] then Parsed([])
    else match EntryName(lines[0])
      case None => ParseLines(lines[1..])
      case Some(name) =>
        var tail := lines[1..];
        var k := TerminatorAt(tail);
        if k == |tail| then Unterminated(name)
        else ParseLines(tail[k + 1..]).After([Entry(name, Unlines(tail[..k]))])
  }

  function Parse(data: string): ParseResult {
    ParseLines(Split(data, '\n'))
  }

  // The index of the first terminator line at or after i.
  function TerminatorFrom(lines: seq<string>, i: nat): (j: nat)
    requires i <= |lines|
    ensures i <= j <= |lines|
  {
    i + TerminatorAt(lines[i..])
  }

  // The parse of lines[i..] by position, after the entries found so far.
  function ParseFrom(entries: seq<Entry>, lines: seq<string>, i: nat): ParseResult
    requires i <= |lines|
    decreases |lines| - i
  {
    if i == |lines| then Parsed(entries)
    else match EntryName(lines[i])
      case None => ParseFrom(entries, lines, i + 1)
      case Some(name) =>
        var j := TerminatorFrom(lines, i + 1);
        if j == |lines| then Unterminated(name)
        else ParseFrom(entries + [Entry(name, Unlines(lines[i + 1..j]))], lines, j + 1)
  }

  lemma {:induction false} ParseFromIsParseLines(entries: seq<Entry>, lines: seq<string>, i: nat)
    requires i <= |lines|
    ensures ParseFrom(entries, lines, i) == ParseLines(lines[i..]).After(entries)
    decreases |lines| - i
  {
    if i == |lines| {
      assert entries + [] == entries;
    } else if EntryName(lines[i]) == None {
      assert lines[i..][1..] == lines[i + 1..];
      ParseFromIsParseLines(entries, lines, i + 1);
    } else {
      var name, j := EntryName(lines[i]).value, TerminatorFrom(lines, i + 1);
      if j < |lines| {
        ParseFromIsParseLines(entries + [Entry(name, Unlines(lines[i + 1..j]))], lines, j + 1);
      }
      ParseFromTake(entries, lines, i, name, j, lines[i + 1..]);
    }
  }

  lemma ParseFromTake(entries: seq<Entry>, lines: seq<string>, i: nat, name: string, j: nat, tail: seq<string>)
    requires i < |lines| && EntryName(lines[i]) == Some(name) && j == TerminatorFrom(lines, i + 1)
    requires tail == lines[i + 1..]
    requires j < |lines| ==>
      var more := [Entry(name, Unlines(lines[i + 1..j]))];
      ParseFrom(entries + more, lines, j + 1) == ParseLines(lines[j + 1..]).After(entries + more)
    ensures ParseFrom(entries, lines, i) == ParseLines(lines[i..]).After(entries)
  {
    var k := j - i - 1;
    assert lines[i..][1..] == tail;
    ParseNamed(lines[i..], tail, k, name);
    if j < |lines| {
      assert tail[..k] == lines[i + 1..j] && tail[k + 1..] == lines[j + 1..];
      AfterTwice(ParseLines(lines[j + 1..]), entries, [Entry(name, Unlines(lines[i + 1..j]))]);
    }
  }

  // The inner loop of ParseArchive: collects the lines up to the terminator.
  method ReadValue(lines: seq<string>, i: nat) returns (value: string, terminated: bool, j: nat)
    requires i <= |lines|
    ensures j == TerminatorFrom(lines, i)
    ensures terminated <==> j < |lines|
    ensures value == Unlines(lines[i..j])
  {
    value, terminated, j := "", false, i;
    while j < |lines|
      invariant i <= j <= |lines| && !terminated
      invariant value == Unlines(lines[i..j])
      invariant TerminatorFrom(lines, i) == TerminatorFrom(lines, j)
    {
      assert lines[j..][1..] == lines[j + 1..];
      if lines[j] == TERMINATOR {
        terminated := true;
        break;
      }
      assert lines[i..j + 1][..j - i] == lines[i..j];
      value := value + lines[j];
      value := value + "\n";
      j := j + 1;
    }
  }

  method ParseArchive(data: string) returns (r: ParseResult)
    ensures r == Parse(data)
  {
    var lines := Split(data, '\n');
    ParseFromStart(lines);
    r := ParseSplit(lines);
  }

  // The outer loop of ParseArchive.
  method ParseSplit(lines: seq<string>) returns (r: ParseResult)
    ensures r == ParseFrom([], lines, 0)
  {
    var entries: seq<Entry> := [];
    var i := 0;
    ghost var goal := ParseFrom(entries, lines, i);
    while i < |lines|
      invariant i <= |lines|
      invariant goal == ParseFrom(entries, lines, i)
    {
      var m := EntryName(lines[i]);
      if m.Some? {
        var value, terminated, j := ReadValue(lines, i + 1);
        if !terminated {
          return Unterminated(m.value);
        }
        entries := entries + [Entry(m.value, value)];
        i := j;
      }
      i := i + 1;
    }
    return Parsed(entries);
  }

  lemma AfterNothing(r: ParseResult)
    ensures r.After([]) == r
  {
    assert r.Parsed? ==> [] + r.entries == r.entries;
  }

  lemma ParseFromStart(lines: seq<string>)
    ensures ParseFrom([], lines, 0) == ParseLines(lines)
  {
    ParseFromIsParseLines([], lines, 0);
    assert lines[0..] == lines;
    AfterNothing(ParseLines(lines));
  }

  lemma AfterTwice(r: ParseResult, a: seq<Entry>, b: seq<Entry>)
    ensures r.After(b).After(a) == r.After(a + b)
  {
    if r.Parsed? {
      Regroup(a, b, r.entries);
    }
  }

  // ----- Printing -----

  // Lexicographic order.
  predicate Less(a: string, b: string) {
    b != "" && (a == "" || a[0] < b[0] || (a[0] == b[0] && Less(a[1..], b[1..])))
  }

  ghost predicate SortedNames(s: seq<Entry>) {
    forall i, j :: 0 <= i < j < |s| ==> !Less(s[j].name, s[i].name)
  }

  function Insert(e: Entry, s: seq<Entry>): (r: seq<Entry>)
    ensures multiset(r) == multiset{e} + multiset(s)
  {
    if s == [] || !Less(s[0].name, e.name) then [e] + s
    else
      assert s == [s[0]] + s[1..];
      [s[0]] + Insert(e, s[1..])
  }

  function SortedByName(s: seq<Entry>): (r: seq<Entry>)
    ensures multiset(r) == multiset(s)
  {
    if s == [] then []
    else
      assert s == [s[0]] + s[1..];
      Insert(s[0], SortedByName(s[1..]))
  }

  lemma {:induction false} LessIsTransitive(a: string, b: string, c: string)
    requires !Less(b, a) && !Less(c, b)
    ensures !Less(c, a)
  {
    if a != "" && b != "" && c != "" && a[0] == b[0] == c[0] {
      LessIsTransitive(a[1..], b[1..], c[1..]);
    }
  }

  lemma {:induction false} LessIsAsymmetric(a: string, b: string)
    requires Less(a, b)
    ensures !Less(b, a)
  {
    if a != "" && a[0] == b[0] {
      LessIsAsymmetric(a[1..], b[1..]);
    }
  }

  ghost predicate NoneLess(s: seq<Entry>, name: string) {
    forall j :: 0 <= j < |s| ==> !Less(s[j].name, name)
  }

  lemma ConsSorts(x: Entry, s: seq<Entry>)
    requires SortedNames(s) && NoneLess(s, x.name)
    ensures SortedNames([x] + s)
  {
  }

  lemma FirstIsLeast(s: seq<Entry>, name: string)
    requires s != [] && SortedNames(s) && !Less(s[0].name, name)
    ensures NoneLess(s, name)
  {
    forall j | 0 < j < |s|
      ensures !Less(s[j].name, name)
    {
      LessIsTransitive(name, s[0].name, s[j].name);
    }
  }

  lemma InsertedAfter(x: Entry, e: Entry, s: seq<Entry>)
    requires NoneLess(s, x.name) && Less(x.name, e.name)
    ensures NoneLess(Insert(e, s), x.name)
  {
    var t := Insert(e, s);
    LessIsAsymmetric(x.name, e.name);
    forall j | 0 <= j < |t|
      ensures !Less(t[j].name, x.name)
    {
      assert t[j] in multiset(t);
    }
  }

  lemma {:induction false} InsertSorts(e: Entry, s: seq<Entry>)
    requires SortedNames(s)
    ensures SortedNames(Insert(e, s))
  {
    if s == [] {
    } else if Less(s[0].name, e.name) {
      InsertSorts(e, s[1..]);
      InsertedAfter(s[0], e, s[1..]);
      ConsSorts(s[0], Insert(e, s[1..]));
    } else {
      FirstIsLeast(s, e.name);
      ConsSorts(e, s);
    }
  }

  lemma {:induction false} SortedByNameSorts(s: seq<Entry>)
    ensures SortedNames(SortedByName(s))
  {
    if s == [] {
    } else {
      SortedByNameSorts(s[1..]);
      InsertSorts(s[0], SortedByName(s[1..]));
    }
  }

  // The same entries in an order by name; where a name repeats there may be several.
  ghost predicate IsSorting(entries: seq<Entry>, sorted: seq<Entry>) {
    SortedNames(sorted) && multiset(sorted) == multiset(entries)
  }

  // Sorts by name. Nothing is promised about the order of entries with one name.
  method SortSlice(entries: seq<Entry>) returns (sorted: seq<Entry>)
    ensures IsSorting(entries, sorted)
  {
    SortedByNameSorts(entries);
    sorted := SortedByName(entries);
  }

  lemma SortingKeeps(entries: seq<Entry>, sorted: seq<Entry>)
    requires IsSorting(entries, sorted)
    ensures |sorted| == |entries|
    ensures forall e :: e in sorted <==> e in entries
  {
    assert |multiset(sorted)| == |multiset(entries)|;
    assert forall e :: e in sorted <==> e in multiset(sorted);
    assert forall e :: e in entries <==> e in multiset(entries);
  }

  ghost predicate DistinctNames(entries: seq<Entry>) {
    forall i, j :: 0 <= i < j < |entries| ==> entries[i].name != entries[j].name
  }

  lemma {:induction false} LessIsTotal(a: string, b: string)
    requires !Less(a, b) && !Less(b, a)
    ensures a == b
  {
    if a == "" || b == "" {
    } else {
      LessIsTotal(a[1..], b[1..]);
      assert a == [a[0]] + a[1..] && b == [b[0]] + b[1..];
    }
  }

  lemma SameFirst(a: seq<Entry>, b: seq<Entry>)
    requires a != [] && SortedNames(a) && SortedNames(b) && multiset(a) == multiset(b) && DistinctNames(a)
    ensures b != [] && a[0] == b[0]
  {
    assert a[0] in multiset(b) && |multiset(a)| == |multiset(b)|;
    assert b[0] in multiset(a);
    var i :| 0 <= i < |b| && b[i] == a[0];
    var j :| 0 <= j < |a| && a[j] == b[0];
    LessIsIrreflexive(a[0].name);
    assert !Less(a[0].name, b[0].name);
    assert !Less(b[0].name, a[0].name);
    LessIsTotal(a[0].name, b[0].name);
  }

  lemma TailMultiset(s: seq<Entry>)
    requires s != []
    ensures multiset(s[1..]) == multiset(s) - multiset{s[0]} && s == [s[0]] + s[1..]
  {
    assert s == [s[0]] + s[1..];
  }

  // Entries with distinct names have one order.
  lemma {:induction false} SortingIsUnique(a: seq<Entry>, b: seq<Entry>)
    requires SortedNames(a) && SortedNames(b) && multiset(a) == multiset(b) && DistinctNames(a)
    ensures a == b
  {
    if a == [] {
      assert |multiset(b)| == 0;
    } else {
      SameFirst(a, b);
      TailMultiset(a);
      TailMultiset(b);
      SortingIsUnique(a[1..], b[1..]);
    }
  }

  // A value as it is stored: it ends its last line.
  function EnsureNL(s: string): string {
    if s != "" && s[|s| - 1] != '\n' then s + "\n" else s
  }

  // Writes one entry after the text b.
  function PrintEntry(b: string, separate: bool, e: Entry): string {
    (if separate then b + "\n" else b) + ("[" + e.name + "]\n") + EnsureNL(e.value) + (TERMINATOR + "\n")
  }

  // Writes the entries in the given order, with a blank line between two of them.
  function Print(b: string, entries: seq<Entry>): string {
    if entries == [] then b
    else PrintEntry(Print(b, entries[..|entries| - 1]), |entries| > 1, entries[|entries| - 1])
  }

  method WriteText(before: string, separate: bool, e: Entry) returns (b: string)
    ensures b == PrintEntry(before, separate, e)
  {
    b := before;
    if separate {
      b := b + "\n";
    }
    b := b + ("[" + e.name + "]\n");
    var v := e.value;
    if v != "" && v[|v| - 1] != '\n' {
      v := v + "\n";
    }
    b := b + v;
    b := b + (TERMINATOR + "\n");
  }

  method FormatArchive(entries: seq<Entry>) returns (data: string, ghost sorted: seq<Entry>)
    ensures IsSorting(entries, sorted) && data == Print(HEADER, sorted)
  {
    var es := SortSlice(entries);
    var header := HEADER;
    var b := header;
    for i := 0 to |es|
      invariant b == Print(header, es[..i])
    {
      assert es[..i + 1][..i] == es[..i];
      b := WriteText(b, i > 0, es[i]);
    }
    assert es[..|es|] == es;
    return b, es;
  }

  // ----- Looking up -----

  function Lookup(entries: seq<Entry>, name: string): Option<string> {
    if entries == [] then None
    else if entries[0].name == name then Some(entries[0].value)
    else Lookup(entries[1..], name)
  }

  method EntryValue(entries: seq<Entry>, name: string) returns (value: string, found: bool)
    ensures Lookup(entries, name) == if found then Some(value) else None
  {
    for i := 0 to |entries|
      invariant Lookup(entries, name) == Lookup(entries[i..], name)
    {
      assert entries[i..][1..] == entries[i + 1..];
      if entries[i].name == name {
        return entries[i].value, true;
      }
    }
    return "", false;
  }

  // ----- The lines of a printed archive -----

  ghost predicate EndsLine(s: string) {
    s != "" ==> s[|s| - 1] == '\n'
  }

  // The lines of a text whose last line is ended.
  function Complete(s: string): seq<string> {
    Split(s, '\n')[..|Split(s, '\n')| - 1]
  }

  lemma SplitConcat(x: string, y: string)
    requires EndsLine(x)
    ensures Split(x + y, '\n') == Complete(x) + Split(y, '\n')
    ensures EndsLine(y) ==> EndsLine(x + y) && Complete(x + y) == Complete(x) + Complete(y)
  {
    if x == "" {
      assert x + y == y;
    } else {
      var x' := x[..|x| - 1];
      assert x == x' + ['\n'] + "" && x + y == x' + ['\n'] + y;
      SplitAtSeparator(x', "", '\n');
      SplitAtSeparator(x', y, '\n');
      assert Complete(x) == Split(x', '\n');
    }
  }

  lemma CompleteLine(line: string)
    requires '\n' !in line
    ensures Complete(line + "\n") == [line] && EndsLine(line + "\n")
  {
    assert line + "\n" == line + ['\n'] + "";
    SplitAtSeparator(line, "", '\n');
    SplitWithoutSeparator(line, '\n');
  }

  lemma CompleteUnended(s: string)
    requires EndsLine(s)
    ensures Split(s, '\n') == Complete(s) + [""]
  {
    SplitConcat(s, "");
    assert s + "" == s;
  }

  function ValueLines(value: string): seq<string> {
    Complete(EnsureNL(value))
  }

  function EntryLines(separate: bool, e: Entry): seq<string> {
    (if separate then [""] else []) + ["[" + e.name + "]"] + ValueLines(e.value) + [TERMINATOR]
  }

  function AllLines(entries: seq<Entry>): seq<string> {
    if entries == [] then []
    else AllLines(entries[..|entries| - 1]) + EntryLines(|entries| > 1, entries[|entries| - 1])
  }

  ghost predicate ValidName(name: string) {
    name != "" && '\n' !in name
  }

  ghost predicate ValidNames(entries: seq<Entry>) {
    forall i :: 0 <= i < |entries| ==> ValidName(entries[i].name)
  }

  // s is the text of the given ended lines.
  ghost predicate IsText(s: string, lines: seq<string>) {
    EndsLine(s) && Complete(s) == lines
  }

  lemma TextConcat(x: string, xs: seq<string>, y: string, ys: seq<string>)
    requires IsText(x, xs) && IsText(y, ys)
    ensures IsText(x + y, xs + ys)
  {
    SplitConcat(x, y);
  }

  lemma ValueText(value: string)
    ensures IsText(EnsureNL(value), ValueLines(value))
  {
  }

  lemma PrintEntryLines(b: string, lines: seq<string>, separate: bool, e: Entry)
    requires IsText(b, lines) && ValidName(e.name)
    ensures IsText(PrintEntry(b, separate, e), lines + EntryLines(separate, e))
  {
    var b1, l1 := if separate then b + "\n" else b, lines + if separate then [""] else [];
    assert IsText(b1, l1) by {
      CompleteLine("");
      assert "" + "\n" == "\n" && lines + [] == lines;
      if separate {
        TextConcat(b, lines, "\n", [""]);
      }
    }
    var head := "[" + e.name + "]";
    var b2, l2 := b1 + ("[" + e.name + "]\n"), l1 + [head];
    assert IsText(b2, l2) by {
      CompleteLine(head);
      assert "[" + e.name + "]\n" == head + "\n";
      TextConcat(b1, l1, head + "\n", [head]);
    }
    ValueText(e.value);
    TextConcat(b2, l2, EnsureNL(e.value), ValueLines(e.value));
    CompleteLine(TERMINATOR);
    TextConcat(b2 + EnsureNL(e.value), l2 + ValueLines(e.value), TERMINATOR + "\n", [TERMINATOR]);
    EntryLinesGrouped(lines, separate, e);
  }

  lemma EntryLinesGrouped(lines: seq<string>, separate: bool, e: Entry)
    ensures lines + EntryLines(separate, e)
         == lines + (if separate then [""] else []) + ["[" + e.name + "]"] + ValueLines(e.value) + [TERMINATOR]
  {
  }

  lemma {:induction false} PrintLines(b: string, entries: seq<Entry>)
    requires EndsLine(b) && ValidNames(entries)
    ensures EndsLine(Print(b, entries))
    ensures Complete(Print(b, entries)) == Complete(b) + AllLines(entries)
  {
    if entries == [] {
    } else {
      var front, last := entries[..|entries| - 1], entries[|entries| - 1];
      PrintLines(b, front);
      PrintEntryLines(Print(b, front), Complete(b) + AllLines(front), |entries| > 1, last);
      Regroup(Complete(b), AllLines(front), EntryLines(|entries| > 1, last));
    }
  }

  lemma HeaderLines()
    ensures IsText(HEADER, [HEADER_LINE_1, HEADER_LINE_2, ""])
  {
    CompleteLine(HEADER_LINE_1);
    CompleteLine(HEADER_LINE_2);
    CompleteLine("");
    var l1, l2 := HEADER_LINE_1 + "\n", HEADER_LINE_2 + "\n";
    TextConcat(l1, [HEADER_LINE_1], l2, [HEADER_LINE_2]);
    TextConcat(l1 + l2, [HEADER_LINE_1] + [HEADER_LINE_2], "" + "\n", [""]);
    assert [HEADER_LINE_1] + [HEADER_LINE_2] + [""] == [HEADER_LINE_1, HEADER_LINE_2, ""];
    assert HEADER == l1 + l2 + ("" + "\n");
  }

  // A printed archive, line by line; the last piece is what follows the last newline.
  lemma PrintedLines(entries: seq<Entry>)
    requires ValidNames(entries)
    ensures Parse(Print(HEADER, entries)) == ParseLines(AllLines(entries) + [""])
  {
    HeaderLines();
    PrintLines(HEADER, entries);
    CompleteUnended(Print(HEADER, entries));
    var rest := AllLines(entries) + [""];
    var all := [HEADER_LINE_1, HEADER_LINE_2, ""] + rest;
    assert Complete(HEADER) + AllLines(entries) + [""] == all;
    assert all[1..][1..][1..] == rest;
    assert ParseLines(all) == ParseLines(all[1..]) == ParseLines(all[1..][1..]) == ParseLines(rest);
  }

  // ----- Storable values -----

  // A value can be stored when none of its lines is the terminator.
  predicate Storable(value: string) {
    TERMINATOR !in Split(value, '\n')
  }

  lemma StorableLines(value: string)
    ensures Storable(value) <==> TERMINATOR !in ValueLines(value)
  {
    if EndsLine(value) {
      CompleteUnended(value);
      assert Split(value, '\n') == Complete(value) + [""];
    } else {
      assert value + "\n" == value + ['\n'] + "";
      SplitAtSeparator(value, "", '\n');
      assert ValueLines(value) == Split(value, '\n');
    }
  }

  lemma UnlinesSnoc(lines: seq<string>, line: string)
    ensures Unlines(lines + [line]) == Unlines(lines) + line + "\n"
  {
    assert (lines + [line])[..|lines|] == lines;
  }

  lemma {:induction false} UnlinesAppend(a: seq<string>, b: seq<string>)
    ensures Unlines(a + b) == Unlines(a) + Unlines(b)
  {
    if b == [] {
      assert a + b == a;
    } else {
      var front, last := b[..|b| - 1], b[|b| - 1];
      UnlinesAppend(a, front);
      assert a + b == (a + front) + [last];
      UnlinesSnoc(a + front, last);
      assert Unlines(a) + Unlines(front) + last + "\n" == Unlines(a) + (Unlines(front) + last + "\n");
    }
  }

  lemma UnlinesCons(line: string, lines: seq<string>)
    ensures Unlines([line] + lines) == line + "\n" + Unlines(lines)
  {
    UnlinesAppend([line], lines);
    UnlinesSnoc([], line);
    assert [] + [line] == [line] && Unlines([]) + line == line;
  }

  lemma UnlinesPrepend(c: char, pieces: seq<string>)
    requires pieces != []
    ensures Unlines(Prepend(c, pieces)) == [c] + Unlines(pieces)
  {
    assert pieces == [pieces[0]] + pieces[1..];
    UnlinesCons(pieces[0], pieces[1..]);
    UnlinesCons([c] + pieces[0], pieces[1..]);
    Regroup([c], pieces[0], "\n" + Unlines(pieces[1..]));
  }

  lemma {:induction false} UnlinesOfSplit(s: string)
    ensures Unlines(Split(s, '\n')) == s + "\n"
  {
    if s == "" {
      UnlinesCons("", []);
      assert [""] + [] == [""];
    } else {
      var rest := Split(s[1..], '\n');
      UnlinesOfSplit(s[1..]);
      if s[0] == '\n' {
        UnlinesCons("", rest);
      } else {
        UnlinesPrepend(s[0], rest);
      }
      assert [s[0]] + (s[1..] + "\n") == s + "\n";
    }
  }

  lemma UnlinesOfValue(value: string)
    ensures Unlines(ValueLines(value)) == EnsureNL(value)
  {
    var v := EnsureNL(value);
    if v != "" {
      var x := v[..|v| - 1];
      assert v == x + ['\n'] + "";
      SplitAtSeparator(x, "", '\n');
      assert ValueLines(value) == Split(x, '\n');
      UnlinesOfSplit(x);
    }
  }

  lemma ShorterPrefix(lines: seq<string>, k: nat)
    requires k < |lines|
    ensures |Unlines(lines[..k])| < |Unlines(lines)|
  {
    var rest := lines[k..];
    assert lines == lines[..k] + rest;
    UnlinesAppend(lines[..k], rest);
    assert rest == rest[..|rest| - 1] + [rest[|rest| - 1]];
    UnlinesSnoc(rest[..|rest| - 1], rest[|rest| - 1]);
  }

  function Stored(e: Entry): Entry {
    Entry(e.name, EnsureNL(e.value))
  }

  function StoredAll(entries: seq<Entry>): seq<Entry> {
    seq(|entries|, i requires 0 <= i < |entries| => Stored(entries[i]))
  }

  // ----- Round trip -----

  lemma {:induction false} TerminatorStops(lines: seq<string>, rest: seq<string>)
    ensures TerminatorAt(lines + [TERMINATOR] + rest) == TerminatorAt(lines)
  {
    var all := lines + [TERMINATOR] + rest;
    if lines == [] {
      assert all[0] == TERMINATOR;
    } else {
      TerminatorStops(lines[1..], rest);
      assert all[0] == lines[0] && all[1..] == lines[1..] + [TERMINATOR] + rest;
    }
  }

  lemma ParseNamed(lines: seq<string>, tail: seq<string>, k: nat, name: string)
    requires lines != [] && EntryName(lines[0]) == Some(name)
    requires tail == lines[1..] && k == TerminatorAt(tail)
    ensures k == |tail| ==> ParseLines(lines) == Unterminated(name)
    ensures k < |tail| ==> ParseLines(lines) == ParseLines(tail[k + 1..]).After([Entry(name, Unlines(tail[..k]))])
  {
  }

  lemma ParsePrintedEntry(separate: bool, e: Entry, rest: seq<string>)
    requires ValidName(e.name)
    ensures Storable(e.value) ==>
      ParseLines(EntryLines(separate, e) + rest) == ParseLines(rest).After([Stored(e)])
    ensures !Storable(e.value) ==>
      var r := ParseLines(EntryLines(separate, e) + rest);
      r.Parsed? ==> r.entries != [] && r.entries[0].name == e.name && r.entries[0].value != EnsureNL(e.value)
  {
    var name, value := "[" + e.name + "]", ValueLines(e.value);
    var tail := value + [TERMINATOR] + rest;
    SkipSeparator(separate, e, rest);
    StorableLines(e.value);
    UnlinesOfValue(e.value);
    var k := TerminatorAt(value);
    TerminatorIsFirst(value);
    TerminatorStops(value, rest);
    ParseNamed([name] + tail, tail, k, e.name);
    assert value[..|value|] == value;
    assert tail[..k] == value[..k];
    if Storable(e.value) {
      assert k == |value| && tail[k + 1..] == rest;
    } else {
      ShorterPrefix(value, k);
    }
  }

  lemma SkipSeparator(separate: bool, e: Entry, rest: seq<string>)
    requires ValidName(e.name)
    ensures EntryName("[" + e.name + "]") == Some(e.name)
    ensures ParseLines(EntryLines(separate, e) + rest)
         == ParseLines(["[" + e.name + "]"] + (ValueLines(e.value) + [TERMINATOR] + rest))
  {
    var lines := ["[" + e.name + "]"] + (ValueLines(e.value) + [TERMINATOR] + rest);
    if separate {
      assert (EntryLines(separate, e) + rest)[1..] == lines;
    } else {
      assert EntryLines(separate, e) + rest == lines;
    }
  }

  ghost predicate AllStorable(entries: seq<Entry>) {
    forall i :: 0 <= i < |entries| ==> ValidName(entries[i].name) && Storable(entries[i].value)
  }

  lemma StoredAllSnoc(entries: seq<Entry>, e: Entry)
    ensures StoredAll(entries + [e]) == StoredAll(entries) + [Stored(e)]
  {
  }

  lemma AfterSnoc(r: ParseResult, front: seq<Entry>, last: Entry)
    ensures r.After([Stored(last)]).After(StoredAll(front)) == r.After(StoredAll(front + [last]))
  {
    AfterTwice(r, StoredAll(front), [Stored(last)]);
    StoredAllSnoc(front, last);
  }

  lemma ParsePrintedLast(front: seq<Entry>, last: Entry, before: seq<string>, lines: seq<string>, rest: seq<string>)
    requires ValidName(last.name) && Storable(last.value) && lines == EntryLines(front != [], last)
    requires ParseLines(before + (lines + rest)) == ParseLines(lines + rest).After(StoredAll(front))
    ensures ParseLines(before + lines + rest) == ParseLines(rest).After(StoredAll(front + [last]))
  {
    Regroup(before, lines, rest);
    ParsePrintedEntry(front != [], last, rest);
    AfterSnoc(ParseLines(rest), front, last);
  }

  lemma {:induction false} ParsePrintedEntries(entries: seq<Entry>, rest: seq<string>)
    requires AllStorable(entries)
    ensures ParseLines(AllLines(entries) + rest) == ParseLines(rest).After(StoredAll(entries))
  {
    if entries == [] {
      assert [] + rest == rest;
      AfterNothing(ParseLines(rest));
    } else {
      var front, last := entries[..|entries| - 1], entries[|entries| - 1];
      var lines := EntryLines(front != [], last);
      ParsePrintedEntries(front, lines + rest);
      ParsePrintedLast(front, last, AllLines(front), lines, rest);
      assert entries == front + [last];
      AllLinesSnoc(front, last);
    }
  }

  // Parsing a formatted archive gives its entries back in the printed order, each value
  // ending its last line.
  lemma ParseOfFormat(entries: seq<Entry>, sorted: seq<Entry>)
    requires AllStorable(entries) && IsSorting(entries, sorted)
    ensures AllStorable(sorted) && Parse(Print(HEADER, sorted)) == Parsed(StoredAll(sorted))
  {
    SortingKeeps(entries, sorted);
    forall i | 0 <= i < |sorted|
      ensures ValidName(sorted[i].name) && Storable(sorted[i].value)
    {
      assert sorted[i] in entries;
    }
    PrintedLines(sorted);
    ParsePrintedEntries(sorted, [""]);
    assert [""][1..] == [] && ParseLines([""]) == Parsed([]);
    assert StoredAll(sorted) + [] == StoredAll(sorted);
  }

  // With distinct names that order is the one by name.
  lemma ParseOfDistinctNames(entries: seq<Entry>, sorted: seq<Entry>)
    requires AllStorable(entries) && IsSorting(entries, sorted) && DistinctNames(sorted)
    ensures Parse(Print(HEADER, sorted)) == Parsed(StoredAll(SortedByName(entries)))
  {
    ParseOfFormat(entries, sorted);
    SortedByNameSorts(entries);
    SortingIsUnique(sorted, SortedByName(entries));
  }

  // ----- Everything read from an archive can be written again -----

  lemma {:induction false} SplitOfUnlines(lines: seq<string>)
    requires forall i :: 0 <= i < |lines| ==> '\n' !in lines[i]
    ensures IsText(Unlines(lines), lines)
  {
    if lines == [] {
    } else {
      var front, last := lines[..|lines| - 1], lines[|lines| - 1];
      SplitOfUnlines(front);
      CompleteLine(last);
      TextConcat(Unlines(front), front, last + "\n", [last]);
      Regroup(Unlines(front), last, "\n");
    }
  }

  lemma ReadEntryIsStorable(name: string, value: seq<string>)
    requires forall i :: 0 <= i < |value| ==> '\n' !in value[i]
    requires TERMINATOR !in value
    ensures Storable(Unlines(value)) && Stored(Entry(name, Unlines(value))) == Entry(name, Unlines(value))
  {
    SplitOfUnlines(value);
    CompleteUnended(Unlines(value));
  }

  // What a parse reads, printing would store unchanged.
  ghost predicate Rewritable(r: ParseResult) {
    r.Parsed? ==> AllStorable(r.entries) && StoredAll(r.entries) == r.entries
  }

  lemma {:induction false} ParsedEntriesAreStorable(lines: seq<string>)
    requires forall i :: 0 <= i < |lines| ==> '\n' !in lines[i]
    ensures Rewritable(ParseLines(lines))
    decreases |lines|
  {
    if lines == [] {
    } else {
      var tail := lines[1..];
      if EntryName(lines[0]) == None {
        ParsedEntriesAreStorable(tail);
      } else {
        var k := TerminatorAt(tail);
        ParseNamed(lines, tail, k, EntryName(lines[0]).value);
        TerminatorIsFirst(tail);
        if k < |tail| {
          ParsedEntriesAreStorable(tail[k + 1..]);
          ReadEntryIsStorable(EntryName(lines[0]).value, tail[..k]);
          RewritableCons(Entry(EntryName(lines[0]).value, Unlines(tail[..k])), ParseLines(tail[k + 1..]));
        }
      }
    }
  }

  lemma RewritableCons(e: Entry, r: ParseResult)
    requires ValidName(e.name) && Storable(e.value) && Stored(e) == e && Rewritable(r)
    ensures Rewritable(r.After([e]))
  {
  }

  lemma ReadEntriesAreStorable(data: string)
    ensures Rewritable(Parse(data))
  {
    SplitPiecesAreFree(data, '\n');
    var lines := Split(data, '\n');
    assert forall i :: 0 <= i < |lines| ==> lines[i] in lines;
    ParsedEntriesAreStorable(lines);
  }

  // ----- Rewriting one entry -----

  function Upsert(entries: seq<Entry>, name: string, value: string): seq<Entry> {
    if entries == [] then [Entry(name, value)]
    else if entries[0].name == name then [Entry(name, value)] + entries[1..]
    else [entries[0]] + Upsert(entries[1..], name, value)
  }

  lemma {:induction false} LookupUpsert(entries: seq<Entry>, name: string, value: string, n: string)
    ensures Lookup(Upsert(entries, name, value), n) == if n == name then Some(value) else Lookup(entries, n)
  {
    if entries == [] {
    } else {
      LookupUpsert(entries[1..], name, value, n);
    }
  }

  lemma {:induction false} UpsertMembers(entries: seq<Entry>, name: string, value: string, e: Entry)
    requires e in Upsert(entries, name, value)
    ensures e == Entry(name, value) || e in entries
  {
    if entries != [] && entries[0].name != name && e != entries[0] {
      UpsertMembers(entries[1..], name, value, e);
    }
  }

  lemma {:induction false} LessIsIrreflexive(a: string)
    ensures !Less(a, a)
  {
    if a == "" {
    } else {
      LessIsIrreflexive(a[1..]);
    }
  }

  lemma {:induction false} UpsertKeepsOthers(entries: seq<Entry>, name: string, value: string, e: Entry)
    requires e in entries && e.name != name
    ensures e in Upsert(entries, name, value)
  {
    if entries[0].name != name && e != entries[0] {
      UpsertKeepsOthers(entries[1..], name, value, e);
    }
  }

  lemma {:induction false} LookupIsMember(entries: seq<Entry>, n: string)
    ensures Lookup(entries, n).Some? ==> Entry(n, Lookup(entries, n).value) in entries
    ensures Lookup(entries, n) == None <==> forall e :: e in entries ==> e.name != n
  {
    if entries == [] {
    } else {
      LookupIsMember(entries[1..], n);
      assert entries == [entries[0]] + entries[1..];
    }
  }

  // The entries of one name all have the same value; so it is when there is only one.
  ghost predicate Unambiguous(entries: seq<Entry>, n: string) {
    forall x, y :: x in entries && y in entries && x.name == n == y.name ==> x.value == y.value
  }

  // Looking up an unambiguous name does not depend on the order.
  lemma LookupAnyOrder(a: seq<Entry>, b: seq<Entry>, n: string)
    requires Unambiguous(a, n)
    requires forall e: Entry :: e.name == n ==> (e in a <==> e in b)
    ensures Lookup(b, n) == Lookup(a, n)
  {
    LookupIsMember(a, n);
    LookupIsMember(b, n);
  }

  // At most one entry has the name.
  ghost predicate NamedOnce(entries: seq<Entry>, n: string) {
    forall i, j :: 0 <= i < j < |entries| ==> !(entries[i].name == n == entries[j].name)
  }

  lemma {:induction false} UpsertNamedOnce(entries: seq<Entry>, name: string, value: string)
    requires NamedOnce(entries, name)
    ensures forall e :: e in Upsert(entries, name, value) && e.name == name ==> e == Entry(name, value)
  {
    if entries == [] {
    } else if entries[0].name == name {
      forall e | e in entries[1..]
        ensures e.name != name
      {
        var i :| 0 <= i < |entries| - 1 && entries[1..][i] == e;
        assert entries[0].name == name && entries[i + 1] == e;
      }
    } else {
      UpsertNamedOnce(entries[1..], name, value);
    }
  }

  lemma {:induction false} LookupStored(entries: seq<Entry>, n: string)
    ensures Lookup(StoredAll(entries), n) ==
      if Lookup(entries, n) == None then None else Some(EnsureNL(Lookup(entries, n).value))
  {
    if entries == [] {
    } else {
      assert StoredAll(entries)[1..] == StoredAll(entries[1..]);
      LookupStored(entries[1..], n);
    }
  }

  lemma {:induction false} LookupAfter(before: seq<Entry>, after: seq<Entry>, name: string)
    requires forall i :: 0 <= i < |before| ==> before[i].name != name
    ensures Lookup(before + after, name) == Lookup(after, name)
  {
    if before == [] {
      assert before + after == after;
    } else {
      LookupAfter(before[1..], after, name);
      assert (before + after)[1..] == before[1..] + after;
    }
  }

  lemma {:induction false} AllLinesSplit(entries: seq<Entry>, p: nat) returns (rest: seq<string>)
    requires p <= |entries|
    ensures AllLines(entries) == AllLines(entries[..p]) + rest
  {
    if p == |entries| {
      assert entries[..p] == entries;
      rest := [];
    } else {
      var front, last := entries[..|entries| - 1], entries[|entries| - 1];
      var more := AllLinesSplit(front, p);
      assert front[..p] == entries[..p];
      rest := more + EntryLines(|entries| > 1, last);
      Regroup(AllLines(front[..p]), more, EntryLines(|entries| > 1, last));
    }
  }

  // The parse of a printed archive, from one of its entries on.
  lemma ParseFromEntry(entries: seq<Entry>, before: seq<Entry>, e: Entry) returns (tail: seq<string>)
    requires ValidNames(entries) && before + [e] <= entries && AllStorable(before)
    ensures Parse(Print(HEADER, entries)) == ParseLines(EntryLines(before != [], e) + tail).After(StoredAll(before))
  {
    PrintedLines(entries);
    var rest := AllLinesSplit(entries, |before| + 1);
    assert entries[..|before| + 1] == before + [e];
    AllLinesSnoc(before, e);
    tail := rest + [""];
    Regroup4(AllLines(before), EntryLines(before != [], e), rest, [""]);
    ParsePrintedEntries(before, EntryLines(before != [], e) + tail);
  }

  // The entry with the terminator line comes first of its name: what reads back is cut
  // short, or nothing does.
  lemma UnstorableIsNotReadBack(entries: seq<Entry>, before: seq<Entry>, e: Entry)
    requires ValidNames(entries) && before + [e] <= entries && ValidName(e.name)
    requires AllStorable(before) && !Storable(e.value)
    requires forall i :: 0 <= i < |before| ==> before[i].name != e.name
    ensures !ReadsBack(Parse(Print(HEADER, entries)), e.name, e.value)
  {
    var tail := ParseFromEntry(entries, before, e);
    ParsePrintedEntry(before != [], e, tail);
    NotReadBackAfter(before, ParseLines(EntryLines(before != [], e) + tail), e);
  }

  // Another entry of the name comes first: it is the one that reads back.
  lemma EarlierIsReadBack(entries: seq<Entry>, before: seq<Entry>, e: Entry)
    requires ValidNames(entries) && before + [e] <= entries
    requires AllStorable(before) && !Storable(e.value) && Lookup(before, e.name).Some?
    ensures !ReadsBack(Parse(Print(HEADER, entries)), e.name, e.value)
  {
    var tail := ParseFromEntry(entries, before, e);
    var r, w := ParseLines(EntryLines(before != [], e) + tail), Lookup(before, e.name).value;
    LookupIsMember(before, e.name);
    LookupStored(before, e.name);
    SameStorable(w, e.value);
    if r.Parsed? {
      LookupConcat(StoredAll(before), r.entries, e.name);
    }
  }

  // Whether a value can be stored depends only on how it is stored.
  lemma SameStorable(v: string, w: string)
    ensures EnsureNL(v) == EnsureNL(w) ==> (Storable(v) <==> Storable(w))
  {
    StorableLines(v);
    StorableLines(w);
  }

  lemma AllLinesSnoc(entries: seq<Entry>, e: Entry)
    ensures AllLines(entries + [e]) == AllLines(entries) + EntryLines(entries != [], e)
  {
    assert (entries + [e])[..|entries|] == entries;
  }

  lemma Regroup4<T>(a: seq<T>, b: seq<T>, c: seq<T>, d: seq<T>)
    ensures a + b + c + d == a + (b + (c + d))
  {
  }

  lemma NotReadBackAfter(before: seq<Entry>, r: ParseResult, e: Entry)
    requires forall i :: 0 <= i < |before| ==> before[i].name != e.name
    requires r.Parsed? ==> r.entries != [] && r.entries[0].name == e.name && r.entries[0].value != EnsureNL(e.value)
    ensures !ReadsBack(r.After(StoredAll(before)), e.name, e.value)
  {
    if r.Parsed? {
      LookupAfter(StoredAll(before), r.entries, e.name);
    }
  }

  // The guard of WriteEntry: the printed text reads back with the new value.
  predicate ReadsBack(back: ParseResult, name: string, value: string) {
    back.Parsed? && Lookup(back.entries, name) == Some(EnsureNL(value))
  }

  lemma UpsertSorted(entries: seq<Entry>, sorted: seq<Entry>, name: string, value: string)
    requires IsSorting(Upsert(entries, name, value), sorted)
    ensures forall e :: e in sorted ==> e == Entry(name, value) || e in entries
    ensures Entry(name, value) in sorted && Lookup(sorted, name).Some?
  {
    var updated := Upsert(entries, name, value);
    SortingKeeps(updated, sorted);
    LookupUpsert(entries, name, value, name);
    LookupIsMember(updated, name);
    LookupIsMember(sorted, name);
    forall e | e in sorted
      ensures e == Entry(name, value) || e in entries
    {
      UpsertMembers(entries, name, value, e);
    }
  }

  lemma UpsertStaysStorable(entries: seq<Entry>, name: string, value: string)
    requires AllStorable(entries) && ValidName(name) && Storable(value)
    ensures AllStorable(Upsert(entries, name, value))
  {
    var updated := Upsert(entries, name, value);
    forall i | 0 <= i < |updated|
      ensures ValidName(updated[i].name) && Storable(updated[i].value)
    {
      UpsertMembers(entries, name, value, updated[i]);
    }
  }

  lemma {:induction false} FirstUnstorable(entries: seq<Entry>, e: Entry) returns (p: nat)
    requires e in entries && !Storable(e.value)
    ensures p < |entries| && !Storable(entries[p].value)
    ensures forall i :: 0 <= i < p ==> Storable(entries[i].value)
  {
    if !Storable(entries[0].value) {
      p := 0;
    } else {
      var q := FirstUnstorable(entries[1..], e);
      p := q + 1;
    }
  }

  lemma GuardRefuses(sorted: seq<Entry>, name: string, value: string)
    requires ValidNames(sorted) && Entry(name, value) in sorted && !Storable(value)
    requires forall e :: e in sorted ==> e == Entry(name, value) || Storable(e.value)
    ensures !ReadsBack(Parse(Print(HEADER, sorted)), name, value)
  {
    var p := FirstUnstorable(sorted, Entry(name, value));
    var before, e := sorted[..p], sorted[p];
    assert e in sorted && before + [e] == sorted[..p + 1];
    if Lookup(before, name).Some? {
      EarlierIsReadBack(sorted, before, e);
    } else {
      LookupIsMember(before, name);
      UnstorableIsNotReadBack(sorted, before, e);
    }
  }

  lemma SortedIsValid(entries: seq<Entry>, sorted: seq<Entry>, name: string, value: string)
    requires AllStorable(entries) && ValidName(name)
    requires forall e :: e in sorted ==> e == Entry(name, value) || e in entries
    ensures ValidNames(sorted)
    ensures forall e :: e in sorted ==> e == Entry(name, value) || Storable(e.value)
  {
    forall i | 0 <= i < |sorted|
      ensures ValidName(sorted[i].name)
    {
      assert sorted[i] in sorted;
    }
  }

  // In whatever order the entries are printed, the guard lets a value through exactly
  // when none of its lines is the terminator and no other value of the name is printed
  // first.
  lemma GuardIsExact(entries: seq<Entry>, sorted: seq<Entry>, name: string, value: string)
    requires AllStorable(entries) && ValidName(name) && IsSorting(Upsert(entries, name, value), sorted)
    ensures Lookup(sorted, name).Some?
    ensures ReadsBack(Parse(Print(HEADER, sorted)), name, value)
       <==> Storable(value) && EnsureNL(Lookup(sorted, name).value) == EnsureNL(value)
  {
    UpsertSorted(entries, sorted, name, value);
    if Storable(value) {
      UpsertStaysStorable(entries, name, value);
      ParseOfFormat(Upsert(entries, name, value), sorted);
      LookupStored(sorted, name);
    } else {
      SortedIsValid(entries, sorted, name, value);
      GuardRefuses(sorted, name, value);
    }
  }

  // So for a name that no two entries share, exactly when none of its lines is the
  // terminator.
  lemma GuardForOneName(entries: seq<Entry>, sorted: seq<Entry>, name: string, value: string)
    requires AllStorable(entries) && ValidName(name) && IsSorting(Upsert(entries, name, value), sorted)
    requires NamedOnce(entries, name)
    ensures ReadsBack(Parse(Print(HEADER, sorted)), name, value) <==> Storable(value)
  {
    GuardIsExact(entries, sorted, name, value);
    UpsertNamedOnce(entries, name, value);
    SortingKeeps(Upsert(entries, name, value), sorted);
    LookupIsMember(sorted, name);
  }

  lemma {:induction false} LookupInserted(e: Entry, s: seq<Entry>)
    ensures Lookup(Insert(e, s), e.name) == Some(e.value)
  {
    if s == [] {
    } else if Less(s[0].name, e.name) {
      LessIsIrreflexive(e.name);
      LookupInserted(e, s[1..]);
    } else {
    }
  }

  // Of the entries of one name any may be sorted before the others.
  lemma AnyCanComeFirst(entries: seq<Entry>, e: Entry) returns (sorted: seq<Entry>)
    requires e in entries
    ensures IsSorting(entries, sorted) && Lookup(sorted, e.name) == Some(e.value)
  {
    var k :| 0 <= k < |entries| && entries[k] == e;
    var rest := entries[..k] + entries[k + 1..];
    assert entries == entries[..k] + [e] + entries[k + 1..];
    sorted := Insert(e, SortedByName(rest));
    SortedByNameSorts(rest);
    InsertSorts(e, SortedByName(rest));
    LookupInserted(e, SortedByName(rest));
  }

  // All entries of the name come to the same stored value.
  ghost predicate OneValue(entries: seq<Entry>, name: string, value: string) {
    forall e :: e in entries && e.name == name ==> EnsureNL(e.value) == EnsureNL(value)
  }

  ghost predicate GuardIsRight(sorted: seq<Entry>, name: string, value: string) {
    ReadsBack(Parse(Print(HEADER, sorted)), name, value) <==> Storable(value)
  }

  // Another value of the name is left: in some order the guard refuses a value that could
  // be stored.
  lemma RepeatedNameMayBeRefused(entries: seq<Entry>, name: string, value: string, e: Entry)
    returns (sorted: seq<Entry>)
    requires AllStorable(entries) && ValidName(name) && Storable(value)
    requires e in Upsert(entries, name, value) && e.name == name && EnsureNL(e.value) != EnsureNL(value)
    ensures IsSorting(Upsert(entries, name, value), sorted)
    ensures !ReadsBack(Parse(Print(HEADER, sorted)), name, value)
  {
    sorted := AnyCanComeFirst(Upsert(entries, name, value), e);
    GuardIsExact(entries, sorted, name, value);
  }

  lemma OneValueIsRight(entries: seq<Entry>, sorted: seq<Entry>, name: string, value: string)
    requires AllStorable(entries) && ValidName(name) && IsSorting(Upsert(entries, name, value), sorted)
    requires OneValue(Upsert(entries, name, value), name, value)
    ensures GuardIsRight(sorted, name, value)
  {
    GuardIsExact(entries, sorted, name, value);
    SortingKeeps(Upsert(entries, name, value), sorted);
    LookupIsMember(sorted, name);
  }

  // So the guard lets exactly the storable values through, in whatever order, if and only
  // if a storable value leaves the name with no other value.
  lemma GuardIsRightForOneValue(entries: seq<Entry>, name: string, value: string)
    requires AllStorable(entries) && ValidName(name)
    ensures (forall sorted :: IsSorting(Upsert(entries, name, value), sorted) ==> GuardIsRight(sorted, name, value))
       <==> (Storable(value) ==> OneValue(Upsert(entries, name, value), name, value))
  {
    var updated := Upsert(entries, name, value);
    if Storable(value) && !OneValue(updated, name, value) {
      var e :| e in updated && e.name == name && EnsureNL(e.value) != EnsureNL(value);
      var sorted := RepeatedNameMayBeRefused(entries, name, value, e);
      assert !GuardIsRight(sorted, name, value);
    } else {
      forall sorted | IsSorting(updated, sorted)
        ensures GuardIsRight(sorted, name, value)
      {
        if Storable(value) {
          OneValueIsRight(entries, sorted, name, value);
        } else {
          GuardIsExact(entries, sorted, name, value);
        }
      }
    }
  }

  // The least such archive: two values of one name.
  lemma SecondValueMayBeRefused() returns (sorted: seq<Entry>)
    ensures var entries := [Entry("a", "1\n"), Entry("a", "2\n")];
      && AllStorable(entries) && Storable("3\n") && IsSorting(Upsert(entries, "a", "3\n"), sorted)
      && !ReadsBack(Parse(Print(HEADER, sorted)), "a", "3\n")
  {
    var entries := [Entry("a", "1\n"), Entry("a", "2\n")];
    DigitLine("1");
    DigitLine("2");
    DigitLine("3");
    assert Upsert(entries, "a", "3\n") == [Entry("a", "3\n"), Entry("a", "2\n")];
    sorted := RepeatedNameMayBeRefused(entries, "a", "3\n", Entry("a", "2\n"));
  }

  lemma DigitLine(d: string)
    requires |d| == 1 && d[0] != '\n'
    ensures Storable(d + "\n")
  {
    CompleteLine(d);
    CompleteUnended(d + "\n");
  }

  // Reading gives the new value for the name, and for every other name what it gave before
  // unless that name has several values.
  ghost predicate ChangesOnly(before: seq<Entry>, after: ParseResult, name: string, value: string) {
    && after.Parsed? && Lookup(after.entries, name) == Some(EnsureNL(value))
    && forall n :: n != name && Unambiguous(before, n) ==> Lookup(after.entries, n) == Lookup(before, n)
  }

  lemma OthersReadBack(entries: seq<Entry>, sorted: seq<Entry>, name: string, value: string, n: string)
    requires StoredAll(entries) == entries && IsSorting(Upsert(entries, name, value), sorted)
    requires n != name && Unambiguous(entries, n)
    ensures Lookup(StoredAll(sorted), n) == Lookup(entries, n)
  {
    SortingKeeps(Upsert(entries, name, value), sorted);
    forall e: Entry | e.name == n
      ensures e in entries <==> e in sorted
    {
      if e in sorted {
        UpsertMembers(entries, name, value, e);
      }
      if e in entries {
        UpsertKeepsOthers(entries, name, value, e);
      }
    }
    LookupAnyOrder(entries, sorted, n);
    LookupStored(sorted, n);
    LookupStored(entries, n);
  }

  lemma WriteReadsBack(entries: seq<Entry>, sorted: seq<Entry>, name: string, value: string)
    requires AllStorable(entries) && StoredAll(entries) == entries && ValidName(name)
    requires IsSorting(Upsert(entries, name, value), sorted)
    requires ReadsBack(Parse(Print(HEADER, sorted)), name, value)
    ensures ChangesOnly(entries, Parse(Print(HEADER, sorted)), name, value)
  {
    GuardIsExact(entries, sorted, name, value);
    UpsertStaysStorable(entries, name, value);
    ParseOfFormat(Upsert(entries, name, value), sorted);
    forall n | n != name && Unambiguous(entries, n)
      ensures Lookup(StoredAll(sorted), n) == Lookup(entries, n)
    {
      OthersReadBack(entries, sorted, name, value, n);
    }
  }

  // An archive with distinct names is written as a map: a storable value replaces the
  // value of its name, and no other name changes.
  lemma WriteIsMapUpdate(entries: seq<Entry>, sorted: seq<Entry>, name: string, value: string)
    requires AllStorable(entries) && StoredAll(entries) == entries && ValidName(name) && DistinctNames(entries)
    requires IsSorting(Upsert(entries, name, value), sorted)
    ensures GuardIsRight(sorted, name, value)
    ensures Storable(value) ==> var after := Parse(Print(HEADER, sorted));
      && after.Parsed?
      && forall n :: Lookup(after.entries, n) == if n == name then Some(EnsureNL(value)) else Lookup(entries, n)
  {
    GuardForOneName(entries, sorted, name, value);
    if Storable(value) {
      WriteReadsBack(entries, sorted, name, value);
      forall n
        ensures Unambiguous(entries, n)
      {
      }
    }
  }

  // Reading gives nothing for the names not seen; for a name seen it gives what it gave
  // before, or one of its values if it has several.
  ghost predicate KeepsOnly(before: seq<Entry>, after: ParseResult, seen: set<string>) {
    after.Parsed? && forall n :: KeepsName(before, after.entries, seen, n)
  }

  ghost predicate KeepsName(before: seq<Entry>, after: seq<Entry>, seen: set<string>, n: string) {
    if n !in seen then Lookup(after, n) == None
    else
      && (Unambiguous(before, n) ==> Lookup(after, n) == Lookup(before, n))
      && (Lookup(after, n).Some? <==> Lookup(before, n).Some?)
      && (Lookup(after, n).Some? ==> Entry(n, Lookup(after, n).value) in before)
  }

  lemma {:induction false} VisitedMembers(entries: seq<Entry>, seen: set<string>, e: Entry)
    ensures e in Visited(entries, seen) <==> e in entries && e.name in seen
  {
    if entries == [] {
    } else {
      VisitedMembers(entries[..|entries| - 1], seen, e);
      assert entries == entries[..|entries| - 1] + [entries[|entries| - 1]];
    }
  }

  lemma VisitedReadsBack(entries: seq<Entry>, seen: set<string>, after: seq<Entry>, n: string)
    requires forall e :: e in after <==> e in Visited(entries, seen)
    ensures KeepsName(entries, after, seen, n)
  {
    forall e
      ensures e in after <==> e in entries && e.name in seen
    {
      VisitedMembers(entries, seen, e);
    }
    LookupIsMember(after, n);
    LookupIsMember(entries, n);
    if n in seen && Unambiguous(entries, n) {
      LookupAnyOrder(entries, after, n);
    }
  }

  lemma CleanReadsBack(entries: seq<Entry>, seen: set<string>, sorted: seq<Entry>)
    requires AllStorable(entries) && StoredAll(entries) == entries && IsSorting(Visited(entries, seen), sorted)
    ensures KeepsOnly(entries, Parse(Print(HEADER, sorted)), seen)
  {
    var live := Visited(entries, seen);
    VisitedStaysStorable(entries, seen);
    ParseOfFormat(live, sorted);
    SortingKeeps(live, sorted);
    forall e | e in sorted
      ensures Stored(e) == e
    {
      var i :| 0 <= i < |live| && live[i] == e;
      assert StoredAll(live)[i] == live[i];
    }
    assert StoredAll(sorted) == sorted;
    forall n
      ensures KeepsName(entries, sorted, seen, n)
    {
      VisitedReadsBack(entries, seen, sorted, n);
    }
  }

  lemma NothingToClean(entries: seq<Entry>, seen: set<string>)
    ensures |Visited(entries, seen)| == |entries| ==> KeepsOnly(entries, Parsed(entries), seen)
    ensures Visited(entries, seen) == [] ==> KeepsOnly(entries, Parsed([]), seen)
  {
    if |Visited(entries, seen)| == |entries| {
      AllVisited(entries, seen);
    }
    forall n | Visited(entries, seen) == entries
      ensures KeepsName(entries, entries, seen, n)
    {
      VisitedReadsBack(entries, seen, entries, n);
    }
    forall n | Visited(entries, seen) == []
      ensures KeepsName(entries, [], seen, n)
    {
      VisitedReadsBack(entries, seen, [], n);
    }
  }

  lemma {:induction false} UpsertAt(entries: seq<Entry>, name: string, value: string, i: nat)
    requires i <= |entries| && forall k :: 0 <= k < i ==> entries[k].name != name
    requires i < |entries| ==> entries[i].name == name
    ensures Upsert(entries, name, value) ==
      if i < |entries| then entries[i := Entry(name, value)] else entries + [Entry(name, value)]
  {
    if i > 0 {
      UpsertAt(entries[1..], name, value, i - 1);
    }
  }

  // The loop of WriteEntry.
  method UpsertEntry(entries: seq<Entry>, name: string, value: string) returns (updated: seq<Entry>)
    ensures updated == Upsert(entries, name, value)
  {
    updated := entries;
    for i := 0 to |entries|
      invariant updated == entries
      invariant forall k :: 0 <= k < i ==> entries[k].name != name
    {
      if entries[i].name == name {
        updated := updated[i := Entry(name, value)];
        UpsertAt(entries, name, value, i);
        return;
      }
    }
    updated := updated + [Entry(name, value)];
    UpsertAt(entries, name, value, |entries|);
  }

  // An archive on disk; a missing file is an empty archive.
  class ArchiveFile {
    var data: Option<string>

    function Read(): ParseResult
      reads this
    {
      if data == None then Parsed([]) else Parse(data.value)
    }

    // Upserts name=value and saves the archive, unless the value would not survive.
    method WriteEntry(entries: seq<Entry>, name: string, value: string)
      returns (written: bool, ghost sorted: seq<Entry>)
      requires Read() == Parsed(entries) && ValidName(name)
      modifies this
      ensures IsSorting(Upsert(entries, name, value), sorted) && Lookup(sorted, name).Some?
      ensures written <==> Storable(value) && EnsureNL(Lookup(sorted, name).value) == EnsureNL(value)
      ensures NamedOnce(entries, name) ==> (written <==> Storable(value))
      ensures !written ==> data == old(data)
      ensures written ==> data == Some(Print(HEADER, sorted)) && ChangesOnly(entries, Read(), name, value)
    {
      if data.Some? {
        ReadEntriesAreStorable(data.value);
      }
      var updated := UpsertEntry(entries, name, value);
      var out;
      out, sorted := FormatArchive(updated);
      GuardIsExact(entries, sorted, name, value);
      if NamedOnce(entries, name) {
        GuardForOneName(entries, sorted, name, value);
      }
      var back := ParseArchive(out);
      if back.Unterminated? {
        return false, sorted;
      }
      var got, ok := EntryValue(back.entries, name);
      if !ok || got != EnsureNL(value) {
        return false, sorted;
      }
      WriteReadsBack(entries, sorted, name, value);
      data := Some(out);
      return true, sorted;
    }

    // Drops the entries nobody visited (update mode) or only counts them. An archive
    // left with no entries is removed.
    method CleanEntries(seen: set<string>, update: bool) returns (obsolete: nat, failed: bool)
      modifies this
      ensures failed <==> old(Read()).Unterminated?
      ensures failed || !update || obsolete == 0 ==> data == old(data)
      ensures !failed ==> obsolete == |old(Read()).entries| - |Visited(old(Read()).entries, seen)|
      ensures !failed && update ==> KeepsOnly(old(Read()).entries, Read(), seen)
      ensures !failed && update && obsolete > 0 && obsolete == |old(Read()).entries| ==> data == None
    {
      var was := Parsed([]);
      if data.Some? {
        was := ParseArchive(data.value);
        ReadEntriesAreStorable(data.value);
      }
      if was.Unterminated? {
        return 0, true;
      }
      var live: seq<Entry>;
      live, obsolete := LiveEntries(was.entries, seen);
      failed := false;
      NothingToClean(was.entries, seen);
      if obsolete == 0 || !update {
        return;
      }
      if |live| == 0 {
        data := None;
        return;
      }
      var out, sorted := FormatArchive(live);
      CleanReadsBack(was.entries, seen, sorted);
      data := Some(out);
    }
  }

  // The loop of CleanEntries.
  method LiveEntries(entries: seq<Entry>, seen: set<string>) returns (live: seq<Entry>, obsolete: nat)
    ensures live == Visited(entries, seen) && obsolete == |entries| - |live|
  {
    live, obsolete := [], 0;
    for i := 0 to |entries|
      invariant live == Visited(entries[..i], seen) && obsolete == i - |live|
    {
      assert entries[..i + 1][..i] == entries[..i];
      if entries[i].name in seen {
        live := live + [entries[i]];
      } else {
        obsolete := obsolete + 1;
      }
    }
    assert entries[..|entries|] == entries;
  }

  function Visited(entries: seq<Entry>, seen: set<string>): (live: seq<Entry>)
    ensures |live| <= |entries|
  {
    if entries == [] then []
    else
      var last := entries[|entries| - 1];
      Visited(entries[..|entries| - 1], seen) + if last.name in seen then [last] else []
  }

  lemma {:induction false} LookupConcat(a: seq<Entry>, b: seq<Entry>, n: string)
    ensures Lookup(a + b, n) == if Lookup(a, n).Some? then Lookup(a, n) else Lookup(b, n)
  {
    if a == [] {
      assert a + b == b;
    } else {
      LookupConcat(a[1..], b, n);
      assert (a + b)[1..] == a[1..] + b;
    }
  }

  lemma {:induction false} AllVisited(entries: seq<Entry>, seen: set<string>)
    requires |Visited(entries, seen)| == |entries|
    ensures Visited(entries, seen) == entries
  {
    if entries == [] {
    } else {
      AllVisited(entries[..|entries| - 1], seen);
      assert entries == entries[..|entries| - 1] + [entries[|entries| - 1]];
    }
  }

  lemma {:induction false} VisitedStaysStorable(entries: seq<Entry>, seen: set<string>)
    requires AllStorable(entries) && StoredAll(entries) == entries
    ensures AllStorable(Visited(entries, seen)) && StoredAll(Visited(entries, seen)) == Visited(entries, seen)
  {
    if entries == [] {
    } else {
      var front, last := entries[..|entries| - 1], entries[|entries| - 1];
      assert StoredAll(front) == StoredAll(entries)[..|front|];
      assert Stored(last) == StoredAll(entries)[|front|];
      VisitedStaysStorable(front, seen);
      StoredAllSnoc(Visited(front, seen), last);
    }
  }
}
