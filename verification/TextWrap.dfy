// Greedy line filling (internal/ui/wrap/wrap.go) and the help text reflow that
// repeats it (cmd/help.go). Text is a sequence of runes.
module TextWrap {
  import opened Sequences

  // The runes of s that are not white space, in order.
  function NonSpace(s: string): string {
    if s == "" then ""
    else if IsSpace(s[0]) then NonSpace(s[1..])
    else [s[0]] + NonSpace(s[1..])
  }

  ghost predicate IsWord(w: string) {
    w != "" && forall i :: 0 <= i < |w| ==> !IsSpace(w[i])
  }

  ghost predicate AllWords(words: seq<string>) {
    forall i :: 0 <= i < |words| ==> IsWord(words[i])
  }

  // Length of the run of non-space runes at the start of s.
  function RunLength(s: string): (n: nat)
    ensures n <= |s|
    ensures forall i :: 0 <= i < n ==> !IsSpace(s[i])
    ensures n < |s| ==> IsSpace(s[n])
  {
    if s == "" || IsSpace(s[0]) then 0 else 1 + RunLength(s[1..])
  }

  // The maximal runs of non-space runes.
  function Fields(s: string): (words: seq<string>)
    ensures AllWords(words)
  {
    if s == "" then []
    else if IsSpace(s[0]) then Fields(s[1..])
    else [s[..RunLength(s)]] + Fields(s[RunLength(s)..])
  }

  lemma {:induction false} RunEndsAtSpace(a: string, t: string)
    requires t == "" || IsSpace(t[0])
    ensures RunLength(a + t) == RunLength(a)
  {
    if a == "" {
      assert a + t == t;
    } else if !IsSpace(a[0]) {
      RunEndsAtSpace(a[1..], t);
      assert (a + t)[1..] == a[1..] + t;
    }
  }

  // White space separates: the words before it and those after it.
  lemma {:induction false} FieldsAtSpace(a: string, c: char, b: string)
    requires IsSpace(c)
    ensures Fields(a + [c] + b) == Fields(a) + Fields(b)
    decreases |a|
  {
    var whole := a + [c] + b;
    if a == "" {
      assert whole == [c] + b && whole[1..] == b;
    } else if IsSpace(a[0]) {
      FieldsAtSpace(a[1..], c, b);
      assert whole[1..] == a[1..] + [c] + b;
    } else {
      var n := RunLength(a);
      RunEndsAtSpace(a, [c] + b);
      assert whole == a + ([c] + b);
      assert whole[..n] == a[..n] && whole[n..] == a[n..] + [c] + b;
      FieldsAtSpace(a[n..], c, b);
      Regroup([a[..n]], Fields(a[n..]), Fields(b));
    }
  }

  lemma {:induction false} RunOfWord(w: string)
    requires forall i :: 0 <= i < |w| ==> !IsSpace(w[i])
    ensures RunLength(w) == |w|
  {
    if w == "" {
    } else {
      RunOfWord(w[1..]);
    }
  }

  // A word is one field, and what has no word has none: with the law above this says what
  // the fields of any text are.
  lemma FieldsOfWord(w: string)
    ensures Fields("") == []
    ensures IsWord(w) ==> Fields(w) == [w]
  {
    if IsWord(w) {
      RunOfWord(w);
      assert w[..|w|] == w && w[|w|..] == "";
    }
  }

  // ----- Hard wrapping -----

  // s cut every w runes.
  function Chunks(s: string, w: nat): (chunks: seq<string>)
    requires 0 < w
    ensures s != "" ==> chunks != []
  {
    if s == "" then [] else if |s| <= w then [s] else [s[..w]] + Chunks(s[w..], w)
  }

  lemma {:induction false} ChunksCutExactly(s: string, w: nat)
    requires 0 < w
    ensures Flatten(Chunks(s, w)) == s
    ensures forall i :: 0 <= i < |Chunks(s, w)| - 1 ==> |Chunks(s, w)[i]| == w
    ensures s != "" ==> 0 < |Chunks(s, w)[|Chunks(s, w)| - 1]| <= w
  {
    if s == "" {
    } else if |s| <= w {
      FlattenOne(s);
    } else {
      ChunksCutExactly(s[w..], w);
      assert s == s[..w] + s[w..];
    }
  }

  // What is still to be written once the runes before i are.
  ghost function Unwritten(s: string, i: nat, w: nat): string
    requires 0 < w
  {
    if i >= |s| then "" else (if i > 0 then "\n" else "") + Join(Chunks(s[i..], w), '\n')
  }

  lemma FirstChunk(s: string, i: nat, end: nat, w: nat)
    requires 0 < w && i < |s| && end == if i + w > |s| then |s| else i + w
    ensures Join(Chunks(s[i..], w), '\n') == s[i..end] + Unwritten(s, i + w, w)
  {
    var rest := s[i..];
    if i + w < |s| {
      assert rest[..w] == s[i..end] && rest[w..] == s[i + w..];
      assert Chunks(rest, w)[1..] == Chunks(rest[w..], w);
    }
  }

  lemma UnwrittenStep(sb: string, s: string, i: nat, end: nat, w: nat)
    requires 0 < w && i < |s| && end == if i + w > |s| then |s| else i + w
    ensures sb + Unwritten(s, i, w) == (if i > 0 then sb + "\n" else sb) + s[i..end] + Unwritten(s, i + w, w)
  {
    FirstChunk(s, i, end, w);
    var nl, chunk, tail := if i > 0 then "\n" else "", s[i..end], Unwritten(s, i + w, w);
    Regroup(sb, nl, chunk + tail);
    Regroup(sb + nl, chunk, tail);
    assert sb + "" == sb;
  }

  // Breaks at exact rune boundaries, with no regard for words.
  method HardWrap(s: string, maxWidth: int) returns (wrapped: string)
    ensures maxWidth <= 0 ==> wrapped == s
    ensures maxWidth > 0 ==> wrapped == Join(Chunks(s, maxWidth), '\n')
  {
    if maxWidth <= 0 || |s| <= maxWidth {
      return s;
    }
    var sb := "";
    var i := 0;
    ghost var whole := Join(Chunks(s, maxWidth), '\n');
    assert whole == sb + Unwritten(s, i, maxWidth) by {
      assert s[0..] == s;
    }
    while i < |s|
      invariant 0 <= i
      invariant whole == sb + Unwritten(s, i, maxWidth)
      decreases |s| - i
    {
      var end := i + maxWidth;
      if end > |s| {
        end := |s|;
      }
      UnwrittenStep(sb, s, i, end, maxWidth);
      if i > 0 {
        sb := sb + "\n";
      }
      sb := sb + s[i..end];
      i := i + maxWidth;
    }
    return sb;
  }

  // On text without newlines the wrapped lines are exactly the chunks: nothing is
  // lost, and every line but the last is full.
  lemma HardWrapLines(s: string, maxWidth: nat)
    requires 0 < maxWidth && s != "" && '\n' !in s
    ensures var lines := Split(Join(Chunks(s, maxWidth), '\n'), '\n');
      && Flatten(lines) == s
      && (forall i :: 0 <= i < |lines| - 1 ==> |lines[i]| == maxWidth)
      && 0 < |lines[|lines| - 1]| <= maxWidth
  {
    ChunksCutExactly(s, maxWidth);
    ChunksHoldOnly(s, maxWidth, '\n');
    SplitOfJoin(Chunks(s, maxWidth), '\n');
  }

  lemma {:induction false} ChunksHoldOnly(s: string, w: nat, c: char)
    requires 0 < w && c !in s
    ensures forall chunk :: chunk in Chunks(s, w) ==> c !in chunk
  {
    if |s| > w {
      ChunksHoldOnly(s[w..], w, c);
    }
  }

  // ----- Soft wrapping -----

  // The finished lines and the line being filled.
  datatype Filling = Filling(lines: seq<string>, current: string) {
    function Flush(): Filling {
      if current == "" then this else Filling(lines + [current], "")
    }
  }

  // Adds one word. A word longer than w is cut into chunks of its own; a last
  // chunk that is not full stays open for the words after it.
  function Place(f: Filling, word: string, w: nat): Filling
    requires 0 < w && word != ""
  {
    if |word| > w then
      var lines := f.Flush().lines;
      var chunks := Chunks(word, w);
      var last := chunks[|chunks| - 1];
      if |last| == w then Filling(lines + chunks, "")
      else Filling(lines + chunks[..|chunks| - 1], last)
    else if f.current == "" then Filling(f.lines, word)
    else if |f.current| + 1 + |word| > w then Filling(f.lines + [f.current], word)
    else Filling(f.lines, f.current + " " + word)
  }

  function PlaceAll(words: seq<string>, w: nat): Filling
    requires 0 < w && forall i :: 0 <= i < |words| ==> words[i] != ""
  {
    if words == [] then Filling([], "")
    else Place(PlaceAll(words[..|words| - 1], w), words[|words| - 1], w)
  }

  lemma PlaceNext(words: seq<string>, k: nat, w: nat)
    requires 0 < w && k < |words| && forall i :: 0 <= i < |words| ==> words[i] != ""
    ensures PlaceAll(words[..k + 1], w) == Place(PlaceAll(words[..k], w), words[k], w)
  {
    assert words[..k + 1][..k] == words[..k];
  }

  // The lines of the words alone.
  function LinesOf(words: seq<string>, w: nat): seq<string>
    requires 0 < w && forall i :: 0 <= i < |words| ==> words[i] != ""
  {
    PlaceAll(words, w).Flush().lines
  }

  // The lines of SoftWrap.
  function SoftLines(text: string, maxWidth: int): seq<string> {
    if maxWidth <= 0 || |text| <= maxWidth || Fields(text) == [] then [text]
    else LinesOf(Fields(text), maxWidth)
  }

  method SoftWrap(text: string, maxWidth: int) returns (lines: seq<string>)
    ensures lines == SoftLines(text, maxWidth)
  {
    if maxWidth <= 0 || |text| <= maxWidth {
      return [text];
    }
    var words := Fields(text);
    if |words| == 0 {
      return [text];
    }
    lines := [];
    var current := "";
    var currentRunes := 0;
    for k := 0 to |words|
      invariant currentRunes == |current|
      invariant Filling(lines, current) == PlaceAll(words[..k], maxWidth)
    {
      PlaceNext(words, k, maxWidth);
      var runes := words[k];
      var wordRunes := |runes|;
      if wordRunes > maxWidth {
        if currentRunes > 0 {
          lines := lines + [current];
          current, currentRunes := "", 0;
        }
        lines, current, currentRunes := PlaceChunks(runes, maxWidth, lines);
      } else if currentRunes == 0 {
        current, currentRunes := words[k], wordRunes;
      } else if currentRunes + 1 + wordRunes > maxWidth {
        lines := lines + [current];
        current, currentRunes := words[k], wordRunes;
      } else {
        current := current + " " + words[k];
        currentRunes := currentRunes + 1 + wordRunes;
      }
    }
    assert words[..|words|] == words;
    if currentRunes > 0 {
      lines := lines + [current];
    }
  }

  // The inner loop of SoftWrap, which cuts an over-long word.
  method PlaceChunks(word: string, maxWidth: nat, before: seq<string>)
    returns (lines: seq<string>, current: string, currentRunes: nat)
    requires 0 < maxWidth < |word|
    ensures currentRunes == |current|
    ensures Filling(lines, current) == Place(Filling(before, ""), word, maxWidth)
  {
    lines, current, currentRunes := before, "", 0;
    var runes := word;
    ghost var all := Chunks(word, maxWidth);
    while |runes| > 0
      invariant currentRunes == |current|
      invariant current == "" ==> before + all == lines + Chunks(runes, maxWidth) && |lines| >= |before|
      invariant runes == "" && current == "" ==> |lines[|lines| - 1]| == maxWidth && |lines| > |before|
      invariant current != "" ==> runes == "" && |current| < maxWidth && before + all == lines + [current]
    {
      var chunk := runes;
      if |chunk| > maxWidth {
        chunk := runes[..maxWidth];
      }
      assert Chunks(runes, maxWidth) == [chunk] + Chunks(runes[|chunk|..], maxWidth);
      runes := runes[|chunk|..];
      if |runes| > 0 || |chunk| == maxWidth {
        assert before + all == (lines + [chunk]) + Chunks(runes, maxWidth);
        lines := lines + [chunk];
      } else {
        current := current + chunk;
        currentRunes := |chunk|;
        assert current == chunk;
      }
    }
    assert all[|all| - 1] == (before + all)[|before + all| - 1];
    if current == "" {
      assert before + all == lines;
    } else {
      assert before + all[..|all| - 1] == (before + all)[..|before + all| - 1] == lines;
    }
  }

  // ----- No line is too wide -----

  ghost predicate Within(f: Filling, w: nat) {
    |f.current| <= w && AllWithin(f.lines, w)
  }

  lemma {:induction false} PlaceAllWithin(words: seq<string>, w: nat)
    requires 0 < w && AllWords(words)
    ensures Within(PlaceAll(words, w), w)
  {
    if words == [] {
    } else {
      PlaceAllWithin(words[..|words| - 1], w);
      PlaceWithin(PlaceAll(words[..|words| - 1], w), words[|words| - 1], w);
    }
  }

  lemma PlaceWithin(f: Filling, word: string, w: nat)
    requires 0 < w && word != "" && Within(f, w)
    ensures Within(Place(f, word, w), w)
  {
    if |word| > w {
      ChunksWithin(word, w);
      WithinConcat(f.Flush().lines, Chunks(word, w), w);
    }
  }

  ghost predicate AllWithin(lines: seq<string>, w: nat) {
    forall i :: 0 <= i < |lines| ==> |lines[i]| <= w
  }

  lemma ChunksWithin(word: string, w: nat)
    requires 0 < w && word != ""
    ensures AllWithin(Chunks(word, w), w)
  {
    ChunksCutExactly(word, w);
  }

  lemma WithinConcat(a: seq<string>, b: seq<string>, w: nat)
    requires AllWithin(a, w) && AllWithin(b, w) && b != []
    ensures AllWithin(a + b, w) && AllWithin(a + b[..|b| - 1], w) && |b[|b| - 1]| <= w
  {
  }

  lemma FilledWithin(words: seq<string>, w: nat)
    requires 0 < w && AllWords(words)
    ensures forall line :: line in LinesOf(words, w) ==> |line| <= w
  {
    PlaceAllWithin(words, w);
  }

  // Exactly when SoftWrap keeps to the width: always, except for a width that is not
  // positive and for over-wide text without a single word.
  lemma SoftLinesWidth(text: string, maxWidth: int)
    ensures (forall line :: line in SoftLines(text, maxWidth) ==> |line| <= maxWidth)
       <==> |text| <= maxWidth || (maxWidth > 0 && Fields(text) != [])
  {
    if maxWidth <= 0 || |text| <= maxWidth || Fields(text) == [] {
      assert SoftLines(text, maxWidth) == [text];
      assert text in [text];
    } else {
      FilledWithin(Fields(text), maxWidth);
    }
  }

  // ----- Every non-space rune survives, in order -----

  lemma {:induction false} NonSpaceAppend(s: string, t: string)
    ensures NonSpace(s + t) == NonSpace(s) + NonSpace(t)
  {
    if s == "" {
      assert s + t == t;
    } else {
      NonSpaceAppend(s[1..], t);
      assert (s + t)[1..] == s[1..] + t;
      Regroup([s[0]], NonSpace(s[1..]), NonSpace(t));
    }
  }

  lemma {:induction false} NonSpaceOfRun(s: string)
    requires forall i :: 0 <= i < |s| ==> !IsSpace(s[i])
    ensures NonSpace(s) == s
  {
    if s == "" {
    } else {
      NonSpaceOfRun(s[1..]);
      assert [s[0]] + s[1..] == s;
    }
  }

  lemma {:induction false} FieldsKeepNonSpace(s: string)
    ensures Flatten(Fields(s)) == NonSpace(s)
  {
    if s == "" {
    } else if IsSpace(s[0]) {
      FieldsKeepNonSpace(s[1..]);
    } else {
      var n := RunLength(s);
      FieldsKeepNonSpace(s[n..]);
      NonSpaceOfRun(s[..n]);
      NonSpaceAppend(s[..n], s[n..]);
      assert s[..n] + s[n..] == s;
      assert Fields(s)[1..] == Fields(s[n..]);
    }
  }

  // The pieces the lines are made of: the words, with the over-long ones cut.
  function Pieces(words: seq<string>, w: nat): seq<string>
    requires 0 < w
  {
    if words == [] then []
    else
      var last := words[|words| - 1];
      Pieces(words[..|words| - 1], w) + if |last| > w then Chunks(last, w) else [last]
  }

  lemma {:induction false} PiecesKeepText(words: seq<string>, w: nat)
    requires 0 < w
    ensures Flatten(Pieces(words, w)) == Flatten(words)
  {
    if words == [] {
    } else {
      var front, last := words[..|words| - 1], words[|words| - 1];
      PiecesKeepText(front, w);
      assert words == front + [last];
      FlattenSnoc(front, last);
      FlattenAppend(Pieces(front, w), if |last| > w then Chunks(last, w) else [last]);
      FlattenOne(last);
      if |last| > w {
        ChunksCutExactly(last, w);
      }
    }
  }

  // Each group of pieces joined by single spaces.
  function JoinGroups(groups: seq<seq<string>>): seq<string> {
    if groups == [] then [] else JoinGroups(groups[..|groups| - 1]) + [Join(groups[|groups| - 1], ' ')]
  }

  lemma JoinGroupsSnoc(groups: seq<seq<string>>, g: seq<string>)
    ensures JoinGroups(groups + [g]) == JoinGroups(groups) + [Join(g, ' ')]
  {
    assert (groups + [g])[..|groups|] == groups;
  }

  // A cut of the pieces into one group per finished line and one for the open line.
  datatype Cut = Cut(groups: seq<seq<string>>, open: seq<string>) {
    ghost predicate Fills(f: Filling, pieces: seq<string>) {
      && Flatten(groups) + open == pieces
      && JoinGroups(groups) == f.lines
      && Join(open, ' ') == f.current
      && (open == [] <==> f.current == "")
    }
  }

  lemma FlushCut(c: Cut, f: Filling, pieces: seq<string>) returns (c': Cut)
    requires c.Fills(f, pieces)
    ensures c'.Fills(f.Flush(), pieces) && c'.open == []
  {
    if f.current == "" {
      c' := c;
    } else {
      c' := Cut(c.groups + [c.open], []);
      JoinGroupsSnoc(c.groups, c.open);
      FlattenSnoc(c.groups, c.open);
    }
  }

  lemma {:induction false} AloneCut(groups: seq<seq<string>>, chunks: seq<string>) returns (all: seq<seq<string>>)
    ensures Flatten(all) == Flatten(groups) + chunks
    ensures JoinGroups(all) == JoinGroups(groups) + chunks
  {
    if chunks == [] {
      all := groups;
    } else {
      var front, last := chunks[..|chunks| - 1], chunks[|chunks| - 1];
      var all' := AloneCut(groups, front);
      all := all' + [[last]];
      JoinGroupsSnoc(all', [last]);
      FlattenSnoc(all', [last]);
      assert chunks == front + [last];
      Regroup(Flatten(groups), front, [last]);
      Regroup(JoinGroups(groups), front, [last]);
    }
  }

  lemma {:induction false} PlaceAllCuts(words: seq<string>, w: nat) returns (c: Cut)
    requires 0 < w && AllWords(words)
    ensures c.Fills(PlaceAll(words, w), Pieces(words, w))
  {
    if words == [] {
      c := Cut([], []);
    } else {
      var front, last := words[..|words| - 1], words[|words| - 1];
      var c0 := PlaceAllCuts(front, w);
      c := PlaceCuts(c0, PlaceAll(front, w), Pieces(front, w), last, w);
    }
  }

  lemma PlaceCuts(c0: Cut, f: Filling, pieces: seq<string>, word: string, w: nat) returns (c: Cut)
    requires 0 < w && IsWord(word) && c0.Fills(f, pieces)
    ensures c.Fills(Place(f, word, w), pieces + if |word| > w then Chunks(word, w) else [word])
  {
    if |word| > w {
      c := PlaceLongCuts(c0, f, pieces, word, w);
    } else if f.current == "" {
      c := Cut(c0.groups, [word]);
    } else if |f.current| + 1 + |word| > w {
      var c1 := FlushCut(c0, f, pieces);
      c := Cut(c1.groups, [word]);
    } else {
      c := Cut(c0.groups, c0.open + [word]);
      JoinSnoc(c0.open, word, ' ');
      assert Flatten(c.groups) + c.open == pieces + [word];
    }
  }

  lemma PlaceLongCuts(c0: Cut, f: Filling, pieces: seq<string>, word: string, w: nat) returns (c: Cut)
    requires 0 < w < |word| && c0.Fills(f, pieces)
    ensures c.Fills(Place(f, word, w), pieces + Chunks(word, w))
  {
    var c1 := FlushCut(c0, f, pieces);
    var chunks := Chunks(word, w);
    var n := |chunks| - 1;
    ChunksCutExactly(word, w);
    if |chunks[n]| == w {
      c := AppendAlone(c1, f.Flush().lines, pieces, chunks, "");
      assert chunks + [] == chunks;
    } else {
      c := AppendAlone(c1, f.Flush().lines, pieces, chunks[..n], chunks[n]);
      assert chunks[..n] + [chunks[n]] == chunks;
    }
  }

  lemma AppendAlone(c: Cut, lines: seq<string>, pieces: seq<string>, chunks: seq<string>, last: string)
    returns (c': Cut)
    requires c.Fills(Filling(lines, ""), pieces)
    ensures c'.Fills(Filling(lines + chunks, last), pieces + (chunks + if last == "" then [] else [last]))
  {
    var groups := AloneCut(c.groups, chunks);
    c' := Cut(groups, if last == "" then [] else [last]);
  }

  // Every line is a run of consecutive pieces joined by single spaces, and together
  // the lines use each piece exactly once, in order.
  lemma SoftLinesCutPieces(text: string, maxWidth: nat) returns (groups: seq<seq<string>>)
    requires 0 < maxWidth < |text| && Fields(text) != []
    ensures SoftLines(text, maxWidth) == JoinGroups(groups)
    ensures Flatten(groups) == Pieces(Fields(text), maxWidth)
  {
    var words := Fields(text);
    var c := PlaceAllCuts(words, maxWidth);
    var c' := FlushCut(c, PlaceAll(words, maxWidth), Pieces(words, maxWidth));
    groups := c'.groups;
  }

  lemma {:induction false} NonSpaceOfJoin(g: seq<string>)
    ensures NonSpace(Join(g, ' ')) == NonSpace(Flatten(g))
  {
    if |g| == 1 {
      FlattenOne(g[0]);
      assert g == [g[0]];
    } else if |g| > 1 {
      NonSpaceOfJoin(g[1..]);
      NonSpaceAppend(g[0] + " ", Join(g[1..], ' '));
      NonSpaceAppend(g[0], " ");
      NonSpaceAppend(g[0], Flatten(g[1..]));
      assert NonSpace(" ") == "" + NonSpace("");
    }
  }

  lemma {:induction false} NonSpaceOfGroups(groups: seq<seq<string>>)
    ensures NonSpace(Flatten(JoinGroups(groups))) == NonSpace(Flatten(Flatten(groups)))
  {
    if groups == [] {
    } else {
      var front, last := groups[..|groups| - 1], groups[|groups| - 1];
      NonSpaceOfGroups(front);
      assert groups == front + [last];
      FlattenSnoc(front, last);
      FlattenAppend(Flatten(front), last);
      FlattenSnoc(JoinGroups(front), Join(last, ' '));
      NonSpaceAppend(Flatten(JoinGroups(front)), Join(last, ' '));
      NonSpaceAppend(Flatten(Flatten(front)), Flatten(last));
      NonSpaceOfJoin(last);
    }
  }

  lemma {:induction false} NonSpaceTwice(s: string)
    ensures NonSpace(NonSpace(s)) == NonSpace(s)
  {
    if s == "" {
    } else {
      NonSpaceTwice(s[1..]);
      if !IsSpace(s[0]) {
        var t := NonSpace(s);
        assert t == [s[0]] + NonSpace(s[1..]);
        assert t[0] == s[0] && t[1..] == NonSpace(s[1..]);
      }
    }
  }

  // Whatever the text and the width, SoftWrap keeps every non-space rune in order.
  lemma SoftLinesKeepText(text: string, maxWidth: int)
    ensures NonSpace(Flatten(SoftLines(text, maxWidth))) == NonSpace(text)
  {
    var words := Fields(text);
    if maxWidth <= 0 || |text| <= maxWidth || words == [] {
      FlattenOne(text);
    } else {
      var groups := SoftLinesCutPieces(text, maxWidth);
      NonSpaceOfGroups(groups);
      PiecesKeepText(words, maxWidth);
      FieldsKeepNonSpace(text);
      NonSpaceTwice(text);
    }
  }

  // ----- Greedy filling is optimal -----

  ghost predicate AllFit(words: seq<string>, w: nat) {
    forall i :: 0 <= i < |words| ==> |words[i]| <= w
  }

  // One way of cutting the words into lines of at most w runes.
  ghost predicate IsLayout(groups: seq<seq<string>>, words: seq<string>, w: nat) {
    && Flatten(groups) == words
    && forall i :: 0 <= i < |groups| ==> |Join(groups[i], ' ')| <= w
  }

  // After any number of words, no layout of them is ahead of the greedy one: it has
  // more lines, or as many with a last line that is at least as long.
  ghost predicate NotAhead(groups: seq<seq<string>>, f: Filling) {
    || |groups| - 1 > |f.lines|
    || (|groups| - 1 == |f.lines| && |Join(groups[|groups| - 1], ' ')| >= |f.current|)
  }

  // Taking the last word away from a layout leaves a layout of the other words.
  lemma PeelLayout(words: seq<string>, init: seq<seq<string>>, g: seq<string>, word: string, w: nat)
    requires IsLayout(init + [g + [word]], words, w)
    ensures words == (Flatten(init) + g) + [word]
    ensures IsLayout(init, Flatten(init), w)
    ensures g != [] ==> IsLayout(init + [g], Flatten(init) + g, w)
  {
    var groups := init + [g + [word]];
    FlattenSnoc(init, g + [word]);
    FlattenSnoc(init, g);
    forall i | 0 <= i < |init|
      ensures |Join(init[i], ' ')| <= w
    {
      assert groups[i] == init[i];
    }
    assert groups[|init|] == g + [word];
    if g != [] {
      JoinSnoc(g, word, ' ');
    }
  }

  lemma {:induction false} GreedyLeads(words: seq<string>, groups: seq<seq<string>>, w: nat)
    requires 0 < w && AllWords(words) && AllFit(words, w) && words != []
    requires IsLayout(groups, words, w)
    ensures NotAhead(groups, PlaceAll(words, w))
    decreases |words| + |groups|, 1
  {
    var init, g := groups[..|groups| - 1], groups[|groups| - 1];
    assert groups == init + [g];
    if g == [] {
      FlattenSnoc(init, g);
      GreedyLeads(words, init, w);
    } else {
      assert g == g[..|g| - 1] + [g[|g| - 1]];
      PeelLayout(words, init, g[..|g| - 1], g[|g| - 1], w);
      GreedyLeadsStep(Flatten(init) + g[..|g| - 1], init, g[..|g| - 1], g[|g| - 1], w);
    }
  }

  lemma {:induction false} GreedyLeadsStep(front: seq<string>, init: seq<seq<string>>, g: seq<string>,
                                           word: string, w: nat)
    requires 0 < w && AllWords(front + [word]) && AllFit(front + [word], w)
    requires if g == [] then IsLayout(init, front, w) else IsLayout(init + [g], front, w)
    requires |Join(g + [word], ' ')| <= w
    ensures NotAhead(init + [g + [word]], PlaceAll(front + [word], w))
    decreases |front| + |init| + 2, 0
  {
    FrontFits(front, word, w);
    if g != [] {
      FlattenSnoc(init, g);
      GreedyLeads(front, init + [g], w);
      StepKeepsLead(init, g, PlaceAll(front, w), word, w);
    } else {
      assert g + [word] == [word];
      if front != [] {
        GreedyLeads(front, init, w);
        NewLineKeepsLead(init, PlaceAll(front, w), word, w);
      }
    }
  }

  lemma FrontFits(front: seq<string>, word: string, w: nat)
    requires AllWords(front + [word]) && AllFit(front + [word], w)
    ensures AllWords(front) && AllFit(front, w) && IsWord(word) && |word| <= w
    ensures (front + [word])[..|front|] == front && (front + [word])[|front|] == word
  {
    var words := front + [word];
    assert words[|front|] == word;
    assert forall i :: 0 <= i < |front| ==> front[i] == words[i];
  }

  lemma NewLineKeepsLead(init: seq<seq<string>>, f: Filling, word: string, w: nat)
    requires 0 < w && IsWord(word) && |word| <= w
    requires NotAhead(init, f)
    ensures NotAhead(init + [[word]], Place(f, word, w))
  {
  }

  lemma StepKeepsLead(init: seq<seq<string>>, g: seq<string>, f: Filling, word: string, w: nat)
    requires 0 < w && IsWord(word) && |word| <= w && g != []
    requires NotAhead(init + [g], f)
    requires |Join(g + [word], ' ')| <= w
    ensures NotAhead(init + [g + [word]], Place(f, word, w))
  {
    JoinSnoc(g, word, ' ');
  }

  lemma {:induction false} PiecesOfFitting(words: seq<string>, w: nat)
    requires 0 < w && AllFit(words, w)
    ensures Pieces(words, w) == words
  {
    if words == [] {
    } else {
      PiecesOfFitting(words[..|words| - 1], w);
      assert words == words[..|words| - 1] + [words[|words| - 1]];
    }
  }

  lemma {:induction false} GroupLengths(groups: seq<seq<string>>, w: nat)
    requires forall line :: line in JoinGroups(groups) ==> |line| <= w
    ensures |JoinGroups(groups)| == |groups|
    ensures forall i :: 0 <= i < |groups| ==> |Join(groups[i], ' ')| <= w
  {
    if groups == [] {
    } else {
      var lines := JoinGroups(groups[..|groups| - 1]);
      forall line | line in lines
        ensures |line| <= w
      {
        assert line in JoinGroups(groups);
      }
      GroupLengths(groups[..|groups| - 1], w);
      assert Join(groups[|groups| - 1], ' ') in JoinGroups(groups);
    }
  }

  // When every word fits, no way of cutting the words into lines has fewer lines than
  // SoftWrap.
  lemma SoftLinesAreFewest(text: string, maxWidth: nat, groups: seq<seq<string>>)
    requires 0 < maxWidth && Fields(text) != [] && AllFit(Fields(text), maxWidth)
    requires IsLayout(groups, Fields(text), maxWidth)
    ensures |SoftLines(text, maxWidth)| <= |groups|
  {
    if |text| > maxWidth {
      GreedyLeads(Fields(text), groups, maxWidth);
    }
  }

  // And over-wide text of fitting words is laid out: its lines are such a cut.
  lemma SoftLinesAreLayout(text: string, maxWidth: nat) returns (greedy: seq<seq<string>>)
    requires 0 < maxWidth < |text| && Fields(text) != [] && AllFit(Fields(text), maxWidth)
    ensures IsLayout(greedy, Fields(text), maxWidth)
    ensures SoftLines(text, maxWidth) == JoinGroups(greedy)
  {
    greedy := SoftLinesCutPieces(text, maxWidth);
    PiecesOfFitting(Fields(text), maxWidth);
    SoftLinesWidth(text, maxWidth);
    GroupLengths(greedy, maxWidth);
  }

  // ----- Where lines end -----

  // Every line but the last is so full that the first word of the next does not fit.
  ghost predicate BreaksAreForced(groups: seq<seq<string>>, w: int) {
    forall i :: 0 < i < |groups| ==>
      groups[i] != [] && |Join(groups[i - 1], ' ')| + 1 + |groups[i][0]| > w
  }

  lemma ForcedSnoc(groups: seq<seq<string>>, g: seq<string>, w: int)
    requires BreaksAreForced(groups, w) && g != []
    requires groups != [] ==> |Join(groups[|groups| - 1], ' ')| + 1 + |g[0]| > w
    ensures BreaksAreForced(groups + [g], w)
  {
  }

  lemma ForcedGrows(groups: seq<seq<string>>, g: seq<string>, word: string, w: int)
    requires BreaksAreForced(groups + [g], w) && g != []
    ensures BreaksAreForced(groups + [g + [word]], w)
  {
    var longer := groups + [g + [word]];
    forall i | 0 < i < |longer|
      ensures longer[i] != [] && |Join(longer[i - 1], ' ')| + 1 + |longer[i][0]| > w
    {
      assert (groups + [g])[i - 1] == longer[i - 1] && (groups + [g])[i][0] == longer[i][0];
    }
  }

  // The words as placed, with the line being filled as the last group.
  ghost predicate Laid(groups: seq<seq<string>>, words: seq<string>, f: Filling, w: int) {
    && groups != [] && Flatten(groups) == words && BreaksAreForced(groups, w)
    && JoinGroups(groups) == f.lines + [f.current] && groups[|groups| - 1] != [] && f.current != ""
  }

  // The last group is the line being filled.
  lemma LastGroup(groups: seq<seq<string>>, words: seq<string>, f: Filling, w: int)
    returns (init: seq<seq<string>>, g: seq<string>)
    requires Laid(groups, words, f, w)
    ensures groups == init + [g] && JoinGroups(init) == f.lines && Join(g, ' ') == f.current
    ensures Flatten(init) + g == words
  {
    init, g := groups[..|groups| - 1], groups[|groups| - 1];
    assert groups == init + [g];
    JoinGroupsSnoc(init, g);
    FlattenSnoc(init, g);
    assert (f.lines + [f.current])[..|f.lines|] == f.lines;
  }

  lemma NewLineLays(groups: seq<seq<string>>, words: seq<string>, f: Filling, word: string, w: int)
    requires Laid(groups, words, f, w) && word != "" && |f.current| + 1 + |word| > w
    ensures Laid(groups + [[word]], words + [word], Filling(f.lines + [f.current], word), w)
  {
    var init, g := LastGroup(groups, words, f, w);
    ForcedSnoc(groups, [word], w);
    FlattenSnoc(groups, [word]);
    JoinGroupsSnoc(groups, [word]);
  }

  lemma SameLineLays(init: seq<seq<string>>, g: seq<string>, words: seq<string>, f: Filling, word: string, w: int)
    requires Laid(init + [g], words, f, w) && g != [] && word != ""
    requires JoinGroups(init) == f.lines && Join(g, ' ') == f.current && Flatten(init) + g == words
    ensures Laid(init + [g + [word]], words + [word], Filling(f.lines, f.current + " " + word), w)
  {
    ForcedGrows(init, g, word, w);
    FlattenSnoc(init, g + [word]);
    Regroup(Flatten(init), g, [word]);
    JoinGroupsSnoc(init, g + [word]);
    JoinSnoc(g, word, ' ');
  }

  lemma PlaceLays(groups: seq<seq<string>>, words: seq<string>, f: Filling, word: string, w: nat)
    returns (next: seq<seq<string>>)
    requires 0 < w && IsWord(word) && |word| <= w && Laid(groups, words, f, w)
    ensures Laid(next, words + [word], Place(f, word, w), w)
  {
    if |f.current| + 1 + |word| > w {
      next := groups + [[word]];
      NewLineLays(groups, words, f, word, w);
    } else {
      var init, g := LastGroup(groups, words, f, w);
      next := init + [g + [word]];
      SameLineLays(init, g, words, f, word, w);
    }
  }

  lemma FirstIsLaid(word: string, w: int)
    requires IsWord(word)
    ensures Laid([[word]], [word], Filling([], word), w)
  {
    FlattenOne([word]);
    JoinGroupsSnoc([], [word]);
    assert [] + [[word]] == [[word]] && [] + [word] == [word];
  }

  lemma {:induction false} PlaceAllLays(words: seq<string>, w: nat) returns (groups: seq<seq<string>>)
    requires 0 < w && AllWords(words) && AllFit(words, w) && words != []
    ensures Laid(groups, words, PlaceAll(words, w), w)
  {
    var front, last := words[..|words| - 1], words[|words| - 1];
    assert words == front + [last];
    if front == [] {
      groups := [[last]];
      FirstIsLaid(last, w);
    } else {
      var before := PlaceAllLays(front, w);
      groups := PlaceLays(before, front, PlaceAll(front, w), last, w);
    }
  }

  // Words that fit are cut into lines only where they must be.
  lemma FittingLinesAreFull(words: seq<string>, w: nat) returns (groups: seq<seq<string>>)
    requires 0 < w && AllWords(words) && AllFit(words, w) && words != []
    ensures Flatten(groups) == words && LinesOf(words, w) == JoinGroups(groups) && BreaksAreForced(groups, w)
  {
    groups := PlaceAllLays(words, w);
  }

  // ----- Over-long words -----

  // The words placed after a filling.
  function PlaceFrom(f: Filling, words: seq<string>, w: nat): Filling
    requires 0 < w && forall i :: 0 <= i < |words| ==> words[i] != ""
  {
    if words == [] then f else Place(PlaceFrom(f, words[..|words| - 1], w), words[|words| - 1], w)
  }

  lemma {:induction false} PlaceFromStart(words: seq<string>, w: nat)
    requires 0 < w && AllWords(words)
    ensures PlaceFrom(Filling([], ""), words, w) == PlaceAll(words, w)
  {
    if words == [] {
    } else {
      PlaceFromStart(words[..|words| - 1], w);
    }
  }

  lemma {:induction false} PlaceFromBoth(f: Filling, a: seq<string>, b: seq<string>, w: nat)
    requires 0 < w && AllWords(a) && AllWords(b)
    ensures AllWords(a + b) && PlaceFrom(f, a + b, w) == PlaceFrom(PlaceFrom(f, a, w), b, w)
  {
    if b == [] {
      assert a + b == a;
    } else {
      PlaceFromBoth(f, a, b[..|b| - 1], w);
      assert (a + b)[..|a + b| - 1] == a + b[..|b| - 1];
    }
  }

  // The same but for finished lines before it.
  function After(lines: seq<string>, f: Filling): Filling {
    Filling(lines + f.lines, f.current)
  }

  lemma PlaceAfter(lines: seq<string>, f: Filling, word: string, w: nat)
    requires 0 < w && word != ""
    ensures Place(After(lines, f), word, w) == After(lines, Place(f, word, w))
  {
    Regroup(lines, f.lines, [f.current]);
    if |word| > w {
      var chunks := Chunks(word, w);
      Regroup(lines, f.Flush().lines, chunks);
      Regroup(lines, f.Flush().lines, chunks[..|chunks| - 1]);
    }
  }

  lemma {:induction false} PlaceFromAfter(lines: seq<string>, f: Filling, words: seq<string>, w: nat)
    requires 0 < w && AllWords(words)
    ensures PlaceFrom(After(lines, f), words, w) == After(lines, PlaceFrom(f, words, w))
  {
    if words == [] {
    } else {
      PlaceFromAfter(lines, f, words[..|words| - 1], w);
      PlaceAfter(lines, PlaceFrom(f, words[..|words| - 1], w), words[|words| - 1], w);
    }
  }

  // The fillings differ at most in whether a full line is finished.
  ghost predicate SameLines(f: Filling, g: Filling, w: nat) {
    f == g || (|g.current| == w && f == g.Flush())
  }

  lemma PlaceSame(f: Filling, g: Filling, word: string, w: nat)
    requires 0 < w && word != "" && SameLines(f, g, w)
    ensures Place(f, word, w) == Place(g, word, w)
  {
  }

  lemma {:induction false} PlaceFromSame(f: Filling, g: Filling, words: seq<string>, w: nat)
    requires 0 < w && AllWords(words) && SameLines(f, g, w)
    ensures SameLines(PlaceFrom(f, words, w), PlaceFrom(g, words, w), w)
    ensures PlaceFrom(f, words, w).Flush() == PlaceFrom(g, words, w).Flush()
  {
    if words == [] {
    } else {
      PlaceFromSame(f, g, words[..|words| - 1], w);
      PlaceSame(PlaceFrom(f, words[..|words| - 1], w), PlaceFrom(g, words[..|words| - 1], w), words[|words| - 1], w);
    }
  }

  // Full words each make a line.
  lemma {:induction false} FullWordsAreLines(lines: seq<string>, chunks: seq<string>, w: nat)
    requires 0 < w && AllWords(chunks) && chunks != []
    requires (forall i :: 0 <= i < |chunks| - 1 ==> |chunks[i]| == w) && |chunks[|chunks| - 1]| <= w
    ensures PlaceFrom(Filling(lines, ""), chunks, w) == Filling(lines + chunks[..|chunks| - 1], chunks[|chunks| - 1])
  {
    var n := |chunks| - 1;
    if n == 0 {
      assert chunks[..0] == [] && lines + [] == lines;
      assert PlaceFrom(Filling(lines, ""), chunks[..0], w) == Filling(lines, "");
    } else {
      FullWordsAreLines(lines, chunks[..n], w);
      assert chunks[..n][..n - 1] + [chunks[n - 1]] == chunks[..n];
      Regroup(lines, chunks[..n - 1], [chunks[n - 1]]);
      assert chunks[..n][..n - 1] == chunks[..n - 1];
    }
  }

  lemma {:induction false} ChunksAreWords(word: string, w: nat)
    requires 0 < w && IsWord(word)
    ensures AllWords(Chunks(word, w))
  {
    if |word| > w {
      ChunksAreWords(word[w..], w);
    }
  }

  lemma LongIsItsChunks(lines: seq<string>, word: string, w: nat)
    requires 0 < w < |word| && IsWord(word)
    ensures AllWords(Chunks(word, w))
    ensures SameLines(Place(Filling(lines, ""), word, w), PlaceFrom(Filling(lines, ""), Chunks(word, w), w), w)
  {
    var chunks := Chunks(word, w);
    ChunksAreWords(word, w);
    ChunksCutExactly(word, w);
    FullWordsAreLines(lines, chunks, w);
    assert chunks[..|chunks| - 1] + [chunks[|chunks| - 1]] == chunks;
    Regroup(lines, chunks[..|chunks| - 1], [chunks[|chunks| - 1]]);
  }

  // An over-long word begins a line of its own and then goes as if its chunks were words.
  lemma LongWordsGoAsChunks(front: seq<string>, word: string, back: seq<string>, w: nat)
    requires 0 < w < |word| && IsWord(word) && AllWords(front) && AllWords(back)
    ensures AllWords(front + [word] + back) && AllWords(Chunks(word, w) + back)
    ensures LinesOf(front + [word] + back, w) == LinesOf(front, w) + LinesOf(Chunks(word, w) + back, w)
  {
    var empty, done, chunks := Filling([], ""), LinesOf(front, w), Chunks(word, w);
    var f, base := PlaceFrom(empty, front, w), Filling(done, "");
    LongIsItsChunks(done, word, w);
    PlaceFromStart(front, w);
    PlaceFromBoth(empty, front, [word], w);
    PlaceFromBoth(empty, front + [word], back, w);
    PlaceFromStart(front + [word] + back, w);
    assert PlaceFrom(f, [word], w) == Place(f, word, w) == Place(base, word, w);
    PlaceFromSame(Place(base, word, w), PlaceFrom(base, chunks, w), back, w);
    PlaceFromBoth(base, chunks, back, w);
    PlaceFromAfter(done, empty, chunks + back, w);
    assert After(done, empty) == base;
    PlaceFromStart(chunks + back, w);
    FlushAfter(done, PlaceAll(chunks + back, w));
  }

  lemma FlushAfter(lines: seq<string>, f: Filling)
    ensures After(lines, f).Flush().lines == lines + f.Flush().lines
  {
    Regroup(lines, f.lines, [f.current]);
  }

  // ----- The help text reflow -----

  // Adds one word without ever cutting it.
  function PlaceWhole(f: Filling, word: string, width: int): Filling {
    if f.current == "" then Filling(f.lines, word)
    else if |f.current| + 1 + |word| > width then Filling(f.lines + [f.current], word)
    else Filling(f.lines, f.current + " " + word)
  }

  function Reflow(words: seq<string>, width: int): Filling {
    if words == [] then Filling([], "")
    else PlaceWhole(Reflow(words[..|words| - 1], width), words[|words| - 1], width)
  }

  function Text(f: Filling): string {
    Join(f.lines + [f.current], '\n')
  }

  predicate Indented(line: string) {
    line != "" && (line[0] == ' ' || line[0] == '\t')
  }

  function WrappedLine(line: string, width: int): string {
    if line == "" || Indented(line) || |line| <= width then line
    else Text(Reflow(Fields(line), width))
  }

  method WrapLine(line: string, width: int) returns (b: string)
    ensures b == WrappedLine(line, width)
  {
    if line == "" || line[0] == ' ' || line[0] == '\t' || |line| <= width {
      return line;
    }
    b := "";
    var lineLen := 0;
    var words := Fields(line);
    for i := 0 to |words|
      invariant b == Text(Reflow(words[..i], width))
      invariant lineLen == |Reflow(words[..i], width).current|
      invariant i > 0 ==> Reflow(words[..i], width).current != ""
    {
      assert words[..i + 1][..i] == words[..i];
      if i > 0 {
        AppendWord(Reflow(words[..i], width), words[i], width);
      }
      var word := words[i];
      var wordLen := |word|;
      if i == 0 {
        b := b + word;
        lineLen := wordLen;
      } else if lineLen + 1 + wordLen > width {
        b := b + "\n" + word;
        lineLen := wordLen;
      } else {
        b := b + " " + word;
        lineLen := lineLen + 1 + wordLen;
      }
    }
    assert words[..|words|] == words;
  }

  lemma AppendWord(f: Filling, word: string, width: int)
    requires f.current != ""
    ensures Text(PlaceWhole(f, word, width))
         == Text(f) + (if |f.current| + 1 + |word| > width then "\n" else " ") + word
  {
    if |f.current| + 1 + |word| > width {
      JoinSnoc(f.lines + [f.current], word, '\n');
    } else if f.lines == [] {
      assert f.lines + [f.current + " " + word] == [f.current + " " + word];
      assert f.lines + [f.current] == [f.current];
    } else {
      JoinSnoc(f.lines, f.current, '\n');
      JoinSnoc(f.lines, f.current + " " + word, '\n');
      var done := Join(f.lines, '\n') + ['\n'];
      assert done + (f.current + " " + word) == done + f.current + " " + word;
    }
  }

  lemma {:induction false} FieldsOfReflow(words: seq<string>, width: int)
    requires AllWords(words) && words != []
    ensures Fields(Text(Reflow(words, width))) == words && Reflow(words, width).current != ""
  {
    var front, last := words[..|words| - 1], words[|words| - 1];
    assert words == front + [last];
    FieldsOfWord(last);
    if front == [] {
      assert Reflow(front, width) == Filling([], "") && [] + [last] == [last];
    } else {
      var f := Reflow(front, width);
      FieldsOfReflow(front, width);
      AppendWord(f, last, width);
      FieldsAtSpace(Text(f), if |f.current| + 1 + |last| > width then '\n' else ' ', last);
    }
  }

  // A line that fits or begins with a blank or a tab is left as it is; any other may be
  // broken anew, but whatever the width it keeps its words, uncut.
  lemma WrappedLineKeepsWords(line: string, width: int)
    ensures line != "" && (line[0] == ' ' || line[0] == '\t') ==> WrappedLine(line, width) == line
    ensures |line| <= width ==> WrappedLine(line, width) == line
    ensures Fields(WrappedLine(line, width)) == Fields(line)
  {
    if Fields(line) != [] {
      FieldsOfReflow(Fields(line), width);
    } else {
      FieldsOfWord("");
      assert [] + [""] == [""];
    }
  }

  // No line is too wide but one that is a single word.
  ghost predicate FitOrAlone(groups: seq<seq<string>>, w: int) {
    forall i :: 0 <= i < |groups| ==> |groups[i]| == 1 || |Join(groups[i], ' ')| <= w
  }

  lemma FitSnoc(groups: seq<seq<string>>, g: seq<string>, w: int)
    requires |g| == 1 || |Join(g, ' ')| <= w
    ensures FitOrAlone(groups + [g], w) <== FitOrAlone(groups, w)
  {
  }

  lemma FitPrefix(groups: seq<seq<string>>, g: seq<string>, w: int)
    requires FitOrAlone(groups + [g], w)
    ensures FitOrAlone(groups, w)
  {
    forall i | 0 <= i < |groups|
      ensures |groups[i]| == 1 || |Join(groups[i], ' ')| <= w
    {
      assert (groups + [g])[i] == groups[i];
    }
  }

  lemma WholeLays(groups: seq<seq<string>>, words: seq<string>, f: Filling, word: string, w: int)
    returns (next: seq<seq<string>>)
    requires IsWord(word) && Laid(groups, words, f, w) && FitOrAlone(groups, w)
    ensures Laid(next, words + [word], PlaceWhole(f, word, w), w) && FitOrAlone(next, w)
  {
    if |f.current| + 1 + |word| > w {
      next := groups + [[word]];
      NewLineLays(groups, words, f, word, w);
      FitSnoc(groups, [word], w);
    } else {
      var init, g := LastGroup(groups, words, f, w);
      next := init + [g + [word]];
      SameLineLays(init, g, words, f, word, w);
      JoinSnoc(g, word, ' ');
      FitPrefix(init, g, w);
      FitSnoc(init, g + [word], w);
    }
  }

  lemma {:induction false} ReflowLays(words: seq<string>, w: int) returns (groups: seq<seq<string>>)
    requires AllWords(words) && words != []
    ensures Laid(groups, words, Reflow(words, w), w) && FitOrAlone(groups, w)
  {
    var front, last := words[..|words| - 1], words[|words| - 1];
    assert words == front + [last];
    if front == [] {
      groups := [[last]];
      FirstIsLaid(last, w);
    } else {
      var before := ReflowLays(front, w);
      groups := WholeLays(before, front, Reflow(front, w), last, w);
    }
  }

  // Any other over-wide line is broken only where the next word does not fit, and a part
  // that is still too wide is a single word.
  lemma WrappedLinesAreFull(line: string, width: int) returns (groups: seq<seq<string>>)
    requires line != "" && line[0] != ' ' && line[0] != '\t' && |line| > width
    ensures Flatten(groups) == Fields(line) && WrappedLine(line, width) == Join(JoinGroups(groups), '\n')
    ensures BreaksAreForced(groups, width) && FitOrAlone(groups, width)
  {
    if Fields(line) == [] {
      groups := [];
      assert [] + [""] == [""];
    } else {
      groups := ReflowLays(Fields(line), width);
    }
  }

  lemma {:induction false} ReflowIsPlaceAll(words: seq<string>, w: nat)
    requires 0 < w && AllWords(words) && AllFit(words, w)
    ensures Reflow(words, w) == PlaceAll(words, w)
    ensures words != [] ==> Reflow(words, w).current != ""
  {
    if words == [] {
    } else {
      ReflowIsPlaceAll(words[..|words| - 1], w);
    }
  }

  // n non-space runes in a row.
  ghost predicate RunAt(s: string, i: int, n: nat) {
    0 <= i <= i + n <= |s| && forall k :: i <= k < i + n ==> !IsSpace(s[k])
  }

  lemma {:induction false} ReflowKeepsWords(words: seq<string>, w: nat, k: nat) returns (i: nat)
    requires AllWords(words) && k < |words|
    ensures Reflow(words, w).current != ""
    ensures RunAt(Text(Reflow(words, w)), i, |words[k]|)
  {
    var front, last := words[..|words| - 1], words[|words| - 1];
    var f := Reflow(front, w);
    if front == [] {
      assert f.lines + [last] == [last];
      i := 0;
    } else {
      var j := ReflowKeepsWords(front, w, if k < |front| then k else 0);
      AppendWord(f, last, w);
      i := if k < |front| then j else |Text(f)| + 1;
    }
  }

  // A run longer than the first line is in what follows it.
  lemma RunInRest(line: string, rest: string, i: int, w: nat)
    requires |line| <= w
    ensures RunAt(line + "\n" + rest, i, w + 1) ==> RunAt(rest, i - |line| - 1, w + 1)
  {
    var text, head := line + "\n" + rest, |line|;
    assert text[head] == '\n' && forall k :: 0 <= k < |rest| ==> rest[k] == text[k + head + 1];
    assert i <= head ==> i <= head < i + w + 1 || i < 0;
  }

  lemma {:induction false} NarrowLinesHaveNoLongRun(lines: seq<string>, w: nat, i: int)
    requires forall line :: line in lines ==> |line| <= w
    ensures !RunAt(Join(lines, '\n'), i, w + 1)
  {
    if |lines| == 1 {
      assert lines[0] in lines;
    } else if |lines| > 1 {
      var head := |lines[0]|;
      assert head <= w;
      RunInRest(lines[0], Join(lines[1..], '\n'), i, w);
      NarrowLinesHaveNoLongRun(lines[1..], w, i - head - 1);
    }
  }

  // The two implementations agree on unindented text exactly when nothing needs
  // wrapping, or there is a word and no word needs cutting.
  lemma WrapLineAgreesWithSoftWrap(line: string, width: nat)
    requires 0 < width && !Indented(line)
    ensures Join(SoftLines(line, width), '\n') == WrappedLine(line, width)
       <==> |line| <= width || (Fields(line) != [] && AllFit(Fields(line), width))
  {
    var words := Fields(line);
    if |line| > width && words != [] {
      if AllFit(words, width) {
        ReflowIsPlaceAll(words, width);
      } else {
        var k :| 0 <= k < |words| && |words[k]| > width;
        var i := ReflowKeepsWords(words, width, k);
        assert RunAt(WrappedLine(line, width), i, width + 1);
        SoftLinesWidth(line, width);
        NarrowLinesHaveNoLongRun(SoftLines(line, width), width, i);
      }
    } else if |line| > width {
      assert WrappedLine(line, width) == "" by {
        assert [] + [""] == [""];
      }
    }
  }
}
