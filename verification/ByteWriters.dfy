// Two writers whose result does not depend on how a byte stream is cut into writes: the
// bounded log tail (internal/container/logtail.go) and the line emitter
// (internal/update/update.go). Bytes are written as characters.
module ByteWriters {
  import opened Sequences

  // ----- The most recent bytes -----

  class LogTail {
    var buf: string
    const maxBytes: nat

    constructor (maxBytes: nat)
      ensures this.maxBytes == maxBytes && buf == ""
    {
      this.maxBytes := maxBytes;
      buf := "";
    }

    // Trims before appending, so the buffer never holds more than maxBytes.
    method Write(p: string) returns (n: nat)
      modifies this
      ensures n == |p|
      ensures buf == LastN(old(buf) + p, maxBytes)
    {
      if |p| >= maxBytes {
        buf := p[|p| - maxBytes..];
        return |p|;
      }
      var keep := maxBytes - |p|;
      if |buf| > keep {
        buf := buf[|buf| - keep..];
      }
      buf := buf + p;
      return |p|;
    }

    // However the bytes are cut into writes, the last maxBytes of them are held.
    method WriteAll(writes: seq<string>)
      requires buf == ""
      modifies this
      ensures buf == LastN(Flatten(writes), maxBytes)
    {
      for k := 0 to |writes|
        invariant buf == LastN(Flatten(writes[..k]), maxBytes)
      {
        assert writes[..k + 1] == writes[..k] + [writes[k]];
        FlattenSnoc(writes[..k], writes[k]);
        LastNAppend(Flatten(writes[..k]), writes[k], maxBytes);
        var n := Write(writes[k]);
      }
      assert writes[..|writes|] == writes;
    }
  }

  // ----- Complete lines -----

  function NonEmpty(pieces: seq<string>): seq<string> {
    if pieces == [] then []
    else if pieces[0] == "" then NonEmpty(pieces[1..])
    else [pieces[0]] + NonEmpty(pieces[1..])
  }

  lemma {:induction false} NonEmptyAppend(a: seq<string>, b: seq<string>)
    ensures NonEmpty(a + b) == NonEmpty(a) + NonEmpty(b)
  {
    if a == [] {
      assert a + b == b;
    } else {
      NonEmptyAppend(a[1..], b);
      assert (a + b)[1..] == a[1..] + b;
      Regroup([a[0]], NonEmpty(a[1..]), NonEmpty(b));
    }
  }

  // The pieces that a newline ends, and the piece after the last newline.
  function Ended(s: string): seq<string> {
    Split(s, '\n')[..|Split(s, '\n')| - 1]
  }

  function Rest(s: string): string {
    Split(s, '\n')[|Split(s, '\n')| - 1]
  }

  lemma EndedAndRest(s: string)
    ensures Split(s, '\n') == Ended(s) + [Rest(s)]
  {
  }

  lemma TakeLine(line: string, rest: string)
    requires '\n' !in line
    ensures Ended(line + ['\n'] + rest) == [line] + Ended(rest) && Rest(line + ['\n'] + rest) == Rest(rest)
  {
    SplitAtSeparator(line, rest, '\n');
    SplitWithoutSeparator(line, '\n');
  }

  lemma NoLine(s: string)
    requires '\n' !in s
    ensures Ended(s) == [] && Rest(s) == s
  {
    SplitWithoutSeparator(s, '\n');
  }

  // A stream may be cut anywhere: what was left after the first part goes on.
  lemma {:induction false} CutAnywhere(s: string, p: string)
    ensures Ended(s + p) == Ended(s) + Ended(Rest(s) + p) && Rest(s + p) == Rest(Rest(s) + p)
  {
    if '\n' in s {
      var i := IndexByte(s, '\n');
      var line, rest := s[..i], s[i + 1..];
      assert s == line + ['\n'] + rest && s + p == line + ['\n'] + (rest + p);
      TakeLine(line, rest);
      TakeLine(line, rest + p);
      CutAnywhere(rest, p);
      Regroup([line], Ended(rest), Ended(Rest(rest) + p));
    } else {
      NoLine(s);
    }
  }

  lemma NonEmptyOne(line: string)
    ensures NonEmpty([line]) == if line == "" then [] else [line]
  {
    assert [line][1..] == [];
  }

  class LogLineWriter {
    var buf: string
    var emitted: seq<string>    // what the sink got

    constructor ()
      ensures buf == "" && emitted == []
    {
      buf, emitted := "", [];
    }

    // Emits each complete line that is not empty, and keeps what follows the last newline.
    method Write(p: string) returns (n: nat)
      modifies this
      ensures n == |p|
      ensures emitted == old(emitted) + NonEmpty(Ended(old(buf) + p))
      ensures buf == Rest(old(buf) + p)
    {
      buf := buf + p;
      ghost var all, rest := emitted + NonEmpty(Ended(buf)), Rest(buf);
      while true
        invariant all == emitted + NonEmpty(Ended(buf)) && rest == Rest(buf)
        decreases |buf|
      {
        var i := IndexByte(buf, '\n');
        if i < 0 {
          break;
        }
        var line := buf[..i];
        assert buf == line + ['\n'] + buf[i + 1..];
        TakeLine(line, buf[i + 1..]);
        NonEmptyAppend([line], Ended(buf[i + 1..]));
        NonEmptyOne(line);
        Regroup(emitted, NonEmpty([line]), NonEmpty(Ended(buf[i + 1..])));
        buf := buf[i + 1..];
        if line != "" {
          emitted := emitted + [line];
        } else {
          assert emitted + [] == emitted;
        }
      }
      NoLine(buf);
      assert emitted + [] == emitted;
      return |p|;
    }

    // Emits what is left in the buffer.
    method Flush()
      modifies this
      ensures emitted == old(emitted) + NonEmpty([old(buf)]) && buf == ""
    {
      NonEmptyOne(buf);
      if |buf| > 0 {
        emitted := emitted + [buf];
        buf := "";
      }
    }

    // However the bytes are cut into writes, writing them and flushing emits exactly the
    // non-empty pieces between newlines, in order.
    method WriteAll(writes: seq<string>)
      requires buf == ""
      modifies this
      ensures emitted == old(emitted) + NonEmpty(Split(Flatten(writes), '\n')) && buf == ""
    {
      NoLine("");
      assert emitted + [] == emitted;
      for k := 0 to |writes|
        invariant emitted == old(emitted) + NonEmpty(Ended(Flatten(writes[..k])))
        invariant buf == Rest(Flatten(writes[..k]))
      {
        ghost var before := Flatten(writes[..k]);
        assert writes[..k + 1] == writes[..k] + [writes[k]];
        FlattenSnoc(writes[..k], writes[k]);
        CutAnywhere(before, writes[k]);
        NonEmptyAppend(Ended(before), Ended(Rest(before) + writes[k]));
        Regroup(old(emitted), NonEmpty(Ended(before)), NonEmpty(Ended(Rest(before) + writes[k])));
        var n := Write(writes[k]);
      }
      assert writes[..|writes|] == writes;
      ghost var all := Flatten(writes);
      EndedAndRest(all);
      NonEmptyAppend(Ended(all), [Rest(all)]);
      Regroup(old(emitted), NonEmpty(Ended(all)), NonEmpty([Rest(all)]));
      Flush();
    }
  }
}
