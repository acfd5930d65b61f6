// Facts about sequences and text that several of the models share.
module Sequences {

  datatype Option<+T> = None | Some(value: T)

  // The elements of all the sequences in order.
  function Flatten<T>(xss: seq<seq<T>>): seq<T> {
    if xss == [] then [] else xss[0] + Flatten(xss[1..])
  }

  lemma {:induction false} FlattenAppend<T>(xss: seq<seq<T>>, yss: seq<seq<T>>)
    ensures Flatten(xss + yss) == Flatten(xss) + Flatten(yss)
  {
    if xss == [] {
      assert xss + yss == yss;
    } else {
      FlattenAppend(xss[1..], yss);
      assert (xss + yss)[1..] == xss[1..] + yss;
      Regroup(xss[0], Flatten(xss[1..]), Flatten(yss));
    }
  }

  lemma FlattenOne<T>(xs: seq<T>)
    ensures Flatten([xs]) == xs
  {
    assert [xs][1..] == [];
  }

  lemma FlattenSnoc<T>(xss: seq<seq<T>>, xs: seq<T>)
    ensures Flatten(xss + [xs]) == Flatten(xss) + xs
  {
    FlattenAppend(xss, [xs]);
    FlattenOne(xs);
  }

  // The images of the elements one after another.
  function FlatMap<A, B>(f: A -> seq<B>, xs: seq<A>): seq<B> {
    if xs == [] then [] else FlatMap(f, xs[..|xs| - 1]) + f(xs[|xs| - 1])
  }

  ghost predicate InImage<A(!new), B>(f: A -> seq<B>, xs: seq<A>, y: B) {
    exists x :: x in xs && y in f(x)
  }

  lemma {:induction false} FlatMapMembers<A(!new), B>(f: A -> seq<B>, xs: seq<A>, y: B)
    ensures y in FlatMap(f, xs) <==> InImage(f, xs, y)
  {
    if xs == [] {
    } else {
      FlatMapMembers(f, xs[..|xs| - 1], y);
      assert xs == xs[..|xs| - 1] + [xs[|xs| - 1]];
    }
  }

  // Concatenation read from the left or from the right.
  lemma Regroup<T>(a: seq<T>, b: seq<T>, c: seq<T>)
    ensures a + (b + c) == (a + b) + c
  {
  }

  lemma TakeNext<T>(s: seq<T>, i: nat)
    requires i < |s|
    ensures s[..i + 1] == s[..i] + [s[i]] && s[..i + 1][..i] == s[..i]
  {
  }

  lemma TakeAll<T>(s: seq<T>)
    ensures s[..|s|] == s
  {
  }

  // The last min(n, |s|) elements.
  function LastN<T>(s: seq<T>, n: nat): seq<T> {
    if |s| <= n then s else s[|s| - n..]
  }

  // Trimming before an append is the same as trimming once at the end.
  lemma LastNAppend<T>(s: seq<T>, t: seq<T>, n: nat)
    ensures LastN(LastN(s, n) + t, n) == LastN(s + t, n)
  {
  }

  // The first min(n, |s|) elements.
  function FirstN<T>(s: seq<T>, n: nat): seq<T> {
    if |s| <= n then s else s[..n]
  }

  // The pieces of s between occurrences of sep: always at least one piece.
  function Split<T(==)>(s: seq<T>, sep: T): (pieces: seq<seq<T>>)
    ensures pieces != []
  {
    if s == [] then [[]]
    else if s[0] == sep then [[]] + Split(s[1..], sep)
    else Prepend(s[0], Split(s[1..], sep))
  }

  function Prepend<T>(x: T, pieces: seq<seq<T>>): (r: seq<seq<T>>)
    requires pieces != []
    ensures r != []
  {
    [[x] + pieces[0]] + pieces[1..]
  }

  lemma PrependAppend<T>(x: T, pieces: seq<seq<T>>, more: seq<seq<T>>)
    requires pieces != []
    ensures Prepend(x, pieces + more) == Prepend(x, pieces) + more
  {
    assert (pieces + more)[1..] == pieces[1..] + more;
  }

  function Join<T>(pieces: seq<seq<T>>, sep: T): seq<T> {
    if pieces == [] then []
    else if |pieces| == 1 then pieces[0]
    else pieces[0] + [sep] + Join(pieces[1..], sep)
  }

  lemma {:induction false} SplitAtSeparator<T>(a: seq<T>, b: seq<T>, sep: T)
    ensures Split(a + [sep] + b, sep) == Split(a, sep) + Split(b, sep)
  {
    var whole := a + [sep] + b;
    if a == [] {
      assert whole == [sep] + b;
      assert whole[1..] == b;
    } else {
      var t := a[1..];
      SplitAtSeparator(t, b, sep);
      assert whole[0] == a[0] && whole[1..] == t + [sep] + b;
      if a[0] == sep {
        Regroup([[]], Split(t, sep), Split(b, sep));
      } else {
        PrependAppend(a[0], Split(t, sep), Split(b, sep));
      }
    }
  }

  lemma {:induction false} SplitWithoutSeparator<T>(a: seq<T>, sep: T)
    requires sep !in a
    ensures Split(a, sep) == [a]
  {
    if a == [] {
    } else {
      SplitWithoutSeparator(a[1..], sep);
      assert [a[0]] + a[1..] == a;
    }
  }

  lemma {:induction false} SplitPiecesAreFree<T>(s: seq<T>, sep: T)
    ensures forall p :: p in Split(s, sep) ==> sep !in p
  {
    if s == [] {
    } else {
      SplitPiecesAreFree(s[1..], sep);
    }
  }

  lemma {:induction false} JoinSnoc<T>(pieces: seq<seq<T>>, piece: seq<T>, sep: T)
    requires pieces != []
    ensures Join(pieces + [piece], sep) == Join(pieces, sep) + [sep] + piece
  {
    if |pieces| == 1 {
      assert pieces + [piece] == [pieces[0], piece];
      assert (pieces + [piece])[1..] == [piece];
    } else {
      JoinSnoc(pieces[1..], piece, sep);
      assert (pieces + [piece])[1..] == pieces[1..] + [piece];
    }
  }

  // Splitting undoes joining when no piece holds the separator.
  lemma {:induction false} SplitOfJoin<T>(pieces: seq<seq<T>>, sep: T)
    requires pieces != []
    requires forall p :: p in pieces ==> sep !in p
    ensures Split(Join(pieces, sep), sep) == pieces
  {
    SplitWithoutSeparator(pieces[0], sep);
    if |pieces| > 1 {
      SplitOfJoin(pieces[1..], sep);
      SplitAtSeparator(pieces[0], Join(pieces[1..], sep), sep);
    }
  }

  // Position of the first c, or -1.
  function IndexByte(s: string, c: char): (i: int)
    ensures i == -1 ==> c !in s
    ensures i != -1 ==> 0 <= i < |s| && s[i] == c && c !in s[..i]
  {
    if s == "" then -1
    else if s[0] == c then 0
    else
      var i := IndexByte(s[1..], c);
      assert i >= 0 ==> s[..i + 1] == [s[0]] + s[1..][..i];
      if i == -1 then -1 else i + 1
  }

  lemma {:induction false} IndexByteIs(a: string, b: string, c: char)
    requires c !in a
    ensures IndexByte(a + [c] + b, c) == |a|
  {
    if a == "" {
    } else {
      IndexByteIs(a[1..], b, c);
      assert (a + [c] + b)[1..] == a[1..] + [c] + b;
    }
  }

  // Position of the last c, or -1.
  function LastIndex(s: string, c: char): (i: int)
    ensures -1 <= i < |s| && (i >= 0 ==> s[i] == c)
  {
    if s == "" then -1 else if s[|s| - 1] == c then |s| - 1 else LastIndex(s[..|s| - 1], c)
  }

  lemma {:induction false} LastIndexAbsent(s: string, c: char)
    requires c !in s
    ensures LastIndex(s, c) == -1
  {
    if s == "" {
    } else {
      LastIndexAbsent(s[..|s| - 1], c);
    }
  }

  lemma {:induction false} LastIndexOf(a: string, b: string, c: char)
    requires c !in b
    ensures LastIndex(a + [c] + b, c) == |a|
  {
    var s := a + [c] + b;
    if b != "" {
      LastIndexOf(a, b[..|b| - 1], c);
      assert s[..|s| - 1] == a + [c] + b[..|b| - 1];
      assert b[|b| - 1] in b;
    }
  }

  // The runes that separate words: Unicode's White_Space property.
  predicate IsSpace(c: char) {
    || '\t' <= c <= '\r' || c == ' ' || c == '\U{85}' || c == '\U{A0}' || c == '\U{1680}'
    || '\U{2000}' <= c <= '\U{200A}' || c == '\U{2028}' || c == '\U{2029}'
    || c == '\U{202F}' || c == '\U{205F}' || c == '\U{3000}'
  }
}
