// References to cloud snapshots (internal/snapshot/destination.go): printing a pod
// reference, parsing one, and which commands accept a version.
module PodReference {
  import opened Sequences
  import opened Decimal

  // ----- Pod names (internal/validate) -----

  datatype Rule = Empty | ControlChars | Encoding | Embedded | Metachars | Range | Format

  const SHELL_META_CHARS := ";&|$`<>(){}[]!*'~\\\""

  predicate IsNameChar(c: char) {
    'a' <= c <= 'z' || 'A' <= c <= 'Z' || '0' <= c <= '9' || c == '_' || c == '-'
  }

  predicate IsControl(c: char) {
    c < ' ' || '\U{7F}' <= c <= '\U{9F}'
  }

  predicate ContainsAny(s: string, chars: string) {
    exists i :: 0 <= i < |s| && s[i] in chars
  }

  predicate ContainsControlChars(s: string) {
    exists i :: 0 <= i < |s| && s[i] != '\t' && s[i] != '\n' && s[i] != '\r' && IsControl(s[i])
  }

  predicate MatchesName(s: string) {
    s != "" && forall i :: 0 <= i < |s| ==> IsNameChar(s[i])
  }

  // The first rule that a pod name breaks: ordered refusals, then the allow-list.
  function PodName(value: string): Option<Rule> {
    if value == "" then Some(Empty)
    else if ContainsControlChars(value) then Some(ControlChars)
    else if '%' in value then Some(Encoding)
    else if ContainsAny(value, "/?#") then Some(Embedded)
    else if ContainsAny(value, SHELL_META_CHARS) then Some(Metachars)
    else if |value| > 128 then Some(Range)
    else if !MatchesName(value) then Some(Format)
    else None
  }

  predicate ValidName(value: string) {
    PodName(value) == None
  }

  lemma NameCharsAreHarmless(c: char)
    requires IsNameChar(c)
    ensures !IsControl(c) && c != '%' && c !in "/?#" && c !in SHELL_META_CHARS && c != ':'
  {
  }

  // The refusals only refine the message: the allow-list and the length decide.
  lemma AllowListDecides(value: string)
    ensures ValidName(value) <==> MatchesName(value) && |value| <= 128
  {
    if MatchesName(value) {
      forall i | 0 <= i < |value|
        ensures !IsControl(value[i]) && value[i] != '%' && value[i] !in "/?#" && value[i] !in SHELL_META_CHARS
      {
        NameCharsAreHarmless(value[i]);
      }
    }
  }

  // ----- Printing and splitting -----

  const PREFIX := "pod:"
  const VERSION_LIMIT: nat := 0x8000_0000

  function PodRef(name: string, version: int): string {
    if version <= 0 then PREFIX + name else PREFIX + name + ":" + Itoa(version)
  }

  datatype Kind = Pod | S3

  datatype Destination = Destination(kind: Kind, value: string, version: nat)

  datatype Refusal =
    | BadVersion
    | BadName(rule: Rule)
    | VersionNotSupported
    | PodScheme        // "pod://"
    | EmptyRef
    | RemoteNotSupported
    | UnknownScheme
    | LocalFile        // a path where only cloud references are accepted

  // LocalPath and S3Url leave the parse to the file system and to the URL parser.
  datatype Parsed = Ok(dest: Destination) | Refused(why: Refusal) | LocalPath | S3Url

  datatype Split = Named(name: string, version: nat) | Unsplit

  function SplitPodRef(raw: string): Split {
    var i := LastIndex(raw, ':');
    if i < 0 then Named(raw, 0)
    else
      var v := ParseUint(raw[i + 1..], VERSION_LIMIT);
      if v == None || v.value == 0 then Unsplit else Named(raw[..i], v.value)
  }

  // ref includes the prefix, in whatever case.
  function ParsePodRef(ref: string, allowVersion: bool): Parsed
    requires |ref| >= |PREFIX|
  {
    match SplitPodRef(ref[|PREFIX|..])
    case Unsplit => Refused(BadVersion)
    case Named(name, version) =>
      if PodName(name).Some? then Refused(BadName(PodName(name).value))
      else if version != 0 && !allowVersion then Refused(VersionNotSupported)
      else Ok(Destination(Pod, name, version))
  }

  predicate HasScheme(s: string) {
    s != "" && ("://" <= s || HasScheme(s[1..]))
  }

  // What both ParseSource and ParseDestination do with a reference that is not empty.
  function ParseRef(ref: string, allowVersion: bool): Parsed {
    var lower := ToLower(ref);
    if "pod://" <= lower then Refused(PodScheme)
    else if PREFIX <= lower then ParsePodRef(ref, allowVersion)
    else if "s3://" <= lower then S3Url
    else if "oras://" <= lower then Refused(RemoteNotSupported)
    else if HasScheme(lower) then Refused(UnknownScheme)
    else LocalPath
  }

  function ParseSource(ref: string): Parsed {
    if ref == "" then Refused(EmptyRef) else ParseRef(ref, true)
  }

  // An empty destination gets a generated local name.
  function ParseDestination(dest: string): Parsed {
    if dest == "" then LocalPath else ParseRef(dest, false)
  }

  function ParseCloudOnly(ref: string, allowVersion: bool): Parsed {
    var lower := ToLower(ref);
    if !(PREFIX <= lower) && !HasScheme(lower) then Refused(LocalFile)
    else match ParseSource(ref)
      case Ok(dest) => if dest.version != 0 && !allowVersion then Refused(VersionNotSupported) else Ok(dest)
      case S3Url => Refused(RemoteNotSupported)
      case other => other
  }

  function ParseRemovable(ref: string): Parsed {
    ParseCloudOnly(ref, false)
  }

  function ParseShowable(ref: string): Parsed {
    ParseCloudOnly(ref, true)
  }

  // ----- Round trips -----

  lemma LowerOfPrefix(rest: string)
    requires rest == "" || rest[0] != '/'
    ensures PREFIX <= ToLower(PREFIX + rest) && !("pod://" <= ToLower(PREFIX + rest))
  {
    var lower := ToLower(PREFIX + rest);
    assert lower[0] == 'p' && lower[1] == 'o' && lower[2] == 'd' && lower[3] == ':';
    assert lower[..4] == PREFIX;
    assert rest != "" ==> lower[4] != '/';
    assert "pod://"[4] == '/';
  }

  lemma NamesHaveNoColon(name: string)
    requires ValidName(name)
    ensures ':' !in name && name != "" && name[0] != '/'
  {
    AllowListDecides(name);
    assert IsNameChar(name[0]);
  }

  lemma SplitPinned(name: string, version: nat)
    requires ':' !in name && 0 < version < VERSION_LIMIT
    ensures SplitPodRef(name + [':'] + Itoa(version)) == Named(name, version)
  {
    var digits := Itoa(version);
    var raw := name + [':'] + digits;
    LastIndexOf(name, digits, ':');
    assert raw[|name| + 1..] == digits && raw[..|name|] == name;
    ValueOfItoa(version);
  }

  lemma SplitPrinted(name: string, version: nat)
    requires ValidName(name) && version < VERSION_LIMIT
    ensures SplitPodRef(PodRef(name, version)[|PREFIX|..]) == Named(name, version)
  {
    NamesHaveNoColon(name);
    PodRefIsPrefixed(name, version);
    PrefixDrops(Printed(name, version));
    if version == 0 {
      LastIndexAbsent(name, ':');
    } else {
      SplitPinned(name, version);
    }
  }

  lemma PrefixDrops(rest: string)
    ensures (PREFIX + rest)[|PREFIX|..] == rest
  {
  }

  lemma ParsePrefixed(rest: string, allowVersion: bool)
    requires rest == "" || rest[0] != '/'
    ensures ParseRef(PREFIX + rest, allowVersion) == ParsePodRef(PREFIX + rest, allowVersion)
  {
    LowerOfPrefix(rest);
  }

  lemma ParsePrinted(name: string, version: nat, allowVersion: bool)
    requires ValidName(name) && version < VERSION_LIMIT
    ensures ParseRef(PodRef(name, version), allowVersion)
         == if version == 0 || allowVersion then Ok(Destination(Pod, name, version)) else Refused(VersionNotSupported)
  {
    SplitPrinted(name, version);
    PrintedStartsPlain(name, version);
    PodRefIsPrefixed(name, version);
    ParsePrefixed(Printed(name, version), allowVersion);
    ParseSplit(PodRef(name, version), allowVersion, name, version);
  }

  // A reference without its prefix.
  function Printed(name: string, version: nat): string {
    if version == 0 then name else name + ":" + Itoa(version)
  }

  lemma PodRefIsPrefixed(name: string, version: nat)
    ensures PodRef(name, version) == PREFIX + Printed(name, version)
  {
  }

  lemma PrintedStartsPlain(name: string, version: nat)
    requires ValidName(name)
    ensures Printed(name, version) != "" && Printed(name, version)[0] != '/'
  {
    NamesHaveNoColon(name);
  }

  lemma ParseSplit(ref: string, allowVersion: bool, name: string, version: nat)
    requires |ref| >= |PREFIX| && SplitPodRef(ref[|PREFIX|..]) == Named(name, version) && ValidName(name)
    ensures ParsePodRef(ref, allowVersion)
         == if version == 0 || allowVersion then Ok(Destination(Pod, name, version)) else Refused(VersionNotSupported)
  {
  }

  // Parsing a printed reference gives the name and the version back; where no version is
  // allowed, a pinned reference is refused.
  lemma RefRoundTrip(name: string, version: nat)
    requires ValidName(name) && version < VERSION_LIMIT
    ensures ParseSource(PodRef(name, version)) == Ok(Destination(Pod, name, version))
    ensures ParseDestination(PodRef(name, version))
         == if version == 0 then Ok(Destination(Pod, name, 0)) else Refused(VersionNotSupported)
  {
    ParsePrinted(name, version, true);
    ParsePrinted(name, version, false);
    assert PodRef(name, version) != "";
  }

  // What an accepted reference can denote.
  lemma AcceptedRefs(ref: string, allowVersion: bool)
    requires ParseRef(ref, allowVersion).Ok?
    ensures var d := ParseRef(ref, allowVersion).dest;
      d.kind == Pod && ValidName(d.value) && d.version < VERSION_LIMIT && (d.version == 0 || allowVersion)
    ensures |ref| >= |PREFIX| && PREFIX <= ToLower(ref)
    ensures SplitPodRef(ref[|PREFIX|..]) ==
      Named(ParseRef(ref, allowVersion).dest.value, ParseRef(ref, allowVersion).dest.version)
  {
  }

  // Printing what an accepted reference denotes gives a reference that parses to the same.
  lemma ReprintedRefParses(ref: string)
    requires ParseSource(ref).Ok?
    ensures var d := ParseSource(ref).dest; ParseSource(PodRef(d.value, d.version)) == Ok(d)
  {
    AcceptedRefs(ref, true);
    var d := ParseSource(ref).dest;
    RefRoundTrip(d.value, d.version);
  }

  // The version of a reference, if it has one, is written without a leading zero.
  predicate PlainVersion(raw: string) {
    var i := LastIndex(raw, ':');
    i >= 0 && i + 1 < |raw| ==> raw[i + 1] != '0'
  }

  lemma PrintedAgain(raw: string, name: string, version: nat)
    requires SplitPodRef(raw) == Named(name, version)
    ensures Printed(name, version) == raw <==> PlainVersion(raw)
  {
    var i := LastIndex(raw, ':');
    if i >= 0 {
      var digits := raw[i + 1..];
      assert raw == (name + ":") + digits;
      PrintedVersion(digits);
      if Printed(name, version) == raw {
        SameTail(name + ":", Itoa(version), digits);
      }
    }
  }

  // An accepted reference is already in the printed form exactly when its prefix is in
  // lower case and its version has no leading zero.
  lemma CanonicalRefs(ref: string)
    requires ParseSource(ref).Ok?
    ensures |ref| >= |PREFIX|
    ensures var d := ParseSource(ref).dest;
      PodRef(d.value, d.version) == ref <==> PREFIX <= ref && PlainVersion(ref[|PREFIX|..])
  {
    AcceptedRefs(ref, true);
    var d, raw := ParseSource(ref).dest, ref[|PREFIX|..];
    PrintedAgain(raw, d.value, d.version);
    PodRefIsPrefixed(d.value, d.version);
    SamePrefix(ref, raw, Printed(d.value, d.version));
  }

  lemma SamePrefix(ref: string, raw: string, printed: string)
    requires |ref| >= |PREFIX| && raw == ref[|PREFIX|..]
    ensures PREFIX + printed == ref <==> PREFIX <= ref && printed == raw
  {
    if PREFIX + printed == ref {
      assert printed == (PREFIX + printed)[|PREFIX|..];
    }
    if PREFIX <= ref {
      assert ref == PREFIX + raw;
    }
  }

  lemma SameTail(a: string, b: string, c: string)
    requires a + b == a + c
    ensures b == c
  {
    assert b == (a + b)[|a|..];
    assert c == (a + c)[|a|..];
  }

  lemma PrintedVersion(digits: string)
    requires digits != "" && AllDigits(digits) && Value(digits) > 0
    ensures Itoa(Value(digits)) == digits <==> digits[0] != '0'
  {
    if digits[0] != '0' {
      ItoaOfValue(digits);
    } else {
      NoLeadingZero(Value(digits));
    }
  }

  lemma {:induction false} NoLeadingZero(n: nat)
    requires n > 0
    ensures Itoa(n)[0] != '0'
  {
    if n >= 10 {
      NoLeadingZero(n / 10);
    }
  }

  // Commands that cannot honour a version accept exactly the references that the others
  // read as naming no version, and refuse the pinned ones rather than widen them.
  lemma VersionsAreNeverDropped(ref: string)
    ensures ParseShowable(ref).Ok? ==> ParseShowable(ref) == ParseSource(ref)
    ensures ParseRemovable(ref).Ok? <==> ParseShowable(ref).Ok? && ParseShowable(ref).dest.version == 0
    ensures ParseRemovable(ref).Ok? ==> ParseRemovable(ref) == ParseShowable(ref)
    ensures ParseShowable(ref).Ok? && ParseShowable(ref).dest.version != 0 ==>
      ParseRemovable(ref) == Refused(VersionNotSupported) == ParseDestination(ref)
  {
  }

  // ----- What each reference is taken for -----

  ghost predicate Contains(s: string, t: string) {
    exists i :: Occurs(s, t, i)
  }

  predicate Occurs(s: string, t: string, i: int) {
    0 <= i <= |s| - |t| && s[i..i + |t|] == t
  }

  lemma OccursLater(s: string, t: string, i: nat)
    requires s != ""
    ensures Occurs(s[1..], t, i) <==> Occurs(s, t, i + 1)
    ensures Occurs(s, t, 0) <==> t <= s
  {
    if i + 1 <= |s| - |t| {
      assert s[1..][i..i + |t|] == s[i + 1..i + 1 + |t|];
    }
    if |t| <= |s| {
      assert s[0..0 + |t|] == s[..|t|];
    }
  }

  lemma {:induction false} SchemeIsContained(s: string)
    ensures HasScheme(s) <==> Contains(s, "://")
  {
    if s == "" {
    } else {
      SchemeIsContained(s[1..]);
      OccursLater(s, "://", 0);
      if i :| Occurs(s[1..], "://", i) {
        OccursLater(s, "://", i);
      }
      if i :| Occurs(s, "://", i) {
        if i > 0 {
          OccursLater(s, "://", i - 1);
        }
      }
    }
  }

  lemma SchemesDiffer(s: string)
    ensures !("pod:" <= s && "s3://" <= s) && !("pod:" <= s && "oras://" <= s) && !("s3://" <= s && "oras://" <= s)
    ensures "pod://" <= s ==> "pod:" <= s
  {
    assert "pod:"[0] == 'p' && "s3://"[0] == 's' && "oras://"[0] == 'o';
    if "pod://" <= s {
      assert s[..4] == "pod://"[..4] == "pod:";
    }
  }

  // Whatever its case, the beginning of a reference says what it is; without one it knows,
  // it is a local path unless it has a scheme.
  lemma RefsAreClassified(ref: string, allowVersion: bool)
    ensures var lower := ToLower(ref);
      && (ParseRef(ref, allowVersion) == Refused(PodScheme) <==> "pod://" <= lower)
      && (ParseRef(ref, allowVersion) == S3Url <==> "s3://" <= lower)
      && (ParseRef(ref, allowVersion) == Refused(RemoteNotSupported) <==> "oras://" <= lower)
      && (ParseRef(ref, allowVersion) == LocalPath <==> !("pod:" <= lower) && !Contains(lower, "://"))
      && (ParseRef(ref, allowVersion) == Refused(UnknownScheme) <==>
            !("pod:" <= lower) && !("s3://" <= lower) && !("oras://" <= lower) && Contains(lower, "://"))
  {
    var lower := ToLower(ref);
    SchemesDiffer(lower);
    SchemeIsContained(lower);
    RemotesHaveScheme(lower);
    if "pod:" <= lower {
      PodRefIsNothingElse(ref, allowVersion);
      if "pod://" <= lower {
        assert ParseRef(ref, allowVersion) == Refused(PodScheme);
      } else {
        assert ParseRef(ref, allowVersion) == ParsePodRef(ref, allowVersion);
      }
    }
  }

  lemma PodRefIsNothingElse(ref: string, allowVersion: bool)
    requires |ref| >= 4
    ensures var r := ParsePodRef(ref, allowVersion);
      r.Ok? || r == Refused(BadVersion) || (r.Refused? && r.why.BadName?) || r == Refused(VersionNotSupported)
  {
  }

  lemma RemotesHaveScheme(s: string)
    ensures "s3://" <= s || "oras://" <= s ==> Contains(s, "://")
  {
    if "s3://" <= s {
      assert s[2..5] == "s3://"[2..5] == "://";
      assert Occurs(s, "://", 2);
    }
    if "oras://" <= s {
      assert s[4..7] == "oras://"[4..7] == "://";
      assert Occurs(s, "://", 4);
    }
  }

  // How a pod and its version are written.
  predicate Writes(raw: string, name: string, version: nat) {
    if version == 0 then raw == name && ':' !in name
    else |raw| > |name| && raw[..|name| + 1] == name + ":" && IsVersion(raw[|name| + 1..], version)
  }

  predicate IsVersion(digits: string, version: nat) {
    digits != "" && AllDigits(digits) && Value(digits) == version < 0x8000_0000
  }

  lemma SplitIsWritten(raw: string, name: string, version: nat)
    requires ':' !in name
    ensures SplitPodRef(raw) == Named(name, version) <==> Writes(raw, name, version)
  {
    var i := LastIndex(raw, ':');
    if version == 0 {
      if raw == name {
        LastIndexAbsent(name, ':');
      }
    } else if Writes(raw, name, version) {
      var digits := raw[|name| + 1..];
      DigitsArePlain(digits);
      assert raw == name + [':'] + digits;
      LastIndexOf(name, digits, ':');
      assert raw[..|name|] == name;
    }
  }

  // A pod is denoted exactly by its valid name after the prefix, in whatever case, with no
  // version or with a positive one below 2^31 where one is allowed.
  lemma PodIsAccepted(ref: string, allowVersion: bool, name: string, version: nat)
    ensures ParseRef(ref, allowVersion) == Ok(Destination(Pod, name, version)) <==>
      && |ref| >= 4 && ToLower(ref)[..4] == "pod:" && Writes(ref[4..], name, version)
      && MatchesName(name) && |name| <= 128 && (version == 0 || allowVersion)
  {
    AllowListDecides(name);
    if MatchesName(name) && |name| <= 128 {
      NamesHaveNoColon(name);
      if |ref| >= 4 && ToLower(ref)[..4] == "pod:" {
        SplitIsWritten(ref[4..], name, version);
        if Writes(ref[4..], name, version) {
          assert ref[4] == name[0] != '/';
          assert "pod://"[4] == '/';
        }
      }
    }
  }

  // The cloud-only commands tell a local file, and no scheme but a pod's is enough for them.
  lemma OnlyPodsAreCloud(ref: string, allowVersion: bool)
    ensures var lower := ToLower(ref);
      && (ParseCloudOnly(ref, allowVersion) == Refused(LocalFile) <==>
            !("pod:" <= lower) && !Contains(lower, "://"))
      && ParseCloudOnly(ref, allowVersion) != LocalPath && ParseCloudOnly(ref, allowVersion) != S3Url
      && (ParseCloudOnly(ref, allowVersion) == Refused(RemoteNotSupported) <==>
            "s3://" <= lower || "oras://" <= lower)
  {
    var lower := ToLower(ref);
    RefsAreClassified(ref, true);
    SchemesDiffer(lower);
    SchemeIsContained(lower);
    assert ref == "" ==> lower == "";
  }

  // ----- Which rule a bad name is told -----

  predicate Breaks(value: string, rule: Rule) {
    match rule
    case Empty => value == ""
    case ControlChars =>
      exists i :: 0 <= i < |value| && value[i] !in "\t\n\r" && (value[i] < ' ' || '\U{7F}' <= value[i] <= '\U{9F}')
    case Encoding => '%' in value
    case Embedded => '/' in value || '?' in value || '#' in value
    case Metachars => ContainsAny(value, SHELL_META_CHARS)
    case Range => |value| > 128
    case Format => !MatchesName(value)
  }

  function Rank(rule: Rule): nat {
    match rule
    case Empty => 0
    case ControlChars => 1
    case Encoding => 2
    case Embedded => 3
    case Metachars => 4
    case Range => 5
    case Format => 6
  }

  // A bad name is told the first rule that it breaks.
  lemma FirstRuleIsTold(value: string, rule: Rule)
    ensures PodName(value) == Some(rule) <==>
      Breaks(value, rule) && forall r :: Rank(r) < Rank(rule) ==> !Breaks(value, r)
  {
    EmbeddedChars(value);
    assert Rank(Empty) == 0 && Rank(ControlChars) == 1 && Rank(Encoding) == 2 && Rank(Embedded) == 3;
    assert Rank(Metachars) == 4 && Rank(Range) == 5 && Rank(Format) == 6;
  }

  lemma EmbeddedChars(value: string)
    ensures ContainsAny(value, "/?#") <==> '/' in value || '?' in value || '#' in value
  {
    if c :| c in value && (c == '/' || c == '?' || c == '#') {
      var i :| 0 <= i < |value| && value[i] == c;
      assert value[i] in "/?#";
    }
  }
}
