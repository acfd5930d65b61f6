// The license protocol of a start (internal/container/start.go): the pre-flight checks,
// the cached license file and its mount, and the one retry after a license failure. The
// license server, the file system and the daemon answer as they like; each call asks at
// its own point in time.
module LicenseRetry {
  import opened Sequences

  // ----- Containers and mounts -----

  datatype Bind = Bind(hostPath: string, containerPath: string, readOnly: bool)

  const LICENSE_MOUNT_PATH := "/etc/localstack/conf.d/license.json"

  function LicenseBind(file: string): Bind {
    Bind(file, LICENSE_MOUNT_PATH, true)
  }

  datatype Container = Container(tag: string, selfValidates: bool, binds: seq<Bind>) {
    function Mount(file: string): Container {
      this.(binds := binds + [LicenseBind(file)])
    }

    function Strip(): Container {
      this.(binds := WithoutLicense(binds))
    }

    // Pinned tags are checked before the pull, floating ones after it.
    predicate Pinned() {
      tag != "" && tag != "latest"
    }
  }

  // The binds that are not on the license path, in order.
  function WithoutLicense(binds: seq<Bind>): seq<Bind> {
    if binds == [] then [] else
    var rest := WithoutLicense(binds[..|binds| - 1]);
    var b := binds[|binds| - 1];
    if b.containerPath == LICENSE_MOUNT_PATH then rest else rest + [b]
  }

  function OnLicensePath(binds: seq<Bind>): nat {
    if binds == [] then 0 else
    OnLicensePath(binds[..|binds| - 1]) + if binds[|binds| - 1].containerPath == LICENSE_MOUNT_PATH then 1 else 0
  }

  lemma {:induction false} WithoutLicenseIs(binds: seq<Bind>)
    ensures OnLicensePath(WithoutLicense(binds)) == 0
    ensures |WithoutLicense(binds)| == |binds| - OnLicensePath(binds)
    ensures OnLicensePath(binds) == 0 ==> WithoutLicense(binds) == binds
  {
    if binds == [] {
    } else {
      var init, b := binds[..|binds| - 1], binds[|binds| - 1];
      WithoutLicenseIs(init);
      assert (WithoutLicense(init) + [b])[..|WithoutLicense(init)|] == WithoutLicense(init);
      assert binds == init + [b];
    }
  }

  // Mounting and stripping again gives the container back exactly if the user mounts
  // nothing on the license path; stripping never leaves a mount there.
  lemma StripUndoesMount(c: Container, file: string)
    ensures c.Mount(file).Strip() == c.Strip()
    ensures OnLicensePath(c.Strip().binds) == 0
    ensures c.Mount(file).Strip() == c <==> OnLicensePath(c.binds) == 0
  {
    var mounted := c.binds + [LicenseBind(file)];
    assert mounted[..|mounted| - 1] == c.binds;
    WithoutLicenseIs(c.binds);
  }

  function MountAll(cs: seq<Container>, file: string): seq<Container> {
    seq(|cs|, i requires 0 <= i < |cs| => cs[i].Mount(file))
  }

  function StripAll(cs: seq<Container>): seq<Container> {
    seq(|cs|, i requires 0 <= i < |cs| => cs[i].Strip())
  }

  // The containers as the next pass sees them.
  function Prepared(cs: seq<Container>, file: string, cached: Option<Content>): seq<Container> {
    if cached.Some? then MountAll(cs, file) else cs
  }

  // ----- The cached license file -----

  // Where the file's content comes from: an earlier run, or a response of this one
  // (all of it, or what a failed write left).
  datatype Content = Earlier | Fetched(complete: bool)

  datatype Write = NotOpened | Partial | Complete

  datatype Change = Drop(succeeded: bool) | Store(write: Write)

  function Apply(cache: Option<Content>, c: Change): Option<Content> {
    match c
    case Drop(succeeded) => if succeeded then None else cache
    case Store(NotOpened) => cache
    case Store(Partial) => Some(Fetched(false))
    case Store(Complete) => Some(Fetched(true))
  }

  function CacheAfter(cache: Option<Content>, changes: seq<Change>): Option<Content> {
    if changes == [] then cache
    else Apply(CacheAfter(cache, changes[..|changes| - 1]), changes[|changes| - 1])
  }

  lemma CacheAfterOne(cache: Option<Content>, changes: seq<Change>, c: Change)
    ensures CacheAfter(cache, changes + [c]) == Apply(CacheAfter(cache, changes), c)
  {
    assert (changes + [c])[..|changes|] == changes;
  }

  predicate WithoutEffect(c: Change) {
    c == Drop(false) || c == Store(NotOpened)
  }

  predicate AllWithoutEffect(changes: seq<Change>) {
    forall c :: c in changes ==> WithoutEffect(c)
  }

  // The license of an earlier run is still there exactly if nothing done since had any
  // effect: one successful removal or one write that got as far as opening the file,
  // and it is gone for good.
  lemma {:induction false} StaleIffNothingWorked(cache: Option<Content>, changes: seq<Change>)
    ensures CacheAfter(cache, changes) == Some(Earlier) <==> cache == Some(Earlier) && AllWithoutEffect(changes)
  {
    if changes == [] {
    } else {
      var init, last := changes[..|changes| - 1], changes[|changes| - 1];
      StaleIffNothingWorked(cache, init);
      assert AllWithoutEffect(changes) <==> AllWithoutEffect(init) && WithoutEffect(last) by {
        assert changes == init + [last];
      }
      assert Apply(CacheAfter(cache, init), last) == Some(Earlier)
        <==> CacheAfter(cache, init) == Some(Earlier) && WithoutEffect(last);
    }
  }

  // The last change that had an effect decides what is cached.
  lemma {:induction false} LastChangeCounts(cache: Option<Content>, changes: seq<Change>, k: nat)
    requires k < |changes| && !WithoutEffect(changes[k]) && AllWithoutEffect(changes[k + 1..])
    ensures CacheAfter(cache, changes) ==
            match changes[k] {
              case Drop(_) => None
              case Store(write) => Some(Fetched(write == Complete))
            }
    decreases |changes|
  {
    if k < |changes| - 1 {
      var init, last := changes[..|changes| - 1], changes[|changes| - 1];
      assert changes[k + 1..] == init[k + 1..] + [last] && last in changes[k + 1..];
      LastChangeCounts(cache, init, k);
    }
  }

  lemma {:induction false} FetchedNeedsStore(cache: Option<Content>, changes: seq<Change>)
    requires cache != Some(Fetched(true)) && CacheAfter(cache, changes) == Some(Fetched(true))
    ensures Store(Complete) in changes
  {
    var init, last := changes[..|changes| - 1], changes[|changes| - 1];
    assert changes == init + [last];
    if last != Store(Complete) {
      FetchedNeedsStore(cache, init);
    }
  }

  // ----- What the others answer -----

  datatype LicenseReply =
    | Granted(bytes: nat)
    | Unreachable
    | Refused(unsupportedTag: bool, status: int)
  {
    // A verdict on the license itself, as opposed to an outage or an unknown tag.
    predicate Definitive() {
      Refused? && !unsupportedTag && (status == 400 || status == 401 || status == 403)
    }
  }

  // How a container's start went.
  datatype Outcome =
    | Ready
    | NotStarted
    | Interrupted
    | TimedOut
    | Exited(licenseLogs: bool, notCoveredLogs: bool)

  datatype Answers = Answers(
    license: nat -> LicenseReply,
    cancelled: nat -> bool,                 // the caller's context
    write: nat -> Write,
    removal: nat -> bool,
    imageExists: nat -> Option<bool>,       // None: the probe fails
    imageVersion: nat -> Option<string>,
    pulled: nat -> bool,
    outcome: nat -> Outcome)

  datatype Failure =
    | Cancelled
    | Rejected
    | NoVersion
    | PullFailed
    | CouldNotStart
    | Reported(outcome: Outcome)
    | LicenseStartup

  datatype Result<T> = Ok(value: T) | Err(error: Failure)

  // ----- One pass over the containers -----

  datatype Started = Started(container: Container, outcome: Outcome)

  datatype Pass = Pass(starts: seq<Started>, cached: Option<Content>, candidate: bool)

  // An exit with license output that is not the dedicated "not covered" case.
  predicate LicenseExit(s: Started) {
    && s.outcome.Exited? && s.outcome.licenseLogs
    && !(s.container.selfValidates && s.outcome.notCoveredLogs)
  }

  function ResultOf(s: Started, candidate: bool): Result<()> {
    match s.outcome
    case Ready => Ok(())
    case NotStarted => Err(CouldNotStart)
    case Interrupted => Err(Cancelled)
    case _ => if candidate && LicenseExit(s) then Err(LicenseStartup) else Err(Reported(s.outcome))
  }

  function Verdict(p: Pass): Result<()> {
    if p.starts == [] then Ok(()) else ResultOf(p.starts[|p.starts| - 1], p.candidate)
  }

  // Containers are started in order; the first that is not ready ends the pass.
  ghost predicate WellRun(p: Pass, cs: seq<Container>) {
    && |p.starts| <= |cs|
    && (forall i :: 0 <= i < |p.starts| ==> p.starts[i].container == cs[i])
    && (forall i :: 0 <= i < |p.starts| - 1 ==> p.starts[i].outcome == Ready)
    && (Verdict(p).Ok? ==> |p.starts| == |cs|)
  }

  // The retry is asked for exactly when it may help: in a candidate pass whose last
  // container exited with license output, and not because the license does not cover it.
  lemma StartupIsCandidateExit(p: Pass)
    ensures Verdict(p) == Err(LicenseStartup) <==>
            p.candidate && p.starts != [] &&
            match p.starts[|p.starts| - 1]
            case Started(c, Exited(licenseLogs, notCovered)) => licenseLogs && (c.selfValidates ==> !notCovered)
            case _ => false
  {
  }

  // What the outcome of a container is reported as; a pass is fine exactly when each of
  // its containers became ready.
  lemma VerdictsTell(p: Pass, cs: seq<Container>)
    requires WellRun(p, cs)
    ensures Verdict(p).Ok? <==> |p.starts| == |cs| && forall i :: 0 <= i < |cs| ==> p.starts[i].outcome == Ready
    ensures Verdict(p).Err? ==>
      p.starts != [] &&
      var last := p.starts[|p.starts| - 1].outcome;
      && (Verdict(p) == Err(CouldNotStart) <==> last == NotStarted)
      && (Verdict(p) == Err(Cancelled) <==> last == Interrupted)
      && (Verdict(p) == Err(Reported(last)) <==> (last.TimedOut? || last.Exited?) && Verdict(p) != Err(LicenseStartup))
  {
    if Verdict(p).Ok? && p.starts != [] {
      assert p.starts[|p.starts| - 1].outcome == Ready;
    }
  }

  // ----- The checks, answer by answer -----

  // A license request: when it was made, and for which version.
  datatype Request = Request(at: nat, version: string)

  // What a run of checks comes to: why it ended the start, if it did; what it did to the
  // cache; what it asked the license server; the first version it found; and when it was
  // over.
  datatype Step = Step(error: Option<Failure>, changes: seq<Change>, requests: seq<Request>, version: string,
                       now: nat)
  {
    // One after the other, unless the first ended the start.
    function Then(next: Step): Step {
      if error.Some? then this
      else Step(next.error, changes + next.changes, requests + next.requests,
                if version == "" then next.version else version, next.now)
    }

    predicate Stored() {
      Store(Complete) in changes
    }
  }

  // What a check reports: the failure, or whether it rewrote the cache.
  function ReportOf(s: Step): Result<bool> {
    match s.error
    case Some(f) => Err(f)
    case None => Ok(s.Stored())
  }

  function Nothing(at: nat): Step {
    Step(None, [], [], "", at)
  }

  // What one license request makes of the cache.
  function LicenseChanges(a: Answers, at: nat): seq<Change> {
    match a.license(at)
    case Granted(bytes) => if bytes > 0 then [Store(a.write(at))] else []
    case _ => if a.license(at).Definitive() && !a.cancelled(at) then [Drop(a.removal(at))] else []
  }

  // Only a cancellation or a verdict on the license ends the start.
  function LicenseError(a: Answers, at: nat): Option<Failure> {
    if a.license(at).Granted? then None
    else if a.cancelled(at) then Some(Cancelled)
    else if a.license(at).Definitive() then Some(Rejected)
    else None
  }

  function LicenseStep(a: Answers, version: string, at: nat): Step {
    Step(LicenseError(a, at), LicenseChanges(a, at), [Request(at, version)], "", at + 1)
  }

  // A pinned container whose image is already there needs no check, unless forced.
  function PinnedStep(a: Answers, tag: string, force: bool, at: nat): Step {
    if force then LicenseStep(a, tag, at)
    else if a.imageExists(at) == Some(true) then Nothing(at + 1)
    else LicenseStep(a, tag, at + 1)
  }

  // A container whose version only the pulled image tells.
  function ImageStep(a: Answers, at: nat): Step {
    match a.imageVersion(at)
    case None => Step(Some(NoVersion), [], [], "", at + 1)
    case Some(v) => LicenseStep(a, v, at + 1).(version := v)
  }

  // Before the pull: the pinned containers in order, up to the first failure.
  function PrePull(a: Answers, cs: seq<Container>, force: bool, at: nat): Step {
    if cs == [] then Nothing(at) else
    var before, c := PrePull(a, cs[..|cs| - 1], force, at), cs[|cs| - 1];
    if c.selfValidates || !c.Pinned() then before else before.Then(PinnedStep(a, c.tag, force, before.now))
  }

  // After the pull: the containers left for it.
  function PostPull(a: Answers, cs: seq<Container>, at: nat): Step {
    if cs == [] then Nothing(at) else
    var before, c := PostPull(a, cs[..|cs| - 1], at), cs[|cs| - 1];
    if c.selfValidates then before else before.Then(ImageStep(a, before.now))
  }

  // The containers whose license is checked after the pull.
  function Floating(cs: seq<Container>): seq<Container> {
    if cs == [] then [] else
    var rest, c := Floating(cs[..|cs| - 1]), cs[|cs| - 1];
    if c.selfValidates || c.Pinned() then rest else rest + [c]
  }

  // The pull, and the checks after it.
  function PulledStep(a: Answers, left: seq<Container>, at: nat): Step {
    if a.pulled(at) then PostPull(a, left, at + 1) else Nothing(at + 1).(error := Some(PullFailed))
  }

  function PreflightStep(a: Answers, cs: seq<Container>, force: bool, at: nat): Step {
    var pre := PrePull(a, cs, force, at);
    pre.Then(PulledStep(a, Floating(cs), pre.now))
  }

  // Every container that does not check its own license is checked.
  function CheckAllStep(a: Answers, cs: seq<Container>, at: nat): Step {
    var pre := PrePull(a, cs, true, at);
    pre.Then(PostPull(a, Floating(cs), pre.now))
  }

  // The cached license is dropped first.
  function RevalidationStep(a: Answers, cs: seq<Container>, at: nat): Step {
    var all := CheckAllStep(a, cs, at + 1);
    all.(changes := [Drop(a.removal(at))] + all.changes)
  }

  lemma NextCheck(a: Answers, cs: seq<Container>, c: Container, force: bool, at: nat)
    ensures PrePull(a, cs + [c], force, at) ==
      if c.selfValidates || !c.Pinned() then PrePull(a, cs, force, at)
      else PrePull(a, cs, force, at).Then(PinnedStep(a, c.tag, force, PrePull(a, cs, force, at).now))
    ensures PostPull(a, cs + [c], at) ==
      if c.selfValidates then PostPull(a, cs, at) else PostPull(a, cs, at).Then(ImageStep(a, PostPull(a, cs, at).now))
    ensures Floating(cs + [c]) == if c.selfValidates || c.Pinned() then Floating(cs) else Floating(cs) + [c]
  {
    assert (cs + [c])[..|cs|] == cs;
  }

  // The first failure is the last thing that happens.
  lemma {:induction false} FailureEndsPrePull(a: Answers, cs: seq<Container>, force: bool, at: nat, k: nat)
    requires k <= |cs| && PrePull(a, cs[..k], force, at).error.Some?
    ensures PrePull(a, cs, force, at) == PrePull(a, cs[..k], force, at)
  {
    if k == |cs| {
      assert cs[..k] == cs;
    } else {
      assert cs[..|cs| - 1][..k] == cs[..k];
      FailureEndsPrePull(a, cs[..|cs| - 1], force, at, k);
    }
  }

  lemma {:induction false} FailureEndsPostPull(a: Answers, cs: seq<Container>, at: nat, k: nat)
    requires k <= |cs| && PostPull(a, cs[..k], at).error.Some?
    ensures PostPull(a, cs, at) == PostPull(a, cs[..k], at)
  {
    if k == |cs| {
      assert cs[..k] == cs;
    } else {
      assert cs[..|cs| - 1][..k] == cs[..k];
      FailureEndsPostPull(a, cs[..|cs| - 1], at, k);
    }
  }

  // ----- What blocks a start -----

  // Every request was let through, except that the last one made the failure; or the
  // failure came from elsewhere than the license server.
  ghost predicate Explained(a: Answers, s: Step) {
    match s.error
    case None => AllPass(a, s.requests)
    case Some(f) =>
      if f == Cancelled || f == Rejected then
        var n := |s.requests| - 1;
        n >= 0 && AllPass(a, s.requests[..n]) && LicenseError(a, s.requests[n].at) == Some(f)
      else
        && AllPass(a, s.requests) && s.now > 0
        && (f == NoVersion || f == PullFailed)
        && (f == NoVersion ==> a.imageVersion(s.now - 1) == None)
        && (f == PullFailed ==> !a.pulled(s.now - 1))
  }

  ghost predicate AllPass(a: Answers, requests: seq<Request>) {
    forall r :: r in requests ==> LicenseError(a, r.at) == None
  }

  lemma ThenIsExplained(a: Answers, p: Step, q: Step)
    requires Explained(a, p) && Explained(a, q)
    ensures Explained(a, p.Then(q))
  {
    if p.error == None && q.error.Some? && (q.error.value == Cancelled || q.error.value == Rejected) {
      var n := |q.requests| - 1;
      assert (p.requests + q.requests)[..|p.requests| + n] == p.requests + q.requests[..n];
    }
  }

  lemma RequestIsExplained(a: Answers, asked: string, at: nat, version: string)
    ensures Explained(a, LicenseStep(a, asked, at).(version := version))
  {
  }

  lemma {:induction false} PrePullIsExplained(a: Answers, cs: seq<Container>, force: bool, at: nat)
    ensures Explained(a, PrePull(a, cs, force, at))
  {
    if cs == [] {
    } else {
      var before, c := PrePull(a, cs[..|cs| - 1], force, at), cs[|cs| - 1];
      PrePullIsExplained(a, cs[..|cs| - 1], force, at);
      RequestIsExplained(a, c.tag, before.now, "");
      RequestIsExplained(a, c.tag, before.now + 1, "");
      ThenIsExplained(a, before, PinnedStep(a, c.tag, force, before.now));
    }
  }

  lemma ImageIsExplained(a: Answers, at: nat)
    ensures Explained(a, ImageStep(a, at))
  {
    if a.imageVersion(at).Some? {
      RequestIsExplained(a, a.imageVersion(at).value, at + 1, a.imageVersion(at).value);
    }
  }

  lemma {:induction false} PostPullIsExplained(a: Answers, cs: seq<Container>, at: nat)
    ensures Explained(a, PostPull(a, cs, at))
  {
    if cs == [] {
    } else {
      var before := PostPull(a, cs[..|cs| - 1], at);
      PostPullIsExplained(a, cs[..|cs| - 1], at);
      ImageIsExplained(a, before.now);
      ThenIsExplained(a, before, ImageStep(a, before.now));
    }
  }

  lemma PreflightIsExplained(a: Answers, cs: seq<Container>, force: bool, at: nat)
    ensures Explained(a, PreflightStep(a, cs, force, at))
  {
    var pre := PrePull(a, cs, force, at);
    PrePullIsExplained(a, cs, force, at);
    PostPullIsExplained(a, Floating(cs), pre.now + 1);
    ThenIsExplained(a, pre, PulledStep(a, Floating(cs), pre.now));
  }

  lemma RevalidationIsExplained(a: Answers, cs: seq<Container>, at: nat)
    ensures Explained(a, RevalidationStep(a, cs, at))
  {
    var pre := PrePull(a, cs, true, at + 1);
    PrePullIsExplained(a, cs, true, at + 1);
    PostPullIsExplained(a, Floating(cs), pre.now);
    ThenIsExplained(a, pre, PostPull(a, Floating(cs), pre.now));
  }

  // The checks end a start only because of an answer they got: a definitive rejection or
  // a cancellation at the last request, an image without a version, or a failed pull.
  lemma OnlyAnswersBlock(a: Answers, cs: seq<Container>, force: bool, at: nat)
    ensures Explained(a, PreflightStep(a, cs, force, at))
    ensures Explained(a, RevalidationStep(a, cs, at))
  {
    PreflightIsExplained(a, cs, force, at);
    RevalidationIsExplained(a, cs, at);
  }

  // ----- What is asked -----

  // The tags to be checked before the pull, in order.
  function TagsBefore(cs: seq<Container>): seq<string> {
    if cs == [] then [] else
    var rest, c := TagsBefore(cs[..|cs| - 1]), cs[|cs| - 1];
    if !c.selfValidates && c.tag != "" && c.tag != "latest" then rest + [c.tag] else rest
  }

  // How many containers are to be checked after it.
  function ChecksAfter(cs: seq<Container>): nat {
    if cs == [] then 0 else
    var c := cs[|cs| - 1];
    ChecksAfter(cs[..|cs| - 1]) + if !c.selfValidates && (c.tag == "" || c.tag == "latest") then 1 else 0
  }

  predicate ImageIsPresent(a: Answers, at: nat) {
    a.imageExists(at) == Some(true)
  }

  ghost predicate AllPresent(a: Answers, from: nat, to: nat) {
    forall t :: from <= t < to ==> ImageIsPresent(a, t)
  }

  // When the image of the k-th of these tags is looked for: asking takes a turn of its own.
  function LookedForAt(a: Answers, at: nat, k: nat): nat {
    if k == 0 then at
    else LookedForAt(a, at, k - 1) + if ImageIsPresent(a, LookedForAt(a, at, k - 1)) then 1 else 2
  }

  // One request for each of the first n tags whose image is not there.
  function AskedIfAbsent(a: Answers, tags: seq<string>, at: nat, n: nat): seq<Request>
    requires n <= |tags|
  {
    if n == 0 then []
    else
      var t := LookedForAt(a, at, n - 1);
      AskedIfAbsent(a, tags, at, n - 1) + if ImageIsPresent(a, t) then [] else [Request(t + 1, tags[n - 1])]
  }

  // One request for each tag.
  function AskedForAll(tags: seq<string>, at: nat): seq<Request> {
    seq(|tags|, k requires 0 <= k < |tags| => Request(at + k, tags[k]))
  }

  // One request for each of n images, with the version that the image tells.
  ghost predicate AskedForImages(a: Answers, requests: seq<Request>, at: nat, n: nat) {
    && |requests| == n
    && forall k :: 0 <= k < n ==>
         requests[k].at == at + 2 * k + 1 && a.imageVersion(at + 2 * k) == Some(requests[k].version)
  }

  // First these requests, and then one for each of n images.
  ghost predicate AskedThenForImages(a: Answers, requests: seq<Request>, first: seq<Request>, at: nat, n: nat) {
    first <= requests && AskedForImages(a, requests[|first|..], at, n)
  }

  // The first n of the tags were looked at, and only the last of them ended the start, if
  // any did.
  ghost predicate AsksIfAbsent(a: Answers, s: Step, tags: seq<string>, at: nat, n: nat) {
    && n <= |tags| && s.requests == AskedIfAbsent(a, tags, at, n) && s.now == LookedForAt(a, at, n)
    && (s.error == None ==> n == |tags|)
    && (s.error.Some? ==> n > 0 && s.error == LicenseError(a, LookedForAt(a, at, n - 1) + 1))
  }

  lemma {:induction false} AskedIsPrefix(a: Answers, tags: seq<string>, tag: string, at: nat, n: nat)
    requires n <= |tags|
    ensures AskedIfAbsent(a, tags + [tag], at, n) == AskedIfAbsent(a, tags, at, n)
  {
    if n == 0 {
    } else {
      AskedIsPrefix(a, tags, tag, at, n - 1);
    }
  }

  lemma NextIsAsked(a: Answers, s: Step, tags: seq<string>, tag: string, at: nat, n: nat) returns (m: nat)
    requires AsksIfAbsent(a, s, tags, at, n)
    ensures AsksIfAbsent(a, s.Then(PinnedStep(a, tag, false, s.now)), tags + [tag], at, m)
  {
    AskedIsPrefix(a, tags, tag, at, n);
    m := if s.error.Some? then n else n + 1;
  }

  // The unforced checks ask once for each pinned container whose image is not there, in
  // order, and for no other; only the last of these requests may have ended the start.
  lemma {:induction false} UnforcedAsksAbsent(a: Answers, cs: seq<Container>, at: nat) returns (n: nat)
    ensures AsksIfAbsent(a, PrePull(a, cs, false, at), TagsBefore(cs), at, n)
  {
    if cs == [] {
      n := 0;
    } else {
      var front, c := cs[..|cs| - 1], cs[|cs| - 1];
      n := UnforcedAsksAbsent(a, front, at);
      if !c.selfValidates && c.Pinned() {
        n := NextIsAsked(a, PrePull(a, front, false, at), TagsBefore(front), c.tag, at, n);
      }
    }
  }

  // With every image there nothing is asked and nothing fails, whatever the license server
  // would say.
  lemma {:induction false} PresentAsksNothing(a: Answers, cs: seq<Container>, at: nat)
    requires AllPresent(a, at, at + |TagsBefore(cs)|)
    ensures PrePull(a, cs, false, at) == Nothing(at + |TagsBefore(cs)|)
  {
    if cs == [] {
    } else {
      var front, c := cs[..|cs| - 1], cs[|cs| - 1];
      if !c.selfValidates && c.Pinned() {
        assert TagsBefore(cs) == TagsBefore(front) + [c.tag];
        PresentAsksNothing(a, front, at);
        NothingMore(a, c.tag, at + |TagsBefore(front)|);
      } else {
        PresentAsksNothing(a, front, at);
      }
    }
  }

  lemma NothingMore(a: Answers, tag: string, at: nat)
    requires ImageIsPresent(a, at)
    ensures Nothing(at).Then(PinnedStep(a, tag, false, at)) == Nothing(at + 1)
  {
  }

  lemma {:induction false} ForcedAsksAll(a: Answers, cs: seq<Container>, at: nat)
    requires PrePull(a, cs, true, at).error == None
    ensures PrePull(a, cs, true, at).requests == AskedForAll(TagsBefore(cs), at)
    ensures PrePull(a, cs, true, at).now == at + |TagsBefore(cs)|
  {
    if cs == [] {
    } else {
      ForcedAsksAll(a, cs[..|cs| - 1], at);
    }
  }

  lemma {:induction false} FloatingAreNot(cs: seq<Container>)
    ensures |Floating(cs)| == ChecksAfter(cs) && forall c :: c in Floating(cs) ==> !c.selfValidates
  {
    if cs == [] {
    } else {
      FloatingAreNot(cs[..|cs| - 1]);
    }
  }

  lemma {:induction false} PostPullAsksAll(a: Answers, cs: seq<Container>, at: nat)
    requires PostPull(a, cs, at).error == None && forall c :: c in cs ==> !c.selfValidates
    ensures AskedForImages(a, PostPull(a, cs, at).requests, at, |cs|)
    ensures PostPull(a, cs, at).now == at + 2 * |cs|
  {
    if cs == [] {
    } else {
      assert cs[|cs| - 1] in cs && forall c :: c in cs[..|cs| - 1] ==> c in cs;
      PostPullAsksAll(a, cs[..|cs| - 1], at);
      ImageNext(a, PostPull(a, cs[..|cs| - 1], at), at, |cs| - 1);
    }
  }

  lemma ImageNext(a: Answers, before: Step, at: nat, n: nat)
    requires before.now == at + 2 * n && AskedForImages(a, before.requests, at, n)
    requires before.error == None && before.Then(ImageStep(a, before.now)).error == None
    ensures AskedForImages(a, before.Then(ImageStep(a, before.now)).requests, at, n + 1)
    ensures before.Then(ImageStep(a, before.now)).now == at + 2 * n + 2
  {
  }

  lemma ThenPasses(p: Step, q: Step)
    requires p.Then(q).error == None
    ensures p.error == None && q.error == None
  {
  }

  lemma ThenAsks(a: Answers, p: Step, q: Step, asked: seq<Request>, at: nat, n: nat)
    requires p.error == None && p.requests == asked && AskedForImages(a, q.requests, at, n)
    ensures AskedThenForImages(a, p.Then(q).requests, asked, at, n)
  {
    assert (p.requests + q.requests)[|p.requests|..] == q.requests;
  }

  // Before the pull one request for each of the tags whose image is not there; after it
  // one for each of n images.
  ghost predicate AskedByPreflight(a: Answers, requests: seq<Request>, tags: seq<string>, at: nat, n: nat) {
    var pulledAt := LookedForAt(a, at, |tags|);
    && a.pulled(pulledAt)
    && AskedThenForImages(a, requests, AskedIfAbsent(a, tags, at, |tags|), pulledAt + 1, n)
  }

  // Checks that end no start: before the pull one request for each pinned container whose
  // image is not there, after it one for each other container, unless it checks its own
  // license.
  lemma PreflightAsks(a: Answers, cs: seq<Container>, at: nat)
    requires PreflightStep(a, cs, false, at).error == None
    ensures AskedByPreflight(a, PreflightStep(a, cs, false, at).requests, TagsBefore(cs), at, ChecksAfter(cs))
  {
    var n := UnforcedAsksAbsent(a, cs, at);
    FloatingAreNot(cs);
    PulledIsAsked(a, PrePull(a, cs, false, at), Floating(cs), TagsBefore(cs), at, n);
  }

  lemma PulledIsAsked(a: Answers, pre: Step, left: seq<Container>, tags: seq<string>, at: nat, n: nat)
    requires AsksIfAbsent(a, pre, tags, at, n)
    requires pre.Then(PulledStep(a, left, pre.now)).error == None && forall c :: c in left ==> !c.selfValidates
    ensures AskedByPreflight(a, pre.Then(PulledStep(a, left, pre.now)).requests, tags, at, |left|)
  {
    var rest := PulledStep(a, left, pre.now);
    ThenPasses(pre, rest);
    PulledAsksAll(a, left, pre.now);
    RestIsAsked(a, pre, rest, tags, at, n, |left|);
  }

  lemma RestIsAsked(a: Answers, pre: Step, rest: Step, tags: seq<string>, at: nat, n: nat, images: nat)
    requires AsksIfAbsent(a, pre, tags, at, n) && pre.error == None
    requires a.pulled(pre.now) && AskedForImages(a, rest.requests, pre.now + 1, images)
    ensures AskedByPreflight(a, pre.Then(rest).requests, tags, at, images)
  {
    ThenAsks(a, pre, rest, pre.requests, pre.now + 1, images);
  }

  lemma PulledAsksAll(a: Answers, left: seq<Container>, at: nat)
    requires PulledStep(a, left, at).error == None && forall c :: c in left ==> !c.selfValidates
    ensures a.pulled(at) && AskedForImages(a, PulledStep(a, left, at).requests, at + 1, |left|)
  {
    PostPullAsksAll(a, left, at + 1);
  }

  // A revalidation that does not end the start asks about every container that does not
  // check its own license, whatever image there is.
  lemma RevalidationAsksAll(a: Answers, cs: seq<Container>, at: nat)
    requires RevalidationStep(a, cs, at).error == None
    ensures var tags := TagsBefore(cs);
      AskedThenForImages(a, RevalidationStep(a, cs, at).requests, AskedForAll(tags, at + 1), at + 1 + |tags|,
                         ChecksAfter(cs))
  {
    FloatingAreNot(cs);
    CheckedAfter(a, PrePull(a, cs, true, at + 1), Floating(cs));
    ForcedAsksAll(a, cs, at + 1);
  }

  lemma CheckedAfter(a: Answers, pre: Step, left: seq<Container>)
    requires pre.Then(PostPull(a, left, pre.now)).error == None && forall c :: c in left ==> !c.selfValidates
    ensures pre.error == None
    ensures AskedThenForImages(a, pre.Then(PostPull(a, left, pre.now)).requests, pre.requests, pre.now, |left|)
  {
    ThenPasses(pre, PostPull(a, left, pre.now));
    PostPullAsksAll(a, left, pre.now);
    ThenAsks(a, pre, PostPull(a, left, pre.now), pre.requests, pre.now, |left|);
  }

  // What requests make of the cache, one after the other.
  function ChangesOf(a: Answers, requests: seq<Request>): seq<Change> {
    if requests == [] then []
    else ChangesOf(a, requests[..|requests| - 1]) + LicenseChanges(a, requests[|requests| - 1].at)
  }

  lemma {:induction false} ChangesOfBoth(a: Answers, p: seq<Request>, q: seq<Request>)
    ensures ChangesOf(a, p + q) == ChangesOf(a, p) + ChangesOf(a, q)
  {
    if q == [] {
      assert p + q == p;
    } else {
      var front, last := q[..|q| - 1], q[|q| - 1];
      ChangesOfBoth(a, p, front);
      assert (p + q)[..|p + q| - 1] == p + front && (p + q)[|p + q| - 1] == last;
      Regroup(ChangesOf(a, p), ChangesOf(a, front), LicenseChanges(a, last.at));
    }
  }

  // The cache is changed by what the requests were answered, and by nothing else.
  ghost predicate OnlyAnswersChange(a: Answers, s: Step) {
    s.changes == ChangesOf(a, s.requests)
  }

  lemma ThenOnlyAnswersChange(a: Answers, p: Step, q: Step)
    requires OnlyAnswersChange(a, p) && OnlyAnswersChange(a, q)
    ensures OnlyAnswersChange(a, p.Then(q))
  {
    ChangesOfBoth(a, p.requests, q.requests);
  }

  lemma OneAnswerChanges(a: Answers, version: string, at: nat)
    ensures OnlyAnswersChange(a, LicenseStep(a, version, at))
  {
    assert ChangesOf(a, [Request(at, version)][..0]) == [];
  }

  lemma {:induction false} ChecksOnlyAnswersChange(a: Answers, cs: seq<Container>, force: bool, at: nat)
    ensures OnlyAnswersChange(a, PrePull(a, cs, force, at))
    ensures OnlyAnswersChange(a, PostPull(a, cs, at))
  {
    if cs == [] {
    } else {
      var front, c := cs[..|cs| - 1], cs[|cs| - 1];
      var pre, post := PrePull(a, front, force, at), PostPull(a, front, at);
      ChecksOnlyAnswersChange(a, front, force, at);
      PinnedOnlyAnswersChange(a, c.tag, force, pre.now);
      ImageOnlyAnswersChange(a, post.now);
      ThenOnlyAnswersChange(a, pre, PinnedStep(a, c.tag, force, pre.now));
      ThenOnlyAnswersChange(a, post, ImageStep(a, post.now));
    }
  }

  lemma PinnedOnlyAnswersChange(a: Answers, tag: string, force: bool, at: nat)
    ensures OnlyAnswersChange(a, PinnedStep(a, tag, force, at))
  {
    OneAnswerChanges(a, tag, at);
    OneAnswerChanges(a, tag, at + 1);
  }

  lemma ImageOnlyAnswersChange(a: Answers, at: nat)
    ensures OnlyAnswersChange(a, ImageStep(a, at))
  {
    if a.imageVersion(at).Some? {
      OneAnswerChanges(a, a.imageVersion(at).value, at + 1);
    }
  }

  // The checks change the cached license only as the answers to their requests say, and
  // the revalidation besides drops it first.
  lemma CacheFollowsAnswers(a: Answers, cs: seq<Container>, force: bool, at: nat)
    ensures OnlyAnswersChange(a, PreflightStep(a, cs, force, at))
    ensures RevalidationStep(a, cs, at).changes ==
            [Drop(a.removal(at))] + ChangesOf(a, RevalidationStep(a, cs, at).requests)
  {
    var pre, all := PrePull(a, cs, force, at), PrePull(a, cs, true, at + 1);
    ChecksOnlyAnswersChange(a, cs, force, at);
    ChecksOnlyAnswersChange(a, Floating(cs), force, pre.now + 1);
    ThenOnlyAnswersChange(a, pre, PulledStep(a, Floating(cs), pre.now));
    ChecksOnlyAnswersChange(a, cs, true, at + 1);
    ChecksOnlyAnswersChange(a, Floating(cs), true, all.now);
    ThenOnlyAnswersChange(a, all, PostPull(a, Floating(cs), all.now));
  }

  lemma {:induction false} CacheAfterTwo(cache: Option<Content>, first: seq<Change>, second: seq<Change>)
    ensures CacheAfter(cache, first + second) == CacheAfter(CacheAfter(cache, first), second)
  {
    if second == [] {
      assert first + second == first;
    } else {
      var front, last := second[..|second| - 1], second[|second| - 1];
      CacheAfterTwo(cache, first, front);
      assert first + second == (first + front) + [last];
      CacheAfterOne(cache, first + front, last);
    }
  }

  lemma StripPrepared(cs: seq<Container>, file: string, cached: Option<Content>)
    ensures StripAll(Prepared(cs, file, cached)) == StripAll(cs)
  {
    forall i | 0 <= i < |cs|
      ensures StripAll(Prepared(cs, file, cached))[i] == cs[i].Strip()
    {
      StripUndoesMount(cs[i], file);
    }
  }

  // ----- The retry protocol -----

  // A pass whose containers are answered for from a point in time on.
  ghost predicate AnsweredFrom(a: Answers, p: Pass, at: nat) {
    forall i :: 0 <= i < |p.starts| ==> p.starts[i].outcome == a.outcome(at + i)
  }

  // The first pass, over the containers as configured.
  ghost predicate FirstPass(a: Answers, at: nat, cs: seq<Container>, file: string, refreshed: bool,
                            cached: Option<Content>, p: Pass)
  {
    && p.cached == cached && p.candidate == (cached.Some? && !refreshed)
    && WellRun(p, Prepared(cs, file, cached)) && AnsweredFrom(a, p, at)
  }

  ghost predicate SecondPass(a: Answers, at: nat, cs: seq<Container>, file: string, p: Pass, r: Result<()>) {
    && !p.candidate && r == Verdict(p)
    && WellRun(p, Prepared(StripAll(cs), file, p.cached)) && AnsweredFrom(a, p, at)
  }

  // The revalidation after the first pass.
  function Again(a: Answers, at: nat, cs: seq<Container>, file: string, p: Pass): Step {
    RevalidationStep(a, Prepared(cs, file, p.cached), at + |p.starts|)
  }

  lemma AgainIsExplained(a: Answers, at: nat, cs: seq<Container>, file: string, p: Pass)
    ensures Explained(a, Again(a, at, cs, file, p))
  {
    RevalidationIsExplained(a, Prepared(cs, file, p.cached), at + |p.starts|);
  }

  // A license failure of the first pass is followed by a revalidation, and by a second
  // pass if that does not end the start.
  ghost predicate RetryProtocol(a: Answers, at: nat, cs: seq<Container>, file: string, refreshed: bool,
                                cached: Option<Content>, again: Step, passes: seq<Pass>, r: Result<()>)
  {
    && passes != [] && FirstPass(a, at, cs, file, refreshed, cached, passes[0])
    && if Verdict(passes[0]) != Err(LicenseStartup) then |passes| == 1 && r == Verdict(passes[0])
       else AfterLicenseFailure(again, a, cs, file, cached, passes[1..], r)
  }

  ghost predicate AfterLicenseFailure(again: Step, a: Answers, cs: seq<Container>, file: string,
                                      cached: Option<Content>, later: seq<Pass>, r: Result<()>)
  {
    if again.error.Some? then later == [] && r == Err(again.error.value)
    else
      && |later| == 1 && SecondPass(a, again.now, cs, file, later[0], r)
      && later[0].cached == CacheAfter(cached, again.changes)
  }

  lemma AfterFailureCases(again: Step, a: Answers, cs: seq<Container>, file: string,
                          cached: Option<Content>, later: seq<Pass>, r: Result<()>)
    requires AfterLicenseFailure(again, a, cs, file, cached, later, r)
    ensures |later| <= 1 && (|later| == 1 <==> again.error == None)
    ensures later == [] ==> r.Err? && again.error == Some(r.error)
    ensures r == Err(LicenseStartup) ==> again.error == Some(LicenseStartup)
  {
    if |later| == 1 {
      StartupIsCandidateExit(later[0]);
    }
  }

  // At most two passes; the internal license error never leaves the protocol; and a
  // second pass needs a license mounted in the first that this run had not refreshed.
  lemma RetryNeedsOldLicense(a: Answers, at: nat, cs: seq<Container>, file: string, refreshed: bool,
                             cached: Option<Content>, again: Step, passes: seq<Pass>, r: Result<()>)
    requires RetryProtocol(a, at, cs, file, refreshed, cached, again, passes, r) && Explained(a, again)
    ensures 1 <= |passes| <= 2 && r != Err(LicenseStartup)
    ensures |passes| == 2 ==> cached.Some? && !refreshed && LicenseExit(passes[0].starts[|passes[0].starts| - 1])
  {
    StartupIsCandidateExit(passes[0]);
    if Verdict(passes[0]) == Err(LicenseStartup) {
      AfterFailureCases(again, a, cs, file, cached, passes[1..], r);
    }
  }

  // After a license failure with an old license mounted the start is retried, unless an
  // answer to the revalidation ends it.
  lemma LicenseFailureIsRetried(a: Answers, at: nat, cs: seq<Container>, file: string, refreshed: bool,
                                cached: Option<Content>, again: Step, passes: seq<Pass>, r: Result<()>)
    requires RetryProtocol(a, at, cs, file, refreshed, cached, again, passes, r)
    requires passes[0].starts != [] && LicenseExit(passes[0].starts[|passes[0].starts| - 1])
    requires cached.Some? && !refreshed
    ensures |passes| == 2 <==> again.error == None
    ensures |passes| == 1 ==> r.Err? && again.error == Some(r.error)
  {
    StartupIsCandidateExit(passes[0]);
    AfterFailureCases(again, a, cs, file, cached, passes[1..], r);
  }

  lemma ProtocolIsMet(a: Answers, at: nat, cs: seq<Container>, file: string, refreshed: bool, p: Pass,
                      again: Step, later: seq<Pass>, r: Result<()>)
    requires FirstPass(a, at, cs, file, refreshed, p.cached, p)
    requires Verdict(p) != Err(LicenseStartup) ==> later == [] && r == Verdict(p)
    requires Verdict(p) == Err(LicenseStartup) ==>
      AfterLicenseFailure(again, a, Prepared(cs, file, p.cached), file, p.cached, later, r)
    ensures RetryProtocol(a, at, cs, file, refreshed, p.cached, again, [p] + later, r)
  {
    StripPrepared(cs, file, p.cached);
    assert ([p] + later)[1..] == later;
  }

  lemma StartIsSound(a: Answers, at: nat, cs: seq<Container>, file: string, refreshed: bool,
                     initial: Option<Content>, mounted: Option<Content>, again: Step, passes: seq<Pass>,
                     r: Result<()>, before: seq<Change>, changes: seq<Change>)
    requires mounted == CacheAfter(initial, before) && (initial == None || initial == Some(Earlier))
    requires mounted == Some(Fetched(true)) ==> refreshed
    requires RetryProtocol(a, at, cs, file, refreshed, mounted, again, passes, r) && Explained(a, again)
    requires changes == before + if Verdict(passes[0]) == Err(LicenseStartup) then again.changes else []
    ensures 1 <= |passes| <= 2 && r != Err(LicenseStartup)
    ensures |passes| == 2 ==> passes[0].cached == Some(Earlier) || passes[0].cached == Some(Fetched(false))
    ensures |passes| == 2 ==>
      (passes[1].cached == Some(Earlier) <==> initial == Some(Earlier) && AllWithoutEffect(changes))
  {
    RetryNeedsOldLicense(a, at, cs, file, refreshed, mounted, again, passes, r);
    if |passes| == 2 {
      assert mounted.Some? && mounted.value.Fetched? ==> mounted == Some(Fetched(mounted.value.complete));
      assert passes[1] == passes[1..][0];
      CacheAfterTwo(initial, before, again.changes);
      StaleIffNothingWorked(initial, changes);
    }
  }

  lemma MountsOf(cs: seq<Container>, file: string, p: Pass, i: nat)
    requires WellRun(p, Prepared(cs, file, p.cached)) && i < |p.starts|
    ensures i < |cs|
    ensures p.starts[i].container.binds == cs[i].binds + (if p.cached.Some? then [LicenseBind(file)] else [])
    ensures OnLicensePath(p.starts[i].container.binds) == OnLicensePath(cs[i].binds) + if p.cached.Some? then 1 else 0
  {
    var binds := cs[i].binds;
    assert binds + [] == binds;
    assert (binds + [LicenseBind(file)])[..|binds|] == binds;
  }

  // A container of the first pass carries its own binds in order, with the license after
  // them if one was cached.
  lemma FirstPassMounts(a: Answers, at: nat, cs: seq<Container>, file: string, refreshed: bool,
                        cached: Option<Content>, p: Pass, i: nat)
    requires FirstPass(a, at, cs, file, refreshed, cached, p) && i < |p.starts|
    ensures i < |cs|
    ensures p.starts[i].container.binds ==
            cs[i].binds + (if cached.Some? then [Bind(file, LICENSE_MOUNT_PATH, true)] else [])
    ensures OnLicensePath(cs[i].binds) == 0 ==> OnLicensePath(p.starts[i].container.binds) <= 1
  {
    MountsOf(cs, file, p, i);
  }

  // The second pass leaves out whatever was on the license path before, so that there is
  // never more than the one license mount.
  lemma SecondPassMounts(a: Answers, at: nat, cs: seq<Container>, file: string, p: Pass, r: Result<()>, i: nat)
    requires SecondPass(a, at, cs, file, p, r) && i < |p.starts|
    ensures i < |cs|
    ensures p.starts[i].container.binds ==
            WithoutLicense(cs[i].binds) + (if p.cached.Some? then [LicenseBind(file)] else [])
    ensures OnLicensePath(p.starts[i].container.binds) == if p.cached.Some? then 1 else 0
  {
    MountsOf(StripAll(cs), file, p, i);
    WithoutLicenseIs(cs[i].binds);
  }

  // ----- The session -----

  class Session {
    const answers: Answers
    const file: string
    const initial: Option<Content>          // the cache as the run finds it
    var now: nat
    var cache: Option<Content>
    var changes: seq<Change>
    var requests: seq<Request>
    var passes: seq<Pass>

    constructor (answers: Answers, file: string, present: bool)
      ensures Valid() && this.answers == answers && this.file == file
      ensures initial == if present then Some(Earlier) else None
      ensures now == 0 && changes == [] && requests == [] && passes == []
    {
      this.answers, this.file := answers, file;
      var found := if present then Some(Earlier) else None;
      initial := found;
      now, cache, changes, requests, passes := 0, found, [], [], [];
    }

    ghost predicate Valid()
      reads this
    {
      && cache == CacheAfter(initial, changes)
      && (initial == None || initial == Some(Earlier))
    }

    // The session has taken a step since it had made these changes and requests.
    ghost predicate Took(s: Step, changes0: seq<Change>, requests0: seq<Request>)
      reads this
    {
      changes == changes0 + s.changes && requests == requests0 + s.requests && now == s.now
    }

    lemma TookNothing()
      ensures Took(Nothing(now), changes, requests)
    {
    }

    lemma TookThen(p: Step, q: Step, changes0: seq<Change>, requests0: seq<Request>)
      requires p.error == None && Took(q, changes0 + p.changes, requests0 + p.requests)
      ensures Took(p.Then(q), changes0, requests0)
    {
      Regroup(changes0, p.changes, q.changes);
      Regroup(requests0, p.requests, q.requests);
    }

    lemma ThenValues(p: Step, q: Step)
      requires p.error == None
      ensures p.Then(q).error == q.error && p.Then(q).now == q.now
      ensures p.Then(q).Stored() == (p.Stored() || q.Stored())
      ensures p.Then(q).version == if p.version == "" then q.version else p.version
    {
    }

    method Record(c: Change)
      requires Valid()
      modifies this`cache, this`changes
      ensures Valid() && changes == old(changes) + [c] && cache == Apply(old(cache), c)
    {
      CacheAfterOne(initial, changes, c);
      cache := Apply(cache, c);
      changes := changes + [c];
    }

    // Only a definitive rejection or a cancellation fails; the cache is rewritten by a
    // response that carries a license, and dropped by a rejection.
    method ValidateLicense(version: string) returns (r: Result<bool>)
      requires Valid()
      modifies this`cache, this`changes, this`requests, this`now
      ensures Valid() && Took(LicenseStep(answers, version, old(now)), old(changes), old(requests))
      ensures r == Err(Cancelled) <==> !answers.license(old(now)).Granted? && answers.cancelled(old(now))
      ensures var reply := answers.license(old(now));
        r == Err(Rejected) <==>
          reply.Refused? && !reply.unsupportedTag && reply.status in {400, 401, 403} && !answers.cancelled(old(now))
      ensures r.Err? ==> r == Err(Cancelled) || r == Err(Rejected)
      ensures requests == old(requests) + [Request(old(now), version)]
      ensures var at := old(now);
        var reply, write, removal := answers.license(at), answers.write(at), answers.removal(at);
        changes == old(changes) +
          if reply.Granted? && reply.bytes != 0 then [Store(write)]
          else if r == Err(Rejected) then [Drop(removal)] else []
      ensures r.Ok? ==> (r.value <==> Store(Complete) in changes[|old(changes)|..])
    {
      var at := now;
      now := now + 1;
      requests := requests + [Request(at, version)];
      var reply := answers.license(at);
      if !reply.Granted? {
        if answers.cancelled(at) {
          return Err(Cancelled);
        }
        if reply.Unreachable? {
          return Ok(false);
        }
        if reply.unsupportedTag {
          return Ok(false);
        }
        if !(reply.status == 400 || reply.status == 401 || reply.status == 403) {
          return Ok(false);
        }
        Record(Drop(answers.removal(at)));
        return Err(Rejected);
      }
      var write := answers.write(at);
      if reply.bytes > 0 {
        Record(Store(write));
      }
      return Ok(reply.bytes > 0 && write == Complete);
    }

    // A pinned container whose image is already there needs no check, unless forced.
    method CheckPinned(tag: string, force: bool) returns (r: Result<bool>)
      requires Valid()
      modifies this`cache, this`changes, this`requests, this`now
      ensures Valid() && Took(PinnedStep(answers, tag, force, old(now)), old(changes), old(requests))
      ensures r == ReportOf(PinnedStep(answers, tag, force, old(now)))
    {
      if !force {
        var present := answers.imageExists(now);
        now := now + 1;
        if present == Some(true) {
          return Ok(false);
        }
      }
      r := ValidateLicense(tag);
    }

    // Checks the pinned containers that need it; floating tags are left for later.
    method TryPrePullLicenseValidation(cs: array<Container>, force: bool) returns (r: Result<(seq<Container>, bool)>)
      requires Valid()
      modifies this`cache, this`changes, this`requests, this`now
      ensures Valid() && Took(PrePull(answers, cs[..], force, old(now)), old(changes), old(requests))
      ensures r.Err? ==> PrePull(answers, cs[..], force, old(now)).error == Some(r.error)
      ensures r.Ok? ==> PrePull(answers, cs[..], force, old(now)).error == None
      ensures r.Ok? ==> r.value == (Floating(cs[..]), PrePull(answers, cs[..], force, old(now)).Stored())
    {
      ghost var at, changes0, requests0 := now, changes, requests;
      var needsPostPull: seq<Container> := [];
      var refreshed := false;
      TookNothing();
      var i := 0;
      while i < cs.Length
        invariant 0 <= i <= cs.Length && Valid()
        invariant needsPostPull == Floating(cs[..i])
        invariant PrePull(answers, cs[..i], force, at).error == None
        invariant Took(PrePull(answers, cs[..i], force, at), changes0, requests0)
        invariant refreshed == PrePull(answers, cs[..i], force, at).Stored()
      {
        var c := cs[i];
        ghost var before := PrePull(answers, cs[..i], force, at);
        TakeNext(cs[..], i);
        NextCheck(answers, cs[..i], c, force, at);
        i := i + 1;
        if c.selfValidates {
          continue;
        }
        if c.Pinned() {
          var wrote := CheckPinned(c.tag, force);
          TookThen(before, PinnedStep(answers, c.tag, force, before.now), changes0, requests0);
          if wrote.Err? {
            FailureEndsPrePull(answers, cs[..], force, at, i);
            return Err(wrote.error);
          }
          refreshed := refreshed || wrote.value;
          continue;
        }
        needsPostPull := needsPostPull + [c];
      }
      assert cs[..i] == cs[..];
      return Ok((needsPostPull, refreshed));
    }

    // A container whose version only the pulled image tells.
    method CheckImage() returns (r: Result<(string, bool)>)
      requires Valid()
      modifies this`cache, this`changes, this`requests, this`now
      ensures Valid() && Took(ImageStep(answers, old(now)), old(changes), old(requests))
      ensures r.Err? ==> ImageStep(answers, old(now)).error == Some(r.error)
      ensures r.Ok? ==> ImageStep(answers, old(now)).error == None
      ensures r.Ok? ==> r.value == (ImageStep(answers, old(now)).version, ImageStep(answers, old(now)).Stored())
    {
      var v := answers.imageVersion(now);
      now := now + 1;
      if v == None {
        return Err(NoVersion);
      }
      var wrote := ValidateLicense(v.value);
      r := if wrote.Err? then Err(wrote.error) else Ok((v.value, wrote.value));
    }

    // Checks the containers left for after the pull.
    method ValidateLicensesFromImages(cs: seq<Container>) returns (r: Result<(string, bool)>)
      requires Valid()
      modifies this`cache, this`changes, this`requests, this`now
      ensures Valid() && Took(PostPull(answers, cs, old(now)), old(changes), old(requests))
      ensures r.Err? ==> PostPull(answers, cs, old(now)).error == Some(r.error)
      ensures r.Ok? ==> PostPull(answers, cs, old(now)).error == None
      ensures r.Ok? ==> r.value == (PostPull(answers, cs, old(now)).version, PostPull(answers, cs, old(now)).Stored())
    {
      ghost var at, changes0, requests0 := now, changes, requests;
      var firstVersion := "";
      var refreshed := false;
      TookNothing();
      for i := 0 to |cs|
        invariant Valid()
        invariant PostPull(answers, cs[..i], at).error == None
        invariant Took(PostPull(answers, cs[..i], at), changes0, requests0)
        invariant firstVersion == PostPull(answers, cs[..i], at).version
        invariant refreshed == PostPull(answers, cs[..i], at).Stored()
      {
        ghost var before := PostPull(answers, cs[..i], at);
        TakeNext(cs, i);
        NextCheck(answers, cs[..i], cs[i], false, at);
        if cs[i].selfValidates {
          continue;
        }
        var checked := CheckImage();
        ghost var image := ImageStep(answers, before.now);
        TookThen(before, image, changes0, requests0);
        ThenValues(before, image);
        if checked.Err? {
          FailureEndsPostPull(answers, cs, at, i + 1);
          return checked;
        }
        if firstVersion == "" {
          firstVersion := checked.value.0;
        }
        refreshed := refreshed || checked.value.1;
      }
      TakeAll(cs);
      return Ok((firstVersion, refreshed));
    }

    // The pull, and the checks after it.
    method PullAndCheck(left: seq<Container>) returns (r: Result<bool>)
      requires Valid()
      modifies this`cache, this`changes, this`requests, this`now
      ensures Valid() && Took(PulledStep(answers, left, old(now)), old(changes), old(requests))
      ensures r == ReportOf(PulledStep(answers, left, old(now)))
    {
      var pulled := answers.pulled(now);
      now := now + 1;
      if !pulled {
        return Err(PullFailed);
      }
      var checked := ValidateLicensesFromImages(left);
      return if checked.Err? then Err(checked.error) else Ok(checked.value.1);
    }

    // The checks before and after the pull, and whether they refreshed the cache.
    method Preflight(cs: array<Container>, force: bool) returns (r: Result<bool>)
      requires Valid()
      modifies this`cache, this`changes, this`requests, this`now
      ensures Valid() && Took(PreflightStep(answers, cs[..], force, old(now)), old(changes), old(requests))
      ensures r == ReportOf(PreflightStep(answers, cs[..], force, old(now)))
    {
      ghost var changes0, requests0 := changes, requests;
      ghost var pre := PrePull(answers, cs[..], force, now);
      var prePull := TryPrePullLicenseValidation(cs, force);
      if prePull.Err? {
        return Err(prePull.error);
      }
      ghost var rest := PulledStep(answers, Floating(cs[..]), now);
      var checked := PullAndCheck(prePull.value.0);
      TookThen(pre, rest, changes0, requests0);
      return if checked.Err? then checked else Ok(prePull.value.1 || checked.value);
    }

    method CheckAll(cs: array<Container>) returns (r: Option<Failure>)
      requires Valid()
      modifies this`cache, this`changes, this`requests, this`now
      ensures Valid() && Took(CheckAllStep(answers, cs[..], old(now)), old(changes), old(requests))
      ensures r == CheckAllStep(answers, cs[..], old(now)).error
    {
      ghost var changes0, requests0 := changes, requests;
      ghost var pre := PrePull(answers, cs[..], true, now);
      var postPull := TryPrePullLicenseValidation(cs, true);
      if postPull.Err? {
        return Some(postPull.error);
      }
      ghost var post := PostPull(answers, Floating(cs[..]), now);
      var checked := ValidateLicensesFromImages(postPull.value.0);
      TookThen(pre, post, changes0, requests0);
      return if checked.Err? then Some(checked.error) else None;
    }

    // Drops the cached license and asks the server again about every container that
    // does not check its own license.
    method Revalidate(cs: array<Container>, ghost given: seq<Container>) returns (r: Option<Failure>)
      requires Valid() && given == cs[..]
      modifies this`cache, this`changes, this`requests, this`now
      ensures Valid() && Took(RevalidationStep(answers, given, old(now)), old(changes), old(requests))
      ensures r == RevalidationStep(answers, given, old(now)).error
    {
      ghost var changes0, all := changes, CheckAllStep(answers, given, now + 1);
      ghost var drop := Drop(answers.removal(now));
      Record(Drop(answers.removal(now)));
      now := now + 1;
      r := CheckAll(cs);
      Regroup(changes0, [drop], all.changes);
    }

    method MountCachedLicense(cs: array<Container>) returns (mounted: bool)
      modifies cs
      ensures mounted == cache.Some? && cs[..] == Prepared(old(cs[..]), file, cache)
    {
      if cache == None {
        return false;
      }
      var i := 0;
      while i < cs.Length
        invariant 0 <= i <= cs.Length
        invariant forall k :: 0 <= k < i ==> cs[k] == old(cs[k]).Mount(file)
        invariant forall k :: i <= k < cs.Length ==> cs[k] == old(cs[k])
      {
        cs[i] := cs[i].Mount(file);
        i := i + 1;
      }
      return true;
    }

    method StripLicenseMount(cs: array<Container>)
      modifies cs
      ensures cs[..] == StripAll(old(cs[..]))
    {
      var i := 0;
      while i < cs.Length
        invariant 0 <= i <= cs.Length
        invariant forall k :: 0 <= k < i ==> cs[k] == old(cs[k]).Strip()
        invariant forall k :: i <= k < cs.Length ==> cs[k] == old(cs[k])
      {
        cs[i] := cs[i].Strip();
        i := i + 1;
      }
    }

    // What the start of one container means for the pass.
    method Classify(s: Started, candidate: bool) returns (r: Result<()>)
      ensures r == ResultOf(s, candidate)
    {
      if s.outcome == Ready {
        return Ok(());
      }
      if s.outcome == NotStarted {
        return Err(CouldNotStart);
      }
      if s.outcome == Interrupted {
        return Err(Cancelled);
      }
      var notCovered := s.container.selfValidates && s.outcome.Exited? && s.outcome.notCoveredLogs;
      if candidate && !notCovered && s.outcome.Exited? && s.outcome.licenseLogs {
        return Err(LicenseStartup);
      }
      return Err(Reported(s.outcome));
    }

    // Starts the containers in order until one fails.
    method StartContainers(cs: array<Container>, candidate: bool) returns (r: Result<()>, ghost pass: Pass)
      modifies this`now, this`passes
      ensures passes == old(passes) + [pass] && pass.cached == cache && pass.candidate == candidate
      ensures WellRun(pass, cs[..]) && r == Verdict(pass)
      ensures AnsweredFrom(answers, pass, old(now)) && now == old(now) + |pass.starts|
    {
      var starts: seq<Started> := [];
      r := Ok(());
      var i := 0;
      while i < cs.Length && r.Ok?
        invariant 0 <= i <= cs.Length && i == |starts| && passes == old(passes) && now == old(now) + i
        invariant forall k :: 0 <= k < |starts| ==> starts[k] == Started(cs[k], answers.outcome(old(now) + k))
        invariant forall k :: 0 <= k < |starts| - 1 ==> starts[k].outcome == Ready
        invariant r == Verdict(Pass(starts, cache, candidate))
        decreases cs.Length - i
      {
        var s := Started(cs[i], answers.outcome(now));
        now := now + 1;
        starts := starts + [s];
        r := Classify(s, candidate);
        i := i + 1;
      }
      pass := Pass(starts, cache, candidate);
      passes := passes + [Pass(starts, cache, candidate)];
    }

    // The retry: the mount is made anew from what is cached now.
    method StartAgain(cs: array<Container>) returns (r: Result<()>, ghost pass: Pass)
      modifies this`now, this`passes, cs
      ensures passes == old(passes) + [pass] && pass.cached == cache
      ensures SecondPass(answers, old(now), old(cs[..]), file, pass, r)
    {
      StripLicenseMount(cs);
      var _ := MountCachedLicense(cs);
      r, pass := StartContainers(cs, false);
    }

    // Revalidates, and starts again if that does not fail.
    method Retry(cs: array<Container>, ghost given: seq<Container>, ghost again: Step)
      returns (r: Result<()>, ghost later: seq<Pass>)
      requires Valid() && given == cs[..] && again == RevalidationStep(answers, given, now)
      modifies this`cache, this`changes, this`requests, this`now, this`passes, cs
      ensures Valid() && passes == old(passes) + later
      ensures AfterLicenseFailure(again, answers, given, file, old(cache), later, r)
      ensures changes == old(changes) + again.changes && requests == old(requests) + again.requests
    {
      later := [];
      var failure := Revalidate(cs, given);
      CacheAfterTwo(initial, old(changes), again.changes);
      if failure.Some? {
        return Err(failure.value), [];
      }
      ghost var pass;
      r, pass := StartAgain(cs);
      later := [pass];
    }

    // Mounts the cached license, starts, and retries once if an old license may be to
    // blame.
    method StartWithLicenseRetry(cs: array<Container>, licenseRefreshed: bool)
      returns (r: Result<()>, ghost run: seq<Pass>, ghost again: Step)
      requires Valid()
      modifies this`cache, this`changes, this`requests, this`now, this`passes, cs
      ensures Valid() && passes == old(passes) + run
      ensures RetryProtocol(answers, old(now), old(cs[..]), file, licenseRefreshed, old(cache), again, run, r)
      ensures again == Again(answers, old(now), old(cs[..]), file, run[0])
      ensures changes == old(changes) + if Verdict(run[0]) == Err(LicenseStartup) then again.changes else []
    {
      ghost var own, at, changes0, passes0 := cs[..], now, changes, passes;
      var licenseMounted := MountCachedLicense(cs);
      ghost var given := cs[..];
      var retryCandidate := licenseMounted && !licenseRefreshed;
      ghost var first, later := Pass([], None, false), [];
      r, first := StartContainers(cs, retryCandidate);
      assert changes0 + [] == changes0;
      again := Again(answers, at, own, file, first);
      if r == Err(LicenseStartup) {
        r, later := Retry(cs, given, again);
      }
      assert passes == (passes0 + [first]) + later;
      Regroup(passes0, [first], later);
      run := [first] + later;
      ProtocolIsMet(answers, at, own, file, licenseRefreshed, first, again, later, r);
    }

    // The checks, the pull and the start as one run makes them: nothing but an answer to
    // a check keeps the start from being tried.
    method Start(cs: array<Container>, force: bool) returns (r: Result<()>, ghost pre: Step, ghost again: Step)
      requires Valid() && passes == [] && changes == []
      modifies this`cache, this`changes, this`requests, this`now, this`passes, cs
      ensures Valid() && |passes| <= 2 && r != Err(LicenseStartup)
      ensures pre == PreflightStep(answers, old(cs[..]), force, old(now)) && (passes == [] <==> pre.error.Some?)
      ensures passes == [] ==> r == Err(pre.error.value)
      ensures passes != [] ==> again == Again(answers, pre.now, old(cs[..]), file, passes[0])
      ensures passes != [] ==>
        var mounted := CacheAfter(initial, pre.changes);
        RetryProtocol(answers, pre.now, old(cs[..]), file, pre.Stored(), mounted, again, passes, r)
      ensures |passes| == 2 ==> passes[0].cached == Some(Earlier) || passes[0].cached == Some(Fetched(false))
      ensures |passes| == 2 ==>
        (passes[1].cached == Some(Earlier) <==> initial == Some(Earlier) && AllWithoutEffect(changes))
    {
      ghost var own, at := cs[..], now;
      pre := PreflightStep(answers, own, force, at);
      again := Nothing(now);
      assert changes + pre.changes == pre.changes;
      PreflightIsExplained(answers, own, force, at);
      var refreshed := Preflight(cs, force);
      if refreshed.Err? {
        return Err(refreshed.error), pre, again;
      }
      if !refreshed.value && cache == Some(Fetched(true)) {
        FetchedNeedsStore(initial, changes);
      }
      ghost var from, mounted, changes0 := now, cache, changes;
      ghost var run: seq<Pass>;
      r, run, again := StartWithLicenseRetry(cs, refreshed.value);
      AgainIsExplained(answers, from, own, file, run[0]);
      StartIsSound(answers, from, own, file, refreshed.value, initial, mounted, again, run, r, changes0, changes);
      assert passes == run;
    }
  }
}
