# lstk, verified

A Dafny model of the algorithms and protocols inside lstk, the LocalStack command line tool, with proofs of
what each of them is for. One module follows one part of the program:

- `StartupMonitor`, `PullImage`, `LicenseRetry`, `RemovalSafety`, `PublishedPorts`, `PortNumbers` and `GatewayListen`
  are the emulator start: waiting for the container, pulling its image, the license check and its one retry, which
  containers may be removed, which ports are published and what reaches the daemon of them, and on which ones the
  container is told to listen.
- `LogBacklog` is the filtered log tail: bounded line reading, a ring of recent lines, and a fetch loop that
  widens until it has enough.
- `SnapArchive` is the snapshot archive: parser, printer, and the guarded rewriting of entries.
- `TextWrap` is line filling, in its two implementations.
- `EmulatorTypeLens`, `ExecEnvironment`, `ProxyFlags`, `PodReference` and `ByteWriters` are the config rewrite,
  the environment of a wrapped `aws`, the scanner of leading flags, references to cloud snapshots, and two writers
  that must not depend on how their input is cut.
- `Sequences` and `Decimal` hold what the others share.

What the daemon, the user, the license server, the file system or another program does is a parameter or an event
that may be anything: a lemma about a run holds for every answer and every order of events. Code that changes
state is a class or a loop here too, and its method is proved equal to a function of the old state; the lemmas are
about that function. Three protocols run concurrently with others (`StartupMonitor`, `PullImage`,
`RemovalSafety`); they are step relations.

Some results are not quite what one would expect, and are stated as the code has them:

- `SoftWrap` returns over-wide text that has no word unchanged, so it keeps to the width if and only if the text
  fits or has a word (`TextWrap.SoftLinesWidth`). It agrees with the help text's `wrapLine` on unindented text if
  and only if nothing needs wrapping, or there is a word and none has to be cut
  (`TextWrap.WrapLineAgreesWithSoftWrap`).
- lstk tells published ports apart by their text, and the Docker daemon by their number. As text, the initial set is
  one-to-one if and only if the configured edge host port is neither another gateway port nor in the service range
  (`PublishedPorts.InitialSetIsOneToOne`). By number, it is so if and only if besides no gateway port is written in
  two ways and the edge host port is no other published number (`PortNumbers.InitialSetIsOneToOneByNumber`), and
  merging keeps it so if and only if no `expose_ports` entry clashes with something published under another spelling
  only (`PortNumbers.MergeByNumber`). `GATEWAY_LISTEN=":4566,:04566"` is accepted and loses the edge port
  (`PortNumbers.SecondSpellingHidesTheEdge`); with `":4566,:0443"` a request for 443 is merged although that port is
  published (`PortNumbers.SecondSpellingHidesTheRequest`).
- The guard of a snapshot archive lets exactly the storable values through if and only if a storable value leaves the
  name with no other value (`SnapArchive.GuardIsRightForOneValue`), as it does where no two entries share the name.
  Where a hand-written archive repeats a name, `sort.Slice` promises no order among its entries; if another value of
  it is printed first, the guard refuses a value that could be stored (`SnapArchive.RepeatedNameMayBeRefused`).
- A skipped pull may have ended well all the same: if the skip is taken with the result at hand, or the pull ends
  before the cancellation reaches it, the sink says that the current image is kept while the new one is in its place
  (`PullImage.KeptIffSkipped`, `PullImage.SkipMayComeTooLate`).
- A log fetch that the caller cancels ends without an error, so that the lines delivered until then are shown as if
  they were the whole log (`LogBacklog.EmitFilteredBacklog`).
- The removal before a pull does not look at what it removes; it is safe because nothing can be on the name then,
  unless someone else creates a container there after the inspection (`RemovalSafety.EveryHitIsSafe`,
  `RemovalSafety.LateCreationIsRemoved`). The second pass after a license failure does not wait for the container of
  the first to go away (`RemovalSafety.SecondPassFindsItsOwn`, `RemovalSafety.SecondPassMayCollide`).
- The license retry strips every bind on the license path, a user's own included, and mounts the old license
  again if and only if the removal of the cached file and every write since had no effect
  (`LicenseRetry.StripUndoesMount`, `LicenseRetry.Session.Start`).

Check the project with `dafny verify dfyconfig.toml` (Dafny 4.11).

## Model

| member | source | states |
|---|---|---|
| StartupMonitor.Monitor.Await | internal/container/start.go:1527-1644 | waiting gives the outcome, the effects and the open prompt of the step relation, for every sequence of events |
| StartupMonitor.Monitor.Handle | internal/container/start.go:1582-1643 | one round of the select loop is one step, dismissing an open prompt on return |
| StartupMonitor.EveryPromptIsClosedOnce | internal/container/start.go:1527-1644 | in every run at most one prompt is open, each is answered or dismissed exactly once, none is open on return, and none is shown outside interactive mode |
| StartupMonitor.DeadlineCountsWithoutPrompt | internal/container/start.go:1527-1644 | in every run the deadline counts, while waiting interactively, exactly when no prompt is open |
| StartupMonitor.StopsOnlyOnRequest | internal/container/start.go:1527-1644 | in every run the container is stopped at most once, right after an "s" answer and a probe that found it running and not ready, and exactly then the timeout says stopped |
| StartupMonitor.OutcomeTellsLastProbe | internal/container/start.go:1527-1644 | a nil result means the last probe saw the container running and healthy; a timeout means it saw it running and not ready |
| StartupMonitor.OutcomeIsTold | internal/container/start.go:1527-1644 | in every run the outcome is the one that the last thing done or seen stands for; dismissals tell nothing |
| StartupMonitor.DeedsAreDue | internal/container/start.go:1527-1644 | in every run each prompt, stop and dismissal is due after what was done and seen just before it, and nothing due is left undone |
| StartupMonitor.ExitsAreHeeded | internal/container/start.go:1609-1617 | in every run an exit that the channel delivers ends the wait with its code; a failed wait does not end it, and nothing more is taken from the channel |
| StartupMonitor.ErrorsAreExplained | internal/container/start.go:1527-1644 | in every run "exited with code c" is returned if and only if the last deed is such an exit, or a probe that found the container stopped and gives c; likewise for a cancellation and a failed status check |
| StartupMonitor.EveryEventIsHeeded | internal/container/start.go:1582-1643 | in every run, while the wait goes on, each event that may come is seen, with the probe that it calls for, and no other is |
| StartupMonitor.FirstProbeIsMade | internal/container/start.go:1577-1580 | the container is probed once before anything is waited for |
| PullImage.NeverDeadlocks | internal/container/start.go:470-544 | in every interleaving of puller, reader, user and caller, some party other than the user can act until the call returns |
| PullImage.RunsAreFinite | internal/container/start.go:470-544 | every interleaving is bounded by the number of messages the daemon sends |
| PullImage.ReturnsCleanly | internal/container/start.go:470-544 | on return both goroutines have finished, the spinner stopped exactly once with no progress or hint after it, and "used local" means that there was a local image, skipped to or fallen back on |
| PullImage.KeptIffSkipped | internal/container/start.go:498-517 | the sink is told that the current image is kept if and only if the skip was taken, whatever the pull came to; and the pull came to its end without an error, with the new image in place of the current one, if and only if it finished so |
| PullImage.SkipMayComeTooLate | internal/container/start.go:498-508 | both can happen in one run: with the result and the skip at hand the select may take the skip |
| PullImage.HintShownOnce | internal/container/start.go:484-496 | the hint is shown at most once, and only when skipping is possible |
| PullImage.MessagesAreReported | internal/container/start.go:470-496 | on return every message of the daemon was reported, in order, and the hint came just before the first one about a download if skipping is possible, and else not |
| PullImage.StepKeepsInv | internal/container/start.go:470-544 | every step of every party keeps the invariant behind these results |
| LicenseRetry.Session.ValidateLicense | internal/container/start.go:1219-1318 | only cancellation or a definitive rejection (400, 401, 403) fails; the report that the cache was rewritten means a complete write; a rejection tries to drop the cache |
| LicenseRetry.Session.TryPrePullLicenseValidation | internal/container/start.go:551-581 | it makes exactly the requests, cache changes and error that the answers call for, container by container up to the first failure, and reports whether a license was stored; the floating containers are left for later, in order |
| LicenseRetry.Session.CheckPinned | internal/container/start.go:559-575 | one container of the checks below: a look at its image unless forced, and at most one license request |
| LicenseRetry.UnforcedAsksAbsent | internal/container/start.go:551-581 | the unforced checks made one request for each pinned container that does not check its own license and whose image is not known to be there, in order, for its version, and none for any other; only the last one may have ended the start |
| LicenseRetry.PresentAsksNothing | internal/container/start.go:565-569 | when all these images are there, nothing is asked and nothing fails, whatever the license server would answer |
| LicenseRetry.Session.ValidateLicensesFromImages | internal/container/start.go:586-609 | each container that does not check its own license is checked once, up to the first failure; an image without a version and a failing request are the failures; it reports the first version and whether a license was stored |
| LicenseRetry.Session.Preflight | internal/container/start.go:302-317 | the checks before the pull, the pull and the checks after it, up to the first failure; the report says whether any of them stored a license |
| LicenseRetry.PreflightAsks | internal/container/start.go:302-317 | checks without a failure pulled the images between one request for each absent pinned image and one for the version of each floating one, unless it checks its own license |
| LicenseRetry.CacheFollowsAnswers | internal/container/start.go:1219-1318 | the cached license changes only as the answers to the requests made say, and a revalidation drops it first |
| LicenseRetry.OnlyAnswersBlock | internal/container/start.go:1216-1218 | for all answers, the checks end a start only by a cancellation or a definitive rejection at the last request, all before it being let through, or by an image without a version or a failed pull |
| LicenseRetry.Session.MountCachedLicense | internal/container/start.go:1364-1376 | every container gets the license bind after its own, or none does, as the cached file exists |
| LicenseRetry.Session.StripLicenseMount | internal/container/start.go:1378-1384 | every bind on the license path goes, the others stay in order |
| LicenseRetry.Session.StartContainers | internal/container/start.go:649-749 | containers are started in order until one is not ready, and that one decides the result; only a candidate pass classifies a license exit |
| LicenseRetry.VerdictsTell | internal/container/start.go:649-749 | a pass is fine if and only if every container became ready; else the error tells the outcome of the last one started |
| LicenseRetry.Session.Revalidate | internal/container/start.go:634-643 | the cache is dropped first, then every container is checked; it fails exactly when, and as, the answers say |
| LicenseRetry.Session.StartWithLicenseRetry | internal/container/start.go:617-647 | the outcome is the one the protocol has for the answers: one pass, or after a license exit a revalidation and, unless an answer ends it, a second pass that mounts what is cached then |
| LicenseRetry.Session.Start | internal/container/start.go:302-327 | the containers are started if and only if the checks met no failure, and then by the retry protocol; at most two passes, never the internal license error; a second pass mounts the license of an earlier run if and only if there was one and no change since had an effect |
| LicenseRetry.RetryNeedsOldLicense | internal/container/start.go:617-647 | the internal license error never leaves the protocol; a second pass needs a license exit with a mounted license this run had not refreshed |
| LicenseRetry.LicenseFailureIsRetried | internal/container/start.go:617-647 | conversely, after a license exit with such a license mounted there is a second pass if and only if the revalidation met no failure; otherwise that failure is the result |
| LicenseRetry.RevalidationAsksAll | internal/container/start.go:637-643 | a revalidation without a failure made one request for each container that does not check its own license, for its pinned version or that of its image, whatever images there are |
| LicenseRetry.FirstPassMounts | internal/container/start.go:1364-1376 | in the first pass a container has its own binds in order and then at most the license |
| LicenseRetry.SecondPassMounts | internal/container/start.go:644-646 | in the second pass it has its other binds in order and at most one license mount, whatever the user mounted |
| LicenseRetry.StripUndoesMount | internal/container/start.go:1364-1384 | stripping after mounting gives the container back if and only if the user mounts nothing on the license path |
| LicenseRetry.StaleIffNothingWorked | internal/container/start.go:634-645 | the license of an earlier run is still cached if and only if it was there and no removal or write since had an effect |
| LicenseRetry.LastChangeCounts | internal/container/start.go:1288-1318 | otherwise the last change that had an effect decides: removed, or the whole of a response, or what a failed write left of it |
| RemovalSafety.EveryHitIsSafe | internal/container/start.go:434-441 | in every run, a removal that finds a container finds a managed one, or an auto-removing one past the created state, unless someone else created a container on that name after the start had inspected it |
| RemovalSafety.StartTouchesOnlyRemovable | internal/container/start.go:963-1000 | no step of the start changes or removes any other container, whatever its name |
| RemovalSafety.ParkedContainerEndsTheStart | internal/container/start.go:975-983 | a foreign container parked on the name fails the start when it is inspected, is never called on, and stays as it was |
| RemovalSafety.InspectionDecides | internal/container/start.go:963-985 | in every run what is on the name when it is inspected decides: the start fails if and only if it is a container that is not running, not managed and not (auto-removing and past created), and any other that is not running is removed |
| RemovalSafety.LeftoverIsRemoved | internal/container/start.go:828-931 | for every leftover that may be removed there is a run that removes it and comes to the first attempt with the name free |
| RemovalSafety.OnlyTheseFail | internal/container/start.go:649-1000 | in every run a start fails exactly with a rejected scan, a refused removal, a creation that fails for more than an optional port, an abort, or a foreign container on a name |
| RemovalSafety.StartsInOrder | internal/container/start.go:617-749 | in every run the names are inspected in order, nothing starts before all that was kept is fetched, and a start that succeeds saw every kept container become ready |
| RemovalSafety.NameIsFreeForFirstPass | internal/container/start.go:434-441 | for the one container that a start may have, without other creators the name is free at every attempt of the first pass, and the removal before the pull finds nothing |
| RemovalSafety.SecondPassFindsItsOwn | internal/container/start.go:637-646 | without other creators an attempt of the second pass finds the name free if and only if the container last started on it has gone since; otherwise it finds that one |
| RemovalSafety.SecondPassMayCollide | internal/container/start.go:637-646 | and it may find it, since nothing waits for it |
| RemovalSafety.LateCreationIsRemoved | internal/container/start.go:437-441 | a container created on the name after the inspection is removed, whoever made it: the exception above is needed |
| RemovalSafety.StepKeepsInv | internal/container/start.go:828-931 | every answer to the start and every action of another actor keeps the selected names free or ours |
| GatewayListen.ParseGatewayListen | internal/container/gateway.go:36-57 | the loop reads the entries in order, passes over blank parts and fails at the first bad one, or when there is none |
| GatewayListen.EntryIsAccepted | internal/container/gateway.go:62-83 | an entry is accepted, as a given host and port, if and only if it writes them, or the port alone, the port is a number and the host an address or empty |
| GatewayListen.ListIsAccepted | internal/container/gateway.go:36-57 | the list is accepted if and only if something is listed and all of it is accepted; a blank value stands for ":4566,:443" |
| GatewayListen.SplitOfJoinHostPort | internal/container/gateway.go:62-106 | splitting undoes joining when neither part has a bracket and the port has no colon |
| GatewayListen.BracketsForColons | internal/container/gateway.go:96-106 | joining puts brackets around a host that has colons and around no other |
| GatewayListen.ParsedIsSound | internal/container/gateway.go:36-80 | whatever is accepted, there is an entry, and every entry has a numeric port, a valid or empty host, and no bracket or comma in it |
| GatewayListen.ContainerEnvValue | internal/container/gateway.go:96-106 | the loop prints every entry in order, with loopback hosts blanked |
| GatewayListen.EnvValueReadsBack | internal/container/gateway.go:36-106 | from the value it is given the container reads the same entries in the same order, with 127.0.0.1 blanked and every other host kept, for everything the user may write |
| GatewayListen.SamePortsInside | internal/container/gateway.go:96-128 | and those entries have the extra ports that lstk publishes |
| PublishedPorts.ExtraGatewayPorts | internal/container/gateway.go:117-128 | the loop gives each new gateway port once, in order |
| PublishedPorts.ExtraPortsAreNew | internal/container/gateway.go:117-138 | as text these ports are one-to-one, none is the primary port, and none has a number in the service range |
| PublishedPorts.ExtraPortsAreAll | internal/container/gateway.go:117-128 | every other gateway port is among them |
| PublishedPorts.ExtraPortsGrow | internal/container/gateway.go:117-128 | in the order of the gateway entries |
| PublishedPorts.ServicePortRange | internal/container/start.go:1769-1779 | the loop gives the range |
| PublishedPorts.ServicePortsAreTheRange | internal/container/start.go:1769-1779 | every port of the range is published, in canonical form, nothing else is, and they are one-to-one |
| PublishedPorts.ServiceRangeIs | internal/container/start.go:1769-1779 | the i-th of them publishes 4510 + i on itself, and there are fifty |
| PublishedPorts.InitialSetIsOneToOne | internal/container/start.go:262-266 | as text, gateway ports, service range and edge port are one-to-one if and only if the edge host port is neither another gateway port nor a port of the range |
| PublishedPorts.TakenHosts | internal/container/start.go:262-266 | with the default gateway an edge host port of 443 or 4510 breaks it |
| PublishedPorts.ParsePortNumber | internal/config/containers.go:421-430 | a port is accepted if and only if it is, trimmed, a number from 1 to 65535, and becomes that number's decimal form |
| PublishedPorts.EntryIsAccepted | internal/config/containers.go:380-417 | an entry is accepted if and only if, trimmed, it has the form "[host:]container[/proto]" with ports in range and a protocol that is tcp or udp in any case |
| PublishedPorts.SpecReadsBack | internal/config/containers.go:335-417 | a printed publication is an entry that asks for it and nothing else |
| PublishedPorts.BarePortsAskForBoth | internal/config/containers.go:376-417 | without a protocol tcp and udp are asked for, and without a host port the container's number |
| PublishedPorts.ShapeAsksFor | internal/config/containers.go:380-417 | an accepted entry asks for the numbers it names, the host port being the container's if there is none, over the protocol it names or over tcp and then udp |
| PublishedPorts.ParsedSpecsAreSpecs | internal/config/containers.go:380-417 | whatever an entry asks for has canonical ports and is tcp or udp |
| PublishedPorts.ExposedPorts | internal/config/containers.go:343-374 | the entries are accepted if and only if each parses and no two distinct publications share a container or a host port; the result is each publication once, and one-to-one |
| PublishedPorts.AcceptSpec | internal/config/containers.go:353-371 | one publication is refused if and only if it clashes with one accepted before |
| PublishedPorts.AcceptanceIgnoresOrder | internal/config/containers.go:343-374 | acceptance depends on neither order nor repetition of the entries |
| PublishedPorts.MergeExposePorts | internal/container/expose.go:22-64 | the loop over the two tables merges as the published mappings decide, from a one-to-one start |
| PublishedPorts.TablesMerge | internal/container/expose.go:22-64 | the tables always describe what is published |
| PublishedPorts.MergeKeepsOneToOne | internal/container/expose.go:22-64 | merging keeps the publications one-to-one, keeps what was there, and adds required mappings only |
| PublishedPorts.EveryRequestIsDecided | internal/container/expose.go:22-64 | at the end each request is in effect or warned about, never both and never neither |
| PublishedPorts.MergeIsFilter | internal/container/expose.go:22-64 | requests that do not clash with each other are merged as if each were the only one: those neither met nor blocked are added in order, those blocked and not met are warned about in order |
| PublishedPorts.DropBusyOptionalPorts | internal/container/start.go:1024-1049 | the loop keeps all but the busy optional mappings and warns about each of those |
| PublishedPorts.KeepFreeIsExact | internal/container/start.go:1024-1049 | what is kept is in order, exactly the busy optional mappings are missing from it, and exactly their host ports are warned about |
| PublishedPorts.FailedOptionalPortBind | internal/container/start.go:1115-1125 | the first optional mapping whose host port the bind error names, and -1 if and only if it names none |
| PublishedPorts.StartWithOptionalPortFallback | internal/container/start.go:1132-1160 | the loop ends; each further attempt follows a refusal that blames an optional mapping and a successful removal, leaves exactly that mapping out, and was warned about |
| PublishedPorts.FallbackTrims | internal/container/start.go:1132-1160 | each attempt has one optional mapping less and every required one, in order |
| PublishedPorts.EveryAttemptIsSound | internal/container/start.go:1024-1160 | whatever is busy and whatever the daemon answers, every attempt publishes an ordered part of the merged mappings with every required one, one-to-one as text, in at most (optional mappings + 1) attempts |
| PortNumbers.ByNumberIsByText | internal/runtime/docker.go:471-485 | one-to-one by number is one-to-one by text with one spelling of each number |
| PortNumbers.BindPorts | internal/runtime/docker.go:471-485 | the loop gives the daemon the last host port of each container port number |
| PortNumbers.NothingIsLost | internal/runtime/docker.go:471-485 | every publication reaches the daemon as meant if and only if no container port number has two host ports |
| PortNumbers.OneToOneLosesNothing | internal/runtime/docker.go:471-485 | it does when the publications are one-to-one by number |
| PortNumbers.InitialSetIsOneToOneByNumber | internal/container/start.go:262-266 | the initial set is one-to-one by number if and only if no extra gateway port is written in two ways, none is the primary port written otherwise, and the edge host port is no other published number |
| PortNumbers.SecondSpellingHidesTheEdge | internal/container/gateway.go:117-128 | for ":4566,:04566" the publications are one-to-one as text, not by number, and the configured edge publication is lost |
| PortNumbers.MergeByNumber | internal/container/expose.go:22-64 | merging keeps them one-to-one by number if and only if every request that clashes by number with something published clashes as text with something published |
| PortNumbers.SecondSpellingHidesTheRequest | internal/container/expose.go:22-64 | with the gateway ":4566,:0443" the publications are one-to-one by number, and merging a request for 443 makes them not so |
| PortNumbers.PlainSpellingHidesNothing | internal/container/expose.go:22-64 | which holds when every published port is in canonical form |
| PortNumbers.EveryAttemptIsBound | internal/container/start.go:1024-1160 | from merged publications that are one-to-one by number, every attempt is so too, and the daemon binds each of its mappings to its own host port |
| PortNumbers.EveryStartIsBound | internal/container/start.go:262-273 | the same from the gateway entries, the edge host port and the accepted expose_ports entries |
| LogBacklog.ReadBoundedLine | internal/container/logs.go:230-254 | of a line without its end the first max bytes are kept, the others counted, and no more than max ever buffered |
| LogBacklog.TrimsLineEnd | internal/container/logs.go:256-264 | a newline is cut off, with one carriage return before it, and nothing else |
| LogBacklog.ReadsOfLine | internal/container/logs.go:230-264 | a line read in any pieces has its own content, and the reader goes on after it |
| LogBacklog.KeptTextIgnoresTheCut | internal/container/logs.go:230-264 | the kept text does not depend on the pieces when a full one exceeds max; a carriage return parted from its newline adds one to the count |
| LogBacklog.LineRing.Add | internal/container/logs.go:192-201 | the ring holds the last lines of all that were added |
| LogBacklog.LineRing.Len | internal/container/logs.go:203-208 | the number of lines held |
| LogBacklog.LineRing.Reset | internal/container/logs.go:210-212 | the ring is empty again |
| LogBacklog.LineRing.Emit | internal/container/logs.go:214-223 | the held lines, oldest first |
| LogBacklog.RingStep | internal/container/logs.go:192-201 | overwriting the oldest slot drops the oldest line |
| LogBacklog.ForEachLogLine | internal/container/logs.go:135-176 | every surviving line of the stream reaches the ring in order, and the raw lines are counted |
| LogBacklog.SurvivorsAre | internal/container/logs.go:153-163 | a line is dropped or shown with its level, each by itself |
| LogBacklog.StreamedLines | internal/container/logs.go:135-176 | a log streamed in any pieces gives its lines, each bounded |
| LogBacklog.SuffixIsEnough | internal/container/logs.go:107-128 | a full ring or a short read shows what the whole log would |
| LogBacklog.FetchBacklog | internal/container/logs.go:112-123 | one fetch fills the ring with the last survivors of what it fetched |
| LogBacklog.EmitFilteredBacklog | internal/container/logs.go:102-131 | for any limit, any filter and a log that may change between fetches, exactly the last surviving lines of the log of the final fetch are emitted, oldest first; a stream that breaks off emits nothing and fails, and one that the caller cancels emits the last surviving lines of what it delivered, without an error |
| LogBacklog.FetchesAreInTurn | internal/container/logs.go:102-131 | there are at most six fetches, also when the first multiplication wraps, and there is a further one, for eight times as much, exactly if the one before came through with as many lines as asked for and too few of them survived |
| LogBacklog.WrittenLinesAreSplit | internal/container/logs.go:230-264 | the lines are the stretches between the newlines of the bytes written, without a closing carriage return, each bounded |
| LogBacklog.BacklogAsWritten | internal/container/logs.go:102-176 | those lines are the last surviving ones of the bytes as the container wrote them, with the same text however they are cut into reads; only the count of dropped bytes may be one too many, where a read parts a carriage return from its newline |
| SnapArchive.ParseArchive | internal/snap/snap.go:153-179 | the index loops parse as the recursive reading of the format does |
| SnapArchive.ReadValue | internal/snap/snap.go:161-174 | the value is the lines up to the next terminator line, and its absence is detected |
| SnapArchive.FormatArchive | internal/snap/snap.go:185-202 | the entries are printed in some order by name, nothing being promised about entries of one name |
| SnapArchive.SortingIsUnique | internal/snap/snap.go:185-187 | entries with distinct names have one order |
| SnapArchive.ParseOfFormat | internal/snap/snap.go:153-202 | parsing a formatted archive gives the same entries in the printed order, each value ending its last line |
| SnapArchive.ParseOfDistinctNames | internal/snap/snap.go:153-202 | and with distinct names that is the order by name, whatever the sort |
| SnapArchive.ReadEntriesAreStorable | internal/snap/snap.go:153-179 | whatever text is parsed, its entries can be printed and read back unchanged |
| SnapArchive.GuardIsExact | internal/snap/snap.go:283-306 | for every order the sort may give, the guard accepts a value if and only if none of its lines is the terminator and no other value of the name is printed first |
| SnapArchive.GuardForOneName | internal/snap/snap.go:283-306 | so for a name that no two entries share, if and only if none of its lines is the terminator |
| SnapArchive.RepeatedNameMayBeRefused | internal/snap/snap.go:283-306 | whenever the name keeps another value, there is an order in which a value that could be stored is refused |
| SnapArchive.GuardIsRightForOneValue | internal/snap/snap.go:283-306 | the guard accepts exactly the storable values in every order the sort may give if and only if a storable value leaves the name with no other value |
| SnapArchive.SecondValueMayBeRefused | internal/snap/snap.go:283-306 | an archive with two values of one name, where the guard may refuse a value that could be stored |
| SnapArchive.UnstorableIsNotReadBack | internal/snap/snap.go:297-306 | a value with a terminator line that is the first of its name never reads back, whatever follows |
| SnapArchive.EarlierIsReadBack | internal/snap/snap.go:297-306 | nor does it when another value of the name comes first |
| SnapArchive.WriteReadsBack | internal/snap/snap.go:283-314 | after a write the name reads back as the new value, and every other name that has one value as before |
| SnapArchive.WriteIsMapUpdate | internal/snap/snap.go:283-314 | in an archive with distinct names exactly the storable values are written, and a write replaces the value of the name and changes no other |
| SnapArchive.EntryValue | internal/snap/snap.go:217-224 | the value of the first entry with the name |
| SnapArchive.UpsertEntry | internal/snap/snap.go:285-295 | the first entry of the name is replaced, or one is added |
| SnapArchive.ArchiveFile.WriteEntry | internal/snap/snap.go:283-314 | the file is written if and only if the guard accepts, for a name that no two entries share if and only if the value can be stored; then the name reads as the new value and the others as before |
| SnapArchive.CleanReadsBack | internal/snap/snap.go:356-382 | an archive of the visited entries reads as nothing for the others and as before for a visited name; for a name with several values it reads as one of them |
| SnapArchive.LiveEntries | internal/snap/snap.go:361-374 | the visited entries in order, and how many are obsolete |
| SnapArchive.ArchiveFile.CleanEntries | internal/snap/snap.go:356-382 | only an update with obsolete entries writes, unvisited names then read as nothing and visited ones as before; an archive with nothing left is removed |
| TextWrap.HardWrap | internal/ui/wrap/wrap.go:10-27 | the runes cut every maxWidth, joined by newlines; a width that is not positive changes nothing |
| TextWrap.HardWrapLines | internal/ui/wrap/wrap.go:10-27 | the lines concatenate to the input, and all but the last are exactly maxWidth |
| TextWrap.ChunksCutExactly | internal/ui/wrap/wrap.go:10-27 | the same for any text, newlines or not |
| TextWrap.FieldsAtSpace | internal/ui/wrap/wrap.go:36 | white space separates the words of what is before it from those after it |
| TextWrap.FieldsOfWord | internal/ui/wrap/wrap.go:36 | and what has no white space is one word: with the law above that says what the words of any text are |
| TextWrap.SoftWrap | internal/ui/wrap/wrap.go:31-90 | the loops fill lines as the word-by-word placement does |
| TextWrap.PlaceChunks | internal/ui/wrap/wrap.go:54-66 | an over-long word is cut into full chunks, the last of which may stay open |
| TextWrap.SoftLinesWidth | internal/ui/wrap/wrap.go:31-90 | no line is over-wide if and only if the text fits, or the width is positive and the text has a word |
| TextWrap.SoftLinesKeepText | internal/ui/wrap/wrap.go:31-90 | the non-space runes survive in order, for every text and width |
| TextWrap.SoftLinesCutPieces | internal/ui/wrap/wrap.go:31-90 | every line is a run of consecutive words or cut pieces joined by single spaces, and each is used once |
| TextWrap.SoftLinesAreFewest | internal/ui/wrap/wrap.go:31-90 | when every word fits, no way of cutting the words into lines that fit has fewer lines |
| TextWrap.SoftLinesAreLayout | internal/ui/wrap/wrap.go:31-90 | and the lines are such a way |
| TextWrap.FittingLinesAreFull | internal/ui/wrap/wrap.go:71-84 | such lines break only where the next word does not fit |
| TextWrap.LongWordsGoAsChunks | internal/ui/wrap/wrap.go:48-67 | an over-long word begins a line of its own and goes on as if its chunks were words |
| TextWrap.WrapLine | cmd/help.go:79-104 | the builder loop reflows the words without ever cutting one |
| TextWrap.WrappedLineKeepsWords | cmd/help.go:79-104 | a line that fits or is indented is left as it is, and every other keeps its words |
| TextWrap.WrappedLinesAreFull | cmd/help.go:79-104 | it is broken only where the next word does not fit, and a part that is still too wide is a single word |
| TextWrap.WrapLineAgreesWithSoftWrap | cmd/help.go:79-104 | on unindented text it equals the joined SoftWrap lines if and only if nothing needs wrapping, or there is a word and all words fit |
| EmulatorTypeLens.HeaderPattern | internal/config/emulator_type.go:22 | the position scanner finds a header if and only if the header pattern matches, and where it ends |
| EmulatorTypeLens.TablePattern | internal/config/emulator_type.go:23 | it finds a table header if and only if the table pattern matches |
| EmulatorTypeLens.TypePattern | internal/config/emulator_type.go:15 | it finds a value if and only if the type pattern matches, and exactly the captured one |
| EmulatorTypeLens.TomlIsSound | internal/config/emulator_type.go:15-24 | the three patterns meet the laws the lens needs: a header is known by its own characters, and a type line with another word is a type line and no table header |
| EmulatorTypeLens.CutSearchAgrees | internal/config/emulator_type.go:62-71 | cutting the block at the next table header and then searching finds the first type line before any table header, or nothing |
| EmulatorTypeLens.Find | internal/config/emulator_type.go:58-71 | the search finds the place the lens is about |
| EmulatorTypeLens.FirstMatchIsFirst | internal/config/emulator_type.go:58-67 | a pattern matches at the first line that it can |
| EmulatorTypeLens.ReadAfterWrite | internal/config/emulator_type.go:43-83 | reading after writing gives the written type |
| EmulatorTypeLens.WriteCurrent | internal/config/emulator_type.go:72-74 | writing the current type changes nothing |
| EmulatorTypeLens.WriteTwice | internal/config/emulator_type.go:43-83 | the second of two writes wins |
| EmulatorTypeLens.WriteTouchesOnlyTheValue | internal/config/emulator_type.go:75-78 | every byte outside the value is unchanged |
| EmulatorTypeLens.TomlLens | internal/config/emulator_type.go:43-83 | the three laws for the config file, and no change where there is nothing to set |
| EmulatorTypeLens.ConfigFile.SetEmulatorType | internal/config/emulator_type.go:43-83 | the file becomes what the lens writes, and the two errors are told apart |
| ExecEnvironment.Environment.Remove | internal/awscli/exec.go:230-239 | the in-place compaction drops exactly one variable and keeps the order |
| ExecEnvironment.Environment.Set | internal/awscli/exec.go:225-228 | one entry of the variable is left, at the end |
| ExecEnvironment.Environment.SetIfAbsent | internal/awscli/exec.go:213-221 | an entry is added only if there is none |
| ExecEnvironment.BuildEnv | internal/awscli/exec.go:197-211 | the base list is neither changed nor shared with the result |
| ExecEnvironment.ExecEnv | internal/awscli/exec.go:149-185 | the same for both modes |
| ExecEnvironment.ExecEnvIsExpected | internal/awscli/exec.go:149-211 | the entries of each variable in the child, and the order of all that are not managed |
| ExecEnvironment.ChildCredentials | internal/awscli/exec.go:149-211 | the session token is always gone; key id and secret are both there or both gone |
| ExecEnvironment.ChildProfile | internal/awscli/exec.go:149-185 | in profile mode exactly one entry selects a profile |
| ExecEnvironment.PrefixIsKey | internal/awscli/exec.go:213-239 | an entry with the prefix "key=" is an entry of that variable, and the other way round |
| ProxyFlags.StripLeadingProxyFlags | cmd/proxy.go:289-338 | the loop gives the tokens, the last values and the error of the leading run |
| ProxyFlags.RunIsTheOnlyReading | cmd/proxy.go:289-338 | a run is the leading one if and only if it is a reading of the arguments: flags with their values, other tokens and at most one bare one after each, up to the action |
| ProxyFlags.LastRegionCounts | cmd/proxy.go:289-338 | of several regions the last one counts |
| ProxyFlags.LastAccountCounts | cmd/proxy.go:289-338 | and of several accounts |
| ProxyFlags.LastChdirCounts | cmd/proxy.go:289-338 | and of several directories |
| ProxyFlags.NoValueWithoutFlag | cmd/proxy.go:289-338 | without such a flag there is no value |
| ProxyFlags.RunPartitionsArgs | cmd/proxy.go:289-338 | the items of the run as written, then the rest, are the arguments: nothing is lost, added or reordered |
| ProxyFlags.RunTakesExactlyItsFlags | cmd/proxy.go:289-338 | only recognised flags are taken, none is forwarded within the run, and the rest starts with the action |
| ProxyFlags.SecondBareTokenEndsTheRun | cmd/proxy.go:289-338 | from the second of two consecutive tokens without a dash on, nothing belongs to the run |
| ProxyFlags.BareTokensAreForwarded | cmd/proxy.go:289-338 | and the arguments from there on are forwarded as they are, with no missing value |
| ProxyFlags.MissingOnlyAtTheEnd | cmd/proxy.go:289-338 | a value is missing only after a recognised flag that is the last argument |
| PodReference.RefRoundTrip | internal/snapshot/destination.go:110-159 | parsing the printed form of a valid name and a version below 2^31 gives both back; a destination refuses the pinned form |
| PodReference.RefsAreClassified | internal/snapshot/destination.go:272-302 | the beginning of a reference, in any case, says what it is: each refusal, S3 URL and local path has its exact condition |
| PodReference.PodIsAccepted | internal/snapshot/destination.go:127-159 | a reference denotes a pod and a version if and only if it writes them, the name is allowed, and the version is none, or one below 2^31 where one may be given |
| PodReference.OnlyPodsAreCloud | internal/snapshot/destination.go:211-233 | commands for cloud snapshots refuse local paths and remotes, each with its own error and exactly those |
| PodReference.ReprintedRefParses | internal/snapshot/destination.go:272-291 | printing what an accepted reference denotes gives a reference that denotes the same |
| PodReference.CanonicalRefs | internal/snapshot/destination.go:110-159 | an accepted reference is already in the printed form if and only if its prefix is lower case and its version has no leading zero |
| PodReference.AcceptedRefs | internal/snapshot/destination.go:127-159 | an accepted reference names a valid pod and a version in range, and none where none is allowed |
| PodReference.VersionsAreNeverDropped | internal/snapshot/destination.go:193-233 | commands that cannot honour a version accept exactly the references without one, and refuse the others |
| PodReference.AllowListDecides | internal/validate/validate.go:93-112 | the ordered refusals only refine the message: a name is valid if and only if it is short enough and of allowed characters |
| PodReference.FirstRuleIsTold | internal/validate/validate.go:93-112 | a bad name is told the first rule that it breaks |
| Decimal.ValueOfItoa | internal/snapshot/destination.go:110-141 | reading a printed number gives it back |
| Decimal.ItoaOfValue | internal/snapshot/destination.go:110-141 | digits without a leading zero are what printing their value gives |
| ByteWriters.LogTail.Write | internal/container/logtail.go:22-36 | the buffer holds the last bytes of what it held and what is written |
| ByteWriters.LogTail.WriteAll | internal/container/logtail.go:22-42 | however the bytes are cut into writes, their last maxBytes are held |
| ByteWriters.LogLineWriter.Write | internal/update/update.go:100-116 | the completed lines that are not empty are emitted, the rest is kept |
| ByteWriters.LogLineWriter.Flush | internal/update/update.go:119-126 | the rest is emitted |
| ByteWriters.LogLineWriter.WriteAll | internal/update/update.go:100-126 | however the bytes are cut, writing and flushing emits exactly the non-empty pieces between newlines, in order |
| ByteWriters.CutAnywhere | internal/update/update.go:100-116 | a stream may be cut anywhere: what was left over goes on |

## Left out

- Input and output: HTTP, the Docker SDK, files, the keyring, terminals, clocks and goroutine scheduling appear only
  as the answers and events they produce; a `select` may pick any event that is ready.
- User interface, telemetry, tracing, Cobra wiring, the wording of messages and `errors.As` chains: errors are
  kinds, warnings are the ports, mappings or lines they are about.
- StartupMonitor.Monitor.Await: does not tell a cancelled context from one whose deadline passed, because both end
  the wait in the same way.
- RemovalSafety.EveryHitIsSafe: does not bound the number of retries, which `PublishedPorts.EveryAttemptIsSound`
  does, and leaves the container that `await` stops by its id to the events of others, because stopping by id cannot
  reach another container.
- LicenseRetry.Session.StartContainers: takes the outcome of a container, with what its logs indicate, as an answer,
  because waiting for it is `StartupMonitor`; and assumes that nobody else writes the cached license file, because
  the protocol promises nothing then.
- LicenseRetry.UnforcedAsksAbsent: takes the version asked for as configured, because its spelling for the server
  (`NormalizeTag`) is not part of this model.
- LicenseRetry.Session.Start: does not model the new login after a rejection, which runs the whole start again.
- PublishedPorts.MergeExposePorts: keys its tables by a port and a protocol instead of the joined text, because
  the two are told apart in the same way.
- PublishedPorts.EveryAttemptIsSound: says one-to-one as text, which is how lstk compares ports; what it takes to be
  one-to-one for the daemon is in `PortNumbers.EveryAttemptIsBound`.
- PortNumbers.BindPorts: reads a port as `strconv.Atoi` does, because `network.ParsePort` is not part of this model;
  where that refuses a number the start ends and nothing is published.
- PublishedPorts.FailedOptionalPortBind: takes the daemon's error text as a flag and a set of named ports, because
  the text is the daemon's.
- PublishedPorts.ExposedPorts: gives no error text, and white space and letter case are those of ASCII and of
  Unicode's White_Space property, because `strconv` and `strings` are not part of this model.
- GatewayListen.EnvValueReadsBack: takes the validity of an address as a parameter and requires of it that one
  without a colon is made of digits and dots, because `netip.ParseAddr` is not part of this model.
- `bindHost`, `annotateRequiredPortBindError` and the drop hints: a default and wording.
- LogBacklog.EmitFilteredBacklog: leaves open which lines are filtered and their levels, because any filter will do;
  and takes the ring's memory as given, because a limit whose product wraps asks for more than any machine has and
  ends the program before the first fetch. Following a log and choosing a tail (`Logs`) are not modelled.
- SnapArchive.FormatArchive: sorts a value where the program sorts a slice in place, because nothing uses the slice
  afterwards; `Match`, `MatchJSON`, `Clean` and the orphaned archives are not modelled.
- SnapArchive.WriteReadsBack: promises nothing for another name that has several values, because the order they are
  printed in is open.
- SnapArchive.ArchiveFile.WriteEntry: requires a non-empty name without a newline, because callers make names from
  test names and counters.
- EmulatorTypeLens.ConfigFile.SetEmulatorType: does not model read and write errors or the reload after the write,
  because they do not depend on the text.
- ExecEnvironment.Environment.Append: grows by its own rule, because Go leaves the growth of a slice open.
- `stripGlobalFlags`, `stripPreCommandEndpointURL` and `rejectPreSubcommandFlags`: simpler scanners beside the one
  modelled.
- PodReference.RefRoundTrip: leaves local paths and S3 URLs to the file system and the URL parser.
- `setInFile`: its pattern matches in any section, so it has no specification to prove.
