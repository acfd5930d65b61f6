// pullImage (internal/container/start.go) as its concurrent parties: the goroutine that
// pulls, the goroutine that reports progress, the user who may skip, and the caller
// that waits for one of them. A step of the machine is one action of one party.
module PullImage {
  import opened Sequences

  datatype Message = Message(downloading: bool, detail: int)

  datatype PullError = Cancelled | Failed

  datatype Config = Config(localExists: bool, interactive: bool) {
    predicate Skippable() {
      localExists && interactive
    }
  }

  // What the sink sees.
  datatype Event =
    | SpinnerStart
    | Pulling
    | PullSkippable
    | Progress(m: Message)
    | SpinnerStop
    | KeepingLocal
    | UsingLocal
    | PullFailed
    | Pulled
  {
    // Events that may follow the spinner's stop.
    predicate Closing() {
      KeepingLocal? || UsingLocal? || PullFailed? || Pulled?
    }
  }

  // The puller: between messages, blocked on sending one, returning (its deferred close
  // of the progress channel still to run), closed, and gone, its result delivered. How
  // many messages the daemon still sends is up to the daemon, but finite.
  datatype Puller =
    | Fetching(left: nat)
    | Offering(m: Message, left: nat)
    | Returning(err: Option<PullError>)
    | Closed(err: Option<PullError>)
    | Gone(err: Option<PullError>)

  datatype Reader = Receiving | Got(m: Message) | Finished

  datatype Caller =
    | Selecting                             // in the select
    | Joining(err: Option<PullError>)       // took the result, waits for the reader
    | Skipping                              // took the skip, waits for the result
    | Draining                              // ... then for the reader
    | Deciding(err: Option<PullError>)      // spinner stopped
    | Keeping                               // spinner stopped after a skip
    | Returned(usedLocal: bool, err: Option<PullError>)

  datatype State = State(
    cfg: Config,
    puller: Puller,
    reader: Reader,
    armed: bool,                            // the reader has offered the skip
    pressed: bool,                          // the user has pressed the key
    skipCh: bool,                           // one buffered skip
    errCh: Option<Option<PullError>>,       // one buffered result
    caller: Caller,
    log: seq<Event>)
  {
    function Emit(e: Event): State {
      this.(log := log + [e])
    }

    predicate ProgressClosed() {
      puller.Closed? || puller.Gone?
    }
  }

  datatype Action =
    | Offer(m: Message)                     // puller: decodes a message and sends it
    | Finish(err: Option<PullError>)        // puller: end of stream, error or cancellation
    | Handover                              // puller and reader: the unbuffered send
    | CloseProgress
    | SendResult
    | Announce                              // reader: offers the skip
    | Report                                // reader: reports progress
    | SeeClosed                             // reader: the range loop ends
    | Press                                 // user
    | TakeResult                            // caller: select, first case
    | TakeSkip                              // caller: select, second case; cancels the pull
    | JoinPuller
    | StopSpinner                           // caller: the reader is done
    | Decide

  // The reader shows the hint once, when real downloading begins.
  predicate MustAnnounce(s: State) {
    s.reader.Got? && s.cfg.Skippable() && !s.armed && s.reader.m.downloading
  }

  predicate Enabled(s: State, a: Action) {
    match a
    case Offer(_) => s.puller.Fetching? && s.puller.left > 0
    case Finish(_) => s.puller.Fetching?
    case Handover => s.puller.Offering? && s.reader.Receiving?
    case CloseProgress => s.puller.Returning?
    case SendResult => s.puller.Closed? && s.errCh == None
    case Announce => MustAnnounce(s)
    case Report => s.reader.Got? && !MustAnnounce(s)
    case SeeClosed => s.reader.Receiving? && s.ProgressClosed()
    case Press => PullSkippable in s.log && !s.pressed
    case TakeResult => s.caller.Selecting? && s.errCh.Some?
    case TakeSkip => s.caller.Selecting? && s.skipCh
    case JoinPuller => s.caller.Skipping? && s.errCh.Some?
    case StopSpinner => (s.caller.Joining? || s.caller.Draining?) && s.reader.Finished?
    case Decide => s.caller.Deciding? || s.caller.Keeping?
  }

  function Next(s: State, a: Action): State
    requires Enabled(s, a)
  {
    match a
    case Offer(m) => s.(puller := Offering(m, s.puller.left - 1))
    case Finish(err) => s.(puller := Returning(err))
    case Handover => s.(puller := Fetching(s.puller.left), reader := Got(s.puller.m))
    case CloseProgress => s.(puller := Closed(s.puller.err))
    case SendResult => s.(puller := Gone(s.puller.err), errCh := Some(s.puller.err))
    case Announce => s.Emit(PullSkippable).(armed := true)
    case Report => s.Emit(Progress(s.reader.m)).(reader := Receiving)
    case SeeClosed => s.(reader := Finished)
    case Press => s.(pressed := true, skipCh := true)
    case TakeResult => s.(caller := Joining(s.errCh.value), errCh := None)
    case TakeSkip => s.(caller := Skipping, skipCh := false)
    case JoinPuller => s.(caller := Draining, errCh := None)
    case StopSpinner =>
      s.Emit(SpinnerStop).(caller := if s.caller.Joining? then Deciding(s.caller.err) else Keeping)
    case Decide =>
      if s.caller.Keeping? then s.Emit(KeepingLocal).(caller := Returned(true, None))
      else match s.caller.err
        case None => s.Emit(Pulled).(caller := Returned(false, None))
        case Some(Cancelled) => s.(caller := Returned(false, Some(Cancelled)))
        case Some(Failed) =>
          if s.cfg.localExists then s.Emit(UsingLocal).(caller := Returned(true, None))
          else s.Emit(PullFailed).(caller := Returned(false, Some(Failed)))
  }

  function Init(cfg: Config, messages: nat): State {
    State(cfg, Fetching(messages), Receiving, false, false, false, None, Selecting, [SpinnerStart, Pulling])
  }

  // The state after an interleaving of the parties, if it is one.
  function After(cfg: Config, messages: nat, actions: seq<Action>): Option<State> {
    if actions == [] then Some(Init(cfg, messages))
    else
      match After(cfg, messages, actions[..|actions| - 1])
      case None => None
      case Some(t) => if Enabled(t, actions[|actions| - 1]) then Some(Next(t, actions[|actions| - 1])) else None
  }

  // ----- The invariant -----

  predicate Stopped(s: State) {
    s.caller.Deciding? || s.caller.Keeping? || s.caller.Returned?
  }

  // Nothing but a closing message follows the spinner's stop.
  ghost predicate Quiet(log: seq<Event>) {
    forall i, j :: 0 <= i < j < |log| && log[i] == SpinnerStop ==> log[j].Closing()
  }

  // The hint is shown only when skipping is possible.
  ghost predicate ReaderInv(s: State) {
    && (s.armed <==> PullSkippable in s.log)
    && (s.armed ==> s.cfg.Skippable())
    && (s.pressed ==> s.armed)
    && (s.skipCh ==> s.pressed)
    && (s.reader.Finished? ==> s.ProgressClosed())
  }

  ghost predicate CallerInv(s: State) {
    && s.errCh.Some? == (s.puller.Gone? && (s.caller.Selecting? || s.caller.Skipping?))
    && (s.errCh.Some? ==> s.errCh.value == s.puller.err)
    && (!s.caller.Selecting? && !s.caller.Skipping? ==> s.puller.Gone?)
    && (s.caller.Joining? || s.caller.Deciding? ==> s.caller.err == s.puller.err)
    && (s.caller.Skipping? || s.caller.Draining? || s.caller.Keeping? ==> s.pressed)
    && (Stopped(s) ==> s.reader.Finished?)
  }

  ghost predicate LogInv(s: State) {
    && s.log != []
    && Quiet(s.log)
    && (SpinnerStop in s.log <==> Stopped(s))
    && (s.caller.Deciding? || s.caller.Keeping? ==> s.log[|s.log| - 1] == SpinnerStop)
  }

  // How the call ends: the last event, the daemon's verdict and the result agree.
  ghost predicate EndInv(s: State) {
    s.caller.Returned? && s.log != [] ==> EndsIn(s, s.log[|s.log| - 1])
  }

  ghost predicate EndsIn(s: State, last: Event)
    requires s.caller.Returned?
  {
    match last
    case KeepingLocal => s.caller == Returned(true, None) && s.cfg.Skippable() && s.pressed && s.puller.Gone?
    case UsingLocal => s.caller == Returned(true, None) && s.cfg.localExists && s.puller == Gone(Some(Failed))
    case Pulled => s.caller == Returned(false, None) && s.puller == Gone(None)
    case PullFailed =>
      s.caller == Returned(false, Some(Failed)) && !s.cfg.localExists && s.puller == Gone(Some(Failed))
    case SpinnerStop => s.caller == Returned(false, Some(Cancelled)) && s.puller == Gone(Some(Cancelled))
    case _ => false
  }

  ghost predicate Inv(s: State) {
    ReaderInv(s) && CallerInv(s) && LogInv(s) && (s.caller.Returned? ==> s.puller.Gone?) && EndInv(s)
  }

  lemma EmitKeepsQuiet(log: seq<Event>, e: Event)
    requires Quiet(log) && (SpinnerStop in log ==> e.Closing())
    ensures Quiet(log + [e])
  {
  }

  lemma StepKeepsInv(s: State, a: Action)
    requires Inv(s) && Enabled(s, a)
    ensures Inv(Next(s, a))
  {
    match a {
      case Announce => EmitKeepsQuiet(s.log, PullSkippable);
      case Report => EmitKeepsQuiet(s.log, Progress(s.reader.m));
      case StopSpinner => EmitKeepsQuiet(s.log, SpinnerStop);
      case Decide => DecideKeepsInv(s);
      case _ =>
    }
  }

  // Returning with a closing message that says why.
  lemma ClosingKeepsInv(s: State, e: Event, caller: Caller)
    requires Inv(s) && Enabled(s, Decide) && e.Closing() && caller.Returned?
    requires EndsIn(s.Emit(e).(caller := caller), e)
    ensures Inv(s.Emit(e).(caller := caller))
  {
    var t := s.Emit(e).(caller := caller);
    EmitKeepsQuiet(s.log, e);
    assert t.log[|t.log| - 1] == e;
    assert SpinnerStop in t.log && (PullSkippable in t.log <==> PullSkippable in s.log);
  }

  lemma DecideKeepsInv(s: State)
    requires Inv(s) && Enabled(s, Decide)
    ensures Inv(Next(s, Decide))
  {
    if s.caller.Keeping? {
      ClosingKeepsInv(s, KeepingLocal, Returned(true, None));
    } else {
      match s.caller.err {
        case None => ClosingKeepsInv(s, Pulled, Returned(false, None));
        case Some(Cancelled) =>
        case Some(Failed) =>
          if s.cfg.localExists {
            ClosingKeepsInv(s, UsingLocal, Returned(true, None));
          } else {
            ClosingKeepsInv(s, PullFailed, Returned(false, Some(Failed)));
          }
      }
    }
  }

  // The last action of an interleaving.
  lemma LastAction(cfg: Config, messages: nat, actions: seq<Action>, s: State)
    returns (before: seq<Action>, t: State, a: Action)
    requires After(cfg, messages, actions) == Some(s) && actions != []
    ensures actions == before + [a] && After(cfg, messages, before) == Some(t) && Enabled(t, a) && s == Next(t, a)
  {
    before, a := actions[..|actions| - 1], actions[|actions| - 1];
    t := After(cfg, messages, before).value;
  }

  lemma ActionKeepsConfig(s: State, a: Action)
    requires Enabled(s, a)
    ensures Next(s, a).cfg == s.cfg
  {
  }

  lemma {:induction false} RunKeepsInv(cfg: Config, messages: nat, actions: seq<Action>, s: State)
    requires After(cfg, messages, actions) == Some(s)
    ensures Inv(s) && s.cfg == cfg
    decreases |actions|
  {
    if actions == [] {
    } else {
      var before, t, a := LastAction(cfg, messages, actions, s);
      RunKeepsInv(cfg, messages, before, t);
      StepKeepsInv(t, a);
      ActionKeepsConfig(t, a);
    }
  }

  // ----- What holds of every interleaving -----

  // Until the call returns, lstk or the daemon can take a step: nobody waits forever for
  // the user or for each other.
  lemma NeverDeadlocks(cfg: Config, messages: nat, actions: seq<Action>, s: State) returns (a: Action)
    requires After(cfg, messages, actions) == Some(s) && !s.caller.Returned?
    ensures Enabled(s, a) && a != Press
  {
    RunKeepsInv(cfg, messages, actions, s);
    a := match s.puller
      case Fetching(_) => Finish(None)
      case Returning(_) => CloseProgress
      case Closed(_) => SendResult
      case Offering(_, _) =>
        if s.reader.Receiving? then Handover else if MustAnnounce(s) then Announce else Report
      case Gone(_) =>
        if s.caller.Selecting? then TakeResult
        else if s.caller.Skipping? then JoinPuller
        else if Stopped(s) then Decide
        else if s.reader.Finished? then StopSpinner
        else if s.reader.Receiving? then SeeClosed
        else if MustAnnounce(s) then Announce
        else Report;
  }

  function PullerWork(p: Puller): nat {
    match p
    case Fetching(left) => 5 * left + 4
    case Offering(_, left) => 5 * left + 8
    case Returning(_) => 3
    case Closed(_) => 2
    case Gone(_) => 1
  }

  function ReaderWork(r: Reader): nat {
    match r
    case Receiving => 1
    case Got(_) => 3
    case Finished => 0
  }

  function CallerWork(c: Caller): nat {
    match c
    case Selecting => 5
    case Skipping => 4
    case Joining(_) => 3
    case Draining => 3
    case Deciding(_) => 2
    case Keeping => 2
    case Returned(_, _) => 0
  }

  // How much is left to do: every action of every party uses some of it up.
  function Work(s: State): nat {
    PullerWork(s.puller) + ReaderWork(s.reader) + CallerWork(s.caller)
    + (if s.armed then 0 else 1) + if s.pressed then 0 else 1
  }

  predicate ByPuller(a: Action) {
    a.Offer? || a.Finish? || a.CloseProgress? || a.SendResult?
  }

  predicate ByReader(a: Action) {
    a.Handover? || a.Announce? || a.Report? || a.SeeClosed?
  }

  lemma PullerWorks(s: State, a: Action)
    requires Enabled(s, a) && ByPuller(a)
    ensures Work(Next(s, a)) < Work(s)
  {
  }

  lemma ReaderWorks(s: State, a: Action)
    requires Enabled(s, a) && ByReader(a)
    ensures Work(Next(s, a)) < Work(s)
  {
  }

  lemma CallerWorks(s: State, a: Action)
    requires Enabled(s, a) && !ByPuller(a) && !ByReader(a)
    ensures Work(Next(s, a)) < Work(s)
  {
  }

  lemma EveryStepWorks(s: State, a: Action)
    requires Enabled(s, a)
    ensures Work(Next(s, a)) < Work(s)
  {
    if ByPuller(a) {
      PullerWorks(s, a);
    } else if ByReader(a) {
      ReaderWorks(s, a);
    } else {
      CallerWorks(s, a);
    }
  }

  // So a run is never longer than the work there was at its start.
  lemma {:induction false} RunsAreFinite(cfg: Config, messages: nat, actions: seq<Action>, s: State)
    requires After(cfg, messages, actions) == Some(s)
    ensures |actions| + Work(s) <= 5 * messages + 12
  {
    if actions == [] {
    } else {
      var t := After(cfg, messages, actions[..|actions| - 1]).value;
      RunsAreFinite(cfg, messages, actions[..|actions| - 1], t);
      EveryStepWorks(t, actions[|actions| - 1]);
    }
  }

  // The spinner stops at k, once, and only a closing message comes after.
  ghost predicate StopsOnceAt(log: seq<Event>, k: nat) {
    && k < |log| && log[k] == SpinnerStop
    && (forall j :: 0 <= j < k ==> log[j] != SpinnerStop)
    && (forall j :: k < j < |log| ==> log[j].Closing())
  }

  lemma QuietStopsOnce(log: seq<Event>)
    requires Quiet(log) && SpinnerStop in log
    ensures StopsOnce(log)
  {
    var k: nat :| k < |log| && log[k] == SpinnerStop;
    forall j | 0 <= j < k
      ensures log[j] != SpinnerStop
    {
      assert log[j] == SpinnerStop ==> log[k].Closing();
    }
    assert StopsOnceAt(log, k);
  }

  ghost predicate StopsOnce(log: seq<Event>) {
    exists k :: StopsOnceAt(log, k)
  }

  lemma InvAtReturn(s: State)
    requires Inv(s) && s.caller.Returned?
    ensures s.puller.Gone? && s.reader.Finished? && StopsOnce(s.log)
    ensures s.caller.usedLocal ==> s.cfg.localExists
    ensures s.log != [] && EndsIn(s, s.log[|s.log| - 1])
  {
    QuietStopsOnce(s.log);
  }

  // When the call returns, both goroutines have finished; the spinner stopped exactly
  // once, and after that no progress and no hint was shown; a local image is reported as
  // used only when there was one, skipped to or fallen back on.
  lemma ReturnsCleanly(cfg: Config, messages: nat, actions: seq<Action>, s: State)
    requires After(cfg, messages, actions) == Some(s) && s.caller.Returned?
    ensures s.puller.Gone? && s.reader.Finished? && StopsOnce(s.log)
    ensures s.caller.usedLocal ==> cfg.localExists
    ensures s.log != [] && EndsIn(s, s.log[|s.log| - 1])
  {
    RunKeepsInv(cfg, messages, actions, s);
    InvAtReturn(s);
  }

  ghost predicate HintedOnce(log: seq<Event>) {
    forall j, k :: 0 <= j < k < |log| && log[j] == PullSkippable ==> log[k] != PullSkippable
  }

  // The hint is shown at most once, and only when skipping is possible.
  lemma {:induction false} HintShownOnce(cfg: Config, messages: nat, actions: seq<Action>, s: State)
    requires After(cfg, messages, actions) == Some(s)
    ensures HintedOnce(s.log)
    ensures PullSkippable in s.log ==> cfg.localExists && cfg.interactive
  {
    RunKeepsInv(cfg, messages, actions, s);
    if actions != [] {
      var t := After(cfg, messages, actions[..|actions| - 1]).value;
      HintShownOnce(cfg, messages, actions[..|actions| - 1], t);
      RunKeepsInv(cfg, messages, actions[..|actions| - 1], t);
      StepHintsOnce(t, actions[|actions| - 1]);
    }
  }

  lemma StepHintsOnce(s: State, a: Action)
    requires Enabled(s, a) && ReaderInv(s) && HintedOnce(s.log)
    ensures HintedOnce(Next(s, a).log)
  {
  }

  // ----- A skip that comes too late -----

  predicate SkipTaken(s: State) {
    || s.caller.Skipping? || s.caller.Draining? || s.caller.Keeping?
    || (s.caller.Returned? && s.log != [] && s.log[|s.log| - 1] == KeepingLocal)
  }

  predicate PullEnded(s: State, err: Option<PullError>) {
    (s.puller.Returning? || s.puller.Closed? || s.puller.Gone?) && s.puller.err == err
  }

  lemma StepSkips(s: State, a: Action)
    requires Enabled(s, a) && Inv(s)
    ensures SkipTaken(Next(s, a)) <==> SkipTaken(s) || a == TakeSkip
  {
  }

  lemma StepEnds(s: State, a: Action, err: Option<PullError>)
    requires Enabled(s, a)
    ensures PullEnded(Next(s, a), err) <==> PullEnded(s, err) || a == Finish(err)
  {
  }

  lemma {:induction false} RunSkipsAndEnds(cfg: Config, messages: nat, actions: seq<Action>, s: State,
                                           err: Option<PullError>)
    requires After(cfg, messages, actions) == Some(s)
    ensures SkipTaken(s) <==> TakeSkip in actions
    ensures PullEnded(s, err) <==> Finish(err) in actions
    decreases |actions|
  {
    if actions == [] {
    } else {
      var before, t, a := LastAction(cfg, messages, actions, s);
      RunSkipsAndEnds(cfg, messages, before, t, err);
      RunKeepsInv(cfg, messages, before, t);
      StepSkips(t, a);
      StepEnds(t, a, err);
    }
  }

  // The current image is said to be kept exactly when the skip was taken; and exactly
  // when the pull had ended well all the same, the new image is in its place by then.
  lemma KeptIffSkipped(cfg: Config, messages: nat, actions: seq<Action>, s: State)
    requires After(cfg, messages, actions) == Some(s) && s.caller.Returned?
    ensures s.log != [] && (s.log[|s.log| - 1] == KeepingLocal <==> TakeSkip in actions)
    ensures s.puller == Gone(None) <==> Finish(None) in actions
  {
    RunSkipsAndEnds(cfg, messages, actions, s, None);
    ReturnsCleanly(cfg, messages, actions, s);
  }

  lemma OneMore(cfg: Config, messages: nat, actions: seq<Action>, s: State, a: Action)
    returns (longer: seq<Action>, t: State)
    requires After(cfg, messages, actions) == Some(s) && Enabled(s, a)
    ensures longer == actions + [a] && t == Next(s, a) && After(cfg, messages, longer) == Some(t)
  {
    longer, t := actions + [a], Next(s, a);
    assert longer[..|actions|] == actions;
  }

  // A run to a pull that has ended well while the key was pressed.
  lemma PulledAndPressed(cfg: Config) returns (actions: seq<Action>, s: State)
    requires cfg.Skippable()
    ensures After(cfg, 1, actions) == Some(s) && s.caller.Selecting? && s.skipCh && s.errCh == Some(None)
    ensures s.puller == Gone(None) && s.reader.Receiving?
  {
    actions, s := [], Init(cfg, 1);
    actions, s := OneMore(cfg, 1, actions, s, Offer(Message(true, 0)));
    actions, s := OneMore(cfg, 1, actions, s, Handover);
    actions, s := OneMore(cfg, 1, actions, s, Announce);
    actions, s := OneMore(cfg, 1, actions, s, Report);
    actions, s := OneMore(cfg, 1, actions, s, Press);
    actions, s := OneMore(cfg, 1, actions, s, Finish(None));
    actions, s := OneMore(cfg, 1, actions, s, CloseProgress);
    actions, s := OneMore(cfg, 1, actions, s, SendResult);
  }

  // It does happen: with both the result and the skip at hand the caller may take the
  // skip.
  lemma SkipMayComeTooLate(cfg: Config) returns (actions: seq<Action>, s: State)
    requires cfg.Skippable()
    ensures After(cfg, 1, actions) == Some(s) && s.caller == Returned(true, None)
    ensures s.log != [] && s.log[|s.log| - 1] == KeepingLocal && s.puller == Gone(None)
  {
    actions, s := PulledAndPressed(cfg);
    actions, s := OneMore(cfg, 1, actions, s, TakeSkip);
    actions, s := OneMore(cfg, 1, actions, s, JoinPuller);
    actions, s := OneMore(cfg, 1, actions, s, SeeClosed);
    actions, s := OneMore(cfg, 1, actions, s, StopSpinner);
    actions, s := OneMore(cfg, 1, actions, s, Decide);
  }

  // ----- Every message is reported, and the hint comes in time -----

  // The messages that the daemon sent.
  function Sent(actions: seq<Action>): seq<Message> {
    if actions == [] then []
    else
      var last := actions[|actions| - 1];
      if last.Offer? then Sent(actions[..|actions| - 1]) + [last.m] else Sent(actions[..|actions| - 1])
  }

  // The messages that the sink was shown.
  function Reported(log: seq<Event>): seq<Message> {
    if log == [] then []
    else
      var last := log[|log| - 1];
      if last.Progress? then Reported(log[..|log| - 1]) + [last.m] else Reported(log[..|log| - 1])
  }

  // Before which message the hint came.
  function HintAt(log: seq<Event>): Option<nat> {
    if log == [] then None
    else if log[|log| - 1] == PullSkippable then Some(|Reported(log[..|log| - 1])|)
    else HintAt(log[..|log| - 1])
  }

  // The first message about a real download.
  function FirstDownload(ms: seq<Message>): Option<nat> {
    if ms == [] then None
    else if FirstDownload(ms[..|ms| - 1]).Some? then FirstDownload(ms[..|ms| - 1])
    else if ms[|ms| - 1].downloading then Some(|ms| - 1)
    else None
  }

  lemma {:induction false} FirstDownloadIsFirst(ms: seq<Message>)
    ensures FirstDownload(ms).Some? ==>
      var k := FirstDownload(ms).value;
      k < |ms| && ms[k].downloading && forall i :: 0 <= i < k ==> !ms[i].downloading
    ensures FirstDownload(ms) == None ==> forall i :: 0 <= i < |ms| ==> !ms[i].downloading
  {
    if ms == [] {
    } else {
      FirstDownloadIsFirst(ms[..|ms| - 1]);
    }
  }

  function InHand(r: Reader): seq<Message> {
    if r.Got? then [r.m] else []
  }

  function OnOffer(p: Puller): seq<Message> {
    if p.Offering? then [p.m] else []
  }

  lemma ShownOne(log: seq<Event>, e: Event)
    ensures Reported(log + [e]) == if e.Progress? then Reported(log) + [e.m] else Reported(log)
    ensures HintAt(log + [e]) == if e == PullSkippable then Some(|Reported(log)|) else HintAt(log)
  {
    assert (log + [e])[..|log|] == log;
  }

  // An action shows at most one event.
  lemma LogGrows(s: State, a: Action) returns (e: Event)
    requires Enabled(s, a)
    ensures Next(s, a).log == s.log || Next(s, a).log == s.log + [e]
    ensures a.Report? ==> e == Progress(s.reader.m) && Next(s, a).log == s.log + [e]
    ensures a.Announce? ==> e == PullSkippable && Next(s, a).log == s.log + [e]
    ensures !a.Report? && !a.Announce? ==> !e.Progress? && e != PullSkippable
  {
    e := if a.Report? then Progress(s.reader.m)
         else if a.Announce? then PullSkippable
         else if a.StopSpinner? then SpinnerStop
         else if a.Decide? then Ending(s)
         else SpinnerStart;
  }

  function Ending(s: State): Event
    requires Enabled(s, Decide)
  {
    if s.caller.Keeping? then KeepingLocal
    else if s.caller.err == None then Pulled
    else if s.cfg.localExists then UsingLocal
    else PullFailed
  }

  lemma StepShows(s: State, a: Action)
    requires Enabled(s, a)
    ensures Reported(Next(s, a).log) == if a.Report? then Reported(s.log) + [s.reader.m] else Reported(s.log)
    ensures HintAt(Next(s, a).log) == if a.Announce? then Some(|Reported(s.log)|) else HintAt(s.log)
  {
    var e := LogGrows(s, a);
    ShownOne(s.log, e);
  }

  lemma DownloadOne(ms: seq<Message>, m: Message)
    ensures FirstDownload(ms + [m]) ==
      if FirstDownload(ms).Some? then FirstDownload(ms) else if m.downloading then Some(|ms|) else None
  {
    assert (ms + [m])[..|ms|] == ms;
  }

  // What was sent is reported, in the reader's hand, or on offer.
  ghost predicate NothingIsLost(s: State, sent: seq<Message>) {
    sent == Reported(s.log) + InHand(s.reader) + OnOffer(s.puller)
  }

  // The hint came just before the first message about a download, if skipping is possible.
  ghost predicate HintIsInTime(s: State) {
    if s.armed then
      HintAt(s.log).Some? && HintAt(s.log) == FirstDownload(Reported(s.log) + InHand(s.reader))
    else
      HintAt(s.log) == None && (s.cfg.Skippable() ==> FirstDownload(Reported(s.log)) == None)
  }

  lemma Without<T>(a: seq<T>)
    ensures a + [] == a
  {
  }

  lemma OfferLosesNothing(s: State, m: Message, sent: seq<Message>)
    requires Enabled(s, Offer(m)) && NothingIsLost(s, sent)
    ensures NothingIsLost(Next(s, Offer(m)), sent + [m])
  {
    StepShows(s, Offer(m));
    Without(Reported(s.log) + InHand(s.reader));
  }

  lemma HandoverLosesNothing(s: State, sent: seq<Message>)
    requires Enabled(s, Handover) && NothingIsLost(s, sent)
    ensures NothingIsLost(Next(s, Handover), sent)
  {
    StepShows(s, Handover);
    Without(Reported(s.log));
    Without(Reported(s.log) + [s.puller.m]);
  }

  lemma ReportLosesNothing(s: State, sent: seq<Message>)
    requires Enabled(s, Report) && NothingIsLost(s, sent)
    ensures NothingIsLost(Next(s, Report), sent)
  {
    StepShows(s, Report);
    Without(Reported(s.log) + [s.reader.m]);
  }

  lemma OfferStays(s: State, a: Action)
    requires Enabled(s, a) && !a.Offer? && !a.Handover?
    ensures OnOffer(Next(s, a).puller) == OnOffer(s.puller)
    ensures a.Announce? ==> InHand(Next(s, a).reader) == InHand(s.reader)
  {
  }

  lemma StepLosesNothing(s: State, a: Action, sent: seq<Message>)
    requires Enabled(s, a) && NothingIsLost(s, sent)
    ensures NothingIsLost(Next(s, a), if a.Offer? then sent + [a.m] else sent)
  {
    match a {
      case Offer(m) => OfferLosesNothing(s, m, sent);
      case Handover => HandoverLosesNothing(s, sent);
      case Report => ReportLosesNothing(s, sent);
      case _ =>
        StepShows(s, a);
        OfferStays(s, a);
        if !a.Announce? {
          HandStays(s, a);
        }
    }
  }

  lemma ReportKeepsHint(s: State)
    requires Enabled(s, Report) && HintIsInTime(s)
    ensures HintIsInTime(Next(s, Report))
  {
    StepShows(s, Report);
    DownloadOne(Reported(s.log), s.reader.m);
    Without(Reported(s.log) + [s.reader.m]);
  }

  lemma AnnounceKeepsHint(s: State)
    requires Enabled(s, Announce) && HintIsInTime(s)
    ensures HintIsInTime(Next(s, Announce))
  {
    StepShows(s, Announce);
    DownloadOne(Reported(s.log), s.reader.m);
  }

  lemma HandoverKeepsHint(s: State)
    requires Enabled(s, Handover) && HintIsInTime(s)
    ensures HintIsInTime(Next(s, Handover))
  {
    StepShows(s, Handover);
    DownloadOne(Reported(s.log), s.puller.m);
    Without(Reported(s.log));
  }

  // The other actions show neither messages nor the hint, and leave the reader's hand as
  // it is.
  lemma OtherKeepsHint(s: State, a: Action)
    requires Enabled(s, a) && HintIsInTime(s) && !a.Report? && !a.Announce? && !a.Handover?
    ensures HintIsInTime(Next(s, a))
  {
    StepShows(s, a);
    HandStays(s, a);
  }

  lemma HandStays(s: State, a: Action)
    requires Enabled(s, a) && !a.Report? && !a.Announce? && !a.Handover?
    ensures InHand(Next(s, a).reader) == InHand(s.reader)
    ensures Next(s, a).armed == s.armed && Next(s, a).cfg == s.cfg
  {
  }

  lemma StepKeepsHint(s: State, a: Action)
    requires Enabled(s, a) && HintIsInTime(s)
    ensures HintIsInTime(Next(s, a))
  {
    match a {
      case Report => ReportKeepsHint(s);
      case Announce => AnnounceKeepsHint(s);
      case Handover => HandoverKeepsHint(s);
      case _ => OtherKeepsHint(s, a);
    }
  }

  lemma {:induction false} RunLosesNothing(cfg: Config, messages: nat, actions: seq<Action>, s: State)
    requires After(cfg, messages, actions) == Some(s)
    ensures NothingIsLost(s, Sent(actions)) && HintIsInTime(s)
    decreases |actions|
  {
    if actions == [] {
      ShownOne([], SpinnerStart);
      ShownOne([SpinnerStart], Pulling);
      assert [] + [SpinnerStart] == [SpinnerStart] && [SpinnerStart] + [Pulling] == [SpinnerStart, Pulling];
    } else {
      var before, t, a := LastAction(cfg, messages, actions, s);
      RunLosesNothing(cfg, messages, before, t);
      StepLosesNothing(t, a, Sent(before));
      StepKeepsHint(t, a);
      assert actions[..|actions| - 1] == before;
    }
  }

  // On return every message that the daemon sent was reported, in order; and the hint came
  // just before the first one about a download if skipping is possible, and else not.
  lemma MessagesAreReported(cfg: Config, messages: nat, actions: seq<Action>, s: State)
    requires After(cfg, messages, actions) == Some(s) && s.caller.Returned?
    ensures Reported(s.log) == Sent(actions)
    ensures HintAt(s.log) == if cfg.localExists && cfg.interactive then FirstDownload(Sent(actions)) else None
  {
    RunLosesNothing(cfg, messages, actions, s);
    RunKeepsInv(cfg, messages, actions, s);
    InvAtReturn(s);
    Without(Reported(s.log));
  }
}
