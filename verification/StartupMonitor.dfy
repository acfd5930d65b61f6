// startupMonitor.await (internal/container/start.go): waiting for a started container to
// become healthy, with a deadline, a ticker, an exit channel and a prompt.
module StartupMonitor {
  import opened Sequences

  // ----- What the environment does -----

  datatype ExitResult = ExitResult(code: int, waitFailed: bool)

  // What one probe finds. When the container is not running, the exit channel may still
  // deliver its result within the grace period.
  datatype Probe =
    | StatusError(ctxDone: bool)
    | NotRunning(late: Option<ExitResult>)
    | NotReady
    | Healthy

  // What select may pick. A probe made while handling the event comes with it.
  datatype Event =
    | CtxDone
    | Response(cancelled: bool, key: string, probe: Probe)
    | ExitArrives(result: ExitResult)
    | DeadlineFires(probe: Probe)
    | Tick(probe: Probe)

  datatype Error =
    | Canceled
    | CheckFailed
    | ContainerExited(code: int)
    | StartupTimeout(stopped: bool)

  // What await does, in order.
  datatype Effect =
    | Armed                 // the deadline starts counting
    | Fired                 // the deadline expires
    | Probed(probe: Probe)
    | Opened(id: nat)       // the prompt is shown
    | Answered(id: nat, cancelled: bool, key: string)
    | Dismissed(id: nat)
    | SawExit(result: ExitResult)
    | SawCancel             // the caller's context is done
    | SpinnerStart
    | SpinnerStop
    | Stop                  // the container is stopped

  // nil is Done(None).
  datatype Outcome = Waiting | Done(err: Option<Error>)

  // ----- The specification -----

  datatype State = State(
    interactive: bool,
    exitCh: bool,             // the exit channel is trusted
    responseCh: Option<nat>,  // the prompt that is open
    prompts: nat,             // prompts opened so far
    armed: bool,
    log: seq<Effect>,
    outcome: Outcome)
  {
    function Emit(e: Effect): State {
      this.(log := log + [e])
    }

    // Returning dismisses a prompt that is still open.
    function Return(err: Option<Error>): State {
      if responseCh.Some? then
        this.(log := log + [Dismissed(responseCh.value)], responseCh := None, outcome := Done(err))
      else this.(outcome := Done(err))
    }

    // Probes, and returns if that settles the wait.
    function Check(p: Probe): State {
      var s := Emit(Probed(p));
      match p
      case StatusError(ctxDone) => s.Return(Some(if ctxDone then Canceled else CheckFailed))
      case NotRunning(late) =>
        s.Return(Some(ContainerExited(
          if exitCh && late.Some? && !late.value.waitFailed then late.value.code else -1)))
      case NotReady => s
      case Healthy => s.Return(None)
    }

    predicate Enabled(e: Event) {
      && outcome == Waiting
      && (e.Response? ==> responseCh.Some?)
      && (e.ExitArrives? ==> exitCh)
      && (e.DeadlineFires? ==> armed)
    }

    function Step(e: Event): State
      requires Enabled(e)
    {
      match e
      case CtxDone => Emit(SawCancel).Return(Some(Canceled))
      case Response(cancelled, key, probe) =>
        var s := this.(log := log + [Answered(responseCh.value, cancelled, key)], responseCh := None);
        if cancelled then s.Return(Some(Canceled))
        else if key == "s" then
          var s' := s.Check(probe);
          if s'.outcome != Waiting then s'
          else s'.Emit(SpinnerStart).Emit(Stop).Return(Some(StartupTimeout(true)))
        else s.Emit(Armed).Emit(SpinnerStart).(armed := true)
      case ExitArrives(result) =>
        var s := Emit(SawExit(result));
        if result.waitFailed then s.(exitCh := false) else s.Return(Some(ContainerExited(result.code)))
      case DeadlineFires(probe) =>
        var s := Emit(Fired).(armed := false).Check(probe);
        if s.outcome != Waiting then s
        else if !interactive then s.Return(Some(StartupTimeout(false)))
        else s.Emit(SpinnerStop).Emit(Opened(prompts)).(responseCh := Some(prompts), prompts := prompts + 1)
      case Tick(probe) => Check(probe)
    }
  }

  function Start(interactive: bool, exitCh: bool, first: Probe): State {
    State(interactive, exitCh, None, 0, true, [Armed], Waiting).Check(first)
  }

  // A run: the events that select could not have picked are passed over.
  function Run(s: State, events: seq<Event>): State
    decreases |events|
  {
    if events == [] then s
    else
      var last := events[|events| - 1];
      var t := Run(s, events[..|events| - 1]);
      if t.Enabled(last) then t.Step(last) else t
  }

  // ----- The loop -----

  method Check(p: Probe, exitCh: bool) returns (ready: bool, err: Option<Error>)
    ensures ready <==> p == Healthy
    ensures err == None <==> p.Healthy? || p.NotReady?
    ensures p.StatusError? ==> err == Some(if p.ctxDone then Canceled else CheckFailed)
    ensures p.NotRunning? ==> err == Some(ContainerExited(
        if exitCh && p.late.Some? && !p.late.value.waitFailed then p.late.value.code else -1))
  {
    match p {
      case StatusError(ctxDone) =>
        if ctxDone {
          return false, Some(Canceled);
        }
        return false, Some(CheckFailed);
      case NotRunning(late) =>
        if exitCh && late.Some? && !late.value.waitFailed {
          return false, Some(ContainerExited(late.value.code));
        }
        return false, Some(ContainerExited(-1));
      case NotReady =>
        return false, None;
      case Healthy =>
        return true, None;
    }
  }

  class Monitor {
    const interactive: bool
    var log: seq<Effect>
    var responseCh: Option<nat>

    constructor (interactive: bool)
      ensures this.interactive == interactive && log == [] && responseCh == None
    {
      this.interactive := interactive;
      log, responseCh := [], None;
    }

    // The deferred dismissal.
    method Dismiss()
      modifies this
      ensures responseCh == None
      ensures log == old(log) + if old(responseCh).Some? then [Dismissed(old(responseCh).value)] else []
    {
      if responseCh.Some? {
        log := log + [Dismissed(responseCh.value)];
        responseCh := None;
      }
    }

    // Waits until an outcome is reached or the given events run out.
    method Await(hasExitCh: bool, first: Probe, events: seq<Event>) returns (outcome: Outcome)
      requires log == [] && responseCh == None
      modifies this
      ensures var s := Run(Start(interactive, hasExitCh, first), events);
        outcome == s.outcome && log == s.log && responseCh == s.responseCh
    {
      var exitCh, armed, prompts: nat := hasExitCh, true, 0;
      log := log + [Armed];
      log := log + [Probed(first)];
      var ready, err := Check(first, exitCh);
      outcome := Waiting;
      if err != None || ready {
        outcome := Done(err);
        Dismiss();
      }
      ghost var s0 := Start(interactive, hasExitCh, first);
      for k := 0 to |events|
        invariant Run(s0, events[..k]) == State(interactive, exitCh, responseCh, prompts, armed, log, outcome)
      {
        assert events[..k + 1][..k] == events[..k];
        var e := events[k];
        if outcome != Waiting {
          continue;
        }
        outcome, exitCh, armed, prompts := Handle(e, exitCh, armed, prompts);
      }
      assert events[..|events|] == events;
    }

    // Probes, and returns if that settles the wait.
    method ProbeNow(probe: Probe, exitCh: bool, ghost armed: bool, ghost prompts: nat) returns (outcome: Outcome)
      modifies this
      ensures State(interactive, exitCh, responseCh, prompts, armed, log, outcome)
           == State(interactive, exitCh, old(responseCh), prompts, armed, old(log), Waiting).Check(probe)
    {
      log := log + [Probed(probe)];
      var ready, err := Check(probe, exitCh);
      if err != None || ready {
        Dismiss();
        return Done(err);
      }
      return Waiting;
    }

    // The user answered the prompt.
    method HandleResponse(cancelled: bool, key: string, probe: Probe, exitCh: bool, armed0: bool, ghost prompts: nat)
      returns (outcome: Outcome, armed: bool)
      requires responseCh.Some?
      modifies this
      ensures var s := State(interactive, exitCh, old(responseCh), prompts, armed0, old(log), Waiting);
        State(interactive, exitCh, responseCh, prompts, armed, log, outcome) == s.Step(Response(cancelled, key, probe))
    {
      outcome, armed := Waiting, armed0;
      log := log + [Answered(responseCh.value, cancelled, key)];
      responseCh := None;
      if cancelled {
        outcome := Done(Some(Canceled));
      } else if key == "s" {
        outcome := ProbeNow(probe, exitCh, armed, prompts);
        if outcome == Waiting {
          log := log + [SpinnerStart];
          log := log + [Stop];
          outcome := Done(Some(StartupTimeout(true)));
        }
      } else {
        log := log + [Armed];
        armed := true;
        log := log + [SpinnerStart];
      }
    }

    // The deadline expired: the user is asked, if there is one.
    method HandleDeadline(probe: Probe, exitCh: bool, prompts0: nat) returns (outcome: Outcome, prompts: nat)
      modifies this
      ensures var s := State(interactive, exitCh, old(responseCh), prompts0, true, old(log), Waiting);
        State(interactive, exitCh, responseCh, prompts, false, log, outcome) == s.Step(DeadlineFires(probe))
    {
      prompts := prompts0;
      log := log + [Fired];
      outcome := ProbeNow(probe, exitCh, false, prompts);
      if outcome != Waiting {
      } else if !interactive {
        outcome := Done(Some(StartupTimeout(false)));
        Dismiss();
      } else {
        log := log + [SpinnerStop];
        responseCh := Some(prompts);
        log := log + [Opened(prompts)];
        prompts := prompts + 1;
      }
    }

    // One round of the select loop.
    method Handle(e: Event, exitCh0: bool, armed0: bool, prompts0: nat)
      returns (outcome: Outcome, exitCh: bool, armed: bool, prompts: nat)
      modifies this
      ensures var s := State(interactive, exitCh0, old(responseCh), prompts0, armed0, old(log), Waiting);
        State(interactive, exitCh, responseCh, prompts, armed, log, outcome)
        == if s.Enabled(e) then s.Step(e) else s
    {
      outcome, exitCh, armed, prompts := Waiting, exitCh0, armed0, prompts0;
      match e {
        case CtxDone =>
          log := log + [SawCancel];
          outcome := Done(Some(Canceled));
          Dismiss();
        case Response(cancelled, key, probe) =>
          if responseCh.Some? {
            outcome, armed := HandleResponse(cancelled, key, probe, exitCh, armed, prompts);
          }
        case ExitArrives(result) =>
          if exitCh {
            log := log + [SawExit(result)];
            if result.waitFailed {
              exitCh := false;
            } else {
              outcome := Done(Some(ContainerExited(result.code)));
              Dismiss();
            }
          }
        case DeadlineFires(probe) =>
          if armed {
            outcome, prompts := HandleDeadline(probe, exitCh, prompts);
            armed := false;
          }
        case Tick(probe) =>
          outcome := ProbeNow(probe, exitCh, armed, prompts);
      }
    }
  }

  // ----- What every run keeps -----

  // The prompt events of a log, in order.
  function Prompts(log: seq<Effect>): seq<Effect> {
    if log == [] then []
    else
      var last := log[|log| - 1];
      Prompts(log[..|log| - 1]) + if last.Opened? || last.Answered? || last.Dismissed? then [last] else []
  }

  // Whether the deadline is counting.
  predicate Counting(log: seq<Effect>) {
    log != [] &&
    var last := log[|log| - 1];
    last == Armed || (last != Fired && Counting(log[..|log| - 1]))
  }

  function LastProbe(log: seq<Effect>): Option<Probe> {
    if log == [] then None
    else
      var last := log[|log| - 1];
      if last.Probed? then Some(last.probe) else LastProbe(log[..|log| - 1])
  }

  lemma Snoc(log: seq<Effect>, e: Effect)
    ensures Prompts(log + [e]) == Prompts(log) + if e.Opened? || e.Answered? || e.Dismissed? then [e] else []
    ensures Counting(log + [e]) <==> e == Armed || (e != Fired && Counting(log))
    ensures LastProbe(log + [e]) == if e.Probed? then Some(e.probe) else LastProbe(log)
    ensures Stop in log + [e] <==> e == Stop || Stop in log
  {
    assert (log + [e])[..|log|] == log;
  }

  // Prompts are opened one at a time: each is answered or dismissed, once, before the
  // next one opens.
  ghost predicate OneAtATime(prompts: seq<Effect>) {
    forall i :: 0 <= i < |prompts| ==>
      if i % 2 == 0 then prompts[i] == Opened(i / 2)
      else (prompts[i].Answered? || prompts[i].Dismissed?) && prompts[i].id == i / 2
  }

  ghost predicate PromptsAreOrderly(s: State) {
    && OneAtATime(Prompts(s.log))
    && (s.responseCh.Some? <==> |Prompts(s.log)| % 2 == 1)
    && (s.outcome != Waiting ==> |Prompts(s.log)| % 2 == 0)
    && (!s.interactive ==> Prompts(s.log) == [])
  }

  // While waiting interactively the deadline counts exactly when no prompt is open.
  ghost predicate DeadlineIsOrderly(s: State) {
    && (s.armed <==> Counting(s.log))
    && (s.outcome == Waiting && s.interactive ==> (Counting(s.log) <==> s.responseCh == None))
    && (s.outcome == Waiting && !s.interactive ==> Counting(s.log))
  }

  // Stopping the container is the last thing a run does, right after the user asked for
  // it and a probe found the container running and not ready.
  ghost predicate StopIsOrderly(s: State) {
    && (Stop in s.log <==> s.outcome == Done(Some(StartupTimeout(true))))
    && (Stop in s.log ==> EndsInStop(s.log))
  }

  ghost predicate EndsInStop(log: seq<Effect>) {
    var n := |log| - 4;
    && n >= 0
    && log[n].Answered? && !log[n].cancelled && log[n].key == "s"
    && log[n + 1..] == [Probed(NotReady), SpinnerStart, Stop]
    && Stop !in log[..n]
  }

  // What an outcome says about the last probe.
  ghost predicate OutcomeIsExplained(s: State) {
    && (s.outcome == Done(None) <==> LastProbe(s.log) == Some(Healthy))
    && (s.outcome == Waiting ==> LastProbe(s.log) == Some(NotReady))
    && (s.outcome.Done? && s.outcome.err.Some? && s.outcome.err.value.StartupTimeout? ==>
          LastProbe(s.log) == Some(NotReady))
    && (s.outcome == Done(Some(StartupTimeout(false))) ==> !s.interactive)
  }

  ghost predicate Inv(s: State) {
    && PromptsAreOrderly(s) && DeadlineIsOrderly(s) && StopIsOrderly(s) && OutcomeIsExplained(s)
    && |Prompts(s.log)| == 2 * s.prompts - (if s.responseCh.Some? then 1 else 0)
    && (s.responseCh.Some? ==> s.responseCh.value == s.prompts - 1)
  }

  // The invariant without the clauses that only hold between two rounds.
  ghost predicate Core(s: State) {
    && OneAtATime(Prompts(s.log))
    && |Prompts(s.log)| == 2 * s.prompts - (if s.responseCh.Some? then 1 else 0)
    && (s.responseCh.Some? ==> s.responseCh.value == s.prompts - 1)
    && (!s.interactive ==> Prompts(s.log) == [])
    && (s.armed <==> Counting(s.log))
    && s.outcome == Waiting
    && Stop !in s.log
  }

  lemma ReturnKeepsInv(s: State, err: Option<Error>)
    requires Core(s)
    requires err == None <==> LastProbe(s.log) == Some(Healthy)
    requires err.Some? ==> err.value != StartupTimeout(true)
    requires err == Some(StartupTimeout(false)) ==> LastProbe(s.log) == Some(NotReady) && !s.interactive
    ensures Inv(s.Return(err))
  {
    if s.responseCh.Some? {
      Snoc(s.log, Dismissed(s.responseCh.value));
    }
  }

  // An effect that is neither a prompt event nor a timer event nor Stop.
  lemma EmitKeepsCore(s: State, e: Effect)
    requires Core(s)
    requires e.Probed? || e.SawExit? || e.SawCancel? || e.SpinnerStart? || e.SpinnerStop?
    ensures Core(s.Emit(e))
    ensures LastProbe(s.Emit(e).log) == if e.Probed? then Some(e.probe) else LastProbe(s.log)
  {
    Snoc(s.log, e);
  }

  lemma CheckKeepsInv(s: State, p: Probe)
    requires Core(s)
    ensures p == NotReady ==>
      s.Check(p) == s.Emit(Probed(p)) && Core(s.Check(p)) && LastProbe(s.Check(p).log) == Some(NotReady)
    ensures p != NotReady ==> s.Check(p).outcome != Waiting && Inv(s.Check(p))
  {
    EmitKeepsCore(s, Probed(p));
    var t := s.Emit(Probed(p));
    match p {
      case StatusError(c) => ReturnKeepsInv(t, Some(if c then Canceled else CheckFailed));
      case NotRunning(late) =>
        ReturnKeepsInv(t, Some(ContainerExited(
          if s.exitCh && late.Some? && !late.value.waitFailed then late.value.code else -1)));
      case NotReady =>
      case Healthy => ReturnKeepsInv(t, None);
    }
  }

  // Between two rounds the prompt and the deadline agree, so the invariant is Core and
  // a little more.
  ghost predicate Settled(s: State) {
    && LastProbe(s.log) == Some(NotReady)
    && (if s.interactive then s.armed <==> s.responseCh == None else s.armed)
  }

  lemma InvIsSettledCore(s: State)
    requires s.outcome == Waiting
    ensures Inv(s) <==> Core(s) && Settled(s)
  {
    assert s.responseCh.Some? && |Prompts(s.log)| == 2 * s.prompts - 1 ==> |Prompts(s.log)| % 2 == 1;
    assert s.responseCh == None && |Prompts(s.log)| == 2 * s.prompts ==> |Prompts(s.log)| % 2 == 0;
  }

  lemma StepKeepsInv(s: State, e: Event)
    requires Inv(s) && s.Enabled(e)
    ensures Inv(s.Step(e))
  {
    InvIsSettledCore(s);
    match e {
      case CtxDone =>
        EmitKeepsCore(s, SawCancel);
        ReturnKeepsInv(s.Emit(SawCancel), Some(Canceled));
      case Response(cancelled, key, probe) => ResponseKeepsInv(s, cancelled, key, probe);
      case ExitArrives(result) => ExitKeepsInv(s, result);
      case DeadlineFires(probe) => DeadlineKeepsInv(s, probe);
      case Tick(probe) =>
        CheckKeepsInv(s, probe);
        if probe == NotReady {
          InvIsSettledCore(s.Check(probe));
        }
    }
  }

  lemma ExitKeepsInv(s: State, result: ExitResult)
    requires Core(s) && Settled(s) && s.exitCh
    ensures Inv(s.Step(ExitArrives(result)))
  {
    EmitKeepsCore(s, SawExit(result));
    var t := s.Emit(SawExit(result));
    if result.waitFailed {
      InvIsSettledCore(t.(exitCh := false));
    } else {
      ReturnKeepsInv(t, Some(ContainerExited(result.code)));
    }
  }

  lemma AnswerKeepsCore(s: State, e: Effect)
    requires Core(s) && s.responseCh.Some? && e.Answered? && e.id == s.responseCh.value
    ensures Core(s.(log := s.log + [e], responseCh := None))
    ensures LastProbe(s.log + [e]) == LastProbe(s.log)
  {
    Snoc(s.log, e);
    assert Prompts(s.log + [e])[..|Prompts(s.log)|] == Prompts(s.log);
  }

  lemma OpenKeepsCore(s: State)
    requires Core(s) && s.responseCh == None && s.interactive
    ensures Core(s.Emit(Opened(s.prompts)).(responseCh := Some(s.prompts), prompts := s.prompts + 1))
    ensures LastProbe(s.log + [Opened(s.prompts)]) == LastProbe(s.log)
  {
    Snoc(s.log, Opened(s.prompts));
    assert Prompts(s.log + [Opened(s.prompts)])[..|Prompts(s.log)|] == Prompts(s.log);
  }

  lemma TimerKeepsCore(s: State, e: Effect)
    requires Core(s) && (e == Armed || e == Fired)
    ensures Core(s.Emit(e).(armed := e == Armed))
    ensures LastProbe(s.log + [e]) == LastProbe(s.log)
  {
    Snoc(s.log, e);
  }

  function Answer(s: State, cancelled: bool, key: string): State
    requires s.responseCh.Some?
  {
    s.(log := s.log + [Answered(s.responseCh.value, cancelled, key)], responseCh := None)
  }

  lemma ResponseKeepsInv(s: State, cancelled: bool, key: string, probe: Probe)
    requires Core(s) && Settled(s) && s.responseCh.Some?
    ensures Inv(s.Step(Response(cancelled, key, probe)))
  {
    AnswerKeepsCore(s, Answered(s.responseCh.value, cancelled, key));
    if cancelled {
      ReturnKeepsInv(Answer(s, cancelled, key), Some(Canceled));
    } else if key == "s" {
      StopAnswerKeepsInv(s, probe);
    } else {
      WaitAnswerKeepsInv(Answer(s, cancelled, key));
    }
  }

  lemma StopAnswerStep(s: State, probe: Probe)
    requires s.outcome == Waiting && s.responseCh.Some?
    ensures s.Step(Response(false, "s", probe)) ==
      if probe != NotReady then Answer(s, false, "s").Check(probe)
      else Answer(s, false, "s").Emit(Probed(NotReady)).Emit(SpinnerStart).Emit(Stop).Return(Some(StartupTimeout(true)))
  {
  }

  lemma StopAnswerKeepsInv(s: State, probe: Probe)
    requires Core(s) && s.responseCh.Some? && Core(Answer(s, false, "s"))
    ensures Inv(s.Step(Response(false, "s", probe)))
  {
    StopAnswerStep(s, probe);
    if probe == NotReady {
      StopKeepsInv(s);
    } else {
      CheckKeepsInv(Answer(s, false, "s"), probe);
    }
  }

  lemma WaitAnswerKeepsInv(s: State)
    requires Core(s) && LastProbe(s.log) == Some(NotReady) && s.responseCh == None
    ensures Inv(s.Emit(Armed).Emit(SpinnerStart).(armed := true))
  {
    TimerKeepsCore(s, Armed);
    var t := s.Emit(Armed).(armed := true);
    EmitKeepsCore(t, SpinnerStart);
    InvIsSettledCore(t.Emit(SpinnerStart));
  }

  lemma EndsWithStop(log: seq<Effect>, answer: Effect)
    requires Stop !in log && answer.Answered? && !answer.cancelled && answer.key == "s"
    ensures EndsInStop(log + [answer] + [Probed(NotReady)] + [SpinnerStart] + [Stop])
  {
    var all := log + [answer] + [Probed(NotReady)] + [SpinnerStart] + [Stop];
    assert all == log + [answer, Probed(NotReady), SpinnerStart, Stop];
    assert all[..|log|] == log;
  }

  // Stopping returns with the log ended by Stop.
  lemma StoppedKeepsInv(s: State)
    requires Core(s) && s.responseCh == None && LastProbe(s.log) == Some(NotReady) && EndsInStop(s.log + [Stop])
    ensures Inv(s.Emit(Stop).Return(Some(StartupTimeout(true))))
  {
    Snoc(s.log, Stop);
  }

  lemma StopKeepsInv(s: State)
    requires Core(s) && s.responseCh.Some? && Core(Answer(s, false, "s"))
    ensures Inv(Answer(s, false, "s").Emit(Probed(NotReady)).Emit(SpinnerStart).Emit(Stop)
                .Return(Some(StartupTimeout(true))))
  {
    var t := Answer(s, false, "s");
    EmitKeepsCore(t, Probed(NotReady));
    var u := t.Emit(Probed(NotReady));
    EmitKeepsCore(u, SpinnerStart);
    EndsWithStop(s.log, Answered(s.responseCh.value, false, "s"));
    StoppedKeepsInv(u.Emit(SpinnerStart));
  }

  lemma DeadlineStep(s: State, probe: Probe)
    requires s.outcome == Waiting && s.armed
    ensures var t := s.Emit(Fired).(armed := false);
      s.Step(DeadlineFires(probe)) ==
      if probe != NotReady then t.Check(probe)
      else if !s.interactive then t.Check(probe).Return(Some(StartupTimeout(false)))
      else t.Check(probe).Emit(SpinnerStop).Emit(Opened(s.prompts))
            .(responseCh := Some(s.prompts), prompts := s.prompts + 1)
  {
  }

  lemma DeadlineKeepsInv(s: State, probe: Probe)
    requires Core(s) && Settled(s) && s.armed
    ensures Inv(s.Step(DeadlineFires(probe)))
  {
    TimerKeepsCore(s, Fired);
    DeadlineStep(s, probe);
    var t := s.Emit(Fired).(armed := false);
    CheckKeepsInv(t, probe);
    if probe == NotReady {
      if s.interactive {
        PromptKeepsInv(t.Check(probe));
      } else {
        ReturnKeepsInv(t.Check(probe), Some(StartupTimeout(false)));
      }
    }
  }

  lemma PromptKeepsInv(s: State)
    requires Core(s) && s.interactive && !s.armed && s.responseCh == None && LastProbe(s.log) == Some(NotReady)
    ensures Inv(s.Emit(SpinnerStop).Emit(Opened(s.prompts)).(responseCh := Some(s.prompts), prompts := s.prompts + 1))
  {
    EmitKeepsCore(s, SpinnerStop);
    OpenKeepsCore(s.Emit(SpinnerStop));
    var t := s.Emit(SpinnerStop).Emit(Opened(s.prompts));
    InvIsSettledCore(t.(responseCh := Some(s.prompts), prompts := s.prompts + 1));
  }

  lemma StartKeepsInv(interactive: bool, exitCh: bool, first: Probe)
    ensures Inv(Start(interactive, exitCh, first))
  {
    var s := State(interactive, exitCh, None, 0, true, [Armed], Waiting);
    Snoc([], Armed);
    assert [] + [Armed] == [Armed];
    CheckKeepsInv(s, first);
    if first == NotReady {
      InvIsSettledCore(s.Check(first));
    }
  }

  lemma {:induction false} RunKeepsInv(s: State, events: seq<Event>)
    requires Inv(s)
    ensures Inv(Run(s, events))
  {
    if events == [] {
    } else {
      RunKeepsInv(s, events[..|events| - 1]);
      var t := Run(s, events[..|events| - 1]);
      if t.Enabled(events[|events| - 1]) {
        StepKeepsInv(t, events[|events| - 1]);
      }
    }
  }

  // In every run: at most one prompt is open, each prompt is answered or dismissed once,
  // none is left open on return, and none is ever shown outside interactive mode.
  lemma EveryPromptIsClosedOnce(interactive: bool, exitCh: bool, first: Probe, events: seq<Event>)
    ensures PromptsAreOrderly(Run(Start(interactive, exitCh, first), events))
  {
    StartKeepsInv(interactive, exitCh, first);
    RunKeepsInv(Start(interactive, exitCh, first), events);
  }

  // In every run the deadline and the prompt take turns.
  lemma DeadlineCountsWithoutPrompt(interactive: bool, exitCh: bool, first: Probe, events: seq<Event>)
    ensures DeadlineIsOrderly(Run(Start(interactive, exitCh, first), events))
  {
    StartKeepsInv(interactive, exitCh, first);
    RunKeepsInv(Start(interactive, exitCh, first), events);
  }

  // In every run the container is stopped at most once, only on request and only when a
  // probe after the request still found it not ready; and the result says so.
  lemma StopsOnlyOnRequest(interactive: bool, exitCh: bool, first: Probe, events: seq<Event>)
    ensures StopIsOrderly(Run(Start(interactive, exitCh, first), events))
  {
    StartKeepsInv(interactive, exitCh, first);
    RunKeepsInv(Start(interactive, exitCh, first), events);
  }

  // A nil result means that the last probe saw the container running and healthy, and a
  // timeout that it saw it running but not ready.
  lemma OutcomeTellsLastProbe(interactive: bool, exitCh: bool, first: Probe, events: seq<Event>)
    ensures OutcomeIsExplained(Run(Start(interactive, exitCh, first), events))
  {
    StartKeepsInv(interactive, exitCh, first);
    RunKeepsInv(Start(interactive, exitCh, first), events);
  }

  // ----- What a round adds to the log -----

  function Dismissal(s: State): seq<Effect> {
    if s.responseCh.Some? then [Dismissed(s.responseCh.value)] else []
  }

  function ProbeAdds(s: State, p: Probe): seq<Effect> {
    [Probed(p)] + if p == NotReady then [] else Dismissal(s)
  }

  // The effects of a round, event by event.
  function Round(s: State, e: Event): seq<Effect>
    requires s.Enabled(e)
  {
    match e
    case CtxDone => [SawCancel] + Dismissal(s)
    case Response(cancelled, key, probe) =>
      [Answered(s.responseCh.value, cancelled, key)] +
      (if cancelled then []
       else if key != "s" then [Armed, SpinnerStart]
       else if probe == NotReady then [Probed(probe), SpinnerStart, Stop]
       else [Probed(probe)])
    case ExitArrives(result) => [SawExit(result)] + if result.waitFailed then [] else Dismissal(s)
    case DeadlineFires(probe) =>
      [Fired] + ProbeAdds(s, probe) +
      (if probe != NotReady then []
       else if s.interactive then [SpinnerStop, Opened(s.prompts)]
       else Dismissal(s))
    case Tick(probe) => ProbeAdds(s, probe)
  }

  lemma ReturnAdds(s: State, err: Option<Error>)
    ensures s.Return(err).log == s.log + Dismissal(s)
  {
  }

  lemma CheckAdds(s: State, p: Probe)
    ensures s.Check(p).log == s.log + ProbeAdds(s, p)
  {
    Regroup(s.log, [Probed(p)], Dismissal(s));
    assert s.log + ([Probed(p)] + []) == s.log + [Probed(p)];
  }

  lemma ResponseAdds(s: State, cancelled: bool, key: string, p: Probe)
    requires s.outcome == Waiting && s.responseCh.Some?
    ensures s.Step(Response(cancelled, key, p)).log == s.log + Round(s, Response(cancelled, key, p))
  {
    var t := Answer(s, cancelled, key);
    if !cancelled && key == "s" {
      StopAnswerStep(s, p);
      CheckAdds(t, p);
    }
  }

  lemma DeadlineAdds(s: State, p: Probe)
    requires s.outcome == Waiting && s.armed
    ensures s.Step(DeadlineFires(p)).log == s.log + Round(s, DeadlineFires(p))
  {
    var t := s.Emit(Fired).(armed := false);
    DeadlineStep(s, p);
    CheckAdds(t, p);
    assert Dismissal(t) == Dismissal(s) && ProbeAdds(t, p) == ProbeAdds(s, p);
    Regroup(s.log, [Fired], ProbeAdds(s, p));
    if p == NotReady && !s.interactive {
      ReturnAdds(t.Check(p), Some(StartupTimeout(false)));
      assert Dismissal(t.Check(p)) == Dismissal(s);
    }
  }

  lemma ExitAdds(s: State, result: ExitResult)
    requires s.outcome == Waiting && s.exitCh
    ensures s.Step(ExitArrives(result)).log == s.log + Round(s, ExitArrives(result))
  {
    var t := s.Emit(SawExit(result));
    assert Dismissal(t) == Dismissal(s);
    Regroup(s.log, [SawExit(result)], Dismissal(s));
    if !result.waitFailed {
      ReturnAdds(t, Some(ContainerExited(result.code)));
    }
  }

  lemma CancelAdds(s: State)
    requires s.outcome == Waiting
    ensures s.Step(CtxDone).log == s.log + Round(s, CtxDone)
  {
    var t := s.Emit(SawCancel);
    assert Dismissal(t) == Dismissal(s);
    Regroup(s.log, [SawCancel], Dismissal(s));
    ReturnAdds(t, Some(Canceled));
  }

  lemma StepAddsRound(s: State, e: Event)
    requires s.Enabled(e)
    ensures s.Step(e).log == s.log + Round(s, e)
  {
    match e {
      case CtxDone => CancelAdds(s);
      case Response(cancelled, key, probe) => ResponseAdds(s, cancelled, key, probe);
      case ExitArrives(result) => ExitAdds(s, result);
      case DeadlineFires(probe) => DeadlineAdds(s, probe);
      case Tick(probe) => CheckAdds(s, probe);
    }
  }

  // ----- What the monitor does by itself -----

  function Last(log: seq<Effect>): Option<Effect> {
    if log == [] then None else Some(log[|log| - 1])
  }

  function BeforeLast(log: seq<Effect>): Option<Effect> {
    if |log| < 2 then None else Some(log[|log| - 2])
  }

  // What is due after the last two effects, with so many prompts closed.
  function DueAfter(before: Option<Effect>, last: Option<Effect>, closed: nat, interactive: bool): Option<Effect> {
    match last
    case None => Some(Armed)
    case Some(Armed) => if before == None then None else Some(SpinnerStart)
    case Some(Answered(_, false, key)) => if key == "s" then None else Some(Armed)
    case Some(Probed(NotReady)) =>
      if before.Some? && before.value.Answered? then Some(SpinnerStart)
      else if before == Some(Fired) && interactive then Some(SpinnerStop)
      else None
    case Some(SpinnerStart) => if before.Some? && before.value.Probed? then Some(Stop) else None
    case Some(SpinnerStop) => Some(Opened(closed))
    case _ => None
  }

  function Due(log: seq<Effect>, interactive: bool): Option<Effect> {
    DueAfter(BeforeLast(log), Last(log), |Prompts(log)| / 2, interactive)
  }

  // What comes from outside.
  predicate Seeing(e: Effect) {
    e.Probed? || e.Fired? || e.Answered? || e.SawExit? || e.SawCancel?
  }

  // Either the effect was due, or nothing was and it comes from outside or returns.
  predicate Allowed(due: Option<Effect>, e: Effect) {
    if due.Some? then e == due.value else Seeing(e) || e.Dismissed?
  }

  predicate Follows(log: seq<Effect>, interactive: bool) {
    log == [] ||
    (Follows(log[..|log| - 1], interactive) && Allowed(Due(log[..|log| - 1], interactive), log[|log| - 1]))
  }

  lemma FollowsOne(log: seq<Effect>, e: Effect, interactive: bool)
    requires Follows(log, interactive) && Allowed(Due(log, interactive), e)
    ensures Follows(log + [e], interactive) && Last(log + [e]) == Some(e) && BeforeLast(log + [e]) == Last(log)
  {
    assert (log + [e])[..|log|] == log;
  }

  // Nothing is due, and no probe is to come.
  predicate Calm(log: seq<Effect>, interactive: bool) {
    && Follows(log, interactive) && Due(log, interactive) == None
    && Last(log).Some? && !Last(log).value.Fired? && !Last(log).value.Answered?
  }

  lemma SightIsCalm(log: seq<Effect>, e: Effect, interactive: bool)
    requires Calm(log, interactive) && (e.SawCancel? || e.SawExit? || e.Dismissed? || e.Probed?)
    ensures Calm(log + [e], interactive)
  {
    FollowsOne(log, e, interactive);
  }

  lemma DismissalIsCalm(log: seq<Effect>, e: Effect, d: seq<Effect>, interactive: bool)
    requires Calm(log, interactive) && (e.SawCancel? || e.SawExit? || e.Probed?)
    requires d == [] || (|d| == 1 && d[0].Dismissed?)
    ensures Calm(log + ([e] + d), interactive)
  {
    SightIsCalm(log, e, interactive);
    if d == [] {
      assert log + ([e] + d) == log + [e];
    } else {
      SightIsCalm(log + [e], d[0], interactive);
      assert log + ([e] + d) == log + [e] + [d[0]];
    }
  }

  lemma CancelledAnswerFollows(log: seq<Effect>, e: Effect, interactive: bool)
    requires Calm(log, interactive) && e.Answered? && (e.cancelled || e.key == "s")
    ensures Follows(log + [e], interactive) && Due(log + [e], interactive) == None
    ensures Last(log + [e]) == Some(e)
  {
    FollowsOne(log, e, interactive);
  }

  lemma WaitIsCalm(log: seq<Effect>, e: Effect, interactive: bool)
    requires Calm(log, interactive) && e.Answered? && !e.cancelled && e.key != "s"
    ensures Calm(log + [e] + [Armed] + [SpinnerStart], interactive)
  {
    FollowsOne(log, e, interactive);
    FollowsOne(log + [e], Armed, interactive);
    FollowsOne(log + [e] + [Armed], SpinnerStart, interactive);
  }

  lemma StopIsCalm(log: seq<Effect>, interactive: bool)
    requires Follows(log, interactive) && Due(log, interactive) == None && Last(log).Some? && Last(log).value.Answered?
    ensures Calm(log + [Probed(NotReady)] + [SpinnerStart] + [Stop], interactive)
  {
    FollowsOne(log, Probed(NotReady), interactive);
    FollowsOne(log + [Probed(NotReady)], SpinnerStart, interactive);
    FollowsOne(log + [Probed(NotReady)] + [SpinnerStart], Stop, interactive);
  }

  // A probe that settles the wait.
  lemma SettledIsCalm(log: seq<Effect>, p: Probe, interactive: bool)
    requires Follows(log, interactive) && Due(log, interactive) == None && Last(log).Some?
    requires p != NotReady || (Last(log) == Some(Fired) && !interactive)
    ensures Calm(log + [Probed(p)], interactive)
  {
    FollowsOne(log, Probed(p), interactive);
  }

  lemma FiredFollows(log: seq<Effect>, interactive: bool)
    requires Calm(log, interactive)
    ensures Follows(log + [Fired], interactive) && Due(log + [Fired], interactive) == None
    ensures Last(log + [Fired]) == Some(Fired)
  {
    FollowsOne(log, Fired, interactive);
  }

  lemma AskIsCalm(log: seq<Effect>, id: nat)
    requires Follows(log, true) && Due(log, true) == None && Last(log) == Some(Fired) && |Prompts(log)| == 2 * id
    ensures Calm(log + [Probed(NotReady)] + [SpinnerStop] + [Opened(id)], true)
  {
    FollowsOne(log, Probed(NotReady), true);
    Snoc(log, Probed(NotReady));
    AskedIsCalm(log + [Probed(NotReady)], id);
  }

  lemma AskedIsCalm(log: seq<Effect>, id: nat)
    requires Follows(log, true) && Last(log) == Some(Probed(NotReady)) && BeforeLast(log) == Some(Fired)
    requires |Prompts(log)| == 2 * id
    ensures Calm(log + [SpinnerStop] + [Opened(id)], true)
  {
    FollowsOne(log, SpinnerStop, true);
    Snoc(log, SpinnerStop);
    FollowsOne(log + [SpinnerStop], Opened(id), true);
  }

  lemma ResponseFollows(s: State, cancelled: bool, key: string, p: Probe)
    requires s.outcome == Waiting && s.responseCh.Some? && Calm(s.log, s.interactive)
    ensures var log := s.log + Round(s, Response(cancelled, key, p));
      && Follows(log, s.interactive) && Due(log, s.interactive) == None
      && (!cancelled && key != "s" ==> Calm(log, s.interactive))
  {
    var e := Answered(s.responseCh.value, cancelled, key);
    var round := Round(s, Response(cancelled, key, p));
    if cancelled {
      CancelledAnswerFollows(s.log, e, s.interactive);
      assert s.log + round == s.log + [e];
    } else if key != "s" {
      WaitIsCalm(s.log, e, s.interactive);
      assert s.log + round == s.log + [e] + [Armed] + [SpinnerStart];
    } else {
      StopRequestFollows(s.log, e, p, round, s.interactive);
    }
  }

  lemma StopRequestFollows(log: seq<Effect>, e: Effect, p: Probe, round: seq<Effect>, interactive: bool)
    requires Calm(log, interactive) && e.Answered? && e.key == "s"
    requires round == [e] + if p == NotReady then [Probed(p), SpinnerStart, Stop] else [Probed(p)]
    ensures Calm(log + round, interactive)
  {
    CancelledAnswerFollows(log, e, interactive);
    if p == NotReady {
      StopIsCalm(log + [e], interactive);
      assert log + round == log + [e] + [Probed(p)] + [SpinnerStart] + [Stop];
    } else {
      SettledIsCalm(log + [e], p, interactive);
      assert log + round == log + [e] + [Probed(p)];
    }
  }

  lemma DeadlineFollows(s: State, p: Probe)
    requires s.outcome == Waiting && s.armed && Calm(s.log, s.interactive)
    requires s.interactive ==> |Prompts(s.log)| == 2 * s.prompts
    requires s.responseCh == None
    ensures Calm(s.log + Round(s, DeadlineFires(p)), s.interactive)
  {
    var log := s.log + [Fired];
    FiredFollows(s.log, s.interactive);
    Snoc(s.log, Fired);
    if p == NotReady && s.interactive {
      AskIsCalm(log, s.prompts);
      assert s.log + Round(s, DeadlineFires(p)) == log + [Probed(p)] + [SpinnerStop] + [Opened(s.prompts)];
    } else {
      SettledIsCalm(log, p, s.interactive);
      assert s.log + Round(s, DeadlineFires(p)) == log + [Probed(p)];
    }
  }

  lemma RoundFollows(s: State, e: Event)
    requires Inv(s) && s.Enabled(e) && Calm(s.log, s.interactive)
    ensures var log := s.log + Round(s, e);
      && Follows(log, s.interactive) && Due(log, s.interactive) == None
      && (Calm(log, s.interactive) || (e.Response? && (e.cancelled || e.key == "s")))
  {
    match e {
      case CtxDone => DismissalIsCalm(s.log, SawCancel, Dismissal(s), s.interactive);
      case Response(cancelled, key, probe) => ResponseFollows(s, cancelled, key, probe);
      case ExitArrives(result) =>
        DismissalIsCalm(s.log, SawExit(result), if result.waitFailed then [] else Dismissal(s), s.interactive);
      case DeadlineFires(probe) => DeadlineFollows(s, probe);
      case Tick(probe) =>
        DismissalIsCalm(s.log, Probed(probe), if probe == NotReady then [] else Dismissal(s), s.interactive);
    }
  }

  // ----- How the wait ends -----

  // The last effect that is not the deferred dismissal.
  function LastDeed(log: seq<Effect>): Option<Effect> {
    if log == [] then None
    else
      var last := log[|log| - 1];
      if last.Dismissed? then LastDeed(log[..|log| - 1]) else Some(last)
  }

  predicate IsFailedWait(e: Effect) {
    e.SawExit? && e.result.waitFailed
  }

  predicate IsExit(e: Effect) {
    e.SawExit? && !e.result.waitFailed
  }

  // The exit channel counts as long as no wait on it failed.
  predicate Trusted(log: seq<Effect>, exitCh: bool) {
    exitCh && forall e :: e in log ==> !IsFailedWait(e)
  }

  // The code of a container that a probe found stopped: the one that the channel delivers
  // late, or unknown.
  function CodeOf(late: Option<ExitResult>, trusted: bool): int {
    match late
    case Some(ExitResult(code, false)) => if trusted then code else -1
    case _ => -1
  }

  // The outcome that a last deed stands for.
  function EndAfter(deed: Effect, fired: bool, trusted: bool, interactive: bool): Outcome {
    match deed
    case SawCancel => Done(Some(Canceled))
    case Answered(_, true, _) => Done(Some(Canceled))
    case SawExit(ExitResult(code, false)) => Done(Some(ContainerExited(code)))
    case Probed(StatusError(ctxDone)) => Done(Some(if ctxDone then Canceled else CheckFailed))
    case Probed(NotRunning(late)) => Done(Some(ContainerExited(CodeOf(late, trusted))))
    case Probed(NotReady) => if fired && !interactive then Done(Some(StartupTimeout(false))) else Waiting
    case Probed(Healthy) => Done(None)
    case Stop => Done(Some(StartupTimeout(true)))
    case _ => Waiting
  }

  function EndOf(log: seq<Effect>, interactive: bool, exitCh: bool): Outcome {
    match LastDeed(log)
    case Some(deed) => EndAfter(deed, BeforeLast(log) == Some(Fired), Trusted(log, exitCh), interactive)
    case None => Waiting
  }

  lemma DeedOf(log: seq<Effect>, round: seq<Effect>, d: seq<Effect>)
    requires round != [] && !round[|round| - 1].Dismissed? && (d == [] || (|d| == 1 && d[0].Dismissed?))
    ensures LastDeed(log + (round + d)) == Last(round)
    ensures d == [] && |round| == 1 ==> BeforeLast(log + (round + d)) == Last(log)
    ensures d == [] && |round| > 1 ==> BeforeLast(log + (round + d)) == Some(round[|round| - 2])
  {
    var all := log + (round + d);
    if d == [] {
      assert all == log + round;
    } else {
      assert all[..|all| - 1] == log + round;
    }
    assert (log + round)[|log + round| - 1] == round[|round| - 1];
  }

  // A round in which nothing comes from the exit channel.
  lemma TrustedRound(log: seq<Effect>, round: seq<Effect>, exitCh: bool)
    requires forall e :: e in round ==> !e.SawExit?
    ensures Trusted(log + round, exitCh) == Trusted(log, exitCh)
  {
    assert forall e :: e in log + round <==> e in log || e in round;
  }

  lemma TrustedExit(log: seq<Effect>, result: ExitResult, d: seq<Effect>, exitCh: bool)
    requires d == [] || (|d| == 1 && d[0].Dismissed?)
    ensures Trusted(log + ([SawExit(result)] + d), exitCh) == (Trusted(log, exitCh) && !result.waitFailed)
  {
    var round := [SawExit(result)] + d;
    assert SawExit(result) in round && forall e :: e in log + round <==> e in log || e in round;
  }

  lemma ProbeEnds(s: State, p: Probe)
    requires s.outcome == Waiting
    ensures s.Check(p).outcome == EndAfter(Probed(p), false, s.exitCh, s.interactive)
    ensures s.Check(p).exitCh == s.exitCh
  {
  }

  lemma TickEnds(s: State, p: Probe, exitCh: bool)
    requires s.outcome == Waiting && s.exitCh == Trusted(s.log, exitCh) && Last(s.log) != Some(Fired)
    ensures s.Step(Tick(p)).outcome == EndOf(s.log + Round(s, Tick(p)), s.interactive, exitCh)
  {
    ProbeEnds(s, p);
    TrustedRound(s.log, Round(s, Tick(p)), exitCh);
    DeedOf(s.log, [Probed(p)], if p == NotReady then [] else Dismissal(s));
  }

  lemma ExitEnds(s: State, result: ExitResult, exitCh: bool)
    requires s.outcome == Waiting && s.exitCh == Trusted(s.log, exitCh) == true
    ensures var t := s.Step(ExitArrives(result));
      var log := s.log + Round(s, ExitArrives(result));
      t.outcome == EndOf(log, s.interactive, exitCh) && t.exitCh == Trusted(log, exitCh)
  {
    var d := if result.waitFailed then [] else Dismissal(s);
    TrustedExit(s.log, result, d, exitCh);
    DeedOf(s.log, [SawExit(result)], d);
  }

  lemma CancelEnds(s: State, exitCh: bool)
    requires s.outcome == Waiting
    ensures s.Step(CtxDone).outcome == EndOf(s.log + Round(s, CtxDone), s.interactive, exitCh)
  {
    DeedOf(s.log, [SawCancel], Dismissal(s));
  }

  lemma DeadlineEnds(s: State, p: Probe, exitCh: bool)
    requires s.outcome == Waiting && s.exitCh == Trusted(s.log, exitCh) && s.armed && s.responseCh == None
    ensures s.Step(DeadlineFires(p)).outcome == EndOf(s.log + Round(s, DeadlineFires(p)), s.interactive, exitCh)
  {
    var t, round := s.Emit(Fired).(armed := false), Round(s, DeadlineFires(p));
    DeadlineStep(s, p);
    ProbeEnds(t, p);
    TrustedRound(s.log, round, exitCh);
    DeedOf(s.log, round, []);
    assert round + [] == round;
    assert p != NotReady || !s.interactive ==> round == [Fired, Probed(p)];
  }

  lemma ResponseEnds(s: State, cancelled: bool, key: string, p: Probe, exitCh: bool)
    requires s.outcome == Waiting && s.exitCh == Trusted(s.log, exitCh) && s.responseCh.Some? && s.interactive
    ensures s.Step(Response(cancelled, key, p)).outcome ==
            EndOf(s.log + Round(s, Response(cancelled, key, p)), true, exitCh)
  {
    var t, round := Answer(s, cancelled, key), Round(s, Response(cancelled, key, p));
    TrustedRound(s.log, round, exitCh);
    DeedOf(s.log, round, []);
    assert round + [] == round;
    if !cancelled && key == "s" {
      StopAnswerStep(s, p);
      ProbeEnds(t, p);
    }
  }

  lemma StepKeepsTrust(s: State, e: Event, exitCh: bool)
    requires s.Enabled(e) && !e.ExitArrives? && s.exitCh == Trusted(s.log, exitCh)
    ensures s.Step(e).exitCh == Trusted(s.log + Round(s, e), exitCh)
  {
    TrustedRound(s.log, Round(s, e), exitCh);
  }

  lemma RoundEnds(s: State, e: Event, exitCh: bool)
    requires Inv(s) && s.Enabled(e) && s.exitCh == Trusted(s.log, exitCh) && Calm(s.log, s.interactive)
    ensures s.Step(e).outcome == EndOf(s.log + Round(s, e), s.interactive, exitCh)
    ensures s.Step(e).exitCh == Trusted(s.log + Round(s, e), exitCh)
  {
    match e {
      case ExitArrives(result) => ExitEnds(s, result, exitCh);
      case CtxDone =>
        StepKeepsTrust(s, e, exitCh);
        CancelEnds(s, exitCh);
      case Response(cancelled, key, probe) =>
        StepKeepsTrust(s, e, exitCh);
        ResponseEnds(s, cancelled, key, probe, exitCh);
      case DeadlineFires(probe) =>
        StepKeepsTrust(s, e, exitCh);
        DeadlineEnds(s, probe, exitCh);
      case Tick(probe) =>
        StepKeepsTrust(s, e, exitCh);
        TickEnds(s, probe, exitCh);
    }
  }

  // An exit is the last thing seen, and after a failed wait none is.
  ghost predicate ExitsAreLast(log: seq<Effect>) {
    && (forall i, j :: 0 <= i < j < |log| && IsExit(log[i]) ==> log[j].Dismissed?)
    && (forall i, j :: 0 <= i < j < |log| && IsFailedWait(log[i]) ==> !log[j].SawExit?)
  }

  ghost predicate NoExit(log: seq<Effect>) {
    forall i :: 0 <= i < |log| ==> !IsExit(log[i])
  }

  lemma QuietRoundKeepsExits(log: seq<Effect>, round: seq<Effect>)
    requires NoExit(log) && ExitsAreLast(log) && forall e :: e in round ==> !e.SawExit?
    ensures NoExit(log + round) && ExitsAreLast(log + round)
  {
    assert forall i :: 0 <= i < |round| ==> round[i] in round;
  }

  lemma ExitKeepsExits(log: seq<Effect>, result: ExitResult, d: seq<Effect>, exitCh: bool)
    requires NoExit(log) && Trusted(log, exitCh) && (d == [] || (|d| == 1 && d[0].Dismissed?))
    ensures ExitsAreLast(log + ([SawExit(result)] + d))
    ensures result.waitFailed ==> NoExit(log + ([SawExit(result)] + d))
  {
    forall i | 0 <= i < |log|
      ensures !IsFailedWait(log[i])
    {
      assert log[i] in log;
    }
  }

  ghost predicate Told(s: State, exitCh: bool) {
    && Follows(s.log, s.interactive) && Due(s.log, s.interactive) == None
    && s.exitCh == Trusted(s.log, exitCh) && s.outcome == EndOf(s.log, s.interactive, exitCh)
    && ExitsAreLast(s.log)
    && (s.outcome == Waiting ==> Calm(s.log, s.interactive) && NoExit(s.log))
  }

  lemma RoundKeepsExits(s: State, e: Event, exitCh: bool)
    requires s.Enabled(e) && Told(s, exitCh)
    ensures ExitsAreLast(s.log + Round(s, e))
    ensures s.Step(e).outcome == Waiting ==> NoExit(s.log + Round(s, e))
  {
    if e.ExitArrives? {
      ExitKeepsExits(s.log, e.result, if e.result.waitFailed then [] else Dismissal(s), exitCh);
    } else {
      QuietRoundKeepsExits(s.log, Round(s, e));
    }
  }

  lemma AnswerReturns(s: State, cancelled: bool, key: string, p: Probe)
    requires s.Enabled(Response(cancelled, key, p)) && (cancelled || key == "s")
    ensures s.Step(Response(cancelled, key, p)).outcome != Waiting
  {
  }

  lemma StepIsTold(s: State, e: Event, exitCh: bool)
    requires Inv(s) && s.Enabled(e) && Told(s, exitCh)
    ensures Told(s.Step(e), exitCh)
  {
    StepAddsRound(s, e);
    RoundFollows(s, e);
    RoundEnds(s, e, exitCh);
    RoundKeepsExits(s, e, exitCh);
    StepKeepsMode(s, e);
    if e.Response? && (e.cancelled || e.key == "s") {
      AnswerReturns(s, e.cancelled, e.key, e.probe);
    }
  }

  lemma CheckKeepsMode(s: State, p: Probe)
    ensures s.Check(p).interactive == s.interactive
  {
  }

  lemma StepKeepsMode(s: State, e: Event)
    requires s.Enabled(e)
    ensures s.Step(e).interactive == s.interactive
  {
    match e {
      case Tick(probe) => CheckKeepsMode(s, probe);
      case DeadlineFires(probe) =>
        DeadlineStep(s, probe);
        CheckKeepsMode(s.Emit(Fired).(armed := false), probe);
      case Response(cancelled, key, probe) =>
        StopAnswerStep(s, probe);
        CheckKeepsMode(Answer(s, cancelled, key), probe);
      case _ =>
    }
  }

  lemma StartIsTold(interactive: bool, exitCh: bool, first: Probe)
    ensures Told(Start(interactive, exitCh, first), exitCh)
  {
    var s := State(interactive, exitCh, None, 0, true, [Armed], Waiting);
    var log := [Armed] + [Probed(first)];
    CheckAdds(s, first);
    CheckKeepsMode(s, first);
    assert ProbeAdds(s, first) == [Probed(first)];
    TickEnds(s, first, exitCh);
    ArmedIsCalm(first, interactive);
    TrustedRound([Armed], [Probed(first)], exitCh);
    QuietRoundKeepsExits([Armed], [Probed(first)]);
    ProbeEnds(s, first);
  }

  lemma ArmedIsCalm(first: Probe, interactive: bool)
    ensures Calm([Armed] + [Probed(first)], interactive)
  {
    FollowsOne([], Armed, interactive);
    assert [] + [Armed] == [Armed];
    SightIsCalm([Armed], Probed(first), interactive);
  }

  lemma {:induction false} RunIsTold(interactive: bool, exitCh: bool, first: Probe, events: seq<Event>)
    ensures Inv(Run(Start(interactive, exitCh, first), events))
    ensures Told(Run(Start(interactive, exitCh, first), events), exitCh)
    ensures Run(Start(interactive, exitCh, first), events).interactive == interactive
  {
    if events == [] {
      StartKeepsInv(interactive, exitCh, first);
      StartIsTold(interactive, exitCh, first);
    } else {
      RunIsTold(interactive, exitCh, first, events[..|events| - 1]);
      RoundIsTold(Run(Start(interactive, exitCh, first), events[..|events| - 1]), events[|events| - 1], exitCh);
    }
  }

  lemma RoundIsTold(s: State, e: Event, exitCh: bool)
    requires Inv(s) && Told(s, exitCh)
    ensures var t := if s.Enabled(e) then s.Step(e) else s;
      Inv(t) && Told(t, exitCh) && t.interactive == s.interactive
  {
    if s.Enabled(e) {
      StepKeepsInv(s, e);
      StepIsTold(s, e, exitCh);
      StepKeepsMode(s, e);
    }
  }

  // In every run the outcome is the one that the last deed in the log stands for.
  lemma OutcomeIsTold(interactive: bool, exitCh: bool, first: Probe, events: seq<Event>)
    ensures var s := Run(Start(interactive, exitCh, first), events);
      s.outcome == EndOf(s.log, interactive, exitCh)
  {
    RunIsTold(interactive, exitCh, first, events);
  }

  // In every run whatever the monitor does by itself is due after what it did and saw
  // just before, and nothing due is left undone.
  lemma DeedsAreDue(interactive: bool, exitCh: bool, first: Probe, events: seq<Event>)
    ensures var s := Run(Start(interactive, exitCh, first), events);
      Follows(s.log, interactive) && Due(s.log, interactive) == None
  {
    RunIsTold(interactive, exitCh, first, events);
  }

  // The container's exit as the log tells it: the channel delivered it, or a probe found
  // the container stopped.
  ghost predicate TellsExit(log: seq<Effect>, exitCh: bool, code: int) {
    match LastDeed(log)
    case Some(SawExit(result)) => result == ExitResult(code, false)
    case Some(Probed(NotRunning(late))) => code == CodeOf(late, Trusted(log, exitCh))
    case _ => false
  }

  predicate TellsCancel(log: seq<Effect>) {
    match LastDeed(log)
    case Some(SawCancel) => true
    case Some(Answered(_, cancelled, _)) => cancelled
    case Some(Probed(p)) => p == StatusError(true)
    case _ => false
  }

  lemma {:induction false} OnlyDismissalsAfter(log: seq<Effect>, i: nat)
    requires i < |log| && !log[i].Dismissed? && forall j :: i < j < |log| ==> log[j].Dismissed?
    ensures LastDeed(log) == Some(log[i])
    decreases |log|
  {
    if i < |log| - 1 {
      OnlyDismissalsAfter(log[..|log| - 1], i);
    }
  }

  // In every run an exit that the channel delivers ends the wait with its code; a failed
  // wait does not end it, and nothing more is taken from the channel.
  lemma ExitsAreHeeded(interactive: bool, exitCh: bool, first: Probe, events: seq<Event>, i: nat)
    requires i < |Run(Start(interactive, exitCh, first), events).log|
    ensures var s := Run(Start(interactive, exitCh, first), events);
      && (IsExit(s.log[i]) ==> s.outcome == Done(Some(ContainerExited(s.log[i].result.code))))
      && (IsExit(s.log[i]) ==> forall j :: i < j < |s.log| ==> s.log[j].Dismissed?)
      && (IsFailedWait(s.log[i]) ==> forall j :: i < j < |s.log| ==> !s.log[j].SawExit?)
      && (IsFailedWait(s.log[i]) && LastDeed(s.log) == Some(s.log[i]) ==> s.outcome == Waiting)
  {
    var s := Run(Start(interactive, exitCh, first), events);
    RunIsTold(interactive, exitCh, first, events);
    if IsExit(s.log[i]) {
      OnlyDismissalsAfter(s.log, i);
    }
  }

  // In every run each of the errors is returned exactly when the last deed is one that
  // stands for it.
  lemma ErrorsAreExplained(interactive: bool, exitCh: bool, first: Probe, events: seq<Event>, code: int)
    ensures var s := Run(Start(interactive, exitCh, first), events);
      && (s.outcome == Done(Some(ContainerExited(code))) <==> TellsExit(s.log, exitCh, code))
      && (s.outcome == Done(Some(Canceled)) <==> TellsCancel(s.log))
      && (s.outcome == Done(Some(CheckFailed)) <==> LastDeed(s.log) == Some(Probed(StatusError(false))))
  {
    var s := Run(Start(interactive, exitCh, first), events);
    RunIsTold(interactive, exitCh, first, events);
    EndIsExplained(s.log, interactive, exitCh, code);
  }

  lemma EndIsExplained(log: seq<Effect>, interactive: bool, exitCh: bool, code: int)
    ensures EndOf(log, interactive, exitCh) == Done(Some(ContainerExited(code))) <==> TellsExit(log, exitCh, code)
    ensures EndOf(log, interactive, exitCh) == Done(Some(Canceled)) <==> TellsCancel(log)
    ensures EndOf(log, interactive, exitCh) == Done(Some(CheckFailed)) <==>
      LastDeed(log) == Some(Probed(StatusError(false)))
  {
  }

  // ----- Every event is heeded -----

  // What was seen, in order. The prompt that an answer belongs to is left out.
  function Seen(log: seq<Effect>): seq<Effect> {
    if log == [] then []
    else
      var last := log[|log| - 1];
      Seen(log[..|log| - 1]) + if !Seeing(last) then [] else [if last.Answered? then last.(id := 0) else last]
  }

  // What an event shows. A probe is made on a tick, on a deadline, and before stopping.
  function Sight(e: Event): seq<Effect> {
    match e
    case CtxDone => [SawCancel]
    case Response(cancelled, key, probe) =>
      [Answered(0, cancelled, key)] + if !cancelled && key == "s" then [Probed(probe)] else []
    case ExitArrives(result) => [SawExit(result)]
    case DeadlineFires(probe) => [Fired, Probed(probe)]
    case Tick(probe) => [Probed(probe)]
  }

  // Whether select can pick the event, told by the log.
  predicate MayCome(log: seq<Effect>, exitCh: bool, e: Event) {
    match e
    case Response(_, _, _) => |Prompts(log)| % 2 == 1
    case ExitArrives(_) => Trusted(log, exitCh)
    case DeadlineFires(_) => Counting(log)
    case _ => true
  }

  lemma {:induction false} SeenConcat(a: seq<Effect>, b: seq<Effect>)
    ensures Seen(a + b) == Seen(a) + Seen(b)
    decreases |b|
  {
    if b == [] {
      assert a + b == a;
    } else {
      var front, last := b[..|b| - 1], b[|b| - 1];
      SeenConcat(a, front);
      assert (a + b)[..|a + b| - 1] == a + front;
      Regroup(Seen(a), Seen(front), if !Seeing(last) then [] else [if last.Answered? then last.(id := 0) else last]);
    }
  }

  lemma SeenOne(e: Effect)
    ensures Seen([e]) == if !Seeing(e) then [] else [if e.Answered? then e.(id := 0) else e]
  {
    assert [e][..0] == [];
  }

  lemma SeenPair(d: Effect, e: Effect)
    ensures Seen([d, e]) == Seen([d]) + Seen([e])
  {
    SeenConcat([d], [e]);
    assert [d] + [e] == [d, e];
  }

  lemma DismissalShowsNothing(s: State)
    ensures Seen(Dismissal(s)) == []
  {
    if s.responseCh.Some? {
      SeenOne(Dismissed(s.responseCh.value));
    }
  }

  lemma ProbeShows(s: State, p: Probe)
    ensures Seen(ProbeAdds(s, p)) == [Probed(p)]
  {
    SeenConcat([Probed(p)], if p == NotReady then [] else Dismissal(s));
    SeenOne(Probed(p));
    DismissalShowsNothing(s);
  }

  lemma ResponseShows(s: State, cancelled: bool, key: string, p: Probe)
    requires s.outcome == Waiting && s.responseCh.Some?
    ensures Seen(Round(s, Response(cancelled, key, p))) == Sight(Response(cancelled, key, p))
  {
    var e := Answered(s.responseCh.value, cancelled, key);
    SeenOne(e);
    if cancelled {
      assert [e] + [] == [e];
    } else if key != "s" {
      SeenConcat([e], [Armed, SpinnerStart]);
      SeenPair(Armed, SpinnerStart);
      SeenOne(Armed);
      SeenOne(SpinnerStart);
    } else {
      SeenConcat([e], if p == NotReady then [Probed(p), SpinnerStart, Stop] else [Probed(p)]);
      StopShows(p);
      SeenOne(Probed(p));
    }
  }

  lemma StopShows(p: Probe)
    ensures Seen([Probed(p), SpinnerStart, Stop]) == [Probed(p)]
  {
    SeenConcat([Probed(p)], [SpinnerStart, Stop]);
    assert [Probed(p)] + [SpinnerStart, Stop] == [Probed(p), SpinnerStart, Stop];
    SeenPair(SpinnerStart, Stop);
    SeenOne(Probed(p));
    SeenOne(SpinnerStart);
    SeenOne(Stop);
  }

  function Asks(s: State, p: Probe): seq<Effect> {
    if p != NotReady then [] else if s.interactive then [SpinnerStop, Opened(s.prompts)] else Dismissal(s)
  }

  lemma AskShowsNothing(s: State, p: Probe)
    ensures Seen(Asks(s, p)) == []
  {
    SeenPair(SpinnerStop, Opened(s.prompts));
    SeenOne(SpinnerStop);
    SeenOne(Opened(s.prompts));
    DismissalShowsNothing(s);
  }

  lemma SeenThree(a: seq<Effect>, b: seq<Effect>, c: seq<Effect>)
    ensures Seen(a + b + c) == Seen(a) + Seen(b) + Seen(c)
  {
    SeenConcat(a + b, c);
    SeenConcat(a, b);
  }

  lemma DeadlineShows(s: State, p: Probe)
    requires s.outcome == Waiting && s.armed
    ensures Seen(Round(s, DeadlineFires(p))) == [Fired, Probed(p)]
  {
    assert Round(s, DeadlineFires(p)) == [Fired] + ProbeAdds(s, p) + Asks(s, p);
    SeenThree([Fired], ProbeAdds(s, p), Asks(s, p));
    SeenOne(Fired);
    ProbeShows(s, p);
    AskShowsNothing(s, p);
  }

  lemma RoundShows(s: State, e: Event)
    requires s.Enabled(e)
    ensures Seen(Round(s, e)) == Sight(e)
  {
    DismissalShowsNothing(s);
    match e {
      case CtxDone =>
        SeenConcat([SawCancel], Dismissal(s));
        SeenOne(SawCancel);
      case Response(cancelled, key, probe) => ResponseShows(s, cancelled, key, probe);
      case ExitArrives(result) =>
        SeenConcat([SawExit(result)], if result.waitFailed then [] else Dismissal(s));
        SeenOne(SawExit(result));
      case DeadlineFires(probe) => DeadlineShows(s, probe);
      case Tick(probe) => ProbeShows(s, probe);
    }
  }

  lemma MayComeIfEnabled(s: State, e: Event, exitCh: bool)
    requires Inv(s) && Told(s, exitCh)
    ensures s.Enabled(e) <==> s.outcome == Waiting && MayCome(s.log, exitCh, e)
  {
  }

  // In every run, while the wait goes on, each event that may come is seen, with the probe
  // that it calls for, and no other event is.
  lemma EveryEventIsHeeded(interactive: bool, exitCh: bool, first: Probe, events: seq<Event>, e: Event)
    ensures var s := Run(Start(interactive, exitCh, first), events);
      Seen(Run(Start(interactive, exitCh, first), events + [e]).log) ==
      Seen(s.log) + if s.outcome == Waiting && MayCome(s.log, exitCh, e) then Sight(e) else []
  {
    var s := Run(Start(interactive, exitCh, first), events);
    RunIsTold(interactive, exitCh, first, events);
    assert (events + [e])[..|events|] == events;
    MayComeIfEnabled(s, e, exitCh);
    if s.Enabled(e) {
      StepAddsRound(s, e);
      SeenConcat(s.log, Round(s, e));
      RoundShows(s, e);
    }
  }

  // The container is probed before anything is waited for.
  lemma FirstProbeIsMade(interactive: bool, exitCh: bool, first: Probe)
    ensures Seen(Start(interactive, exitCh, first).log) == [Probed(first)]
  {
    var s := State(interactive, exitCh, None, 0, true, [Armed], Waiting);
    CheckAdds(s, first);
    SeenConcat([Armed], ProbeAdds(s, first));
    SeenOne(Armed);
    ProbeShows(s, first);
  }
}
