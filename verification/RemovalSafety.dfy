// Which containers a start may remove (internal/container/start.go,
// internal/runtime/docker.go). A step is one daemon answer to the start, or one action of
// another actor on the daemon, in any order; the daemon answers as it likes within what
// removing, waiting and creating mean.
module RemovalSafety {
  import opened Sequences

  type Name = string

  datatype Status = Created | Running | Exited

  datatype Container = Container(managed: bool, autoRemove: bool, status: Status) {
    // Positively ours, or positively on its way out.
    predicate Removable() {
      managed || (autoRemove && status != Created)
    }
  }

  type World = map<Name, Container>

  // Why a container is removed: it holds the name, it may hold the name before a pull, or
  // it is what a failed attempt left behind.
  datatype Cause = Healing | Pulling | Retrying

  datatype Phase =
    | Inspecting(k: nat)
    | Scanning(k: nat)
    | Fetching(k: nat)
    | Starting(k: nat)
    | Monitoring(k: nat)
    | Removing(cause: Cause, k: nat)        // about to call the daemon
    | Waiting(cause: Cause, k: nat)         // until the name is free
    | Done
    | Failed

  // A removal call that found a container on the name.
  datatype Hit = Hit(name: Name, container: Container)

  datatype State = State(
    names: seq<Name>,
    world: World,
    phase: Phase,
    selected: seq<Name>,
    candidate: bool,                        // a license exit may be retried
    second: bool,                           // the second start pass
    hits: seq<Hit>,
    inspected: set<Name>,                   // names looked at so far
    others: set<Name>)                      // ... on which someone else created a container since
  {
    predicate PhaseInRange() {
      match phase
      case Inspecting(k) => k < |names|
      case Scanning(k) => k < |names|
      case Removing(cause, k) => k < if cause == Healing then |names| else |selected|
      case Waiting(cause, k) => k < if cause == Healing then |names| else |selected|
      case Fetching(k) => k < |selected|
      case Starting(k) => k < |selected|
      case Monitoring(k) => k < |selected|
      case _ => true
    }

    predicate Over() {
      phase.Done? || phase.Failed?
    }

    // The name the current phase is about.
    function Target(): Name
      requires PhaseInRange() && !Over()
    {
      match phase
      case Inspecting(k) => names[k]
      case Scanning(k) => names[k]
      case Removing(Healing, k) => names[k]
      case Waiting(Healing, k) => names[k]
      case Removing(_, k) => selected[k]
      case Waiting(_, k) => selected[k]
      case Fetching(k) => selected[k]
      case Starting(k) => selected[k]
      case Monitoring(k) => selected[k]
    }

    function Select(x: Name): State {
      this.(selected := selected + [x])
    }

    // The selection loop goes on after container k; the pulls begin after the last.
    function NextInspection(k: nat): State {
      this.(phase :=
        if k + 1 < |names| then Inspecting(k + 1)
        else if selected == [] then Done
        else Removing(Pulling, 0))
    }

    // The license files, checked between these phases, can only end the start.
    function NextPull(k: nat): State {
      this.(phase := if k + 1 < |selected| then Removing(Pulling, k + 1) else Starting(0))
    }

    function NextStart(k: nat): State {
      this.(phase := if k + 1 < |selected| then Starting(k + 1) else Done)
    }

    function Resume(cause: Cause, k: nat): State {
      this.(phase :=
        match cause
        case Healing => Scanning(k)
        case Pulling => Fetching(k)
        case Retrying => Starting(k))
    }
  }

  datatype Choice = Keep | Skip | Reject

  datatype Event =
    // other actors
    | Vanish(x: Name)
    | Change(x: Name, status: Status)
    | Create(x: Name, container: Container)
    // answers to the start
    | Inspect(x: Name)
    | Scan(choice: Choice)
    | Delete                                // the daemon removes the container
    | InProgress                            // it says so, or that there is none
    | Refuse                                // it fails otherwise
    | SeeGone
    | Fetch
    | Start
    | StartFails(created: bool, optionalBind: bool)
    | Ready
    | LicenseExit
    | Abort                                 // cancellation, or any other failure

  predicate ByOthers(e: Event) {
    e.Vanish? || e.Change? || e.Create?
  }

  predicate Enabled(s: State, e: Event)
    requires s.PhaseInRange()
  {
    match e
    case Vanish(x) => x in s.world
    case Change(x, status) => x in s.world && status != Created
    case Create(x, _) => x !in s.world
    case Inspect(x) => s.phase.Inspecting? && x == s.Target()
    case Scan(_) => s.phase.Scanning?
    // Removal is not forced: the daemon does not remove a running container.
    case Delete => s.phase.Removing? && s.Target() in s.world && s.world[s.Target()].status != Running
    case InProgress => s.phase.Removing?
    case Refuse => s.phase.Removing?
    case SeeGone => s.phase.Waiting? && s.Target() !in s.world
    case Fetch => s.phase.Fetching?
    case Start => s.phase.Starting? && s.Target() !in s.world
    case StartFails(created, _) => s.phase.Starting? && (created ==> s.Target() !in s.world)
    case Ready => s.phase.Monitoring?
    case LicenseExit => s.phase.Monitoring? && s.candidate && !s.second
    case Abort => !s.Over()
  }

  function InspectNext(s: State, k: nat): State
    requires k < |s.names|
  {
    if s.names[k] !in s.world then s.(phase := Scanning(k)) else
    var c := s.world[s.names[k]];
    if c.status == Running then s.NextInspection(k)
    else if c.Removable() then s.(phase := Removing(Healing, k))
    else s.(phase := Failed)
  }

  function Called(s: State, e: Event): State
    requires s.PhaseInRange() && s.phase.Removing?
  {
    var x := s.Target();
    var t := if x in s.world then s.(hits := s.hits + [Hit(x, s.world[x])]) else s;
    var u := if e.Delete? then t.(world := t.world - {x}) else t;
    u.(phase := if e.Refuse? then Failed else Waiting(s.phase.cause, s.phase.k))
  }

  function Next(s: State, e: Event): State
    requires s.PhaseInRange() && Enabled(s, e)
  {
    match e
    case Vanish(x) => s.(world := s.world - {x})
    case Change(x, status) => s.(world := s.world[x := s.world[x].(status := status)])
    case Create(x, c) =>
      s.(world := s.world[x := c], others := if x in s.inspected then s.others + {x} else s.others)
    case Inspect(x) => InspectNext(s.(inspected := s.inspected + {x}), s.phase.k)
    case Scan(choice) =>
      (match choice
       case Keep => s.Select(s.Target()).NextInspection(s.phase.k)
       case Skip => s.NextInspection(s.phase.k)
       case Reject => s.(phase := Failed))
    case Delete => Called(s, e)
    case InProgress => Called(s, e)
    case Refuse => Called(s, e)
    case SeeGone => s.Resume(s.phase.cause, s.phase.k)
    case Fetch => s.NextPull(s.phase.k)
    case Start =>
      s.(world := s.world[s.Target() := Container(true, true, Running)], phase := Monitoring(s.phase.k))
    case StartFails(created, optionalBind) =>
      var t := if created then s.(world := s.world[s.Target() := Container(true, true, Created)]) else s;
      t.(phase := if optionalBind then Removing(Retrying, s.phase.k) else Failed)
    case Ready => s.NextStart(s.phase.k)
    case LicenseExit => s.(phase := Starting(0), second := true)
    case Abort => s.(phase := Failed)
  }

  function Initial(names: seq<Name>, world: World, candidate: bool): State {
    State(names, world, if names == [] then Done else Inspecting(0), [], candidate, false, [], {}, {})
  }

  // The state after a run, if every event of it is possible where it happens.
  function After(s0: State, events: seq<Event>): (s: Option<State>) {
    if events == [] then Some(s0) else
    match After(s0, events[..|events| - 1])
    case None => None
    case Some(t) => Step(t, events[|events| - 1])
  }

  function Step(s: State, e: Event): Option<State> {
    if s.PhaseInRange() && Enabled(s, e) then Some(Next(s, e)) else None
  }

  predicate Run(s0: State, events: seq<Event>, s: State) {
    After(s0, events) == Some(s)
  }

  // The last step of a run.
  lemma LastStep(s0: State, events: seq<Event>, s: State) returns (before: seq<Event>, t: State, e: Event)
    requires Run(s0, events, s) && events != []
    ensures events == before + [e] && Run(s0, before, t) && t.PhaseInRange() && Enabled(t, e) && s == Next(t, e)
  {
    before, e := events[..|events| - 1], events[|events| - 1];
    t := After(s0, before).value;
  }

  lemma OneStep(s0: State, events: seq<Event>, s: State, e: Event)
    requires Run(s0, events, s) && s.PhaseInRange() && Enabled(s, e)
    ensures Run(s0, events + [e], Next(s, e))
  {
    assert (events + [e])[..|events|] == events;
  }

  // ----- Safety -----

  // Since the name was inspected, nobody else created a container on it, and what is on
  // it may go.
  predicate MayGo(s: State, x: Name) {
    x in s.inspected && (x in s.others || x !in s.world || s.world[x].Removable())
  }

  // ... and what is on it is ours.
  predicate Ours(s: State, x: Name) {
    x in s.inspected && (x in s.others || x !in s.world || s.world[x].managed)
  }

  ghost predicate HitsAreSafe(s: State) {
    forall h :: h in s.hits ==> h.name in s.others || h.container.Removable()
  }

  ghost predicate AllOurs(s: State) {
    forall x :: x in s.selected ==> Ours(s, x)
  }

  ghost predicate PhaseInv(s: State)
    requires s.PhaseInRange()
  {
    && ((s.phase.Removing? || s.phase.Waiting?) ==> MayGo(s, s.Target()))
    && (s.phase.Scanning? ==> Ours(s, s.Target()))
  }

  ghost predicate Inv(s: State) {
    && s.PhaseInRange()
    && HitsAreSafe(s)
    && AllOurs(s)
    && PhaseInv(s)
  }

  lemma OthersKeepInv(s: State, e: Event)
    requires Inv(s) && Enabled(s, e) && ByOthers(e)
    ensures Inv(Next(s, e))
  {
    var t := Next(s, e);
    forall x | Ours(s, x)
      ensures Ours(t, x)
    {
    }
  }

  lemma CallKeepsInv(s: State, e: Event)
    requires Inv(s) && Enabled(s, e) && s.phase.Removing? && (e.Delete? || e.InProgress? || e.Refuse?)
    ensures Inv(Next(s, e))
  {
    var t := Next(s, e);
    forall x | Ours(s, x)
      ensures Ours(t, x)
    {
    }
  }

  lemma NextInspectionKeepsInv(s: State, k: nat)
    requires k < |s.names| && HitsAreSafe(s) && AllOurs(s)
    ensures Inv(s.NextInspection(k))
  {
    var t := s.NextInspection(k);
    assert AllOurs(t);
    if t.phase.Removing? {
      assert t.Target() in s.selected;
    }
  }

  lemma InspectKeepsInv(s: State, k: nat)
    requires Inv(s) && s.phase == Inspecting(k)
    ensures Inv(Next(s, Inspect(s.names[k])))
  {
    var u := s.(inspected := s.inspected + {s.names[k]});
    forall x | Ours(s, x)
      ensures Ours(u, x)
    {
    }
    NextInspectionKeepsInv(u, k);
    var t := InspectNext(u, k);
    if t != u.NextInspection(k) {
      assert AllOurs(t);
    }
  }

  lemma ScanKeepsInv(s: State, k: nat, choice: Choice)
    requires Inv(s) && s.phase == Scanning(k)
    ensures Inv(Next(s, Scan(choice)))
  {
    NextInspectionKeepsInv(s, k);
    var t := s.Select(s.names[k]);
    assert AllOurs(t);
    NextInspectionKeepsInv(t, k);
  }

  lemma StartKeepsInv(s: State, e: Event)
    requires Inv(s) && Enabled(s, e) && (e.Start? || e.StartFails?)
    ensures Inv(Next(s, e))
  {
    var t := Next(s, e);
    assert s.Target() in s.selected;
    forall x | Ours(s, x)
      ensures Ours(t, x)
    {
    }
  }

  lemma ProgressKeepsInv(s: State, e: Event)
    requires Inv(s) && Enabled(s, e)
    requires e.SeeGone? || e.Fetch? || e.Ready? || e.LicenseExit? || e.Abort?
    ensures Inv(Next(s, e))
  {
    var t := Next(s, e);
    assert t.world == s.world && t.others == s.others && t.selected == s.selected;
    if t.phase.Removing? {
      assert t.Target() in s.selected;
    }
  }

  lemma StepKeepsInv(s: State, e: Event)
    requires Inv(s) && Enabled(s, e)
    ensures Inv(Next(s, e)) && Next(s, e).names == s.names
  {
    if ByOthers(e) {
      OthersKeepInv(s, e);
    } else if e.Delete? || e.InProgress? || e.Refuse? {
      CallKeepsInv(s, e);
    } else if e.Inspect? {
      InspectKeepsInv(s, s.phase.k);
    } else if e.Scan? {
      ScanKeepsInv(s, s.phase.k, e.choice);
    } else if e.Start? || e.StartFails? {
      StartKeepsInv(s, e);
    } else {
      ProgressKeepsInv(s, e);
    }
  }

  lemma {:induction false} RunKeepsInv(names: seq<Name>, world: World, candidate: bool, events: seq<Event>, s: State)
    requires Run(Initial(names, world, candidate), events, s)
    ensures Inv(s) && s.names == names
    decreases |events|
  {
    if events == [] {
    } else {
      var before, t, e := LastStep(Initial(names, world, candidate), events, s);
      RunKeepsInv(names, world, candidate, before, t);
      StepKeepsInv(t, e);
    }
  }

  predicate CreatesOn(e: Event, x: Name) {
    e.Create? && e.x == x
  }

  // Someone else creates a container on the name after it was inspected.
  ghost predicate CreatedLate(events: seq<Event>, x: Name) {
    exists i, j :: 0 <= i < j < |events| && events[i] == Inspect(x) && CreatesOn(events[j], x)
  }

  lemma CreatedLateStays(before: seq<Event>, e: Event, x: Name)
    requires CreatedLate(before, x)
    ensures CreatedLate(before + [e], x)
  {
    var i, j :| 0 <= i < j < |before| && before[i] == Inspect(x) && CreatesOn(before[j], x);
    assert (before + [e])[i] == Inspect(x) && CreatesOn((before + [e])[j], x);
  }

  lemma NewName(s: State, e: Event, x: Name)
    requires s.PhaseInRange() && Enabled(s, e)
    ensures x in Next(s, e).inspected ==> x in s.inspected || e == Inspect(x)
    ensures x in Next(s, e).others ==> x in s.others || (x in s.inspected && CreatesOn(e, x))
  {
  }

  lemma {:induction false} InspectedByEvent(s0: State, events: seq<Event>, s: State, x: Name)
    requires Run(s0, events, s) && x in s.inspected && x !in s0.inspected
    ensures Inspect(x) in events
    decreases |events|
  {
    if events == [] {
    } else {
      var before, t, e := LastStep(s0, events, s);
      NewName(t, e, x);
      if x in t.inspected {
        InspectedByEvent(s0, before, t, x);
      }
    }
  }

  // A name is in others only if a container was created on it after its inspection.
  lemma {:induction false} OthersCreated(s0: State, events: seq<Event>, s: State, x: Name)
    requires Run(s0, events, s) && x in s.others && s0.others == s0.inspected == {}
    ensures CreatedLate(events, x)
    decreases |events|
  {
    if events == [] {
    } else {
      var before, t, e := LastStep(s0, events, s);
      NewName(t, e, x);
      if x in t.others {
        OthersCreated(s0, before, t, x);
        CreatedLateStays(before, e, x);
      } else {
        InspectedByEvent(s0, before, t, x);
        var i :| 0 <= i < |before| && before[i] == Inspect(x);
        assert events[i] == Inspect(x) && CreatesOn(events[|before|], x);
      }
    }
  }

  // Whatever the daemon answers and whatever else goes on, a removal hits a container
  // that is ours or self-removing and past its creation, unless someone else created a
  // container on that very name after the start had inspected it.
  lemma EveryHitIsSafe(names: seq<Name>, world: World, candidate: bool, events: seq<Event>, s: State, h: Hit)
    requires Run(Initial(names, world, candidate), events, s) && h in s.hits
    requires !h.container.managed && !(h.container.autoRemove && h.container.status != Created)
    ensures CreatedLate(events, h.name)
  {
    RunKeepsInv(names, world, candidate, events, s);
    OthersCreated(Initial(names, world, candidate), events, s, h.name);
  }

  // No step of the start itself changes a container it may not remove.
  lemma StartTouchesOnlyRemovable(names: seq<Name>, world: World, candidate: bool, events: seq<Event>, s: State,
                                  e: Event, x: Name)
    requires Run(Initial(names, world, candidate), events, s) && s.PhaseInRange() && Enabled(s, e) && !ByOthers(e)
    requires x in s.world && x !in s.others
    requires !s.world[x].managed && !(s.world[x].autoRemove && s.world[x].status != Created)
    ensures x in Next(s, e).world && Next(s, e).world[x] == s.world[x]
  {
    RunKeepsInv(names, world, candidate, events, s);
  }

  // ----- A foreign container parked on the name -----

  // Not ours, not running, and either not self-removing or never started.
  predicate Parked(world: World, x: Name) {
    && x in world && !world[x].managed && world[x].status != Running
    && (!world[x].autoRemove || world[x].status == Created)
  }

  predicate Untouched(s: State, x: Name, c: Container) {
    && (s.phase == Inspecting(0) || s.phase == Failed)
    && x in s.world && s.world[x] == c && s.hits == [] && s.names == [x]
  }

  lemma StepLeavesUntouched(s: State, e: Event, x: Name, c: Container)
    requires Untouched(s, x, c) && Parked(map[x := c], x) && s.PhaseInRange() && Enabled(s, e)
    requires ByOthers(e) ==> e.x != x
    ensures Untouched(Next(s, e), x, c)
    ensures s.phase == Failed || e.Inspect? ==> Next(s, e).phase == Failed
  {
  }

  // It ends the start as soon as the name is inspected, and it is never even called on:
  // as long as the others leave it alone it stays as it was.
  lemma {:induction false} ParkedContainerEndsTheStart(x: Name, world: World, candidate: bool, events: seq<Event>,
                                                       s: State)
    requires Run(Initial([x], world, candidate), events, s) && Parked(world, x)
    requires forall e :: e in events && ByOthers(e) ==> e.x != x
    ensures Untouched(s, x, world[x])
    ensures Inspect(x) in events ==> s.phase == Failed
    decreases |events|
  {
    if events == [] {
    } else {
      var before, t, e := LastStep(Initial([x], world, candidate), events, s);
      assert e in events && forall f :: f in before ==> f in events;
      ParkedContainerEndsTheStart(x, world, candidate, before, t);
      StepLeavesUntouched(t, e, x, world[x]);
    }
  }

  // ----- The name is free for the first attempt -----

  predicate Free(s: State, x: Name) {
    x in s.inspected && (x in s.others || x !in s.world)
  }

  // Before the first container of the first pass is started.
  predicate BeforeStart(s: State) {
    match s.phase
    case Scanning(_) => true
    case Removing(cause, _) => cause == Pulling
    case Waiting(cause, _) => cause == Pulling
    case Fetching(_) => true
    case Starting(_) => !s.second
    case _ => false
  }

  // Before container 0 is selected.
  predicate Selecting(s: State) {
    match s.phase
    case Inspecting(_) => true
    case Scanning(_) => true
    case Removing(cause, _) => cause == Healing
    case Waiting(cause, _) => cause == Healing
    case _ => false
  }

  ghost predicate FreeInv(s: State, x: Name) {
    && s.names == [x]
    && (BeforeStart(s) ==> Free(s, x))
    && (s.phase.Inspecting? || s.Over() || x in s.inspected)
    && s.selected == if Selecting(s) || s.selected == [] then [] else [x]
  }

  lemma OthersKeepFree(s: State, e: Event, x: Name)
    requires s.PhaseInRange() && FreeInv(s, x) && Enabled(s, e) && ByOthers(e)
    ensures FreeInv(Next(s, e), x)
  {
  }

  lemma SelectionKeepsFree(s: State, e: Event, x: Name)
    requires s.PhaseInRange() && FreeInv(s, x) && Enabled(s, e) && !ByOthers(e) && Selecting(s)
    ensures FreeInv(Next(s, e), x)
  {
    assert s.Target() == x;
  }

  lemma StartKeepsFree(s: State, e: Event, x: Name)
    requires s.PhaseInRange() && FreeInv(s, x) && Enabled(s, e) && !ByOthers(e) && !Selecting(s)
    ensures FreeInv(Next(s, e), x)
  {
    assert s.Target() == x;
  }

  lemma StepKeepsFree(s: State, e: Event, x: Name)
    requires s.PhaseInRange() && FreeInv(s, x) && Enabled(s, e)
    ensures FreeInv(Next(s, e), x)
  {
    if ByOthers(e) {
      OthersKeepFree(s, e, x);
    } else if Selecting(s) {
      SelectionKeepsFree(s, e, x);
    } else {
      StartKeepsFree(s, e, x);
    }
  }

  lemma {:induction false} RunKeepsFree(x: Name, world: World, candidate: bool, events: seq<Event>, s: State)
    requires Run(Initial([x], world, candidate), events, s)
    ensures FreeInv(s, x)
    decreases |events|
  {
    if events == [] {
    } else {
      var before, t, e := LastStep(Initial([x], world, candidate), events, s);
      RunKeepsFree(x, world, candidate, before, t);
      StepKeepsFree(t, e, x);
    }
  }

  // Without other creators no attempt of the first pass, first try or retry, finds its
  // name taken, and the removal before the pull finds nothing to remove.
  lemma NameIsFreeForFirstPass(x: Name, world: World, candidate: bool, events: seq<Event>, s: State)
    requires Run(Initial([x], world, candidate), events, s) && x !in s.others
    ensures s.phase.Starting? && !s.second ==> x !in s.world
    ensures s.phase.Removing? && s.phase.cause == Pulling ==> x !in s.world
  {
    RunKeepsFree(x, world, candidate, events, s);
  }

  // ----- The second pass -----

  // The last thing to happen to the name was that what was on it went away.
  predicate GoneSince(events: seq<Event>, x: Name) {
    events != [] &&
    match events[|events| - 1]
    case Vanish(y) => y == x || GoneSince(events[..|events| - 1], x)
    case Delete => true
    case Start => false
    case StartFails(created, _) => !created && GoneSince(events[..|events| - 1], x)
    case _ => GoneSince(events[..|events| - 1], x)
  }

  predicate StartedSome(events: seq<Event>) {
    exists e :: e in events && e.Start?
  }

  // What an event does to what is on the name.
  lemma EventOnName(s: State, e: Event, x: Name)
    requires s.PhaseInRange() && s.names == [x] && FreeInv(s, x) && Enabled(s, e) && !CreatesOn(e, x)
    ensures e == Vanish(x) || e.Delete? ==> x !in Next(s, e).world
    ensures e.Start? || (e.StartFails? && e.created) ==> x in Next(s, e).world
    ensures !(e == Vanish(x) || e.Delete? || e.Start? || (e.StartFails? && e.created)) ==>
      (x in Next(s, e).world <==> x in s.world)
  {
    if !s.Over() {
      assert s.Target() == x;
    }
  }

  lemma LaterPhase(s: State, e: Event)
    requires s.PhaseInRange() && Enabled(s, e) && (Next(s, e).phase.Monitoring? || Next(s, e).second)
    ensures s.phase.Monitoring? || s.second || e.Start?
  {
  }

  lemma {:induction false} SomethingStarted(s0: State, events: seq<Event>, s: State)
    requires Run(s0, events, s) && !s0.phase.Monitoring? && !s0.second && (s.phase.Monitoring? || s.second)
    ensures StartedSome(events)
    decreases |events|
  {
    if events == [] {
    } else {
      var before, t, e := LastStep(s0, events, s);
      LaterPhase(t, e);
      if !e.Start? {
        SomethingStarted(s0, before, t);
        var d :| d in before && d.Start?;
        assert d in events;
      } else {
        assert e in events;
      }
    }
  }

  lemma OthersStay(s: State, e: Event, x: Name)
    requires s.PhaseInRange() && Enabled(s, e) && x !in Next(s, e).others
    ensures x !in s.others && (x in s.inspected ==> !CreatesOn(e, x))
  {
  }

  lemma FirstStart(x: Name, world: World, candidate: bool, before: seq<Event>, t: State, e: Event)
    requires Run(Initial([x], world, candidate), before, t) && t.PhaseInRange() && Enabled(t, e)
    requires x !in Next(t, e).others && StartedSome(before + [e]) && !StartedSome(before)
    ensures x in Next(t, e).world && !GoneSince(before + [e], x)
    ensures x in Next(t, e).inspected
  {
    RunKeepsFree(x, world, candidate, before, t);
    OthersStay(t, e, x);
    var d :| d in before + [e] && d.Start?;
    assert d == e || d in before;
    if t.second {
      SomethingStarted(Initial([x], world, candidate), before, t);
    }
    assert BeforeStart(t);
    EventOnName(t, e, x);
  }

  lemma LaterEvent(x: Name, world: World, candidate: bool, before: seq<Event>, t: State, e: Event)
    requires Run(Initial([x], world, candidate), before, t) && t.PhaseInRange() && Enabled(t, e)
    requires x !in Next(t, e).others && x in t.inspected
    requires x !in t.world <==> GoneSince(before, x)
    ensures x !in Next(t, e).world <==> GoneSince(before + [e], x)
  {
    RunKeepsFree(x, world, candidate, before, t);
    OthersStay(t, e, x);
    EventOnName(t, e, x);
    assert (before + [e])[..|before|] == before;
  }

  lemma {:induction false} NameFreeIffGone(x: Name, world: World, candidate: bool, events: seq<Event>, s: State)
    requires Run(Initial([x], world, candidate), events, s) && x !in s.others && StartedSome(events)
    ensures x !in s.world <==> GoneSince(events, x)
    ensures x in s.inspected
    decreases |events|
  {
    var before, t, e := LastStep(Initial([x], world, candidate), events, s);
    if StartedSome(before) {
      OthersStay(t, e, x);
      NameFreeIffGone(x, world, candidate, before, t);
      LaterEvent(x, world, candidate, before, t, e);
    } else {
      FirstStart(x, world, candidate, before, t, e);
    }
  }

  // An attempt of the second pass finds its name free exactly if what the first pass
  // started has gone since, by itself or removed; and what it finds otherwise is ours.
  lemma SecondPassFindsItsOwn(x: Name, world: World, candidate: bool, events: seq<Event>, s: State)
    requires Run(Initial([x], world, candidate), events, s) && x !in s.others
    requires s.phase.Starting? && s.second
    ensures x !in s.world <==> GoneSince(events, x)
    ensures x in s.world ==> s.world[x].managed
  {
    SomethingStarted(Initial([x], world, candidate), events, s);
    NameFreeIffGone(x, world, candidate, events, s);
    RunKeepsInv([x], world, candidate, events, s);
    assert s.selected[s.phase.k] in s.selected;
    RunKeepsFree(x, world, candidate, events, s);
  }

  // A start that finds nothing and goes straight to its first attempt.
  lemma PlainRun(x: Name, candidate: bool) returns (events: seq<Event>)
    ensures Run(Initial([x], map[], candidate), events,
                State([x], map[], Starting(0), [x], candidate, false, [], {x}, {}))
  {
    var s0 := Initial([x], map[], candidate);
    var s1 := State([x], map[], Scanning(0), [], candidate, false, [], {x}, {});
    var s2 := s1.(selected := [x], phase := Removing(Pulling, 0));
    var e1, e2 := [] + [Inspect(x)], [] + [Inspect(x)] + [Scan(Keep)];
    OneStep(s0, [], s0, Inspect(x));
    assert s0.inspected + {x} == {x} && s1.selected + [x] == [x];
    OneStep(s0, e1, s1, Scan(Keep));
    OneStep(s0, e2, s2, InProgress);
    OneStep(s0, e2 + [InProgress], s2.(phase := Waiting(Pulling, 0)), SeeGone);
    OneStep(s0, e2 + [InProgress] + [SeeGone], s2.(phase := Fetching(0)), Fetch);
    events := e2 + [InProgress] + [SeeGone] + [Fetch];
  }

  ghost predicate Collides(events: seq<Event>, s: State, x: Name) {
    Run(Initial([x], map[], true), events, s) && s.phase.Starting? && s.second && x in s.world && s.others == {}
  }

  // It may still be there: the start does not wait for it.
  lemma SecondPassMayCollide(x: Name) returns (events: seq<Event>, s: State)
    ensures Collides(events, s, x)
  {
    var before := PlainRun(x, true);
    var s0, t := Initial([x], map[], true), State([x], map[], Starting(0), [x], true, false, [], {x}, {});
    OneStep(s0, before, t, Start);
    OneStep(s0, before + [Start], Next(t, Start), LicenseExit);
    events, s := before + [Start] + [LicenseExit], Next(Next(t, Start), LicenseExit);
  }

  // The removal before the pull does not look at what it removes: a container created
  // on the name after the inspection is removed whoever made it.
  lemma LateCreationIsRemoved(x: Name, c: Container)
    requires !c.managed && c.status != Running && (!c.autoRemove || c.status == Created)
    ensures exists events, s :: Run(Initial([x], map[], false), events, s) && s.hits == [Hit(x, c)] && x !in s.world
  {
    var s0 := Initial([x], map[], false);
    var s1 := Next(s0, Inspect(x));
    var s2 := Next(s1, Scan(Keep));
    var s3 := Next(s2, Create(x, c));
    var s4 := Next(s3, Delete);
    var one := [] + [Inspect(x)];
    var two := one + [Scan(Keep)];
    var three := two + [Create(x, c)];
    OneStep(s0, [], s0, Inspect(x));
    OneStep(s0, one, s1, Scan(Keep));
    OneStep(s0, two, s2, Create(x, c));
    OneStep(s0, three, s3, Delete);
    assert Run(s0, three + [Delete], s4);
  }

  // ----- What the inspection decides -----

  // What the inspection of a name finds.
  datatype Found = Nothing | AlreadyRunning | Leftover | Foreign

  function Find(world: World, x: Name): Found {
    if x !in world then Nothing
    else if world[x].status == Running then AlreadyRunning
    else if world[x].managed || (world[x].autoRemove && world[x].status != Created) then Leftover
    else Foreign
  }

  // In every run, what is on the name when it is inspected decides: a foreign container
  // ends the start, a leftover is removed, nothing leads to the scan, and a running
  // container needs no start.
  lemma InspectionDecides(names: seq<Name>, world: World, candidate: bool, events: seq<Event>, s: State, k: nat,
                          x: Name, t: State)
    requires Run(Initial(names, world, candidate), events, s) && s.phase == Inspecting(k)
    requires s.PhaseInRange() && Enabled(s, Inspect(x)) && t == Next(s, Inspect(x))
    ensures k < |names| && x == names[k]
    ensures t.phase == Failed <==> Find(s.world, x) == Foreign
    ensures t.phase == Removing(Healing, k) <==> Find(s.world, x) == Leftover
    ensures t.phase == Scanning(k) <==> Find(s.world, x) == Nothing
    ensures Find(s.world, x) == AlreadyRunning ==> t.phase == s.NextInspection(k).phase
    ensures t.selected == s.selected && t.world == s.world
  {
    RunKeepsInv(names, world, candidate, events, s);
  }

  // A leftover that may go is removed, and the start goes on to its first attempt with
  // the name free.
  lemma LeftoverIsRemoved(x: Name, c: Container, candidate: bool) returns (events: seq<Event>, s: State)
    requires Find(map[x := c], x) == Leftover
    ensures Run(Initial([x], map[x := c], candidate), events, s)
    ensures s.phase == Starting(0) && x !in s.world && s.hits == [Hit(x, c)] && s.selected == [x]
  {
    var s0 := Initial([x], map[x := c], candidate);
    events, s := Healed(x, c, candidate);
    events, s := OneMore(s0, events, s, Scan(Keep));
    events, s := OneMore(s0, events, s, InProgress);
    events, s := OneMore(s0, events, s, SeeGone);
    events, s := OneMore(s0, events, s, Fetch);
  }

  lemma OneMore(s0: State, events: seq<Event>, s: State, e: Event) returns (longer: seq<Event>, t: State)
    requires Run(s0, events, s) && s.PhaseInRange() && Enabled(s, e)
    ensures longer == events + [e] && t == Next(s, e) && Run(s0, longer, t)
  {
    OneStep(s0, events, s, e);
    longer, t := events + [e], Next(s, e);
  }

  lemma Healed(x: Name, c: Container, candidate: bool) returns (events: seq<Event>, s: State)
    requires c.status != Running && c.Removable()
    ensures Run(Initial([x], map[x := c], candidate), events, s)
    ensures s == State([x], map[], Scanning(0), [], candidate, false, [Hit(x, c)], {x}, {})
  {
    var s0 := Initial([x], map[x := c], candidate);
    var s1 := State([x], map[x := c], Removing(Healing, 0), [], candidate, false, [], {x}, {});
    var s2 := State([x], map[], Waiting(Healing, 0), [], candidate, false, [Hit(x, c)], {x}, {});
    OneStep(s0, [], s0, Inspect(x));
    assert Next(s0, Inspect(x)) == s1 by {
      assert s0.inspected + {x} == {x};
    }
    events := [] + [Inspect(x)];
    assert Next(s1, Delete) == s2 by {
      assert s1.world - {x} == map[] && s1.hits + [Hit(x, c)] == [Hit(x, c)];
    }
    events, s := OneMore(s0, events, s1, Delete);
    events, s := OneMore(s0, events, s2, SeeGone);
  }

  // ----- What ends a start -----

  // In every run a start fails with a rejected scan, a refused removal, a failed creation
  // that blames no optional port, an abort, or a foreign container on the name, and with
  // nothing else.
  lemma OnlyTheseFail(names: seq<Name>, world: World, candidate: bool, events: seq<Event>, s: State, e: Event)
    requires Run(Initial(names, world, candidate), events, s) && s.PhaseInRange() && Enabled(s, e)
    requires s.phase != Failed
    ensures Next(s, e).phase == Failed <==>
      match e
      case Scan(choice) => choice == Reject
      case Refuse => true
      case StartFails(_, optionalBind) => !optionalBind
      case Abort => true
      case Inspect(x) => Parked(s.world, x)
      case _ => false
  {
  }

  // ----- Everything is done, in order -----

  // The names that were inspected.
  function Inspected(events: seq<Event>): seq<Name> {
    if events == [] then []
    else
      var last := events[|events| - 1];
      Inspected(events[..|events| - 1]) + if last.Inspect? then [last.x] else []
  }

  // The names that the scan kept, each inspected just before.
  function Kept(events: seq<Event>): seq<Name> {
    if events == [] then []
    else
      var front, last := events[..|events| - 1], events[|events| - 1];
      var names := Inspected(front);
      Kept(front) + if last == Scan(Keep) && names != [] then [names[|names| - 1]] else []
  }

  function Fetches(events: seq<Event>): nat {
    if events == [] then 0
    else Fetches(events[..|events| - 1]) + if events[|events| - 1].Fetch? then 1 else 0
  }

  // How many containers became ready in the current pass.
  function Readies(events: seq<Event>): nat {
    if events == [] then 0
    else
      match events[|events| - 1]
      case Ready => Readies(events[..|events| - 1]) + 1
      case LicenseExit => 0
      case _ => Readies(events[..|events| - 1])
  }

  function Exits(events: seq<Event>): nat {
    if events == [] then 0
    else Exits(events[..|events| - 1]) + if events[|events| - 1].LicenseExit? then 1 else 0
  }

  // What a run did, one number for each kind.
  datatype Tally = Tally(inspected: seq<Name>, kept: seq<Name>, fetches: nat, readies: nat, exits: nat) {
    function Count(e: Event): Tally {
      match e
      case Inspect(x) => this.(inspected := inspected + [x])
      case Scan(Keep) => if inspected == [] then this else this.(kept := kept + [inspected[|inspected| - 1]])
      case Fetch => this.(fetches := fetches + 1)
      case Ready => this.(readies := readies + 1)
      case LicenseExit => this.(readies := 0, exits := exits + 1)
      case _ => this
    }
  }

  function TallyOf(events: seq<Event>): Tally {
    Tally(Inspected(events), Kept(events), Fetches(events), Readies(events), Exits(events))
  }

  lemma TallyOne(before: seq<Event>, e: Event)
    ensures TallyOf(before + [e]) == TallyOf(before).Count(e)
  {
    assert (before + [e])[..|before|] == before;
  }

  // How far the start is, told by what it did.
  ghost predicate OnCourse(s: State, t: Tally) {
    var n := |t.inspected|;
    && n <= |s.names| && t.inspected == s.names[..n] && t.kept == s.selected
    && (s.second <==> t.exits == 1) && t.exits <= 1 && (s.second ==> s.candidate)
    && match s.phase
       case Inspecting(k) => n == k && t.fetches == 0 && t.readies == 0
       case Scanning(k) => n == k + 1 && t.fetches == 0 && t.readies == 0
       case Removing(cause, k) => Removes(cause, k, s, t)
       case Waiting(cause, k) => Removes(cause, k, s, t)
       case Fetching(k) => n == |s.names| && t.fetches == k && t.readies == 0
       case Starting(k) => n == |s.names| && t.fetches == |s.selected| && t.readies == k
       case Monitoring(k) => n == |s.names| && t.fetches == |s.selected| && t.readies == k
       case Done => n == |s.names| && t.fetches == |s.selected| == t.readies
       case Failed => true
  }

  predicate Removes(cause: Cause, k: nat, s: State, t: Tally) {
    match cause
    case Healing => |t.inspected| == k + 1 && t.fetches == 0 && t.readies == 0
    case Pulling => |t.inspected| == |s.names| && t.fetches == k && t.readies == 0
    case Retrying => |t.inspected| == |s.names| && t.fetches == |s.selected| && t.readies == k
  }

  lemma OthersKeepCourse(s: State, t: Tally, e: Event)
    requires s.PhaseInRange() && Enabled(s, e) && OnCourse(s, t) && ByOthers(e)
    ensures OnCourse(Next(s, e), t.Count(e))
  {
  }

  lemma NextInspectionKeepsCourse(s: State, t: Tally, k: nat)
    requires k < |s.names| && |t.inspected| == k + 1 && t.inspected == s.names[..k + 1] && t.kept == s.selected
    requires t.fetches == 0 && t.readies == 0 && t.exits == 0 && !s.second
    ensures OnCourse(s.NextInspection(k), t)
  {
  }

  lemma InspectKeepsCourse(s: State, t: Tally, k: nat)
    requires s.PhaseInRange() && s.phase == Inspecting(k) && OnCourse(s, t) && !s.second
    ensures OnCourse(Next(s, Inspect(s.names[k])), t.Count(Inspect(s.names[k])))
  {
    var u := t.Count(Inspect(s.names[k]));
    assert u.inspected == s.names[..k + 1];
    NextInspectionKeepsCourse(s.(inspected := s.inspected + {s.names[k]}), u, k);
  }

  lemma ScanKeepsCourse(s: State, t: Tally, k: nat, choice: Choice)
    requires s.PhaseInRange() && s.phase == Scanning(k) && OnCourse(s, t) && !s.second
    ensures OnCourse(Next(s, Scan(choice)), t.Count(Scan(choice)))
  {
    var u := t.Count(Scan(choice));
    assert s.names[..k + 1][k] == s.names[k];
    if choice == Keep {
      NextInspectionKeepsCourse(s.Select(s.names[k]), u, k);
    } else if choice == Skip {
      NextInspectionKeepsCourse(s, u, k);
    }
  }

  lemma RemovalKeepsCourse(s: State, t: Tally, e: Event)
    requires s.PhaseInRange() && Enabled(s, e) && OnCourse(s, t)
    requires e.Delete? || e.InProgress? || e.Refuse? || e.SeeGone?
    ensures OnCourse(Next(s, e), t.Count(e))
  {
  }

  lemma StartKeepsCourse(s: State, t: Tally, e: Event)
    requires s.PhaseInRange() && Enabled(s, e) && OnCourse(s, t)
    requires e.Fetch? || e.Start? || e.StartFails? || e.Ready? || e.LicenseExit? || e.Abort?
    ensures OnCourse(Next(s, e), t.Count(e))
  {
  }

  // The second pass begins only after everything was selected.
  predicate SecondIsLate(s: State) {
    s.second ==>
      && !s.phase.Inspecting? && !s.phase.Scanning? && !s.phase.Fetching?
      && (s.phase.Removing? || s.phase.Waiting? ==> s.phase.cause == Retrying)
  }

  lemma StepKeepsSecondLate(s: State, e: Event)
    requires s.PhaseInRange() && Enabled(s, e) && SecondIsLate(s)
    ensures SecondIsLate(Next(s, e))
  {
  }

  lemma StepKeepsCourse(s: State, t: Tally, e: Event)
    requires s.PhaseInRange() && Enabled(s, e) && OnCourse(s, t) && SecondIsLate(s)
    ensures OnCourse(Next(s, e), t.Count(e))
  {
    if ByOthers(e) {
      OthersKeepCourse(s, t, e);
    } else if e.Inspect? {
      InspectKeepsCourse(s, t, s.phase.k);
    } else if e.Scan? {
      ScanKeepsCourse(s, t, s.phase.k, e.choice);
    } else if e.Delete? || e.InProgress? || e.Refuse? || e.SeeGone? {
      RemovalKeepsCourse(s, t, e);
    } else {
      StartKeepsCourse(s, t, e);
    }
  }

  lemma {:induction false} RunKeepsCourse(names: seq<Name>, world: World, candidate: bool, events: seq<Event>, s: State)
    requires Run(Initial(names, world, candidate), events, s)
    ensures OnCourse(s, TallyOf(events)) && SecondIsLate(s) && s.names == names
    decreases |events|
  {
    if events == [] {
    } else {
      var before, t, e := LastStep(Initial(names, world, candidate), events, s);
      RunKeepsCourse(names, world, candidate, before, t);
      TallyOne(before, e);
      StepKeepsCourse(t, TallyOf(before), e);
      StepKeepsSecondLate(t, e);
      RunKeepsInv(names, world, candidate, events, s);
    }
  }

  // In every run the names are inspected in order and each at most once; nothing is
  // started before all that was kept is fetched; and a start that succeeds inspected all
  // names and saw every kept container become ready, in a second pass if there was one.
  lemma StartsInOrder(names: seq<Name>, world: World, candidate: bool, events: seq<Event>, s: State)
    requires Run(Initial(names, world, candidate), events, s)
    ensures Inspected(events) <= names && Kept(events) == s.selected
    ensures Exits(events) <= 1 && (Exits(events) == 1 ==> candidate)
    ensures s.phase.Starting? || s.phase.Monitoring? || s.phase.Done? ==>
      Inspected(events) == names && Fetches(events) == |Kept(events)|
    ensures s.phase.Starting? ==> s.phase.k == Readies(events)
    ensures s.phase.Done? ==> Readies(events) == |Kept(events)|
  {
    RunKeepsCourse(names, world, candidate, events, s);
    RunKeepsCandidate(names, world, candidate, events, s);
  }

  lemma {:induction false} RunKeepsCandidate(names: seq<Name>, world: World, candidate: bool, events: seq<Event>,
                                             s: State)
    requires Run(Initial(names, world, candidate), events, s)
    ensures s.candidate == candidate
    decreases |events|
  {
    if events == [] {
    } else {
      var before, t, e := LastStep(Initial(names, world, candidate), events, s);
      RunKeepsCandidate(names, world, candidate, before, t);
      StepKeepsCandidate(t, e);
    }
  }

  lemma StepKeepsCandidate(s: State, e: Event)
    requires s.PhaseInRange() && Enabled(s, e)
    ensures Next(s, e).candidate == s.candidate
  {
  }
}
