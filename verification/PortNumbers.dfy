// The published ports as the Docker daemon sees them (internal/runtime/docker.go): lstk
// tells ports apart by their text, the daemon by their number.
module PortNumbers {
  import opened Sequences
  import opened Decimal
  import opened PublishedPorts

  // ----- One-to-one by number -----

  predicate CompatibleByNumber(a: PortMapping, b: PortMapping) {
    a.Proto() == b.Proto() ==>
      Atoi(a.containerPort) != Atoi(b.containerPort) && Atoi(a.hostPort) != Atoi(b.hostPort)
  }

  ghost predicate OneToOneByNumber(ms: seq<PortMapping>) {
    forall i, j :: 0 <= i < j < |ms| ==> CompatibleByNumber(ms[i], ms[j])
  }

  // Of one number there is one spelling.
  predicate SameSpelling(a: PortMapping, b: PortMapping) {
    a.Proto() == b.Proto() ==>
      && (Atoi(a.containerPort) == Atoi(b.containerPort) ==> a.containerPort == b.containerPort)
      && (Atoi(a.hostPort) == Atoi(b.hostPort) ==> a.hostPort == b.hostPort)
  }

  ghost predicate SpelledOnce(ms: seq<PortMapping>) {
    forall a, b :: a in ms && b in ms ==> SameSpelling(a, b)
  }

  // One-to-one by number is one-to-one by text without a second spelling.
  lemma ByNumberIsByText(ms: seq<PortMapping>)
    ensures OneToOneByNumber(ms) <==> OneToOne(ms) && SpelledOnce(ms)
  {
    if OneToOneByNumber(ms) {
      forall i, j | 0 <= i < j < |ms|
        ensures Compatible(ms[i], ms[j])
      {
        assert CompatibleByNumber(ms[i], ms[j]);
      }
      forall a, b | a in ms && b in ms
        ensures SameSpelling(a, b)
      {
        ByNumberSpellsOnce(ms, a, b);
      }
    }
    if OneToOne(ms) && SpelledOnce(ms) {
      forall i, j | 0 <= i < j < |ms|
        ensures CompatibleByNumber(ms[i], ms[j])
      {
        assert Compatible(ms[i], ms[j]) && SameSpelling(ms[i], ms[j]);
      }
    }
  }

  lemma ByNumberSpellsOnce(ms: seq<PortMapping>, a: PortMapping, b: PortMapping)
    requires OneToOneByNumber(ms) && a in ms && b in ms
    ensures SameSpelling(a, b)
  {
    var i :| 0 <= i < |ms| && ms[i] == a;
    var j :| 0 <= j < |ms| && ms[j] == b;
    if i < j {
      assert CompatibleByNumber(ms[i], ms[j]);
    } else if j < i {
      assert CompatibleByNumber(ms[j], ms[i]);
    }
  }

  // ----- What the daemon is told -----

  type Key = (Option<int>, string)

  function ContainerKey(m: PortMapping): Key {
    (Atoi(m.containerPort), m.Proto())
  }

  // The port bindings of a container: of two for one container port the later one stays.
  function Bindings(ms: seq<PortMapping>): map<Key, string> {
    if ms == [] then map[]
    else Bindings(ms[..|ms| - 1])[ContainerKey(ms[|ms| - 1]) := ms[|ms| - 1].hostPort]
  }

  method BindPorts(ms: seq<PortMapping>) returns (portBindings: map<Key, string>)
    ensures portBindings == Bindings(ms)
  {
    portBindings := map[];
    for k := 0 to |ms|
      invariant portBindings == Bindings(ms[..k])
    {
      assert ms[..k + 1][..k] == ms[..k];
      var proto := ms[k].protocol;
      if proto == "" {
        proto := "tcp";
      }
      portBindings := portBindings[(Atoi(ms[k].containerPort), proto) := ms[k].hostPort];
    }
    assert ms[..|ms|] == ms;
  }

  // The daemon publishes the mapping as lstk meant it.
  predicate Bound(ms: seq<PortMapping>, m: PortMapping) {
    ContainerKey(m) in Bindings(ms) && Bindings(ms)[ContainerKey(m)] == m.hostPort
  }

  lemma {:induction false} BoundNotBefore(ms: seq<PortMapping>, j: nat) returns (i: nat)
    requires j < |ms|
    ensures j <= i < |ms| && ContainerKey(ms[i]) == ContainerKey(ms[j])
    ensures ContainerKey(ms[j]) in Bindings(ms) && Bindings(ms)[ContainerKey(ms[j])] == ms[i].hostPort
  {
    var n := |ms| - 1;
    if ContainerKey(ms[n]) == ContainerKey(ms[j]) {
      i := n;
    } else {
      i := BoundNotBefore(ms[..n], j);
    }
  }

  // Every mapping of a container port goes to one host port.
  ghost predicate Agree(ms: seq<PortMapping>) {
    forall a, b :: a in ms && b in ms && ContainerKey(a) == ContainerKey(b) ==> a.hostPort == b.hostPort
  }

  lemma BoundToMember(ms: seq<PortMapping>, m: PortMapping) returns (b: PortMapping)
    requires m in ms
    ensures b in ms && ContainerKey(b) == ContainerKey(m)
    ensures ContainerKey(m) in Bindings(ms) && Bindings(ms)[ContainerKey(m)] == b.hostPort
  {
    var j :| 0 <= j < |ms| && ms[j] == m;
    var i := BoundNotBefore(ms, j);
    b := ms[i];
  }

  // Every mapping is published as meant exactly when no container port has two host ports.
  lemma NothingIsLost(ms: seq<PortMapping>)
    ensures (forall m :: m in ms ==> Bound(ms, m)) <==> Agree(ms)
  {
    if Agree(ms) {
      forall m | m in ms
        ensures Bound(ms, m)
      {
        var b := BoundToMember(ms, m);
      }
    }
  }

  lemma DistinctKeys(ms: seq<PortMapping>, i: nat, j: nat)
    requires OneToOneByNumber(ms) && i < j < |ms|
    ensures ContainerKey(ms[i]) != ContainerKey(ms[j])
  {
    assert CompatibleByNumber(ms[i], ms[j]);
  }

  // So it is when the publications are one-to-one by number.
  lemma OneToOneLosesNothing(ms: seq<PortMapping>, m: PortMapping)
    requires OneToOneByNumber(ms) && m in ms
    ensures Bound(ms, m)
  {
    var j :| 0 <= j < |ms| && ms[j] == m;
    var i := BoundNotBefore(ms, j);
    if j < i {
      DistinctKeys(ms, j, i);
    }
  }

  // ----- The starting set -----

  // A gateway port published besides the edge port and the range.
  predicate IsExtra(port: string, primary: string) {
    port != primary && !InServicePortRange(port)
  }

  predicate ExtraSpelledOnce(p: string, q: string, primary: string) {
    IsExtra(p, primary) && IsExtra(q, primary) && Atoi(p) == Atoi(q) ==> p == q
  }

  // No extra port is written in two ways, and none is the edge port written otherwise.
  ghost predicate GatewaySpelledOnce(g: seq<GatewayEntry>, primary: string) {
    && (forall i, j :: 0 <= i < |g| && 0 <= j < |g| ==> ExtraSpelledOnce(g[i].port, g[j].port, primary))
    && (forall i :: 0 <= i < |g| && Atoi(g[i].port) == Atoi(primary) ==> g[i].port == primary)
  }

  // The edge's host port is no other published number.
  ghost predicate EdgeHostIsApart(g: seq<GatewayEntry>, primary: string, host: string) {
    && !InServicePortRange(host)
    && forall i :: 0 <= i < |g| && IsExtra(g[i].port, primary) ==> Atoi(g[i].port) != Atoi(host)
  }

  // Where a mapping of the starting set comes from.
  ghost predicate FromGateway(g: seq<GatewayEntry>, primary: string, m: PortMapping) {
    IsExtra(m.hostPort, primary) && exists i :: 0 <= i < |g| && g[i].port == m.hostPort
  }

  ghost predicate FromRange(m: PortMapping) {
    InServicePortRange(m.hostPort) && m.hostPort == Itoa(Atoi(m.hostPort).value)
  }

  lemma InitialMembers(g: seq<GatewayEntry>, primary: string, defaulted: bool, m: PortMapping)
    requires m in InitialMappings(g, primary, defaulted)
    ensures m.containerPort == m.hostPort && m.Proto() == "tcp"
    ensures FromGateway(g, primary, m) || FromRange(m)
  {
    ExtraPortsAreNew(g, primary, defaulted);
    ServicePortsAreInRange(SERVICE_PORT_RANGE_END);
    if m in ExtraPorts(g, primary, defaulted) {
      assert IsExtraPort(m, primary, defaulted);
      var i := ExtraPortsComeFrom(g, primary, defaulted, m);
    } else {
      assert IsServicePort(m, SERVICE_PORT_RANGE_END);
    }
  }

  lemma GatewayIsInitial(g: seq<GatewayEntry>, primary: string, defaulted: bool, i: nat)
    requires i < |g| && IsExtra(g[i].port, primary)
    ensures Same(g[i].port, defaulted) in InitialMappings(g, primary, defaulted)
  {
    ExtraPortsAreAll(g, primary, defaulted, i);
  }

  lemma RangeIsInitial(g: seq<GatewayEntry>, primary: string, defaulted: bool, port: string) returns (m: PortMapping)
    requires InServicePortRange(port)
    ensures m in InitialMappings(g, primary, defaulted) && Atoi(m.hostPort) == Atoi(port) && m.Proto() == "tcp"
  {
    var n := Atoi(port).value;
    ServicePortIsThere(SERVICE_PORT_RANGE_END, n);
    AtoiOfItoa(n);
    m := Same(Itoa(n), false);
  }

  // Two mappings besides the edge.
  lemma InitialSpelling(g: seq<GatewayEntry>, primary: string, defaulted: bool, a: PortMapping, b: PortMapping)
    requires GatewaySpelledOnce(g, primary)
    requires a in InitialMappings(g, primary, defaulted) && b in InitialMappings(g, primary, defaulted)
    ensures SameSpelling(a, b)
  {
    InitialMembers(g, primary, defaulted, a);
    InitialMembers(g, primary, defaulted, b);
    if FromGateway(g, primary, a) && FromGateway(g, primary, b) {
      var i :| 0 <= i < |g| && g[i].port == a.hostPort;
      var j :| 0 <= j < |g| && g[j].port == b.hostPort;
      assert ExtraSpelledOnce(g[i].port, g[j].port, primary);
    }
  }

  lemma EdgeSpelling(g: seq<GatewayEntry>, primary: string, host: string, defaulted: bool, m: PortMapping)
    requires !InServicePortRange(primary) && GatewaySpelledOnce(g, primary) && EdgeHostIsApart(g, primary, host)
    requires m in InitialMappings(g, primary, defaulted)
    ensures CompatibleByNumber(PortMapping(primary, host, "", false), m)
  {
    InitialMembers(g, primary, defaulted, m);
    if FromGateway(g, primary, m) {
      var i :| 0 <= i < |g| && g[i].port == m.hostPort;
      assert IsExtra(g[i].port, primary) && Atoi(g[i].port) != Atoi(primary);
    }
  }

  lemma ApartIsOneToOne(g: seq<GatewayEntry>, primary: string, host: string, defaulted: bool)
    requires !InServicePortRange(primary) && GatewaySpelledOnce(g, primary) && EdgeHostIsApart(g, primary, host)
    ensures OneToOneByNumber(Published(primary, host, InitialMappings(g, primary, defaulted)))
  {
    var ms := InitialMappings(g, primary, defaulted);
    InitialMappingsAreOneToOne(g, primary, defaulted);
    forall a, b | a in ms && b in ms
      ensures SameSpelling(a, b)
    {
      InitialSpelling(g, primary, defaulted, a, b);
    }
    ByNumberIsByText(ms);
    forall m | m in ms
      ensures CompatibleByNumber(PortMapping(primary, host, "", false), m)
    {
      EdgeSpelling(g, primary, host, defaulted, m);
    }
    FirstByNumber(PortMapping(primary, host, "", false), ms);
  }

  lemma FirstByNumber(m: PortMapping, ms: seq<PortMapping>)
    ensures OneToOneByNumber([m] + ms) <==> OneToOneByNumber(ms) && forall x :: x in ms ==> CompatibleByNumber(m, x)
  {
    var all := [m] + ms;
    if OneToOneByNumber(all) {
      forall i, j | 0 <= i < j < |ms|
        ensures CompatibleByNumber(ms[i], ms[j])
      {
        assert all[i + 1] == ms[i] && all[j + 1] == ms[j];
      }
      forall x | x in ms
        ensures CompatibleByNumber(m, x)
      {
        var i :| 0 <= i < |ms| && ms[i] == x;
        assert all[0] == m && all[i + 1] == x;
      }
    }
  }

  lemma HostsDiffer(edge: PortMapping, ms: seq<PortMapping>, m: PortMapping)
    requires OneToOneByNumber([edge] + ms) && m in ms && m.Proto() == edge.Proto()
    ensures Atoi(m.hostPort) != Atoi(edge.hostPort)
  {
    FirstByNumber(edge, ms);
  }

  lemma OneToOneIsApart(g: seq<GatewayEntry>, primary: string, host: string, defaulted: bool)
    requires !InServicePortRange(primary)
    requires OneToOneByNumber(Published(primary, host, InitialMappings(g, primary, defaulted)))
    ensures GatewaySpelledOnce(g, primary) && EdgeHostIsApart(g, primary, host)
  {
    var edge, ms := PortMapping(primary, host, "", false), InitialMappings(g, primary, defaulted);
    FirstByNumber(edge, ms);
    forall i | 0 <= i < |g| && IsExtra(g[i].port, primary)
      ensures Same(g[i].port, defaulted) in ms && CompatibleByNumber(edge, Same(g[i].port, defaulted))
    {
      GatewayIsInitial(g, primary, defaulted, i);
    }
    forall i, j | 0 <= i < |g| && 0 <= j < |g|
      ensures ExtraSpelledOnce(g[i].port, g[j].port, primary)
    {
      if IsExtra(g[i].port, primary) && IsExtra(g[j].port, primary) {
        ByNumberSpellsOnce(ms, Same(g[i].port, defaulted), Same(g[j].port, defaulted));
      }
    }
    if InServicePortRange(host) {
      var m := RangeIsInitial(g, primary, defaulted, host);
      HostsDiffer(edge, ms, m);
    }
  }

  // The starting set is one-to-one for the daemon exactly when no gateway port is written
  // in two ways and the edge's host port is no other published number.
  lemma InitialSetIsOneToOneByNumber(g: seq<GatewayEntry>, primary: string, host: string, defaulted: bool)
    requires !InServicePortRange(primary)
    ensures OneToOneByNumber(Published(primary, host, InitialMappings(g, primary, defaulted)))
       <==> GatewaySpelledOnce(g, primary) && EdgeHostIsApart(g, primary, host)
  {
    if GatewaySpelledOnce(g, primary) && EdgeHostIsApart(g, primary, host) {
      ApartIsOneToOne(g, primary, host, defaulted);
    }
    if OneToOneByNumber(Published(primary, host, InitialMappings(g, primary, defaulted))) {
      OneToOneIsApart(g, primary, host, defaulted);
    }
  }

  // The gateway of ":4566,:04566": the publications are one-to-one as text, and yet the
  // daemon is told of the second spelling only, so that the edge port is not published on
  // the host port that was configured.
  lemma SecondSpellingHidesTheEdge(g: seq<GatewayEntry>, host: string)
    requires g == [GatewayEntry("", "4566"), GatewayEntry("", "04566")]
    requires !EdgeHostIsTaken(g, "4566", host) && host != "04566"
    ensures var pub := Published("4566", host, InitialMappings(g, "4566", false));
      OneToOne(pub) && !OneToOneByNumber(pub) && !Bound(pub, PortMapping("4566", host, "", false))
  {
    var edge, ms := PortMapping("4566", host, "", false), InitialMappings(g, "4566", false);
    SecondIsPublished(g);
    InitialSetIsOneToOne(g, "4566", host, false);
    forall m | m in ms && ContainerKey(m) == ContainerKey(edge)
      ensures m.hostPort != host
    {
      OnlySecondIsLeft(g, m);
    }
    LaterHidesFirst(edge, ms, Same("04566", false));
  }

  lemma SameKeyClashes(first: PortMapping, ms: seq<PortMapping>, j: nat)
    requires j < |ms| && ContainerKey(ms[j]) == ContainerKey(first)
    ensures !OneToOneByNumber([first] + ms)
  {
    assert ([first] + ms)[j + 1] == ms[j];
    if OneToOneByNumber([first] + ms) {
      DistinctKeys([first] + ms, 0, j + 1);
    }
  }

  lemma BoundLater(first: PortMapping, ms: seq<PortMapping>, j: nat) returns (m: PortMapping)
    requires j < |ms| && ContainerKey(ms[j]) == ContainerKey(first)
    ensures m in ms && ContainerKey(m) == ContainerKey(first)
    ensures ContainerKey(first) in Bindings([first] + ms) && Bindings([first] + ms)[ContainerKey(first)] == m.hostPort
  {
    var all := [first] + ms;
    assert all[j + 1] == ms[j];
    var i := BoundNotBefore(all, j + 1);
    m := ms[i - 1];
    assert all[i] == m;
  }

  // The first mapping is lost to a later one of its container port.
  lemma LaterHidesFirst(first: PortMapping, ms: seq<PortMapping>, later: PortMapping)
    requires later in ms && ContainerKey(later) == ContainerKey(first)
    requires forall m :: m in ms && ContainerKey(m) == ContainerKey(first) ==> m.hostPort != first.hostPort
    ensures !OneToOneByNumber([first] + ms) && !Bound([first] + ms, first)
  {
    var j :| 0 <= j < |ms| && ms[j] == later;
    SameKeyClashes(first, ms, j);
    var m := BoundLater(first, ms, j);
  }

  lemma SecondIsPublished(g: seq<GatewayEntry>)
    requires g == [GatewayEntry("", "4566"), GatewayEntry("", "04566")]
    ensures Same("04566", false) in InitialMappings(g, "4566", false)
    ensures !InServicePortRange("4566") && Atoi("04566") == Atoi("4566")
  {
    SpellingsOf4566();
    assert g[1].port == "04566" && IsExtra(g[1].port, "4566");
    GatewayIsInitial(g, "4566", false, 1);
  }

  lemma OnlySecondIsLeft(g: seq<GatewayEntry>, m: PortMapping)
    requires g == [GatewayEntry("", "4566"), GatewayEntry("", "04566")]
    requires m in InitialMappings(g, "4566", false) && Atoi(m.containerPort) == Atoi("4566")
    ensures m.hostPort == "04566"
  {
    SpellingsOf4566();
    InitialMembers(g, "4566", false, m);
  }

  lemma SpellingsOf4566()
    ensures Atoi("4566") == Some(4566) && Atoi("04566") == Some(4566)
  {
    ValueOfDigits("4566");
    ValueOfDigits("04566");
  }

  // ----- expose_ports -----

  // A request whose ports are written as lstk writes them.
  ghost predicate AllSpecs(exposed: seq<PortSpec>) {
    forall e :: e in exposed ==> IsSpec(e)
  }

  // What ExposedPorts returns is written so, and asks for nothing twice.
  lemma {:induction false} ExposedAreSpecs(entries: seq<string>)
    requires AllParse(entries)
    ensures AllSpecs(Distinct(Expanded(entries)))
  {
    forall e | e in Distinct(Expanded(entries))
      ensures IsSpec(e)
    {
      DistinctMembers(Expanded(entries), e);
      ExpandedMembers(entries, e);
      var entry :| entry in entries && e in AskedBy(entry);
      ParsedSpecsAreSpecs(entry);
    }
  }

  lemma SameNumberSameText(p: string, q: string, m: int, n: int)
    requires IsPort(p, m) && IsPort(q, n) && Atoi(p) == Atoi(q)
    ensures p == q
  {
    AtoiOfItoa(m);
    AtoiOfItoa(n);
  }

  lemma SpecSpelling(a: PortSpec, b: PortSpec)
    requires IsSpec(a) && IsSpec(b)
    ensures SameSpelling(a.AsMapping(), b.AsMapping())
  {
    var h, c :| IsPort(a.hostPort, h) && IsPort(a.containerPort, c);
    var h', c' :| IsPort(b.hostPort, h') && IsPort(b.containerPort, c');
    if Atoi(a.hostPort) == Atoi(b.hostPort) {
      SameNumberSameText(a.hostPort, b.hostPort, h, h');
    }
    if Atoi(a.containerPort) == Atoi(b.containerPort) {
      SameNumberSameText(a.containerPort, b.containerPort, c, c');
    }
  }

  ghost predicate BlockedByNumber(pub: seq<PortMapping>, e: PortSpec) {
    exists m :: m in pub && !CompatibleByNumber(m, e.AsMapping())
  }

  // Whatever clashes with something published is seen to clash: no clash hides behind a
  // second spelling.
  ghost predicate NoneHidden(pub: seq<PortMapping>, exposed: seq<PortSpec>) {
    forall e :: e in exposed ==> (BlockedByNumber(pub, e) ==> Blocked(pub, e))
  }

  lemma BlockedLater(pub: seq<PortMapping>, pub': seq<PortMapping>, e: PortSpec)
    requires pub <= pub'
    ensures Blocked(pub, e) ==> Blocked(pub', e)
  {
    if m :| m in pub && !Compatible(m, e.AsMapping()) {
      assert m in pub';
    }
  }

  // Where a merged mapping comes from.
  lemma {:induction false} MergedMembers(primary: string, host: string, ms: seq<PortMapping>, exposed: seq<PortSpec>,
                                         m: PortMapping)
    requires m in Merge(primary, host, ms, exposed).mappings && m !in ms
    ensures exists e :: e in exposed && m == e.AsMapping() && !Blocked(Published(primary, host, ms), e)
  {
    var front, e := exposed[..|exposed| - 1], exposed[|exposed| - 1];
    var before := Merge(primary, host, ms, front).mappings;
    if m in before {
      MergedMembers(primary, host, ms, front, m);
      var d :| d in front && m == d.AsMapping() && !Blocked(Published(primary, host, ms), d);
      assert d in exposed;
    } else {
      MergeExtends(primary, host, ms, front);
      BlockedLater(Published(primary, host, ms), Published(primary, host, before), e);
      assert e in exposed;
    }
  }

  lemma {:induction false} MergeExtends(primary: string, host: string, ms: seq<PortMapping>, exposed: seq<PortSpec>)
    ensures ms <= Merge(primary, host, ms, exposed).mappings
    ensures Published(primary, host, ms) <= Published(primary, host, Merge(primary, host, ms, exposed).mappings)
  {
    if exposed == [] {
    } else {
      MergeExtends(primary, host, ms, exposed[..|exposed| - 1]);
    }
  }

  lemma OldOrAdded(primary: string, host: string, ms: seq<PortMapping>, exposed: seq<PortSpec>, m: PortMapping)
    requires m in Published(primary, host, Merge(primary, host, ms, exposed).mappings)
    ensures m in Published(primary, host, ms)
      || exists e :: e in exposed && m == e.AsMapping() && !Blocked(Published(primary, host, ms), e)
  {
    var merged := Merge(primary, host, ms, exposed).mappings;
    assert Published(primary, host, merged)[1..] == merged && Published(primary, host, ms)[1..] == ms;
    if m in merged && m !in ms {
      MergedMembers(primary, host, ms, exposed, m);
    }
  }

  // Nothing hidden: the merged publications have one spelling of each number.
  lemma MergedSpelling(primary: string, host: string, ms: seq<PortMapping>, exposed: seq<PortSpec>,
                       a: PortMapping, b: PortMapping)
    requires SpelledOnce(Published(primary, host, ms)) && AllSpecs(exposed)
    requires NoneHidden(Published(primary, host, ms), exposed)
    requires a in Published(primary, host, Merge(primary, host, ms, exposed).mappings)
    requires b in Published(primary, host, Merge(primary, host, ms, exposed).mappings)
    ensures SameSpelling(a, b)
  {
    var pub := Published(primary, host, ms);
    OldOrAdded(primary, host, ms, exposed, a);
    OldOrAdded(primary, host, ms, exposed, b);
    if a !in pub && b !in pub {
      var d :| d in exposed && a == d.AsMapping();
      var e :| e in exposed && b == e.AsMapping();
      SpecSpelling(d, e);
    } else if a !in pub {
      var d :| d in exposed && a == d.AsMapping() && !Blocked(pub, d);
      assert CompatibleByNumber(b, d.AsMapping());
    } else if b !in pub {
      var e :| e in exposed && b == e.AsMapping() && !Blocked(pub, e);
      assert CompatibleByNumber(a, e.AsMapping());
    }
  }

  // A hidden clash is published.
  lemma HiddenIsAdded(primary: string, host: string, ms: seq<PortMapping>, exposed: seq<PortSpec>, e: PortSpec)
    requires OneToOne(Published(primary, host, ms)) && AllSpecs(exposed) && e in exposed
    requires OneToOne(AsMappings(exposed)) && !Blocked(Published(primary, host, ms), e)
    ensures InEffect(Published(primary, host, Merge(primary, host, ms, exposed).mappings), e)
  {
    var pub, r := Published(primary, host, ms), Merge(primary, host, ms, exposed);
    assert TcpOrUdp(exposed);
    MergeDecides(primary, host, ms, exposed);
    if e in r.ignored {
      var m :| m in Published(primary, host, r.mappings) && !Compatible(m, e.AsMapping());
      OldOrAdded(primary, host, ms, exposed, m);
      var d :| d in exposed && m == d.AsMapping() && !Blocked(pub, d);
      AsMappingsMembers(exposed, d);
      AsMappingsMembers(exposed, e);
      if d.AsMapping() != e.AsMapping() {
        MembersAreCompatible(AsMappings(exposed), d.AsMapping(), e.AsMapping());
      }
    }
  }

  lemma HiddenSpellsTwice(primary: string, host: string, ms: seq<PortMapping>, exposed: seq<PortSpec>, e: PortSpec)
    requires OneToOne(Published(primary, host, ms)) && AllSpecs(exposed) && e in exposed
    requires OneToOne(AsMappings(exposed))
    requires BlockedByNumber(Published(primary, host, ms), e) && !Blocked(Published(primary, host, ms), e)
    ensures !SpelledOnce(Published(primary, host, Merge(primary, host, ms, exposed).mappings))
  {
    var pub := Published(primary, host, ms);
    var merged := Published(primary, host, Merge(primary, host, ms, exposed).mappings);
    HiddenIsAdded(primary, host, ms, exposed, e);
    MergeExtends(primary, host, ms, exposed);
    var a :| a in pub && !CompatibleByNumber(a, e.AsMapping());
    var m :| m in merged && m.containerPort == e.containerPort && m.hostPort == e.hostPort && m.Proto() == e.protocol;
    assert a in merged && Compatible(a, e.AsMapping()) && IsSpec(e);
    assert !SameSpelling(a, m);
  }

  // Merging keeps the publications one-to-one for the daemon exactly when no request
  // clashes with something published under another spelling only.
  lemma MergeByNumber(primary: string, host: string, ms: seq<PortMapping>, exposed: seq<PortSpec>)
    requires OneToOneByNumber(Published(primary, host, ms))
    requires AllSpecs(exposed) && OneToOne(AsMappings(exposed))
    ensures OneToOneByNumber(Published(primary, host, Merge(primary, host, ms, exposed).mappings))
       <==> NoneHidden(Published(primary, host, ms), exposed)
  {
    var pub := Published(primary, host, ms);
    var merged := Published(primary, host, Merge(primary, host, ms, exposed).mappings);
    ByNumberIsByText(pub);
    ByNumberIsByText(merged);
    MergeKeepsOneToOne(primary, host, ms, exposed);
    if NoneHidden(pub, exposed) {
      forall a, b | a in merged && b in merged
        ensures SameSpelling(a, b)
      {
        MergedSpelling(primary, host, ms, exposed, a, b);
      }
    }
    forall e | e in exposed && BlockedByNumber(pub, e) && !Blocked(pub, e)
      ensures !SpelledOnce(merged)
    {
      HiddenSpellsTwice(primary, host, ms, exposed, e);
    }
  }

  // The gateway of ":4566,:0443" and a request for 443: nothing published is in its way as
  // text, and so the daemon is told of two publications of one port.
  lemma SecondSpellingHidesTheRequest(g: seq<GatewayEntry>, e: PortSpec)
    requires g == [GatewayEntry("", "4566"), GatewayEntry("", "0443")] && e == PortSpec("443", "443", "tcp")
    ensures var ms := InitialMappings(g, "4566", false);
      && OneToOneByNumber(Published("4566", "4566", ms))
      && BlockedByNumber(Published("4566", "4566", ms), e) && !NoneHidden(Published("4566", "4566", ms), [e])
      && !OneToOneByNumber(Published("4566", "4566", Merge("4566", "4566", ms, [e]).mappings))
  {
    var ms := InitialMappings(g, "4566", false);
    SpellingsOf443();
    TwoPortsAreSpelledOnce(g, g[0].port, g[1].port);
    TwoPortsAreApart(g, g[0].port, g[1].port);
    InitialSetIsOneToOneByNumber(g, "4566", "4566", false);
    RequestIsHidden(g, ms, e);
    MergeByNumber("4566", "4566", ms, [e]);
  }

  // A gateway of the edge port and one other port.
  lemma TwoPortsAreSpelledOnce(g: seq<GatewayEntry>, edge: string, other: string)
    requires |g| == 2 && g[0].port == edge && g[1].port == other && Atoi(edge) != Atoi(other)
    ensures GatewaySpelledOnce(g, edge)
  {
    forall i, j | 0 <= i < |g| && 0 <= j < |g|
      ensures ExtraSpelledOnce(g[i].port, g[j].port, edge)
    {
      OnlyOtherIsExtra(g[i].port, edge, other);
      OnlyOtherIsExtra(g[j].port, edge, other);
    }
    forall i | 0 <= i < |g| && Atoi(g[i].port) == Atoi(edge)
      ensures g[i].port == edge
    {
      assert i == 0;
    }
  }

  lemma OnlyOtherIsExtra(port: string, edge: string, other: string)
    requires port == edge || port == other
    ensures IsExtra(port, edge) ==> port == other
  {
  }

  lemma TwoPortsAreApart(g: seq<GatewayEntry>, edge: string, other: string)
    requires |g| == 2 && g[0].port == edge && g[1].port == other && Atoi(edge) != Atoi(other)
    requires !InServicePortRange(edge)
    ensures EdgeHostIsApart(g, edge, edge)
  {
    forall i | 0 <= i < |g| && IsExtra(g[i].port, edge)
      ensures Atoi(g[i].port) != Atoi(edge)
    {
      OnlyOtherIsExtra(g[i].port, edge, other);
    }
  }

  lemma RequestIsHidden(g: seq<GatewayEntry>, ms: seq<PortMapping>, e: PortSpec)
    requires |g| == 2 && g[0].port == "4566" && g[1].port == "0443" && e == PortSpec("443", "443", "tcp")
    requires ms == InitialMappings(g, "4566", false)
    ensures BlockedByNumber(Published("4566", "4566", ms), e) && !Blocked(Published("4566", "4566", ms), e)
  {
    SpellingsOf443();
    GatewayIsInitial(g, "4566", false, 1);
    assert Published("4566", "4566", ms)[1..] == ms && Same("0443", false) in ms;
    assert !CompatibleByNumber(Same("0443", false), e.AsMapping());
    forall m | m in Published("4566", "4566", ms)
      ensures Compatible(m, e.AsMapping())
    {
      if m in ms {
        OtherTextIsFree(g, g[0].port, g[1].port, m, e);
      }
    }
  }

  lemma OtherTextIsFree(g: seq<GatewayEntry>, edge: string, other: string, m: PortMapping, e: PortSpec)
    requires |g| == 2 && g[0].port == edge && g[1].port == other && m in InitialMappings(g, edge, false)
    requires e.hostPort == e.containerPort && !InServicePortRange(e.hostPort)
    requires e.hostPort != edge && e.hostPort != other
    ensures Compatible(m, e.AsMapping())
  {
    InitialMembers(g, edge, false, m);
    if FromGateway(g, edge, m) {
      var i :| 0 <= i < |g| && g[i].port == m.hostPort;
      assert i == 0 || i == 1;
    } else {
      assert InServicePortRange(m.hostPort);
    }
    assert m.hostPort != e.hostPort;
  }

  lemma SpellingsOf443()
    ensures Atoi("443") == Some(443) && Atoi("0443") == Some(443) && Atoi("4566") == Some(4566) && IsPort("443", 443)
  {
    ValueOfDigits("443");
    ValueOfDigits("0443");
    ValueOfDigits("4566");
    ItoaOfValue("443");
  }

  // ----- From the configuration to the daemon -----

  lemma TrimsByNumber(a: seq<PortMapping>, b: seq<PortMapping>)
    requires Trims(a, b) && OneToOneByNumber(a)
    ensures OneToOneByNumber(b)
  {
    ByNumberIsByText(a);
    ByNumberIsByText(b);
    TrimsKeepsOneToOne(a, b);
    forall x, y | x in b && y in b
      ensures SameSpelling(x, y)
    {
      TrimsMembers(a, b, x);
      TrimsMembers(a, b, y);
    }
  }

  // Whatever is busy and whatever the daemon answers, every attempt publishes what it
  // says: if the merged publications are one-to-one by number, so are those of each
  // attempt, and the daemon binds every one of them to its own host port.
  lemma EveryAttemptIsBound(primary: string, host: string, initial: seq<PortMapping>, exposed: seq<PortSpec>,
                            busy: seq<bool>, attempts: seq<seq<PortMapping>>, d: Daemon, k: nat, m: PortMapping)
    requires OneToOneByNumber(Published(primary, host, Merge(primary, host, initial, exposed).mappings))
    requires OneToOneByNumber(Published(primary, host, initial))
    requires |busy| == |Merge(primary, host, initial, exposed).mappings|
    requires IsFallback(attempts, KeepFree(Merge(primary, host, initial, exposed).mappings, busy), d)
    requires k < |attempts| && m in Published(primary, host, attempts[k])
    ensures OneToOneByNumber(Published(primary, host, attempts[k]))
    ensures Bound(Published(primary, host, attempts[k]), m)
  {
    var merged := Merge(primary, host, initial, exposed).mappings;
    ByNumberIsByText(Published(primary, host, initial));
    EveryAttemptIsSound(primary, host, initial, exposed, busy, attempts, d, k);
    assert Published(primary, host, merged)[1..] == merged;
    assert Published(primary, host, attempts[k])[1..] == attempts[k];
    TrimsByNumber(Published(primary, host, merged), Published(primary, host, attempts[k]));
    OneToOneLosesNothing(Published(primary, host, attempts[k]), m);
  }

  // What is to be published besides the edge port.
  function Configured(g: seq<GatewayEntry>, primary: string, host: string, defaulted: bool,
                      entries: seq<string>): seq<PortMapping>
  {
    Merge(primary, host, InitialMappings(g, primary, defaulted), Distinct(Expanded(entries))).mappings
  }

  // From what is configured: gateway entries and an edge host port that are apart, and
  // expose_ports entries that are accepted and hide no clash.
  lemma EveryStartIsBound(g: seq<GatewayEntry>, primary: string, host: string, defaulted: bool, entries: seq<string>,
                          busy: seq<bool>, attempts: seq<seq<PortMapping>>, d: Daemon, k: nat, m: PortMapping)
    requires !InServicePortRange(primary) && GatewaySpelledOnce(g, primary) && EdgeHostIsApart(g, primary, host)
    requires Acceptable(entries)
    requires NoneHidden(Published(primary, host, InitialMappings(g, primary, defaulted)), Distinct(Expanded(entries)))
    requires |busy| == |Configured(g, primary, host, defaulted, entries)|
    requires IsFallback(attempts, KeepFree(Configured(g, primary, host, defaulted, entries), busy), d)
    requires k < |attempts| && m in Published(primary, host, attempts[k])
    ensures Bound(Published(primary, host, attempts[k]), m)
  {
    var initial, exposed := InitialMappings(g, primary, defaulted), Distinct(Expanded(entries));
    InitialSetIsOneToOneByNumber(g, primary, host, defaulted);
    ExposedAreSpecs(entries);
    DistinctIsOneToOne(Expanded(entries));
    MergeByNumber(primary, host, initial, exposed);
    EveryAttemptIsBound(primary, host, initial, exposed, busy, attempts, d, k, m);
  }

  // Where every published port is written as lstk writes it, nothing can hide.
  lemma PlainSpellingHidesNothing(pub: seq<PortMapping>, exposed: seq<PortSpec>)
    requires AllSpecs(exposed)
    requires forall m :: m in pub ==> (exists h :: IsPort(m.hostPort, h)) && (exists c :: IsPort(m.containerPort, c))
    ensures NoneHidden(pub, exposed)
  {
    forall e | e in exposed && BlockedByNumber(pub, e)
      ensures Blocked(pub, e)
    {
      var m :| m in pub && !CompatibleByNumber(m, e.AsMapping());
      var h, c :| IsPort(m.hostPort, h) && IsPort(m.containerPort, c);
      SpecSpelling(PortSpec(m.hostPort, m.containerPort, e.protocol), e);
      assert !Compatible(m, e.AsMapping());
    }
  }
}
