// The ports an emulator start publishes: gateway ports and the service range
// (internal/container/gateway.go), expose_ports (internal/config/containers.go and
// internal/container/expose.go), and the dropping of optional ports before and during
// the start (internal/container/start.go).
module PublishedPorts {
  import opened Sequences
  import opened Decimal

  datatype PortMapping = PortMapping(containerPort: string, hostPort: string, protocol: string, optional: bool) {
    // An empty protocol means tcp.
    function Proto(): string {
      if protocol == "" then "tcp" else protocol
    }
  }

  // ----- One-to-one publications -----

  // lstk tells publications apart by the text of their container ports and host ports;
  // what this means for the daemon, which compares numbers, is shown in PortNumbers.
  predicate Compatible(a: PortMapping, b: PortMapping) {
    a.Proto() == b.Proto() ==> a.containerPort != b.containerPort && a.hostPort != b.hostPort
  }

  ghost predicate OneToOne(ms: seq<PortMapping>) {
    forall i, j :: 0 <= i < j < |ms| ==> Compatible(ms[i], ms[j])
  }

  lemma OneToOneSnoc(ms: seq<PortMapping>, m: PortMapping)
    ensures OneToOne(ms + [m]) <==> OneToOne(ms) && forall x :: x in ms ==> Compatible(x, m)
  {
    var all := ms + [m];
    if OneToOne(all) {
      forall i, j | 0 <= i < j < |ms|
        ensures Compatible(ms[i], ms[j])
      {
        assert all[i] == ms[i] && all[j] == ms[j];
      }
      forall x | x in ms
        ensures Compatible(x, m)
      {
        var i :| 0 <= i < |ms| && ms[i] == x;
        assert all[i] == x && all[|ms|] == m;
      }
    }
  }

  lemma OneToOneCons(m: PortMapping, ms: seq<PortMapping>)
    ensures OneToOne([m] + ms) <==> OneToOne(ms) && forall x :: x in ms ==> Compatible(m, x)
  {
    var all := [m] + ms;
    if OneToOne(all) {
      forall i, j | 0 <= i < j < |ms|
        ensures Compatible(ms[i], ms[j])
      {
        assert all[i + 1] == ms[i] && all[j + 1] == ms[j];
      }
      forall x | x in ms
        ensures Compatible(m, x)
      {
        var i :| 0 <= i < |ms| && ms[i] == x;
        assert all[0] == m && all[i + 1] == x;
      }
    }
  }

  // after is before without some of its optional mappings: the order is kept, and every
  // required mapping is still there.
  predicate Trims(before: seq<PortMapping>, after: seq<PortMapping>) {
    if before == [] then after == []
    else
      || (after != [] && after[0] == before[0] && Trims(before[1..], after[1..]))
      || (before[0].optional && Trims(before[1..], after))
  }

  lemma {:induction false} TrimsNothing(ms: seq<PortMapping>)
    ensures Trims(ms, ms)
  {
    if ms == [] {
    } else {
      TrimsNothing(ms[1..]);
    }
  }

  lemma {:induction false} TrimsTwice(a: seq<PortMapping>, b: seq<PortMapping>, c: seq<PortMapping>)
    requires Trims(a, b) && Trims(b, c)
    ensures Trims(a, c)
  {
    if a == [] {
    } else {
      if b != [] && b[0] == a[0] && Trims(a[1..], b[1..]) {
        if c != [] && c[0] == b[0] && Trims(b[1..], c[1..]) {
          TrimsTwice(a[1..], b[1..], c[1..]);
        } else {
          TrimsTwice(a[1..], b[1..], c);
        }
      } else {
        TrimsTwice(a[1..], b, c);
      }
    }
  }

  lemma {:induction false} TrimsSnoc(a: seq<PortMapping>, b: seq<PortMapping>, m: PortMapping)
    requires Trims(a, b)
    ensures Trims(a + [m], b + [m])
    ensures m.optional ==> Trims(a + [m], b)
  {
    if a == [] {
      assert a + [m] == [m] && b + [m] == [m];
      assert [m][1..] == [];
    } else {
      assert (a + [m])[1..] == a[1..] + [m];
      if b != [] && b[0] == a[0] && Trims(a[1..], b[1..]) {
        TrimsSnoc(a[1..], b[1..], m);
        assert (b + [m])[1..] == b[1..] + [m];
      } else {
        TrimsSnoc(a[1..], b, m);
      }
    }
  }

  lemma {:induction false} TrimsMembers(a: seq<PortMapping>, b: seq<PortMapping>, m: PortMapping)
    requires Trims(a, b)
    ensures m in b ==> m in a
    ensures m in a && !m.optional ==> m in b
    ensures |b| <= |a|
  {
    if a == [] {
    } else {
      if b != [] && b[0] == a[0] && Trims(a[1..], b[1..]) {
        TrimsMembers(a[1..], b[1..], m);
      } else {
        TrimsMembers(a[1..], b, m);
      }
    }
  }

  lemma {:induction false} TrimsKeepsOneToOne(a: seq<PortMapping>, b: seq<PortMapping>)
    requires Trims(a, b) && OneToOne(a)
    ensures OneToOne(b)
  {
    if a == [] {
    } else {
      assert a == [a[0]] + a[1..];
      OneToOneCons(a[0], a[1..]);
      if b != [] && b[0] == a[0] && Trims(a[1..], b[1..]) {
        TrimsKeepsOneToOne(a[1..], b[1..]);
        assert b == [b[0]] + b[1..];
        forall x | x in b[1..]
          ensures Compatible(b[0], x)
        {
          TrimsMembers(a[1..], b[1..], x);
        }
        OneToOneCons(b[0], b[1..]);
      } else {
        TrimsKeepsOneToOne(a[1..], b);
      }
    }
  }

  // ----- Gateway ports and the service range -----

  const SERVICE_PORT_RANGE_START := 4510
  const SERVICE_PORT_RANGE_END := 4559

  datatype GatewayEntry = GatewayEntry(host: string, port: string)

  predicate InServicePortRange(port: string) {
    Atoi(port).Some? && SERVICE_PORT_RANGE_START <= Atoi(port).value <= SERVICE_PORT_RANGE_END
  }

  function Same(port: string, optional: bool): PortMapping {
    PortMapping(port, port, "", optional)
  }

  // The ports to publish besides the primary one: each new port once, in order.
  function ExtraPorts(g: seq<GatewayEntry>, primary: string, optional: bool): seq<PortMapping> {
    if g == [] then []
    else
      var before, port := ExtraPorts(g[..|g| - 1], primary, optional), g[|g| - 1].port;
      if port == primary || Same(port, optional) in before || InServicePortRange(port) then before
      else before + [Same(port, optional)]
  }

  method ExtraGatewayPorts(g: seq<GatewayEntry>, primaryPort: string, optional: bool) returns (ports: seq<PortMapping>)
    ensures ports == ExtraPorts(g, primaryPort, optional)
  {
    ports := [];
    var seen := {primaryPort};
    for k := 0 to |g|
      invariant ports == ExtraPorts(g[..k], primaryPort, optional)
      invariant forall p :: p in seen <==> p == primaryPort || Same(p, optional) in ports
    {
      assert g[..k + 1][..k] == g[..k];
      var e := g[k];
      if e.port in seen || InServicePortRange(e.port) {
        continue;
      }
      seen := seen + {e.port};
      ports := ports + [PortMapping(e.port, e.port, "", optional)];
    }
    assert g[..|g|] == g;
  }

  ghost predicate IsExtraPort(m: PortMapping, primary: string, optional: bool) {
    m == Same(m.hostPort, optional) && m.hostPort != primary && !InServicePortRange(m.hostPort)
  }

  // Every gateway port is published once, unless it is the edge port or in the range.
  lemma {:induction false} ExtraPortsAreNew(g: seq<GatewayEntry>, primary: string, optional: bool)
    ensures OneToOne(ExtraPorts(g, primary, optional))
    ensures forall m :: m in ExtraPorts(g, primary, optional) ==> IsExtraPort(m, primary, optional)
  {
    if g == [] {
    } else {
      var front, last := g[..|g| - 1], Same(g[|g| - 1].port, optional);
      ExtraPortsAreNew(front, primary, optional);
      if last !in ExtraPorts(front, primary, optional) {
        NewIsCompatible(ExtraPorts(front, primary, optional), last, primary, optional);
      }
    }
  }

  lemma NewIsCompatible(ms: seq<PortMapping>, m: PortMapping, primary: string, optional: bool)
    requires OneToOne(ms) && m !in ms && m == Same(m.hostPort, optional)
    requires forall x :: x in ms ==> IsExtraPort(x, primary, optional)
    ensures OneToOne(ms + [m])
  {
    OneToOneSnoc(ms, m);
  }

  lemma {:induction false} ExtraPortsAreAll(g: seq<GatewayEntry>, primary: string, optional: bool, i: nat)
    requires i < |g| && IsExtraPort(Same(g[i].port, optional), primary, optional)
    ensures Same(g[i].port, optional) in ExtraPorts(g, primary, optional)
  {
    if i < |g| - 1 {
      ExtraPortsAreAll(g[..|g| - 1], primary, optional, i);
    }
  }

  // More entries add ports after those of the first ones: the order is the gateway's.
  lemma {:induction false} ExtraPortsGrow(g: seq<GatewayEntry>, primary: string, optional: bool, k: nat)
    requires k <= |g|
    ensures ExtraPorts(g[..k], primary, optional) <= ExtraPorts(g, primary, optional)
    decreases |g|
  {
    if k < |g| {
      ExtraPortsGrow(g[..|g| - 1], primary, optional, k);
      assert g[..|g| - 1][..k] == g[..k];
    } else {
      assert g[..k] == g;
    }
  }

  // Every extra port comes from the gateway.
  lemma {:induction false} ExtraPortsComeFrom(g: seq<GatewayEntry>, primary: string, optional: bool, m: PortMapping)
    returns (i: nat)
    requires m in ExtraPorts(g, primary, optional)
    ensures i < |g| && g[i].port == m.hostPort
  {
    if m in ExtraPorts(g[..|g| - 1], primary, optional) {
      i := ExtraPortsComeFrom(g[..|g| - 1], primary, optional, m);
    } else {
      i := |g| - 1;
    }
  }

  function ServicePort(n: nat): PortMapping {
    Same(Itoa(n), false)
  }

  function PortsTo(port: nat -> PortMapping, end: nat): seq<PortMapping> {
    if end < SERVICE_PORT_RANGE_START then [] else PortsTo(port, end - 1) + [port(end)]
  }

  lemma {:induction false} PortsToHas(port: nat -> PortMapping, end: nat, n: nat)
    requires SERVICE_PORT_RANGE_START <= n <= end
    ensures port(n) in PortsTo(port, end)
  {
    if n < end {
      PortsToHas(port, end - 1, n);
    }
  }

  function ServicePorts(end: nat): seq<PortMapping> {
    PortsTo(ServicePort, end)
  }

  method ServicePortRange() returns (ports: seq<PortMapping>)
    ensures ports == ServicePorts(SERVICE_PORT_RANGE_END)
  {
    ports := [];
    var p := SERVICE_PORT_RANGE_START;
    while p <= SERVICE_PORT_RANGE_END
      invariant SERVICE_PORT_RANGE_START <= p <= SERVICE_PORT_RANGE_END + 1
      invariant ports == ServicePorts(p - 1)
    {
      var ps := Itoa(p);
      ports := ports + [PortMapping(ps, ps, "", false)];
      p := p + 1;
    }
  }

  ghost predicate IsServicePort(m: PortMapping, end: nat) {
    && m == Same(m.hostPort, false) && InServicePortRange(m.hostPort) && Atoi(m.hostPort).value <= end
    && m.hostPort == Itoa(Atoi(m.hostPort).value)
  }

  lemma {:induction false} ServicePortsAreInRange(end: nat)
    requires SERVICE_PORT_RANGE_START - 1 <= end <= SERVICE_PORT_RANGE_END
    ensures OneToOne(ServicePorts(end))
    ensures forall m :: m in ServicePorts(end) ==> IsServicePort(m, end)
  {
    if end < SERVICE_PORT_RANGE_START {
    } else {
      ServicePortsAreInRange(end - 1);
      AtoiOfItoa(end);
      NextServicePort(ServicePorts(end - 1), Same(Itoa(end), false), end);
    }
  }

  lemma ServicePortIsThere(end: nat, n: nat)
    requires SERVICE_PORT_RANGE_START <= n <= end
    ensures Same(Itoa(n), false) in ServicePorts(end)
  {
    PortsToHas(ServicePort, end, n);
    assert ServicePort(n) == Same(Itoa(n), false);
  }

  // The range is published port by port, and nothing else is.
  lemma ServicePortsAreTheRange(end: nat, n: nat, m: PortMapping)
    requires SERVICE_PORT_RANGE_START <= n <= end <= SERVICE_PORT_RANGE_END
    ensures OneToOne(ServicePorts(end)) && Same(Itoa(n), false) in ServicePorts(end)
    ensures m in ServicePorts(end) ==> IsServicePort(m, end)
  {
    ServicePortsAreInRange(end);
    ServicePortIsThere(end, n);
  }

  lemma {:induction false} PortsToAre(port: nat -> PortMapping, end: nat, i: nat)
    requires 4510 <= end && i <= end - 4510
    ensures |PortsTo(port, end)| == end - 4509 && PortsTo(port, end)[i] == port(4510 + i)
  {
    if end == 4510 {
      assert PortsTo(port, 4509) == [];
    } else {
      PortsToAre(port, end - 1, if i == end - 4510 then 0 else i);
    }
  }

  // The range is 4510 to 4559, in order, each port on itself.
  lemma ServiceRangeIs(i: nat)
    requires i < 50
    ensures |ServicePorts(SERVICE_PORT_RANGE_END)| == 50
    ensures ServicePorts(SERVICE_PORT_RANGE_END)[i] == PortMapping(Itoa(4510 + i), Itoa(4510 + i), "", false)
  {
    PortsToAre(ServicePort, 4559, i);
    assert ServicePort(4510 + i) == Same(Itoa(4510 + i), false);
  }

  lemma NextServicePort(ms: seq<PortMapping>, m: PortMapping, end: nat)
    requires OneToOne(ms) && end > 0 && forall x :: x in ms ==> IsServicePort(x, end - 1)
    requires IsServicePort(m, end) && Atoi(m.hostPort) == Some(end)
    ensures OneToOne(ms + [m]) && forall x :: x in ms + [m] ==> IsServicePort(x, end)
  {
    OneToOneSnoc(ms, m);
  }

  // What a start publishes before expose_ports: the edge port, then the mappings.
  function Published(primary: string, host: string, ms: seq<PortMapping>): seq<PortMapping> {
    [PortMapping(primary, host, "", false)] + ms
  }

  function InitialMappings(g: seq<GatewayEntry>, primary: string, defaulted: bool): seq<PortMapping> {
    ExtraPorts(g, primary, defaulted) + ServicePorts(SERVICE_PORT_RANGE_END)
  }

  lemma {:induction false} OneToOneConcat(a: seq<PortMapping>, b: seq<PortMapping>)
    requires OneToOne(a) && OneToOne(b)
    requires forall x, y :: x in a && y in b ==> Compatible(x, y)
    ensures OneToOne(a + b)
  {
    if b == [] {
      assert a + b == a;
    } else {
      var front, last := b[..|b| - 1], b[|b| - 1];
      assert b == front + [last] && a + b == (a + front) + [last];
      OneToOneSnoc(front, last);
      OneToOneConcat(a, front);
      OneToOneSnoc(a + front, last);
    }
  }

  lemma InitialMappingsAreOneToOne(g: seq<GatewayEntry>, primary: string, defaulted: bool)
    requires !InServicePortRange(primary)
    ensures OneToOne(InitialMappings(g, primary, defaulted))
    ensures forall m :: m in InitialMappings(g, primary, defaulted) ==>
      m.containerPort == m.hostPort && m.protocol == "" && m.hostPort != primary
  {
    var extra, service := ExtraPorts(g, primary, defaulted), ServicePorts(SERVICE_PORT_RANGE_END);
    ExtraPortsAreNew(g, primary, defaulted);
    ServicePortsAreInRange(SERVICE_PORT_RANGE_END);
    forall x, y | x in extra && y in service
      ensures Compatible(x, y)
    {
      assert IsExtraPort(x, primary, defaulted) && IsServicePort(y, SERVICE_PORT_RANGE_END);
    }
    OneToOneConcat(extra, service);
    forall m: PortMapping | m in extra + service
      ensures m.containerPort == m.hostPort && m.protocol == "" && m.hostPort != primary
    {
      assert IsExtraPort(m, primary, defaulted) || IsServicePort(m, SERVICE_PORT_RANGE_END);
    }
  }

  predicate IsGatewayPort(g: seq<GatewayEntry>, port: string) {
    exists i :: 0 <= i < |g| && g[i].port == port
  }

  predicate IsPlainServicePort(port: string) {
    exists n :: SERVICE_PORT_RANGE_START <= n <= SERVICE_PORT_RANGE_END && port == Itoa(n)
  }

  // A gateway port other than the edge port, or a port of the range, is the edge's host
  // port already.
  predicate EdgeHostIsTaken(g: seq<GatewayEntry>, primary: string, host: string) {
    (host != primary && !InServicePortRange(host) && IsGatewayPort(g, host)) || IsPlainServicePort(host)
  }

  ghost predicate OnHost(ms: seq<PortMapping>, host: string) {
    exists m :: m in ms && m.hostPort == host
  }

  lemma ExtraOnHost(g: seq<GatewayEntry>, primary: string, host: string, defaulted: bool)
    ensures OnHost(ExtraPorts(g, primary, defaulted), host)
       <==> host != primary && !InServicePortRange(host) && IsGatewayPort(g, host)
  {
    var extra := ExtraPorts(g, primary, defaulted);
    ExtraPortsAreNew(g, primary, defaulted);
    if m :| m in extra && m.hostPort == host {
      var i := ExtraPortsComeFrom(g, primary, defaulted, m);
      assert IsExtraPort(m, primary, defaulted) && g[i].port == host;
    }
    if i :| 0 <= i < |g| && g[i].port == host {
      if host != primary && !InServicePortRange(host) {
        ExtraPortsAreAll(g, primary, defaulted, i);
        assert Same(host, defaulted).hostPort == host;
      }
    }
  }

  lemma ServiceOnHost(host: string)
    ensures OnHost(ServicePorts(SERVICE_PORT_RANGE_END), host)
       <==> IsPlainServicePort(host)
  {
    var service := ServicePorts(SERVICE_PORT_RANGE_END);
    ServicePortsAreInRange(SERVICE_PORT_RANGE_END);
    if m :| m in service && m.hostPort == host {
      assert IsServicePort(m, SERVICE_PORT_RANGE_END) && host == Itoa(Atoi(host).value);
    }
    if n :| SERVICE_PORT_RANGE_START <= n <= SERVICE_PORT_RANGE_END && host == Itoa(n) {
      ServicePortIsThere(SERVICE_PORT_RANGE_END, n);
      assert Same(host, false) in service;
    }
  }

  lemma TakenIsPublished(g: seq<GatewayEntry>, primary: string, host: string, defaulted: bool)
    ensures EdgeHostIsTaken(g, primary, host) <==> OnHost(InitialMappings(g, primary, defaulted), host)
  {
    ExtraOnHost(g, primary, host, defaulted);
    ServiceOnHost(host);
    OnHostConcat(ExtraPorts(g, primary, defaulted), ServicePorts(SERVICE_PORT_RANGE_END), host);
  }

  lemma OnHostConcat(a: seq<PortMapping>, b: seq<PortMapping>, host: string)
    ensures OnHost(a + b, host) <==> OnHost(a, host) || OnHost(b, host)
  {
    if m :| m in a && m.hostPort == host {
      assert m in a + b;
    }
    if m :| m in b && m.hostPort == host {
      assert m in a + b;
    }
  }

  // The edge port clashes with its host port only.
  lemma EdgeClashesOnHost(primary: string, host: string, ms: seq<PortMapping>)
    requires OneToOne(ms)
    requires forall m :: m in ms ==> m.containerPort == m.hostPort && m.protocol == "" && m.hostPort != primary
    ensures OneToOne(Published(primary, host, ms)) <==> !OnHost(ms, host)
  {
    OneToOneCons(PortMapping(primary, host, "", false), ms);
  }

  // The starting set is one-to-one exactly when the configured edge host port is neither
  // another gateway port nor in the service range.
  lemma InitialSetIsOneToOne(g: seq<GatewayEntry>, primary: string, host: string, defaulted: bool)
    requires !InServicePortRange(primary)
    ensures OneToOne(Published(primary, host, InitialMappings(g, primary, defaulted)))
       <==> !EdgeHostIsTaken(g, primary, host)
  {
    InitialMappingsAreOneToOne(g, primary, defaulted);
    EdgeClashesOnHost(primary, host, InitialMappings(g, primary, defaulted));
    TakenIsPublished(g, primary, host, defaulted);
  }

  // With the default gateway, an edge host port of 443 or 4510 is taken.
  lemma TakenHosts(g: seq<GatewayEntry>)
    requires g == [GatewayEntry("", "4566"), GatewayEntry("", "443")]
    ensures !InServicePortRange("4566")
    ensures !OneToOne(Published("4566", "443", InitialMappings(g, "4566", true)))
    ensures !OneToOne(Published("4566", Itoa(4510), InitialMappings(g, "4566", true)))
  {
    ValueOfDigits("4566");
    ValueOfDigits("443");
    assert g[1].port == "443";
    assert EdgeHostIsTaken(g, "4566", "443") && EdgeHostIsTaken(g, "4566", Itoa(4510));
    InitialSetIsOneToOne(g, "4566", "443", true);
    InitialSetIsOneToOne(g, "4566", Itoa(4510), true);
  }

  // The values of short digit strings.
  lemma ValueOfDigits(s: string)
    requires 0 < |s| <= 5 && AllDigits(s)
    ensures Atoi(s) == Some(Value(s))
    ensures |s| == 3 ==> Value(s) == 100 * D(s[0]) + 10 * D(s[1]) + D(s[2])
    ensures |s| == 4 ==> Value(s) == 1000 * D(s[0]) + 100 * D(s[1]) + 10 * D(s[2]) + D(s[3])
    ensures |s| == 5 ==> Value(s) == 10000 * D(s[0]) + 1000 * D(s[1]) + 100 * D(s[2]) + 10 * D(s[3]) + D(s[4])
    decreases |s|
  {
    assert IsDigit(s[0]);
    if |s| == 1 {
      assert s[..0] == "";
    } else {
      ValueOfDigits(s[..|s| - 1]);
      if |s| == 3 {
        ValueOfTwo(s[..2]);
      }
    }
  }

  lemma ValueOfTwo(s: string)
    requires |s| == 2 && AllDigits(s)
    ensures Value(s) == 10 * D(s[0]) + D(s[1])
  {
    var t := s[..1];
    assert t[..0] == "" && t[0] == s[0] && Value(t) == 10 * Value(t[..0]) + D(t[0]);
  }

  function D(c: char): nat
    requires IsDigit(c)
  {
    (c - '0') as nat
  }

  // ----- expose_ports entries -----

  datatype PortSpec = PortSpec(hostPort: string, containerPort: string, protocol: string) {
    function AsMapping(): PortMapping {
      PortMapping(containerPort, hostPort, protocol, false)
    }
  }

  // The canonical form of a port from an entry.
  function ParsePortNumber(value: string): (port: Option<string>)
    ensures port.Some? <==> Atoi(TrimSpace(value)).Some? && 1 <= Atoi(TrimSpace(value)).value <= 65535
    ensures port.Some? ==> exists n :: IsPort(port.value, n) && Atoi(TrimSpace(value)) == Some(n)
  {
    var port := Atoi(TrimSpace(value));
    if port == None || port.value < 1 || port.value > 65535 then None
    else
      assert IsPort(Itoa(port.value), port.value);
      Some(Itoa(port.value))
  }

  predicate IsPort(port: string, n: int) {
    1 <= n <= 65535 && port == Itoa(n)
  }

  lemma PortReadsBack(port: string, n: nat)
    requires IsPort(port, n)
    ensures ParsePortNumber(port) == Some(port) && port != "" && TrimSpace(port) == port
    ensures ':' !in port && '/' !in port && !IsSpace(port[0]) && !IsSpace(port[|port| - 1])
  {
    DigitsArePlain(port);
    AtoiOfItoa(n);
  }

  // One entry of the form "[host:]container[/proto]"; without a protocol it asks for both.
  function ParseExposePort(entry: string): (specs: Option<seq<PortSpec>>)
    ensures specs.Some? ==> forall s :: s in specs.value ==> s.protocol == "tcp" || s.protocol == "udp"
  {
    var spec := TrimSpace(entry);
    if spec == "" then None
    else
      var cut := Cut(spec, '/');
      var portPart := if cut.Some? then cut.value.0 else spec;
      var proto := if cut.Some? then ToLower(TrimSpace(cut.value.1)) else "";
      if cut.Some? && proto != "tcp" && proto != "udp" then None
      else
        var ports := Cut(portPart, ':');
        var container := if ports.Some? then ports.value.1 else portPart;
        if ':' in container then None
        else
          var h := ParsePortNumber(if ports.Some? then ports.value.0 else portPart);
          var c := ParsePortNumber(container);
          if h == None || c == None then None
          else if cut.Some? then Some([PortSpec(h.value, c.value, proto)])
          else Some([PortSpec(h.value, c.value, "tcp"), PortSpec(h.value, c.value, "udp")])
  }

  // An entry taken apart: "host:container/proto", where host and proto may be missing.
  datatype Shape = Shape(host: Option<string>, container: string, proto: Option<string>) {
    function Ports(): string {
      if host.Some? then host.value + [':'] + container else container
    }

    function Text(): string {
      if proto.Some? then Ports() + ['/'] + proto.value else Ports()
    }

    predicate Valid() {
      && (host.Some? ==> ':' !in host.value) && ':' !in container
      && '/' !in Ports()
    }

    // Ports in range, and a protocol that is tcp or udp in any case.
    predicate Asks() {
      && ParsePortNumber(if host.Some? then host.value else container).Some? && ParsePortNumber(container).Some?
      && (proto.Some? ==> ToLower(TrimSpace(proto.value)) == "tcp" || ToLower(TrimSpace(proto.value)) == "udp")
    }
  }

  lemma ShapeParses(entry: string, s: Shape)
    requires s.Valid() && TrimSpace(entry) == s.Text()
    ensures ParseExposePort(entry).Some? <==> s.Asks()
  {
    if s.proto.Some? {
      CutAt(s.Ports(), s.proto.value, '/');
    } else {
      CutNowhere(s.Ports(), '/');
    }
    if s.host.Some? {
      CutAt(s.host.value, s.container, ':');
    } else {
      CutNowhere(s.container, ':');
    }
  }

  lemma ParsedHasShape(entry: string) returns (s: Shape)
    requires ParseExposePort(entry).Some?
    ensures s.Valid() && TrimSpace(entry) == s.Text()
  {
    var spec := TrimSpace(entry);
    CutJoins(spec, '/');
    var cut := Cut(spec, '/');
    var ports := if cut.Some? then cut.value.0 else spec;
    CutJoins(ports, ':');
    var c := Cut(ports, ':');
    s := Shape(if c.Some? then Some(c.value.0) else None, if c.Some? then c.value.1 else ports,
               if cut.Some? then Some(cut.value.1) else None);
  }

  // An entry is accepted exactly when, trimmed, it has that shape with ports in range and
  // a known protocol.
  lemma EntryIsAccepted(entry: string)
    ensures ParseExposePort(entry).Some?
       <==> exists s: Shape :: s.Valid() && TrimSpace(entry) == s.Text() && s.Asks()
  {
    if ParseExposePort(entry).Some? {
      var s := ParsedHasShape(entry);
      ShapeParses(entry, s);
    }
    if s: Shape :| s.Valid() && TrimSpace(entry) == s.Text() && s.Asks() {
      ShapeParses(entry, s);
    }
  }

  // The number that a port text stands for.
  ghost predicate Denotes(port: string, text: string) {
    exists n :: IsPort(port, n) && Atoi(TrimSpace(text)) == Some(n)
  }

  // What such an entry asks for: the ports it names, the host port being the container's
  // if there is none, over the protocol it names, or over both.
  lemma ShapeAsksFor(entry: string, s: Shape, specs: seq<PortSpec>)
    requires s.Valid() && TrimSpace(entry) == s.Text() && ParseExposePort(entry) == Some(specs)
    ensures forall p :: p in specs ==> Denotes(p.containerPort, s.container)
    ensures forall p :: p in specs ==> Denotes(p.hostPort, if s.host.Some? then s.host.value else s.container)
    ensures s.proto.Some? ==> |specs| == 1 && specs[0].protocol == ToLower(TrimSpace(s.proto.value))
    ensures s.proto == None ==> |specs| == 2 && specs[0].protocol == "tcp" && specs[1].protocol == "udp"
  {
    if s.proto.Some? {
      CutAt(s.Ports(), s.proto.value, '/');
    } else {
      CutNowhere(s.Ports(), '/');
    }
    if s.host.Some? {
      CutAt(s.host.value, s.container, ':');
    } else {
      CutNowhere(s.container, ':');
    }
  }

  // The text of a publication.
  function PrintSpec(s: PortSpec): string {
    s.hostPort + [':'] + s.containerPort + ['/'] + s.protocol
  }

  // A publication with canonical ports.
  ghost predicate IsSpec(s: PortSpec) {
    && (exists h :: IsPort(s.hostPort, h))
    && (exists c :: IsPort(s.containerPort, c))
    && (s.protocol == "tcp" || s.protocol == "udp")
  }

  lemma PrintedSpec(ports: string, protocol: string, text: string)
    requires ports != "" && '/' !in ports && !IsSpace(ports[0]) && (protocol == "tcp" || protocol == "udp")
    requires text == ports + ['/'] + protocol
    ensures TrimSpace(text) == text && text != "" && Cut(text, '/') == Some((ports, protocol))
    ensures ToLower(TrimSpace(protocol)) == protocol
  {
    assert text[0] == ports[0] && text[|text| - 1] == protocol[|protocol| - 1];
    TrimUnspaced(text);
    CutAt(ports, protocol, '/');
    TrimUnspaced(protocol);
    assert ToLower(protocol) == protocol;
  }

  lemma PrintedPorts(host: string, container: string, h: nat, c: nat, ports: string)
    requires IsPort(host, h) && IsPort(container, c) && ports == host + [':'] + container
    ensures Cut(ports, ':') == Some((host, container)) && ':' !in container
    ensures ports != "" && '/' !in ports && !IsSpace(ports[0]) && !IsSpace(ports[|ports| - 1])
    ensures ParsePortNumber(host) == Some(host) && ParsePortNumber(container) == Some(container)
  {
    PortReadsBack(host, h);
    PortReadsBack(container, c);
    CutAt(host, container, ':');
    assert ports[0] == host[0] && ports[|ports| - 1] == container[|container| - 1];
  }

  // A printed publication is an entry that asks for it and nothing else.
  lemma SpecReadsBack(s: PortSpec)
    requires IsSpec(s)
    ensures ParseExposePort(PrintSpec(s)) == Some([s])
  {
    var h :| IsPort(s.hostPort, h);
    var c :| IsPort(s.containerPort, c);
    var ports := s.hostPort + [':'] + s.containerPort;
    PrintedPorts(s.hostPort, s.containerPort, h, c, ports);
    PrintedSpec(ports, s.protocol, PrintSpec(s));
  }

  // Without a protocol both are asked for, and without a host port the container's.
  lemma BarePortsAskForBoth(host: string, container: string, h: nat, c: nat)
    requires IsPort(host, h) && IsPort(container, c)
    ensures ParseExposePort(container) ==
      Some([PortSpec(container, container, "tcp"), PortSpec(container, container, "udp")])
    ensures ParseExposePort(host + [':'] + container)
         == Some([PortSpec(host, container, "tcp"), PortSpec(host, container, "udp")])
  {
    PortReadsBack(container, c);
    CutNowhere(container, '/');
    CutNowhere(container, ':');
    var text := host + [':'] + container;
    PrintedPorts(host, container, h, c, text);
    TrimUnspaced(text);
    CutNowhere(text, '/');
  }

  // Whatever an accepted entry asks for can be printed and reads back.
  lemma ParsedSpecsAreSpecs(entry: string)
    requires ParseExposePort(entry).Some?
    ensures forall s :: s in ParseExposePort(entry).value ==> IsSpec(s)
  {
  }

  function AskedBy(entry: string): seq<PortSpec> {
    if ParseExposePort(entry).Some? then ParseExposePort(entry).value else []
  }

  // The publications the entries ask for, one after another.
  function Expanded(entries: seq<string>): seq<PortSpec> {
    FlatMap(AskedBy, entries)
  }

  // Two different publications of one container port or one host port.
  predicate Clash(s: PortSpec, t: PortSpec) {
    s != t && !Compatible(s.AsMapping(), t.AsMapping())
  }

  ghost predicate NoClash(specs: seq<PortSpec>) {
    forall s, t :: s in specs && t in specs ==> !Clash(s, t)
  }

  ghost predicate AllParse(entries: seq<string>) {
    forall e :: e in entries ==> ParseExposePort(e).Some?
  }

  // What ExposedPorts accepts.
  ghost predicate Acceptable(entries: seq<string>) {
    AllParse(entries) && NoClash(Expanded(entries))
  }

  lemma ExpandedMembers(entries: seq<string>, s: PortSpec)
    ensures s in Expanded(entries) <==> exists e :: e in entries && s in AskedBy(e)
  {
    FlatMapMembers(AskedBy, entries, s);
    if e :| e in entries && s in AskedBy(e) {
      assert InImage(AskedBy, entries, s);
    }
  }

  // Whether a list of entries is accepted depends on neither their order nor repetition.
  lemma AcceptanceIgnoresOrder(a: seq<string>, b: seq<string>)
    requires forall e :: e in a <==> e in b
    ensures Acceptable(a) <==> Acceptable(b)
  {
    forall s
      ensures s in Expanded(a) <==> s in Expanded(b)
    {
      ExpandedMembers(a, s);
      ExpandedMembers(b, s);
    }
  }

  // Each publication once, where it is first asked for.
  function Distinct(specs: seq<PortSpec>): seq<PortSpec> {
    if specs == [] then []
    else
      var front, last := Distinct(specs[..|specs| - 1]), specs[|specs| - 1];
      if last in front then front else front + [last]
  }

  lemma {:induction false} DistinctMembers(specs: seq<PortSpec>, s: PortSpec)
    ensures s in Distinct(specs) <==> s in specs
  {
    if specs == [] {
    } else {
      DistinctMembers(specs[..|specs| - 1], s);
      assert specs == specs[..|specs| - 1] + [specs[|specs| - 1]];
    }
  }

  // More publications come after those of the first ones.
  lemma {:induction false} DistinctGrows(specs: seq<PortSpec>, k: nat)
    requires k <= |specs|
    ensures Distinct(specs[..k]) <= Distinct(specs)
    decreases |specs|
  {
    if k < |specs| {
      DistinctGrows(specs[..|specs| - 1], k);
      assert specs[..|specs| - 1][..k] == specs[..k];
    } else {
      assert specs[..k] == specs;
    }
  }

  function AsMappings(specs: seq<PortSpec>): seq<PortMapping> {
    seq(|specs|, i requires 0 <= i < |specs| => specs[i].AsMapping())
  }

  // ----- The two look-up tables -----

  type Key = (string, string)

  // A mapping as seen from its container port or from its host port.
  function KeyOf(m: PortMapping, byContainer: bool): Key {
    (if byContainer then m.containerPort else m.hostPort, m.Proto())
  }

  function OtherPort(m: PortMapping, byContainer: bool): string {
    if byContainer then m.hostPort else m.containerPort
  }

  ghost predicate Indexes(t: map<Key, string>, ms: seq<PortMapping>, byContainer: bool) {
    && (forall m :: m in ms ==> Indexed(t, m, byContainer))
    && (forall k :: k in t ==> exists m :: m in ms && k == KeyOf(m, byContainer))
  }

  ghost predicate Indexed(t: map<Key, string>, m: PortMapping, byContainer: bool) {
    KeyOf(m, byContainer) in t && t[KeyOf(m, byContainer)] == OtherPort(m, byContainer)
  }

  lemma AddIndexes(t: map<Key, string>, ms: seq<PortMapping>, m: PortMapping, byContainer: bool)
    requires Indexes(t, ms, byContainer) && forall x :: x in ms ==> Compatible(x, m)
    ensures Indexes(t[KeyOf(m, byContainer) := OtherPort(m, byContainer)], ms + [m], byContainer)
  {
    var t', all := t[KeyOf(m, byContainer) := OtherPort(m, byContainer)], ms + [m];
    assert m in all;
    forall k | k in t'
      ensures exists x :: x in all && k == KeyOf(x, byContainer)
    {
      if k != KeyOf(m, byContainer) {
        var x :| x in ms && k == KeyOf(x, byContainer);
        assert x in all;
      }
    }
  }

  // What is published, by container port and by host port.
  datatype Table = Table(hostForContainer: map<Key, string>, containerForHost: map<Key, string>) {
    ghost predicate For(ms: seq<PortMapping>) {
      Indexes(hostForContainer, ms, true) && Indexes(containerForHost, ms, false)
    }

    function Add(m: PortMapping): Table {
      Table(hostForContainer[KeyOf(m, true) := OtherPort(m, true)],
            containerForHost[KeyOf(m, false) := OtherPort(m, false)])
    }

    // Neither port of the mapping is in use.
    predicate Free(m: PortMapping) {
      KeyOf(m, true) !in hostForContainer && KeyOf(m, false) !in containerForHost
    }
  }

  lemma AddToTable(t: Table, ms: seq<PortMapping>, m: PortMapping)
    requires t.For(ms) && OneToOne(ms) && forall x :: x in ms ==> Compatible(x, m)
    ensures t.Add(m).For(ms + [m]) && OneToOne(ms + [m])
  {
    AddIndexes(t.hostForContainer, ms, m, true);
    AddIndexes(t.containerForHost, ms, m, false);
    OneToOneSnoc(ms, m);
  }

  lemma FreeIsCompatible(t: Table, ms: seq<PortMapping>, m: PortMapping)
    requires t.For(ms)
    ensures t.Free(m) <==> forall x :: x in ms ==> Compatible(x, m)
  {
  }

  // ----- ExposedPorts -----

  lemma AsMappingsSnoc(specs: seq<PortSpec>, s: PortSpec)
    ensures AsMappings(specs + [s]) == AsMappings(specs) + [s.AsMapping()]
  {
  }

  lemma AsMappingsMembers(specs: seq<PortSpec>, s: PortSpec)
    ensures s.AsMapping() in AsMappings(specs) <==> s in specs
  {
    if s in specs {
      var i :| 0 <= i < |specs| && specs[i] == s;
      assert AsMappings(specs)[i] == s.AsMapping();
    }
  }

  // specs and t are the outcome of accepting all the given publications.
  ghost predicate Accepted(all: seq<PortSpec>, specs: seq<PortSpec>, t: Table) {
    && NoClash(all) && specs == Distinct(all)
    && t.For(AsMappings(specs)) && OneToOne(AsMappings(specs))
  }

  lemma NoClashSnoc(all: seq<PortSpec>, s: PortSpec)
    ensures NoClash(all + [s]) <==> NoClash(all) && forall x :: x in all ==> !Clash(x, s)
  {
    forall x | x in all
      ensures x in all + [s]
    {
    }
    assert s in all + [s];
  }

  lemma DistinctSnoc(all: seq<PortSpec>, s: PortSpec)
    ensures Distinct(all + [s]) == if s in all then Distinct(all) else Distinct(all) + [s]
  {
    assert (all + [s])[..|all|] == all;
    DistinctMembers(all, s);
  }

  lemma AcceptedMembers(all: seq<PortSpec>, specs: seq<PortSpec>, x: PortSpec)
    requires specs == Distinct(all)
    ensures x.AsMapping() in AsMappings(specs) <==> x in all
  {
    AsMappingsMembers(specs, x);
    DistinctMembers(all, x);
  }

  lemma ClashingMember(all: seq<PortSpec>, specs: seq<PortSpec>, s: PortSpec, y: PortMapping)
    requires specs == Distinct(all) && s !in all && y in AsMappings(specs) && !Compatible(y, s.AsMapping())
    ensures exists x :: x in all && Clash(x, s)
  {
    var i :| 0 <= i < |specs| && specs[i].AsMapping() == y;
    AcceptedMembers(all, specs, specs[i]);
    assert Clash(specs[i], s);
  }

  // The table knows a clashing publication.
  lemma TableFindsClash(all: seq<PortSpec>, specs: seq<PortSpec>, t: Table, s: PortSpec)
    requires Accepted(all, specs, t) && s !in all
    ensures t.Free(s.AsMapping()) <==> forall x :: x in all ==> !Clash(x, s)
  {
    var ms, m := AsMappings(specs), s.AsMapping();
    FreeIsCompatible(t, ms, m);
    if !t.Free(m) {
      var y :| y in ms && !Compatible(y, m);
      ClashingMember(all, specs, s, y);
    }
    forall x | x in all && Clash(x, s)
      ensures !t.Free(m)
    {
      AcceptedMembers(all, specs, x);
    }
  }

  // Adds one publication to those accepted so far, unless it is there already or clashes.
  method AcceptSpec(specs0: seq<PortSpec>, t0: Table, s: PortSpec, ghost all: seq<PortSpec>)
    returns (specs: seq<PortSpec>, t: Table, ok: bool)
    requires Accepted(all, specs0, t0)
    ensures ok <==> NoClash(all + [s])
    ensures ok ==> Accepted(all + [s], specs, t)
  {
    specs, t, ok := specs0, t0, true;
    NoClashSnoc(all, s);
    DistinctSnoc(all, s);
    DistinctMembers(all, s);
    if s in specs0 {
      return;
    }
    TableFindsClash(all, specs, t, s);
    var m := s.AsMapping();
    if KeyOf(m, true) in t.hostForContainer || KeyOf(m, false) in t.containerForHost {
      return specs, t, false;
    }
    FreeIsCompatible(t, AsMappings(specs), m);
    AddToTable(t, AsMappings(specs), m);
    AsMappingsSnoc(specs, s);
    t := t.Add(m);
    specs := specs + [s];
  }

  // The inner loop of ExposedPorts: the publications of one entry.
  method AcceptEntry(specs0: seq<PortSpec>, t0: Table, parsed: seq<PortSpec>, ghost all: seq<PortSpec>)
    returns (specs: seq<PortSpec>, t: Table, ok: bool)
    requires Accepted(all, specs0, t0)
    ensures ok <==> NoClash(all + parsed)
    ensures ok ==> Accepted(all + parsed, specs, t)
  {
    specs, t, ok := specs0, t0, true;
    assert all + parsed[..0] == all;
    for j := 0 to |parsed|
      invariant ok && Accepted(all + parsed[..j], specs, t)
    {
      assert all + parsed[..j + 1] == all + parsed[..j] + [parsed[j]];
      specs, t, ok := AcceptSpec(specs, t, parsed[j], all + parsed[..j]);
      if !ok {
        assert forall x :: x in all + parsed[..j + 1] ==> x in all + parsed;
        return;
      }
    }
    assert parsed[..|parsed|] == parsed;
  }

  lemma PrefixIsAcceptable(entries: seq<string>, k: nat)
    requires k <= |entries| && Acceptable(entries)
    ensures Acceptable(entries[..k])
  {
    forall s | s in Expanded(entries[..k])
      ensures s in Expanded(entries)
    {
      ExpandedMembers(entries[..k], s);
      ExpandedMembers(entries, s);
    }
  }

  lemma ExpandedSnoc(entries: seq<string>, e: string)
    ensures Expanded(entries + [e]) == Expanded(entries) + AskedBy(e)
    ensures AllParse(entries + [e]) <==> AllParse(entries) && ParseExposePort(e).Some?
  {
    assert (entries + [e])[..|entries|] == entries;
    assert e in entries + [e];
  }

  lemma RefusedPrefix(entries: seq<string>, k: nat)
    requires k <= |entries| && !(AllParse(entries[..k]) && NoClash(Expanded(entries[..k])))
    ensures !Acceptable(entries)
  {
    if Acceptable(entries) {
      PrefixIsAcceptable(entries, k);
    }
  }

  // One entry: parsed and accepted, or the whole list is refused.
  method AcceptNext(entries: seq<string>, k: nat, specs0: seq<PortSpec>, t0: Table)
    returns (specs: seq<PortSpec>, t: Table, ok: bool)
    requires k < |entries| && AllParse(entries[..k]) && Accepted(Expanded(entries[..k]), specs0, t0)
    ensures ok ==> AllParse(entries[..k + 1]) && Accepted(Expanded(entries[..k + 1]), specs, t)
    ensures !ok ==> !Acceptable(entries)
  {
    TakeNext(entries, k);
    ExpandedSnoc(entries[..k], entries[k]);
    var parsed := ParseExposePort(entries[k]);
    if parsed == None {
      RefusedPrefix(entries, k + 1);
      return specs0, t0, false;
    }
    specs, t, ok := AcceptEntry(specs0, t0, parsed.value, Expanded(entries[..k]));
    if !ok {
      RefusedPrefix(entries, k + 1);
    }
  }

  // The publications requested, in order and without repetitions; None is an error.
  method ExposedPorts(entries: seq<string>) returns (r: Option<seq<PortSpec>>)
    ensures r.Some? <==> Acceptable(entries)
    ensures r.Some? ==> r.value == Distinct(Expanded(entries)) && OneToOne(AsMappings(r.value))
  {
    var specs: seq<PortSpec> := [];
    var t := Table(map[], map[]);
    for k := 0 to |entries|
      invariant AllParse(entries[..k]) && Accepted(Expanded(entries[..k]), specs, t)
    {
      var ok;
      specs, t, ok := AcceptNext(entries, k, specs, t);
      if !ok {
        return None;
      }
    }
    TakeAll(entries);
    return Some(specs);
  }

  // What is accepted is one-to-one.
  lemma {:induction false} DistinctIsOneToOne(specs: seq<PortSpec>)
    requires NoClash(specs)
    ensures OneToOne(AsMappings(Distinct(specs)))
  {
    if specs == [] {
    } else {
      var front, last := specs[..|specs| - 1], specs[|specs| - 1];
      assert specs == front + [last];
      NoClashSnoc(front, last);
      DistinctSnoc(front, last);
      DistinctIsOneToOne(front);
      AsMappingsSnoc(Distinct(front), last);
      if last !in front {
        NewSpecIsCompatible(front, last);
        OneToOneSnoc(AsMappings(Distinct(front)), last.AsMapping());
      }
    }
  }

  lemma NewSpecIsCompatible(front: seq<PortSpec>, s: PortSpec)
    requires s !in front && forall x :: x in front ==> !Clash(x, s)
    ensures forall m :: m in AsMappings(Distinct(front)) ==> Compatible(m, s.AsMapping())
  {
    forall m | m in AsMappings(Distinct(front))
      ensures Compatible(m, s.AsMapping())
    {
      var i :| 0 <= i < |Distinct(front)| && AsMappings(Distinct(front))[i] == m;
      DistinctMembers(front, Distinct(front)[i]);
    }
  }

  // ----- Merging expose_ports into the mappings -----

  predicate InEffect(ms: seq<PortMapping>, e: PortSpec) {
    exists m :: m in ms && m.containerPort == e.containerPort && m.hostPort == e.hostPort && m.Proto() == e.protocol
  }

  // Something published is in the way of the request.
  predicate Blocked(pub: seq<PortMapping>, e: PortSpec) {
    exists m :: m in pub && !Compatible(m, e.AsMapping())
  }

  datatype Merged = Merged(mappings: seq<PortMapping>, ignored: seq<PortSpec>)

  // One request after another: met already, in the way of something published, or added.
  function Merge(primary: string, host: string, ms: seq<PortMapping>, exposed: seq<PortSpec>): Merged {
    if exposed == [] then Merged(ms, [])
    else
      var before, e := Merge(primary, host, ms, exposed[..|exposed| - 1]), exposed[|exposed| - 1];
      var pub := Published(primary, host, before.mappings);
      if InEffect(pub, e) then before
      else if Blocked(pub, e) then Merged(before.mappings, before.ignored + [e])
      else Merged(before.mappings + [e.AsMapping()], before.ignored)
  }

  ghost predicate TcpOrUdp(exposed: seq<PortSpec>) {
    forall e :: e in exposed ==> e.protocol == "tcp" || e.protocol == "udp"
  }

  lemma PublishedSnoc(primary: string, host: string, ms: seq<PortMapping>, m: PortMapping)
    ensures Published(primary, host, ms + [m]) == Published(primary, host, ms) + [m]
  {
  }

  lemma {:induction false} MergeKeepsOneToOne(primary: string, host: string, ms: seq<PortMapping>,
                                              exposed: seq<PortSpec>)
    requires OneToOne(Published(primary, host, ms))
    ensures OneToOne(Published(primary, host, Merge(primary, host, ms, exposed).mappings))
    ensures ms <= Merge(primary, host, ms, exposed).mappings
    ensures forall m :: m in Merge(primary, host, ms, exposed).mappings ==> m in ms || !m.optional
  {
    if exposed == [] {
    } else {
      var front, e := exposed[..|exposed| - 1], exposed[|exposed| - 1];
      MergeKeepsOneToOne(primary, host, ms, front);
      var before := Merge(primary, host, ms, front).mappings;
      PublishedSnoc(primary, host, before, e.AsMapping());
      OneToOneSnoc(Published(primary, host, before), e.AsMapping());
    }
  }

  lemma MembersAreCompatible(ms: seq<PortMapping>, a: PortMapping, b: PortMapping)
    requires OneToOne(ms) && a in ms && b in ms && a != b
    ensures Compatible(a, b)
  {
    var i :| 0 <= i < |ms| && ms[i] == a;
    var j :| 0 <= j < |ms| && ms[j] == b;
    if i < j {
      assert Compatible(ms[i], ms[j]);
    } else {
      assert Compatible(ms[j], ms[i]);
    }
  }

  ghost predicate Decided(pub: seq<PortMapping>, ignored: seq<PortSpec>, requests: seq<PortSpec>) {
    && (forall e :: e in requests ==> (InEffect(pub, e) <==> e !in ignored))
    && (forall e :: e in ignored ==> e in requests && Blocked(pub, e))
  }

  // More publications do not bring a blocked request into effect.
  lemma BlockedStaysOut(pub: seq<PortMapping>, pub': seq<PortMapping>, e: PortSpec)
    requires OneToOne(pub') && pub <= pub' && e.protocol != ""
    requires Blocked(pub, e) && !InEffect(pub, e)
    ensures Blocked(pub', e) && !InEffect(pub', e)
  {
    var a :| a in pub && !Compatible(a, e.AsMapping());
    assert a in pub';
    if InEffect(pub', e) {
      var b :| b in pub' && b.containerPort == e.containerPort && b.hostPort == e.hostPort && b.Proto() == e.protocol;
      if a != b {
        MembersAreCompatible(pub', a, b);
      }
    }
  }

  lemma NextRequestIsDecided(pub: seq<PortMapping>, ignored: seq<PortSpec>, requests: seq<PortSpec>, e: PortSpec,
                             pub': seq<PortMapping>, ignored': seq<PortSpec>)
    requires Decided(pub, ignored, requests) && OneToOne(pub') && pub <= pub'
    requires TcpOrUdp(requests) && (e.protocol == "tcp" || e.protocol == "udp")
    requires if InEffect(pub, e) then pub' == pub && ignored' == ignored
             else if Blocked(pub, e) then pub' == pub && ignored' == ignored + [e]
             else pub' == pub + [e.AsMapping()] && ignored' == ignored
    ensures Decided(pub', ignored', requests + [e])
  {
    if pub' == pub + [e.AsMapping()] {
      assert e.AsMapping() in pub' && InEffect(pub', e);
    }
    forall x | x in requests
      ensures (InEffect(pub', x) <==> x !in ignored') && (x in ignored' ==> Blocked(pub', x))
    {
      if InEffect(pub, x) {
        assert InEffect(pub', x);
      } else {
        BlockedStaysOut(pub, pub', x);
      }
    }
  }

  lemma {:induction false} MergeDecides(primary: string, host: string, ms: seq<PortMapping>, exposed: seq<PortSpec>)
    requires OneToOne(Published(primary, host, ms)) && TcpOrUdp(exposed)
    ensures var r := Merge(primary, host, ms, exposed);
      Decided(Published(primary, host, r.mappings), r.ignored, exposed)
  {
    if exposed == [] {
    } else {
      var front, e := exposed[..|exposed| - 1], exposed[|exposed| - 1];
      assert exposed == front + [e];
      assert TcpOrUdp(front);
      MergeDecides(primary, host, ms, front);
      MergeKeepsOneToOne(primary, host, ms, exposed);
      var before, after := Merge(primary, host, ms, front), Merge(primary, host, ms, exposed);
      PublishedSnoc(primary, host, before.mappings, e.AsMapping());
      NextRequestIsDecided(Published(primary, host, before.mappings), before.ignored, front, e,
                           Published(primary, host, after.mappings), after.ignored);
    }
  }

  // From a one-to-one start, each request is in effect at the end or warned about, never
  // both and never neither.
  lemma EveryRequestIsDecided(primary: string, host: string, ms: seq<PortMapping>, exposed: seq<PortSpec>, e: PortSpec)
    requires OneToOne(Published(primary, host, ms)) && TcpOrUdp(exposed) && e in exposed
    ensures InEffect(Published(primary, host, Merge(primary, host, ms, exposed).mappings), e)
       <==> e !in Merge(primary, host, ms, exposed).ignored
    ensures e in Merge(primary, host, ms, exposed).ignored ==>
      Blocked(Published(primary, host, Merge(primary, host, ms, exposed).mappings), e)
  {
    MergeDecides(primary, host, ms, exposed);
  }

  // The requests that nothing published meets or is in the way of, in order.
  function Unmet(pub: seq<PortMapping>, exposed: seq<PortSpec>): seq<PortSpec> {
    if exposed == [] then []
    else
      var rest, e := Unmet(pub, exposed[..|exposed| - 1]), exposed[|exposed| - 1];
      if InEffect(pub, e) || Blocked(pub, e) then rest else rest + [e]
  }

  // The requests that something published is in the way of without meeting them, in order.
  function InTheWay(pub: seq<PortMapping>, exposed: seq<PortSpec>): seq<PortSpec> {
    if exposed == [] then []
    else
      var rest, e := InTheWay(pub, exposed[..|exposed| - 1]), exposed[|exposed| - 1];
      if Blocked(pub, e) && !InEffect(pub, e) then rest + [e] else rest
  }

  lemma {:induction false} UnmetMembers(pub: seq<PortMapping>, exposed: seq<PortSpec>, e: PortSpec)
    ensures e in Unmet(pub, exposed) ==> e in exposed
  {
    if exposed == [] {
    } else {
      UnmetMembers(pub, exposed[..|exposed| - 1], e);
    }
  }

  // Requests that clash with none of the others are decided by what was published before.
  lemma OthersDoNotDecide(pub: seq<PortMapping>, others: seq<PortSpec>, e: PortSpec)
    requires e.protocol != "" && forall d :: d in others ==> Compatible(d.AsMapping(), e.AsMapping())
    ensures InEffect(pub + AsMappings(others), e) <==> InEffect(pub, e)
    ensures Blocked(pub + AsMappings(others), e) <==> Blocked(pub, e)
  {
    var all := pub + AsMappings(others);
    forall m | m in all && m !in pub
      ensures Compatible(m, e.AsMapping())
    {
      var i :| 0 <= i < |others| && AsMappings(others)[i] == m;
      assert others[i] in others;
    }
    if m :| m in pub && !Compatible(m, e.AsMapping()) {
      assert m in all;
    }
    if m :| m in pub && m.containerPort == e.containerPort && m.hostPort == e.hostPort && m.Proto() == e.protocol {
      assert m in all;
    }
  }

  lemma NextAddsAsAlone(primary: string, host: string, ms: seq<PortMapping>, added: seq<PortSpec>,
                        ignored: seq<PortSpec>, e: PortSpec, pub: seq<PortMapping>, merged: Merged)
    requires e.protocol != "" && forall d :: d in added ==> Compatible(d.AsMapping(), e.AsMapping())
    requires pub == Published(primary, host, ms + AsMappings(added))
    requires merged == if InEffect(pub, e) then Merged(ms + AsMappings(added), ignored)
                       else if Blocked(pub, e) then Merged(ms + AsMappings(added), ignored + [e])
                       else Merged(ms + AsMappings(added) + [e.AsMapping()], ignored)
    ensures var alone := Published(primary, host, ms);
      merged == if InEffect(alone, e) then Merged(ms + AsMappings(added), ignored)
                else if Blocked(alone, e) then Merged(ms + AsMappings(added), ignored + [e])
                else Merged(ms + AsMappings(added + [e]), ignored)
  {
    var alone := Published(primary, host, ms);
    assert pub == alone + AsMappings(added);
    OthersDoNotDecide(alone, added, e);
    AsMappingsSnoc(added, e);
    Regroup(ms, AsMappings(added), [e.AsMapping()]);
  }

  lemma UnmetDoNotClash(pub: seq<PortMapping>, front: seq<PortSpec>, e: PortSpec)
    requires OneToOne(AsMappings(front + [e]))
    ensures OneToOne(AsMappings(front))
    ensures forall d :: d in Unmet(pub, front) ==> Compatible(d.AsMapping(), e.AsMapping())
  {
    AsMappingsSnoc(front, e);
    OneToOneSnoc(AsMappings(front), e.AsMapping());
    forall d | d in Unmet(pub, front)
      ensures Compatible(d.AsMapping(), e.AsMapping())
    {
      UnmetMembers(pub, front, d);
      AsMappingsMembers(front, d);
    }
  }

  // Requests that do not clash are merged as if each were the only one: what is neither
  // met nor blocked is added, in order, and what is blocked and not met is warned about.
  lemma {:induction false} MergeIsFilter(primary: string, host: string, ms: seq<PortMapping>, exposed: seq<PortSpec>)
    requires TcpOrUdp(exposed) && OneToOne(AsMappings(exposed))
    ensures Merge(primary, host, ms, exposed) ==
            Merged(ms + AsMappings(Unmet(Published(primary, host, ms), exposed)),
                   InTheWay(Published(primary, host, ms), exposed))
  {
    var pub := Published(primary, host, ms);
    if exposed == [] {
      assert ms + [] == ms;
    } else {
      var front, e := exposed[..|exposed| - 1], exposed[|exposed| - 1];
      assert exposed == front + [e] && e in exposed && TcpOrUdp(front);
      UnmetDoNotClash(pub, front, e);
      MergeIsFilter(primary, host, ms, front);
      var added, ignored := Unmet(pub, front), InTheWay(pub, front);
      NextAddsAsAlone(primary, host, ms, added, ignored, e, Published(primary, host, ms + AsMappings(added)),
                      Merge(primary, host, ms, exposed));
    }
  }

  // What the tables say about one request.
  lemma TableDecides(t: Table, pub: seq<PortMapping>, e: PortSpec)
    requires t.For(pub) && OneToOne(pub) && e.protocol != ""
    ensures Blocked(pub, e) <==> !t.Free(e.AsMapping())
    ensures InEffect(pub, e) <==>
      KeyOf(e.AsMapping(), true) in t.hostForContainer && t.hostForContainer[KeyOf(e.AsMapping(), true)] == e.hostPort
  {
    FreeIsCompatible(t, pub, e.AsMapping());
    var k := KeyOf(e.AsMapping(), true);
    if k in t.hostForContainer {
      var m :| m in pub && k == KeyOf(m, true);
      assert Indexed(t.hostForContainer, m, true);
    }
    if InEffect(pub, e) {
      var m :| m in pub && m.containerPort == e.containerPort && m.hostPort == e.hostPort && m.Proto() == e.protocol;
      assert Indexed(t.hostForContainer, m, true);
    }
  }

  // The tables of a list of mappings; of two with one key the later one is known.
  function TableOf(ms: seq<PortMapping>): Table {
    if ms == [] then Table(map[], map[]) else TableOf(ms[..|ms| - 1]).Add(ms[|ms| - 1])
  }

  lemma {:induction false} TableOfIsFor(ms: seq<PortMapping>)
    requires OneToOne(ms)
    ensures TableOf(ms).For(ms)
  {
    if ms == [] {
    } else {
      var front, last := ms[..|ms| - 1], ms[|ms| - 1];
      assert ms == front + [last];
      OneToOneSnoc(front, last);
      TableOfIsFor(front);
      AddToTable(TableOf(front), front, last);
    }
  }

  datatype Merging = Merging(merged: Merged, table: Table) {
    function Take(e: PortSpec): Merging {
      var containerKey, hostKey := (e.containerPort, e.protocol), (e.hostPort, e.protocol);
      if containerKey in table.hostForContainer then
        if table.hostForContainer[containerKey] == e.hostPort then this
        else Merging(Merged(merged.mappings, merged.ignored + [e]), table)
      else if hostKey in table.containerForHost then
        Merging(Merged(merged.mappings, merged.ignored + [e]), table)
      else
        Merging(Merged(merged.mappings + [e.AsMapping()], merged.ignored),
                Table(table.hostForContainer[containerKey := e.hostPort],
                      table.containerForHost[hostKey := e.containerPort]))
    }
  }

  function MergeByTables(pub: seq<PortMapping>, ms: seq<PortMapping>, exposed: seq<PortSpec>): Merging {
    if exposed == [] then Merging(Merged(ms, []), TableOf(pub))
    else MergeByTables(pub, ms, exposed[..|exposed| - 1]).Take(exposed[|exposed| - 1])
  }

  // From a one-to-one start the two tables decide as the published mappings do.
  lemma {:induction false} TablesMerge(primary: string, host: string, ms: seq<PortMapping>, exposed: seq<PortSpec>)
    requires OneToOne(Published(primary, host, ms)) && TcpOrUdp(exposed)
    ensures var r := MergeByTables(Published(primary, host, ms), ms, exposed);
      && r.merged == Merge(primary, host, ms, exposed)
      && r.table.For(Published(primary, host, r.merged.mappings))
      && OneToOne(Published(primary, host, r.merged.mappings))
  {
    if exposed == [] {
      TableOfIsFor(Published(primary, host, ms));
    } else {
      var front, e := exposed[..|exposed| - 1], exposed[|exposed| - 1];
      assert TcpOrUdp(front) && e in exposed;
      TablesMerge(primary, host, ms, front);
      TakeMerges(primary, host, MergeByTables(Published(primary, host, ms), ms, front), e);
    }
  }

  lemma TakeMerges(primary: string, host: string, r: Merging, e: PortSpec)
    requires e.protocol == "tcp" || e.protocol == "udp"
    requires r.table.For(Published(primary, host, r.merged.mappings))
    requires OneToOne(Published(primary, host, r.merged.mappings))
    ensures var pub, r' := Published(primary, host, r.merged.mappings), r.Take(e);
      && r'.merged == (if InEffect(pub, e) then r.merged
                       else if Blocked(pub, e) then Merged(r.merged.mappings, r.merged.ignored + [e])
                       else Merged(r.merged.mappings + [e.AsMapping()], r.merged.ignored))
      && r'.table.For(Published(primary, host, r'.merged.mappings))
      && OneToOne(Published(primary, host, r'.merged.mappings))
  {
    var pub, m := Published(primary, host, r.merged.mappings), e.AsMapping();
    TableDecides(r.table, pub, e);
    if r.table.Free(m) {
      FreeIsCompatible(r.table, pub, m);
      AddToTable(r.table, pub, m);
      PublishedSnoc(primary, host, r.merged.mappings, m);
    }
  }

  // Appends the requested publications; ignored are those warned about.
  method MergeExposePorts(mappings0: seq<PortMapping>, primary: string, host: string, exposed: seq<PortSpec>)
    returns (mappings: seq<PortMapping>, ignored: seq<PortSpec>)
    ensures Merged(mappings, ignored) == MergeByTables(Published(primary, host, mappings0), mappings0, exposed).merged
    ensures OneToOne(Published(primary, host, mappings0)) && TcpOrUdp(exposed) ==>
      Merged(mappings, ignored) == Merge(primary, host, mappings0, exposed)
  {
    var hostForContainer := map[(primary, "tcp") := host];
    var containerForHost := map[(host, "tcp") := primary];
    ghost var pub := Published(primary, host, mappings0);
    assert pub[..1] == [PortMapping(primary, host, "", false)] && pub[..1][..0] == [];
    for k := 0 to |mappings0|
      invariant Table(hostForContainer, containerForHost) == TableOf(pub[..k + 1])
    {
      assert pub[..k + 2][..k + 1] == pub[..k + 1];
      var m := mappings0[k];
      var proto := m.protocol;
      if proto == "" {
        proto := "tcp";
      }
      hostForContainer := hostForContainer[(m.containerPort, proto) := m.hostPort];
      containerForHost := containerForHost[(m.hostPort, proto) := m.containerPort];
    }
    assert pub[..|mappings0| + 1] == pub;
    mappings, ignored := mappings0, [];
    for k := 0 to |exposed|
      invariant Merging(Merged(mappings, ignored), Table(hostForContainer, containerForHost))
             == MergeByTables(pub, mappings0, exposed[..k])
    {
      assert exposed[..k + 1][..k] == exposed[..k];
      var e := exposed[k];
      var containerKey, hostKey := (e.containerPort, e.protocol), (e.hostPort, e.protocol);
      if containerKey in hostForContainer {
        if hostForContainer[containerKey] != e.hostPort {
          ignored := ignored + [e];
        }
        continue;
      }
      if hostKey in containerForHost {
        ignored := ignored + [e];
        continue;
      }
      hostForContainer := hostForContainer[containerKey := e.hostPort];
      containerForHost := containerForHost[hostKey := e.containerPort];
      mappings := mappings + [PortMapping(e.containerPort, e.hostPort, e.protocol, false)];
    }
    assert exposed[..|exposed|] == exposed;
    if OneToOne(pub) && TcpOrUdp(exposed) {
      TablesMerge(primary, host, mappings0, exposed);
    }
  }

  // ----- Dropping optional ports that are busy -----

  // Without the optional mappings whose host port is taken. busy[i] is what the check
  // finds for mapping i.
  function KeepFree(ms: seq<PortMapping>, busy: seq<bool>): seq<PortMapping>
    requires |busy| == |ms|
  {
    if ms == [] then []
    else
      var n := |ms| - 1;
      KeepFree(ms[..n], busy[..n]) + if ms[n].optional && busy[n] then [] else [ms[n]]
  }

  // The host ports warned about.
  function DroppedPorts(ms: seq<PortMapping>, busy: seq<bool>): seq<string>
    requires |busy| == |ms|
  {
    if ms == [] then []
    else
      var n := |ms| - 1;
      DroppedPorts(ms[..n], busy[..n]) + if ms[n].optional && busy[n] then [ms[n].hostPort] else []
  }

  lemma KeepFreeNext(ms: seq<PortMapping>, busy: seq<bool>, i: nat)
    requires |busy| == |ms| && i < |ms|
    ensures KeepFree(ms[..i + 1], busy[..i + 1])
         == KeepFree(ms[..i], busy[..i]) + if ms[i].optional && busy[i] then [] else [ms[i]]
    ensures DroppedPorts(ms[..i + 1], busy[..i + 1])
         == DroppedPorts(ms[..i], busy[..i]) + if ms[i].optional && busy[i] then [ms[i].hostPort] else []
  {
    assert ms[..i + 1][..i] == ms[..i] && busy[..i + 1][..i] == busy[..i];
  }

  method DropBusyOptionalPorts(mappings: seq<PortMapping>, busy: seq<bool>)
    returns (r: seq<PortMapping>, warned: seq<string>)
    requires |busy| == |mappings|
    ensures r == KeepFree(mappings, busy) && warned == DroppedPorts(mappings, busy)
  {
    var kept: seq<PortMapping> := [];
    var dropped := false;
    warned := [];
    for i := 0 to |mappings|
      invariant warned == DroppedPorts(mappings[..i], busy[..i])
      invariant dropped ==> kept == KeepFree(mappings[..i], busy[..i])
      invariant !dropped ==> kept == [] && mappings[..i] == KeepFree(mappings[..i], busy[..i])
    {
      KeepFreeNext(mappings, busy, i);
      TakeNext(mappings, i);
      var ep := mappings[i];
      if ep.optional && busy[i] {
        if !dropped {
          dropped := true;
          kept := mappings[..i];
        }
        warned := warned + [ep.hostPort];
      } else if dropped {
        kept := kept + [ep];
      }
    }
    TakeAll(mappings);
    TakeAll(busy);
    r := if dropped then kept else mappings;
  }

  lemma {:induction false} KeepFreeTrims(ms: seq<PortMapping>, busy: seq<bool>)
    requires |busy| == |ms|
    ensures Trims(ms, KeepFree(ms, busy))
    ensures |KeepFree(ms, busy)| + |DroppedPorts(ms, busy)| == |ms|
  {
    if ms == [] {
    } else {
      var n := |ms| - 1;
      KeepFreeTrims(ms[..n], busy[..n]);
      TrimsSnoc(ms[..n], KeepFree(ms[..n], busy[..n]), ms[n]);
      assert ms == ms[..n] + [ms[n]];
      assert KeepFree(ms[..n], busy[..n]) + [] == KeepFree(ms[..n], busy[..n]);
    }
  }

  predicate Drops(ms: seq<PortMapping>, busy: seq<bool>, i: nat)
    requires i < |ms| == |busy|
  {
    ms[i].optional && busy[i]
  }

  ghost predicate KeptAt(ms: seq<PortMapping>, busy: seq<bool>, m: PortMapping)
    requires |busy| == |ms|
  {
    exists i :: 0 <= i < |ms| && ms[i] == m && !Drops(ms, busy, i)
  }

  ghost predicate DroppedAt(ms: seq<PortMapping>, busy: seq<bool>, port: string)
    requires |busy| == |ms|
  {
    exists i :: 0 <= i < |ms| && ms[i].hostPort == port && Drops(ms, busy, i)
  }

  lemma KeptAtLast(ms: seq<PortMapping>, busy: seq<bool>, m: PortMapping, n: nat)
    requires |busy| == |ms| == n + 1
    ensures KeptAt(ms, busy, m) <==> KeptAt(ms[..n], busy[..n], m) || (ms[n] == m && !Drops(ms, busy, n))
  {
    var front, rest := ms[..n], busy[..n];
    if i :| 0 <= i < n && front[i] == m && !Drops(front, rest, i) {
      assert ms[i] == m && !Drops(ms, busy, i);
    }
    if i :| 0 <= i < n && ms[i] == m && !Drops(ms, busy, i) {
      assert front[i] == m && !Drops(front, rest, i);
    }
  }

  lemma {:induction false} KeptAreFree(ms: seq<PortMapping>, busy: seq<bool>, m: PortMapping)
    requires |busy| == |ms|
    ensures m in KeepFree(ms, busy) <==> KeptAt(ms, busy, m)
  {
    if ms == [] {
    } else {
      var n := |ms| - 1;
      KeptAreFree(ms[..n], busy[..n], m);
      KeptAtLast(ms, busy, m, n);
    }
  }

  lemma DroppedAtSnoc(ms: seq<PortMapping>, busy: seq<bool>, m: PortMapping, b: bool, port: string)
    requires |busy| == |ms|
    ensures DroppedAt(ms + [m], busy + [b], port) <==>
      DroppedAt(ms, busy, port) || (m.optional && b && m.hostPort == port)
  {
    var all, bs := ms + [m], busy + [b];
    if i :| 0 <= i < |ms| && ms[i].hostPort == port && Drops(ms, busy, i) {
      assert all[i].hostPort == port && Drops(all, bs, i);
    }
    if i :| 0 <= i < |all| && all[i].hostPort == port && Drops(all, bs, i) {
      assert i < |ms| ==> ms[i].hostPort == port && Drops(ms, busy, i);
    }
    if m.optional && b && m.hostPort == port {
      assert all[|ms|].hostPort == port && Drops(all, bs, |ms|);
    }
  }

  lemma {:induction false} WarnedAreDropped(ms: seq<PortMapping>, busy: seq<bool>, port: string)
    requires |busy| == |ms|
    ensures port in DroppedPorts(ms, busy) <==> DroppedAt(ms, busy, port)
  {
    if ms == [] {
    } else {
      var n := |ms| - 1;
      var front, rest := ms[..n], busy[..n];
      WarnedAreDropped(front, rest, port);
      DroppedAtSnoc(front, rest, ms[n], busy[n], port);
      assert ms == front + [ms[n]] && busy == rest + [busy[n]];
    }
  }

  // What is kept is in order, and exactly the busy optional mappings are missing from
  // it; exactly their host ports are warned about, each once.
  lemma KeepFreeIsExact(ms: seq<PortMapping>, busy: seq<bool>)
    requires |busy| == |ms|
    ensures Trims(ms, KeepFree(ms, busy))
    ensures forall m :: m in KeepFree(ms, busy) <==> KeptAt(ms, busy, m)
    ensures forall p :: p in DroppedPorts(ms, busy) <==> DroppedAt(ms, busy, p)
    ensures |KeepFree(ms, busy)| + |DroppedPorts(ms, busy)| == |ms|
  {
    KeepFreeTrims(ms, busy);
    forall m
      ensures m in KeepFree(ms, busy) <==> KeptAt(ms, busy, m)
    {
      KeptAreFree(ms, busy, m);
    }
    forall p
      ensures p in DroppedPorts(ms, busy) <==> DroppedAt(ms, busy, p)
    {
      WarnedAreDropped(ms, busy, p);
    }
  }

  // ----- Starting with a fallback -----

  // A start error: whether it is about a bind, and the host ports it names.
  datatype StartError = StartError(bind: bool, named: set<string>, denied: bool)

  datatype StartReply = Started(id: nat) | Refused(err: StartError)

  datatype StartResult = Running(id: nat) | CannotStart(err: StartError) | LeftoverStays(err: StartError)

  predicate Blames(err: StartError, m: PortMapping) {
    err.bind && m.optional && m.hostPort in err.named
  }

  // The first optional mapping that the error blames, or -1.
  function BlamedFrom(err: StartError, ms: seq<PortMapping>, i: nat): (k: int)
    requires i <= |ms|
    ensures k == -1 || (i <= k < |ms| && Blames(err, ms[k]))
    decreases |ms| - i
  {
    if !err.bind || i == |ms| then -1
    else if ms[i].optional && ms[i].hostPort in err.named then i
    else BlamedFrom(err, ms, i + 1)
  }

  lemma {:induction false} BlamedIsFirst(err: StartError, ms: seq<PortMapping>, i: nat, j: nat)
    requires i <= j < |ms| && Blames(err, ms[j])
    ensures 0 <= BlamedFrom(err, ms, i) <= j
    decreases j - i
  {
    if i < j && !Blames(err, ms[i]) {
      BlamedIsFirst(err, ms, i + 1, j);
    }
  }

  method FailedOptionalPortBind(err: StartError, mappings: seq<PortMapping>) returns (k: int)
    ensures k == BlamedFrom(err, mappings, 0)
    ensures k == -1 <==> forall j :: 0 <= j < |mappings| ==> !Blames(err, mappings[j])
    ensures k != -1 ==> 0 <= k < |mappings| && Blames(err, mappings[k])
    ensures k != -1 ==> err.bind && mappings[k].optional && mappings[k].hostPort in err.named
    ensures forall j :: 0 <= j < k ==> !Blames(err, mappings[j])
  {
    forall j | 0 <= j < |mappings| && Blames(err, mappings[j])
      ensures 0 <= BlamedFrom(err, mappings, 0) <= j
    {
      BlamedIsFirst(err, mappings, 0, j);
    }
    if !err.bind {
      return -1;
    }
    for i := 0 to |mappings|
      invariant BlamedFrom(err, mappings, 0) == BlamedFrom(err, mappings, i)
    {
      if mappings[i].optional && mappings[i].hostPort in err.named {
        return i;
      }
    }
    return -1;
  }

  function Without<T>(s: seq<T>, i: nat): seq<T>
    requires i < |s|
  {
    s[..i] + s[i + 1..]
  }

  // The daemon's answers to the attempts and to the removals between them.
  datatype Daemon = Daemon(start: nat -> StartReply, remove: nat -> bool)

  // attempts is what a run of the fallback loop publishes, attempt by attempt: each
  // attempt but the first follows a refusal that blames an optional mapping and a
  // successful removal, and leaves exactly that mapping out.
  ghost predicate IsFallback(attempts: seq<seq<PortMapping>>, ms: seq<PortMapping>, d: Daemon) {
    && attempts != [] && attempts[0] == ms
    && forall k :: 0 < k < |attempts| ==> FollowsOn(attempts[k - 1], attempts[k], d, k - 1)
  }

  ghost predicate FollowsOn(before: seq<PortMapping>, after: seq<PortMapping>, d: Daemon, k: nat) {
    && d.start(k).Refused? && d.remove(k)
    && var i := BlamedFrom(d.start(k).err, before, 0);
       i >= 0 && after == Without(before, i)
  }

  // The warning names the port of the mapping left out.
  ghost predicate WarnsAbout(port: string, ms: seq<PortMapping>, reply: StartReply) {
    && reply.Refused?
    && var i := BlamedFrom(reply.err, ms, 0);
       i >= 0 && port == ms[i].hostPort
  }

  ghost predicate Warns(warned: seq<string>, attempts: seq<seq<PortMapping>>, d: Daemon) {
    && |warned| <= |attempts|
    && forall k :: 0 <= k < |warned| ==> WarnsAbout(warned[k], attempts[k], d.start(k))
  }

  lemma FallbackGoesOn(attempts: seq<seq<PortMapping>>, ms: seq<PortMapping>, d: Daemon,
                       ports: seq<PortMapping>, after: seq<PortMapping>)
    requires IsFallback(attempts + [ports], ms, d) && FollowsOn(ports, after, d, |attempts|)
    ensures IsFallback(attempts + [ports] + [after], ms, d)
  {
    var all := attempts + [ports];
    forall k | 0 < k < |all| + 1
      ensures FollowsOn((all + [after])[k - 1], (all + [after])[k], d, k - 1)
    {
      if k < |all| {
        assert FollowsOn(all[k - 1], all[k], d, k - 1);
      }
    }
  }

  lemma OneMoreWarning(warned: seq<string>, attempts: seq<seq<PortMapping>>, d: Daemon,
                       ports: seq<PortMapping>, port: string)
    requires Warns(warned, attempts, d) && |warned| == |attempts| && WarnsAbout(port, ports, d.start(|attempts|))
    ensures Warns(warned + [port], attempts + [ports], d)
    ensures Warns(warned, attempts + [ports], d)
  {
  }

  method StartWithOptionalPortFallback(extraPorts: seq<PortMapping>, d: Daemon)
    returns (result: StartResult, attempts: seq<seq<PortMapping>>, warned: seq<string>)
    ensures IsFallback(attempts, extraPorts, d)
    ensures var k := |attempts| - 1;
      match d.start(k)
      case Started(id) => result == Running(id)
      case Refused(err) =>
        if BlamedFrom(err, attempts[k], 0) < 0 then result == CannotStart(err)
        else !d.remove(k) && result == LeftoverStays(err)
    ensures |warned| == |attempts| - if result.LeftoverStays? then 0 else 1
    ensures Warns(warned, attempts, d)
  {
    var ports := extraPorts;
    attempts, warned := [], [];
    while true
      invariant IsFallback(attempts + [ports], extraPorts, d)
      invariant |warned| == |attempts|
      invariant Warns(warned, attempts, d)
      decreases |ports|
    {
      var reply := d.start(|attempts|);
      ghost var before := attempts;
      attempts := attempts + [ports];
      if reply.Started? {
        return Running(reply.id), attempts, warned;
      }
      var i := FailedOptionalPortBind(reply.err, ports);
      if i < 0 {
        return CannotStart(reply.err), attempts, warned;
      }
      OneMoreWarning(warned, before, d, ports, ports[i].hostPort);
      warned := warned + [ports[i].hostPort];
      if !d.remove(|attempts| - 1) {
        return LeftoverStays(reply.err), attempts, warned;
      }
      FallbackGoesOn(before, extraPorts, d, ports, Without(ports, i));
      ports := ports[..i] + ports[i + 1..];
    }
  }

  function Optionals(ms: seq<PortMapping>): nat {
    if ms == [] then 0 else (if ms[0].optional then 1 else 0) + Optionals(ms[1..])
  }

  lemma {:induction false} WithoutTrims(ms: seq<PortMapping>, i: nat)
    requires i < |ms| && ms[i].optional
    ensures Trims(ms, Without(ms, i)) && Optionals(Without(ms, i)) == Optionals(ms) - 1
  {
    if i == 0 {
      assert Without(ms, 0) == ms[1..];
      TrimsNothing(ms[1..]);
    } else {
      WithoutTrims(ms[1..], i - 1);
      assert ms[..i] == [ms[0]] + ms[1..][..i - 1] && ms[1..][i..] == ms[i + 1..];
      assert Without(ms, i) == [ms[0]] + Without(ms[1..], i - 1);
    }
  }

  lemma {:induction false} FallbackTrims(attempts: seq<seq<PortMapping>>, ms: seq<PortMapping>, d: Daemon, k: nat)
    requires IsFallback(attempts, ms, d) && k < |attempts|
    ensures Trims(ms, attempts[k]) && Optionals(attempts[k]) == Optionals(ms) - k
  {
    if k == 0 {
      TrimsNothing(ms);
    } else {
      FallbackTrims(attempts, ms, d, k - 1);
      assert FollowsOn(attempts[k - 1], attempts[k], d, k - 1);
      WithoutTrims(attempts[k - 1], BlamedFrom(d.start(k - 1).err, attempts[k - 1], 0));
      TrimsTwice(ms, attempts[k - 1], attempts[k]);
    }
  }

  // From the merged mappings to the daemon: whatever is busy and whatever the daemon
  // answers, every attempt publishes an order-preserving part of the merged mappings that
  // keeps every required one and stays one-to-one, and there are at most as many attempts
  // as optional mappings, plus one.
  lemma EveryAttemptIsSound(primary: string, host: string, initial: seq<PortMapping>, exposed: seq<PortSpec>,
                            busy: seq<bool>, attempts: seq<seq<PortMapping>>, d: Daemon, k: nat)
    requires OneToOne(Published(primary, host, initial))
    requires |busy| == |Merge(primary, host, initial, exposed).mappings|
    requires IsFallback(attempts, KeepFree(Merge(primary, host, initial, exposed).mappings, busy), d)
    requires k < |attempts|
    ensures Trims(Merge(primary, host, initial, exposed).mappings, attempts[k])
    ensures forall m :: m in Merge(primary, host, initial, exposed).mappings && !m.optional ==> m in attempts[k]
    ensures OneToOne(Published(primary, host, attempts[k]))
    ensures |attempts| <= Optionals(Merge(primary, host, initial, exposed).mappings) + 1
  {
    var merged := Merge(primary, host, initial, exposed).mappings;
    var kept := KeepFree(merged, busy);
    MergeKeepsOneToOne(primary, host, initial, exposed);
    KeepFreeTrims(merged, busy);
    FallbackTrims(attempts, kept, d, k);
    FallbackTrims(attempts, kept, d, |attempts| - 1);
    TrimsTwice(merged, kept, attempts[k]);
    TrimmedOptionals(merged, kept);
    forall m | m in merged && !m.optional
      ensures m in attempts[k]
    {
      TrimsMembers(merged, attempts[k], m);
    }
    assert Published(primary, host, merged)[1..] == merged;
    assert Published(primary, host, attempts[k])[1..] == attempts[k];
    TrimsKeepsOneToOne(Published(primary, host, merged), Published(primary, host, attempts[k]));
  }

  lemma {:induction false} TrimmedOptionals(a: seq<PortMapping>, b: seq<PortMapping>)
    requires Trims(a, b)
    ensures Optionals(b) <= Optionals(a)
  {
    if a == [] {
    } else {
      if b != [] && b[0] == a[0] && Trims(a[1..], b[1..]) {
        TrimmedOptionals(a[1..], b[1..]);
      } else {
        TrimmedOptionals(a[1..], b);
      }
    }
  }
}
