/**
 The join of one state refresh: five OVN tables become the external addresses of the routers
 whose gateway is bound to this chassis, each with the MAC of a port that owns it. The join is
 code over hash indexes; it is proved against its relational meaning. Address parsing and
 network matching are parameters.
 */
module RefreshJoin {
  import opened Common
  import opened Text

  datatype Chassis = Chassis(uuid: string, name: string, hostname: string)

  datatype PortBinding = PortBinding(typ: string, logicalPort: string, chassis: Option<string>, datapath: string,
                                     options: map<string, string>, externalIDs: map<string, string>,
                                     natAddresses: seq<string>, tag: Option<int>)

  datatype RouterPort = RouterPort(uuid: string, name: string, mac: string, networks: seq<string>)

  datatype Router = Router(uuid: string, name: string, ports: seq<string>, nats: seq<string>)

  datatype NAT = NAT(uuid: string, externalIP: string, typ: string)

  datatype Tables = Tables(chassis: seq<Chassis>, bindings: seq<PortBinding>, ports: seq<RouterPort>, routers: seq<Router>, nats: seq<NAT>)

  datatype Family = NotIP | V4 | V6

  /** The host, its configuration, and what net says of addresses and networks. */
  datatype Setup = Setup(localName: string, gatewayPort: string, manual: seq<string>,
                         family: string -> Family, cidr: string -> Option<string>, contains: (string, string) -> bool)

  datatype Segment = Segment(localnetPort: string, networkName: string, vlanTag: Option<int>)

  datatype LocalRouter = LocalRouter(router: Router, port: RouterPort, crPort: string, segment: Option<Segment>)

  function Opt(m: map<string, string>, key: string): string {
    if key in m then m[key] else ""
  }

  function ShortHostname(h: string): string {
    Before(h, '.')
  }

  predicate HostnamesEqual(a: string, b: string) {
    Lower(ShortHostname(a)) == Lower(ShortHostname(b))
  }

  // ---------------------------------------------------------------------------
  // The relational meaning
  // ---------------------------------------------------------------------------

  /** Row references and row names are unique in their tables. */
  ghost predicate UniqueRows(t: Tables) {
    && (forall c, d :: c in t.chassis && d in t.chassis && (c.uuid == d.uuid || c.name == d.name || c.uuid == d.name) ==> c == d)
    && (forall p, q :: p in t.ports && q in t.ports && (p.uuid == q.uuid || p.name == q.name) ==> p == q)
  }

  /** The reference names a chassis row of this host. */
  ghost predicate HostedHere(chassis: seq<Chassis>, ref: string, localName: string) {
    exists c :: c in chassis && (c.uuid == ref || c.name == ref) && HostnamesEqual(c.hostname, localName)
  }

  /** The router port a chassisredirect port redirects for: the option, else the name convention. */
  function CRPortLRPName(pb: PortBinding): string {
    if Opt(pb.options, "distributed-port") != "" then pb.options["distributed-port"]
    else if HasPrefix(pb.logicalPort, "cr-") then pb.logicalPort[3..]
    else ""
  }

  ghost predicate RedirectsHere(pb: PortBinding, chassis: seq<Chassis>, s: Setup) {
    && pb.typ == "chassisredirect" && pb.chassis.Some? && pb.chassis.value != ""
    && (s.gatewayPort == "" || pb.logicalPort == s.gatewayPort)
    && HostedHere(chassis, pb.chassis.value, s.localName)
  }

  /** The router port's gateway is bound to this chassis. */
  ghost predicate LocalName(t: Tables, s: Setup, name: string) {
    name != "" && exists pb :: pb in t.bindings && RedirectsHere(pb, t.chassis, s) && CRPortLRPName(pb) == name
  }

  ghost predicate LocalPort(t: Tables, s: Setup, uuid: string) {
    exists p :: p in t.ports && p.uuid == uuid && LocalName(t, s, p.name)
  }

  /** `p` is the first local port of the router. */
  ghost predicate Matched(t: Tables, s: Setup, r: Router, p: RouterPort) {
    && p in t.ports
    && exists i :: 0 <= i < |r.ports| && r.ports[i] == p.uuid && LocalPort(t, s, p.uuid)
                   && forall j :: 0 <= j < i ==> !LocalPort(t, s, r.ports[j])
  }

  /** A router with a port of this MAC bound here owns the NAT row. */
  ghost predicate OwnsNAT(t: Tables, s: Setup, natUUID: string, mac: string) {
    mac != "" && exists r, p :: r in t.routers && natUUID in r.nats && Matched(t, s, r, p) && p.mac == mac
  }

  /** An address passes when there is no filter or a network of it contains the address. */
  predicate Passes(filters: seq<string>, contains: (string, string) -> bool, ip: string) {
    filters == [] || exists n :: n in filters && contains(n, ip)
  }

  /** "MAC IP1 [IP2 ...] [is_chassis_resident("port")]" */
  function NatIPs(fields: seq<string>, family: string -> Family): seq<string> {
    if fields == [] || HasPrefix(fields[0], "is_chassis_resident") then []
    else (if family(fields[0]).NotIP? then [] else [fields[0]]) + NatIPs(fields[1..], family)
  }

  function NatAddressIPs(addr: string, family: string -> Family): seq<string> {
    var fields := Fields(addr, IsSpace);
    if |fields| < 2 then [] else NatIPs(fields[1..], family)
  }

  /** A gateway patch port of the router port `peer`. */
  predicate GatewayPatch(pb: PortBinding, peer: string) {
    && pb.typ == "patch" && peer != "" && Opt(pb.options, "peer") == peer
    && Opt(pb.externalIDs, "neutron:device_owner") == "network:router_gateway"
  }

  ghost predicate PatchCarries(t: Tables, s: Setup, peer: string, ip: string) {
    exists pb, a :: pb in t.bindings && GatewayPatch(pb, peer) && a in pb.natAddresses && ip in NatAddressIPs(a, s.family)
  }

  /** A NAT row of a local router has the address. */
  ghost predicate ByNAT(t: Tables, s: Setup, filters: seq<string>, ip: string, mac: string) {
    && !s.family(ip).NotIP? && Passes(filters, s.contains, ip)
    && exists n :: n in t.nats && n.externalIP == ip && OwnsNAT(t, s, n.uuid, mac)
  }

  /** The gateway patch port of a local router port carries the address. */
  ghost predicate ByPatch(t: Tables, s: Setup, filters: seq<string>, ip: string, mac: string) {
    && mac != "" && Passes(filters, s.contains, ip)
    && exists p :: p in t.ports && p.mac == mac && LocalName(t, s, p.name) && PatchCarries(t, s, p.name, ip)
  }

  // ---------------------------------------------------------------------------
  // Indexes
  // ---------------------------------------------------------------------------

  /** The hostname the last chassis row under this reference has. */
  function HostOf(chassis: seq<Chassis>, ref: string): Option<string> {
    if chassis == [] then None
    else
      var last := chassis[|chassis| - 1];
      if last.uuid == ref || last.name == ref then Some(last.hostname) else HostOf(chassis[..|chassis| - 1], ref)
  }

  ghost predicate IndexesChassis(byRef: map<string, string>, chassis: seq<Chassis>) {
    forall ref :: HostOf(chassis, ref) == if ref in byRef then Some(byRef[ref]) else None
  }

  method ChassisIndex(chassis: seq<Chassis>) returns (hostnameByRef: map<string, string>, allNames: set<string>)
    ensures IndexesChassis(hostnameByRef, chassis)
    ensures forall n :: n in allNames <==> exists c :: c in chassis && ShortHostname(c.hostname) == n
  {
    hostnameByRef, allNames := map[], {};
    for n := 0 to |chassis|
      invariant IndexesChassis(hostnameByRef, chassis[..n])
      invariant forall m :: m in allNames <==> exists c :: c in chassis[..n] && ShortHostname(c.hostname) == m
    {
      hide ShortHostname;
      var ch := chassis[n];
      assert chassis[..n + 1] == chassis[..n] + [ch];
      assert (chassis[..n] + [ch])[..n] == chassis[..n];
      hostnameByRef := hostnameByRef[ch.uuid := ch.hostname][ch.name := ch.hostname];
      allNames := allNames + {ShortHostname(ch.hostname)};
    }
    assert chassis[..|chassis|] == chassis;
  }

  lemma {:induction false} HostOfMeans(chassis: seq<Chassis>, ref: string)
    ensures HostOf(chassis, ref).Some? ==>
              exists c :: c in chassis && (c.uuid == ref || c.name == ref) && c.hostname == HostOf(chassis, ref).value
    ensures HostOf(chassis, ref).None? ==> forall c :: c in chassis ==> c.uuid != ref && c.name != ref
  {
    if chassis != [] {
      HostOfMeans(chassis[..|chassis| - 1], ref);
      assert chassis == chassis[..|chassis| - 1] + [chassis[|chassis| - 1]];
    }
  }

  lemma NobodyIsNotHere(localName: string)
    requires ShortHostname(localName) != ""
    ensures !HostnamesEqual("", localName)
  {
    assert ShortHostname("") == "";
  }

  /** With unique references, the index lookup decides whether the chassis is this host. */
  lemma LookupIsHosted(t: Tables, byRef: map<string, string>, ref: string, localName: string)
    requires UniqueRows(t) && IndexesChassis(byRef, t.chassis) && ShortHostname(localName) != ""
    ensures HostnamesEqual(Opt(byRef, ref), localName) <==> HostedHere(t.chassis, ref, localName)
  {
    NobodyIsNotHere(localName);
    HostOfMeans(t.chassis, ref);
    hide HostnamesEqual, HostOf, ShortHostname;
    assert HostOf(t.chassis, ref) == if ref in byRef then Some(byRef[ref]) else None;
    if ref in byRef {
      var c :| c in t.chassis && (c.uuid == ref || c.name == ref) && c.hostname == byRef[ref];
      forall d | d in t.chassis && (d.uuid == ref || d.name == ref) ensures d == c {}
    }
  }

  /** The code's test of one binding. */
  lemma RedirectsIff(t: Tables, byRef: map<string, string>, pb: PortBinding, s: Setup)
    requires UniqueRows(t) && IndexesChassis(byRef, t.chassis) && ShortHostname(s.localName) != ""
    ensures RedirectsHere(pb, t.chassis, s) <==>
      && pb.typ == "chassisredirect" && pb.chassis.Some? && pb.chassis.value != ""
      && (s.gatewayPort == "" || pb.logicalPort == s.gatewayPort)
      && HostnamesEqual(Opt(byRef, pb.chassis.value), s.localName)
  {
    if pb.chassis.Some? {
      LookupIsHosted(t, byRef, pb.chassis.value, s.localName);
    }
    hide HostnamesEqual, HostedHere, UniqueRows, IndexesChassis, ShortHostname;
  }

  ghost predicate LocalPorts(m: map<string, string>, bindings: seq<PortBinding>, chassis: seq<Chassis>, s: Setup) {
    && (forall name :: name in m ==>
          name != "" && exists pb :: pb in bindings && RedirectsHere(pb, chassis, s) && CRPortLRPName(pb) == name && pb.logicalPort == m[name])
    && (forall pb :: pb in bindings && RedirectsHere(pb, chassis, s) && CRPortLRPName(pb) != "" ==> CRPortLRPName(pb) in m)
  }

  method LocalCRPorts(t: Tables, hostnameByRef: map<string, string>, s: Setup) returns (local: map<string, string>)
    requires UniqueRows(t) && IndexesChassis(hostnameByRef, t.chassis) && ShortHostname(s.localName) != ""
    ensures LocalPorts(local, t.bindings, t.chassis, s)
    ensures forall name :: name in local <==> LocalName(t, s, name)
  {
    local := map[];
    for n := 0 to |t.bindings|
      invariant LocalPorts(local, t.bindings[..n], t.chassis, s)
    {
      hide LocalPorts, RedirectsHere, HostnamesEqual, CRPortLRPName, UniqueRows, IndexesChassis;
      var pb := t.bindings[n];
      assert t.bindings[..n + 1] == t.bindings[..n] + [pb];
      ghost var before := local;
      if pb.typ == "chassisredirect" && pb.chassis.Some? && pb.chassis.value != ""
         && (s.gatewayPort == "" || pb.logicalPort == s.gatewayPort)
      {
        if HostnamesEqual(Opt(hostnameByRef, pb.chassis.value), s.localName) {
          var name := CRPortLRPName(pb);
          if name != "" {
            local := local[name := pb.logicalPort];
          }
        }
      }
      RedirectsIff(t, hostnameByRef, pb, s);
      LocalPortsStep(before, local, t.bindings[..n], pb, t.chassis, s);
    }
    assert t.bindings[..|t.bindings|] == t.bindings;
    hide CRPortLRPName, RedirectsHere;
  }

  lemma LocalPortsStep(m: map<string, string>, m': map<string, string>, bindings: seq<PortBinding>, pb: PortBinding, chassis: seq<Chassis>, s: Setup)
    requires LocalPorts(m, bindings, chassis, s)
    requires m' == if RedirectsHere(pb, chassis, s) && CRPortLRPName(pb) != "" then m[CRPortLRPName(pb) := pb.logicalPort] else m
    ensures LocalPorts(m', bindings + [pb], chassis, s)
  {
    hide RedirectsHere, CRPortLRPName;
    assert forall x :: x in bindings + [pb] <==> x in bindings || x == pb;
  }

  /** The port's segment: a localnet row shares the datapath of a patch row that peers with the port. */
  ghost predicate SegmentOf(bindings: seq<PortBinding>, name: string, seg: Segment) {
    exists pb, ln :: pb in bindings && ln in bindings && pb.typ == "patch" && name != "" && Opt(pb.options, "peer") == name
      && ln.typ == "localnet" && ln.datapath == pb.datapath
      && seg == Segment(ln.logicalPort, Opt(ln.options, "network_name"), ln.tag)
  }

  method LocalnetByDatapath(bindings: seq<PortBinding>) returns (byDatapath: map<string, PortBinding>)
    ensures forall d :: d in byDatapath ==> byDatapath[d] in bindings && byDatapath[d].typ == "localnet" && byDatapath[d].datapath == d
    ensures forall pb :: pb in bindings && pb.typ == "localnet" ==> pb.datapath in byDatapath
  {
    byDatapath := map[];
    for n := 0 to |bindings|
      invariant forall d :: d in byDatapath ==> byDatapath[d] in bindings && byDatapath[d].typ == "localnet" && byDatapath[d].datapath == d
      invariant forall pb :: pb in bindings[..n] && pb.typ == "localnet" ==> pb.datapath in byDatapath
    {
      if bindings[n].typ == "localnet" {
        byDatapath := byDatapath[bindings[n].datapath := bindings[n]];
      }
    }
  }

  /** A switch-side patch row of a local router port on a datapath with a localnet port. */
  predicate Joins(pb: PortBinding, local: map<string, string>, byDatapath: map<string, PortBinding>) {
    && pb.typ == "patch" && Opt(pb.options, "peer") != "" && Opt(pb.options, "peer") in local && pb.datapath in byDatapath
  }

  function SegmentAt(byDatapath: map<string, PortBinding>, datapath: string): Segment
    requires datapath in byDatapath
  {
    var ln := byDatapath[datapath];
    Segment(ln.logicalPort, Opt(ln.options, "network_name"), ln.tag)
  }

  ghost predicate Resolved(bindings: seq<PortBinding>, local: map<string, string>, byDatapath: map<string, PortBinding>, segments: map<string, Segment>) {
    && (forall name :: name in segments ==>
          exists pb :: pb in bindings && Joins(pb, local, byDatapath) && Opt(pb.options, "peer") == name && segments[name] == SegmentAt(byDatapath, pb.datapath))
    && (forall pb :: pb in bindings && Joins(pb, local, byDatapath) ==> Opt(pb.options, "peer") in segments)
  }

  lemma ResolvedStep(bindings: seq<PortBinding>, pb: PortBinding, local: map<string, string>, byDatapath: map<string, PortBinding>,
                     segments: map<string, Segment>)
    requires Resolved(bindings, local, byDatapath, segments)
    ensures Resolved(bindings + [pb], local, byDatapath,
                     if Joins(pb, local, byDatapath) then segments[Opt(pb.options, "peer") := SegmentAt(byDatapath, pb.datapath)] else segments)
  {
    hide SegmentAt, Opt;
    assert forall x :: x in bindings + [pb] <==> x in bindings || x == pb;
  }

  lemma ResolvedMeans(bindings: seq<PortBinding>, local: map<string, string>, byDatapath: map<string, PortBinding>, segments: map<string, Segment>)
    requires Resolved(bindings, local, byDatapath, segments)
    requires forall d :: d in byDatapath ==> byDatapath[d] in bindings && byDatapath[d].typ == "localnet" && byDatapath[d].datapath == d
    requires forall pb :: pb in bindings && pb.typ == "localnet" ==> pb.datapath in byDatapath
    ensures forall name :: name in segments ==> name in local && SegmentOf(bindings, name, segments[name])
    ensures forall name, seg :: name in local && SegmentOf(bindings, name, seg) ==> name in segments
  {
    hide Opt;
  }

  method SegmentsByLRP(bindings: seq<PortBinding>, local: map<string, string>) returns (segments: map<string, Segment>)
    ensures forall name :: name in segments ==> name in local && SegmentOf(bindings, name, segments[name])
    ensures forall name, seg :: name in local && SegmentOf(bindings, name, seg) ==> name in segments
  {
    var byDatapath := LocalnetByDatapath(bindings);
    segments := map[];
    for n := 0 to |bindings|
      invariant Resolved(bindings[..n], local, byDatapath, segments)
    {
      hide Resolved;
      var pb := bindings[n];
      ResolvedStep(bindings[..n], pb, local, byDatapath, segments);
      assert bindings[..n + 1] == bindings[..n] + [pb];
      var peer := Opt(pb.options, "peer");
      if pb.typ == "patch" && peer != "" && peer in local && pb.datapath in byDatapath {
        segments := segments[peer := SegmentAt(byDatapath, pb.datapath)];
      }
    }
    assert bindings[..|bindings|] == bindings;
    ResolvedMeans(bindings, local, byDatapath, segments);
  }

  ghost predicate IndexesPorts(byName: map<string, RouterPort>, byUUID: map<string, RouterPort>, ports: seq<RouterPort>) {
    && (forall n :: n in byName ==> byName[n] in ports && byName[n].name == n)
    && (forall u :: u in byUUID ==> byUUID[u] in ports && byUUID[u].uuid == u)
    && (forall p :: p in ports ==> p.name in byName && p.uuid in byUUID)
  }

  method IndexLRPs(ports: seq<RouterPort>) returns (byName: map<string, RouterPort>, byUUID: map<string, RouterPort>)
    ensures IndexesPorts(byName, byUUID, ports)
  {
    byName, byUUID := map[], map[];
    for n := 0 to |ports|
      invariant IndexesPorts(byName, byUUID, ports[..n])
    {
      assert ports[..n + 1] == ports[..n] + [ports[n]];
      byName := byName[ports[n].name := ports[n]];
      byUUID := byUUID[ports[n].uuid := ports[n]];
    }
    assert ports[..|ports|] == ports;
  }

  ghost predicate NamesUUID(byName: map<string, RouterPort>, names: set<string>, u: string) {
    exists name :: name in names && name in byName && byName[name].uuid == u
  }

  /** `uuids` are the row IDs of the named ports. */
  ghost predicate NamesUUIDs(byName: map<string, RouterPort>, names: set<string>, uuids: set<string>) {
    forall u :: u in uuids <==> NamesUUID(byName, names, u)
  }

  lemma NamesUUIDStep(byName: map<string, RouterPort>, names: set<string>, name: string, uuids: set<string>)
    requires NamesUUIDs(byName, names, uuids)
    ensures NamesUUIDs(byName, names + {name}, if name in byName then uuids + {byName[name].uuid} else uuids)
  {
    forall u ensures NamesUUID(byName, names + {name}, u) <==> NamesUUID(byName, names, u) || (name in byName && byName[name].uuid == u) {
      assert name in names + {name};
    }
  }

  lemma NoNames(byName: map<string, RouterPort>)
    ensures NamesUUIDs(byName, {}, {})
  {
  }

  lemma NamesUUIDMeans(t: Tables, s: Setup, local: map<string, string>, byName: map<string, RouterPort>, byUUID: map<string, RouterPort>, u: string)
    requires UniqueRows(t) && IndexesPorts(byName, byUUID, t.ports) && forall name :: name in local <==> LocalName(t, s, name)
    ensures NamesUUID(byName, local.Keys, u) <==> LocalPort(t, s, u)
  {
    hide LocalName;
    if LocalPort(t, s, u) {
      var p :| p in t.ports && p.uuid == u && LocalName(t, s, p.name);
      assert p.name in byName && byName[p.name] == p && p.name in local.Keys;
    }
  }

  lemma NamesUUIDsMean(t: Tables, s: Setup, local: map<string, string>, byName: map<string, RouterPort>, byUUID: map<string, RouterPort>, uuids: set<string>)
    requires UniqueRows(t) && IndexesPorts(byName, byUUID, t.ports) && forall name :: name in local <==> LocalName(t, s, name)
    requires NamesUUIDs(byName, local.Keys, uuids)
    ensures forall u :: u in uuids <==> LocalPort(t, s, u)
  {
    hide LocalName, LocalPort, UniqueRows, IndexesPorts, NamesUUID;
    forall u ensures u in uuids <==> LocalPort(t, s, u) {
      NamesUUIDMeans(t, s, local, byName, byUUID, u);
    }
  }

  method LocalLRPUUIDSet(t: Tables, s: Setup, local: map<string, string>, byName: map<string, RouterPort>, ghost byUUID: map<string, RouterPort>)
    returns (uuids: set<string>)
    requires UniqueRows(t) && IndexesPorts(byName, byUUID, t.ports) && forall name :: name in local <==> LocalName(t, s, name)
    ensures forall u :: u in uuids <==> LocalPort(t, s, u)
  {
    hide NamesUUIDs, LocalName, LocalPort, UniqueRows, IndexesPorts;
    uuids := {};
    NoNames(byName);
    ghost var done := {};
    var todo := local.Keys;
    while todo != {}
      invariant todo !! done && todo + done == local.Keys
      invariant NamesUUIDs(byName, done, uuids)
      decreases |todo|
    {
      var name :| name in todo;
      NamesUUIDStep(byName, done, name, uuids);
      todo, done := todo - {name}, done + {name};
      if name in byName {
        uuids := uuids + {byName[name].uuid};
      }
    }
    assert done == local.Keys;
    NamesUUIDsMean(t, s, local, byName, byUUID, uuids);
  }

  // ---------------------------------------------------------------------------
  // Routers and NAT rows
  // ---------------------------------------------------------------------------

  lemma FirstLocal(t: Tables, s: Setup, r: Router, n: nat, byName: map<string, RouterPort>, byUUID: map<string, RouterPort>)
    requires UniqueRows(t) && IndexesPorts(byName, byUUID, t.ports)
    requires n < |r.ports| && LocalPort(t, s, r.ports[n]) && forall j :: 0 <= j < n ==> !LocalPort(t, s, r.ports[j])
    ensures r.ports[n] in byUUID && forall q :: Matched(t, s, r, q) <==> q == byUUID[r.ports[n]]
  {
    var p :| p in t.ports && p.uuid == r.ports[n] && LocalName(t, s, p.name);
    assert byUUID[r.ports[n]] == p;
    hide LocalPort, LocalName;
    forall q ensures Matched(t, s, r, q) <==> q == p {
      if Matched(t, s, r, q) {
        var i :| 0 <= i < |r.ports| && r.ports[i] == q.uuid && LocalPort(t, s, q.uuid) && forall j :: 0 <= j < i ==> !LocalPort(t, s, r.ports[j]);
        assert i == n;
      }
    }
  }

  lemma NoneLocal(t: Tables, s: Setup, r: Router)
    requires forall j :: 0 <= j < |r.ports| ==> !LocalPort(t, s, r.ports[j])
    ensures forall q :: !Matched(t, s, r, q)
  {
    hide LocalPort;
  }

  method MatchedPort(t: Tables, s: Setup, r: Router, uuids: set<string>, ghost byName: map<string, RouterPort>, byUUID: map<string, RouterPort>)
    returns (p: Option<RouterPort>)
    requires UniqueRows(t) && IndexesPorts(byName, byUUID, t.ports) && forall u :: u in uuids <==> LocalPort(t, s, u)
    ensures forall q :: Matched(t, s, r, q) <==> p == Some(q)
  {
    hide LocalPort, Matched, UniqueRows, IndexesPorts;
    for n := 0 to |r.ports|
      invariant forall j :: 0 <= j < n ==> !LocalPort(t, s, r.ports[j])
    {
      if r.ports[n] in uuids {
        FirstLocal(t, s, r, n, byName, byUUID);
        return Some(byUUID[r.ports[n]]);
      }
    }
    NoneLocal(t, s, r);
    return None;
  }

  /** What the NAT index holds after some routers. */
  ghost predicate NATIndex(t: Tables, s: Setup, routers: seq<Router>, macs: map<string, string>) {
    && (forall u :: u in macs ==> macs[u] != "" && exists r, p :: r in routers && u in r.nats && Matched(t, s, r, p) && p.mac == macs[u])
    && (forall r, p, u :: r in routers && u in r.nats && Matched(t, s, r, p) && p.mac != "" ==> u in macs)
  }

  /** The NAT row belongs to the router, whose local port is p. */
  ghost predicate PortOfRow(t: Tables, s: Setup, r: Router, p: RouterPort, u: string) {
    u in r.nats && Matched(t, s, r, p)
  }

  ghost predicate SegmentIndex(t: Tables, s: Setup, routers: seq<Router>, segments: map<string, Segment>, segs: map<string, string>) {
    && (forall u :: u in segs ==> exists r, p :: r in routers && PortOfRow(t, s, r, p, u) && p.name in segments && segs[u] == segments[p.name].localnetPort)
    && (forall r, p, u :: r in routers && PortOfRow(t, s, r, p, u) && p.name in segments ==> u in segs)
  }

  /** `m` is `m0` with the value v at every row of `rows`. */
  ghost predicate Overlaid(m0: map<string, string>, rows: seq<string>, v: string, m: map<string, string>) {
    && (forall u :: u in m <==> u in m0 || u in rows)
    && (forall u :: u in m ==> m[u] == if u in rows then v else m0[u])
  }

  method AddRouterNATs(r: Router, p: RouterPort, segment: Option<Segment>, macs0: map<string, string>, segs0: map<string, string>)
    returns (macs: map<string, string>, segs: map<string, string>)
    ensures if p.mac == "" then macs == macs0 else Overlaid(macs0, r.nats, p.mac, macs)
    ensures if segment.None? then segs == segs0 else Overlaid(segs0, r.nats, segment.value.localnetPort, segs)
  {
    macs, segs := macs0, segs0;
    for n := 0 to |r.nats|
      invariant if p.mac == "" then macs == macs0 else Overlaid(macs0, r.nats[..n], p.mac, macs)
      invariant if segment.None? then segs == segs0 else Overlaid(segs0, r.nats[..n], segment.value.localnetPort, segs)
    {
      assert forall u :: u in r.nats[..n + 1] <==> u in r.nats[..n] || u == r.nats[n];
      if p.mac != "" {
        macs := macs[r.nats[n] := p.mac];
      }
      if segment.Some? {
        segs := segs[r.nats[n] := segment.value.localnetPort];
      }
    }
    assert r.nats[..|r.nats|] == r.nats;
  }

  predicate Describes(lr: LocalRouter, local: map<string, string>, segments: map<string, Segment>) {
    && lr.port.name in local && lr.crPort == local[lr.port.name]
    && lr.segment == if lr.port.name in segments then Some(segments[lr.port.name]) else None
  }

  /** One entry per router that has a local port, in the order of the table. */
  ghost predicate LocalRouters(t: Tables, s: Setup, routers: seq<Router>, local: map<string, string>, segments: map<string, Segment>, out: seq<LocalRouter>) {
    && (forall lr :: lr in out ==> lr.router in routers && Matched(t, s, lr.router, lr.port) && Describes(lr, local, segments))
    && (forall r, p :: r in routers && Matched(t, s, r, p) ==> exists lr :: lr in out && lr.router == r && lr.port == p)
  }

  lemma MatchedIsLocal(t: Tables, s: Setup, r: Router, p: RouterPort)
    requires UniqueRows(t) && Matched(t, s, r, p)
    ensures LocalName(t, s, p.name)
  {
  }

  ghost predicate Collected(t: Tables, s: Setup, routers: seq<Router>, local: map<string, string>, segments: map<string, Segment>,
                            out: seq<LocalRouter>, macs: map<string, string>, segs: map<string, string>) {
    && LocalRouters(t, s, routers, local, segments, out)
    && NATIndex(t, s, routers, macs) && SegmentIndex(t, s, routers, segments, segs)
  }

  method CollectRouter(t: Tables, s: Setup, ghost byName: map<string, RouterPort>, byUUID: map<string, RouterPort>, uuids: set<string>,
                       local: map<string, string>, segments: map<string, Segment>, ghost done: seq<Router>, r: Router,
                       out0: seq<LocalRouter>, macs0: map<string, string>, segs0: map<string, string>)
    returns (out: seq<LocalRouter>, macs: map<string, string>, segs: map<string, string>)
    requires UniqueRows(t) && IndexesPorts(byName, byUUID, t.ports) && (forall u :: u in uuids <==> LocalPort(t, s, u))
    requires forall name :: name in local <==> LocalName(t, s, name)
    requires Collected(t, s, done, local, segments, out0, macs0, segs0)
    ensures Collected(t, s, done + [r], local, segments, out, macs, segs)
  {
    hide LocalRouters, NATIndex, SegmentIndex, Matched, UniqueRows, IndexesPorts, LocalName, LocalPort, Overlaid;
    var p := MatchedPort(t, s, r, uuids, byName, byUUID);
    out, macs, segs := out0, macs0, segs0;
    if p.None? {
      SkipRouter(t, s, done, r, local, segments, out, macs, segs);
    } else {
      MatchedIsLocal(t, s, r, p.value);
      var segment := if p.value.name in segments then Some(segments[p.value.name]) else None;
      var lr := LocalRouter(r, p.value, local[p.value.name], segment);
      out := out0 + [lr];
      macs, segs := AddRouterNATs(r, p.value, segment, macs0, segs0);
      AddRouter(t, s, done, r, p.value, local, segments, out0, lr, macs0, macs, segs0, segs);
    }
  }

  method CollectLocalRouters(t: Tables, s: Setup, ghost byName: map<string, RouterPort>, byUUID: map<string, RouterPort>,
                             uuids: set<string>, local: map<string, string>, segments: map<string, Segment>)
    returns (out: seq<LocalRouter>, macs: map<string, string>, segs: map<string, string>)
    requires UniqueRows(t) && IndexesPorts(byName, byUUID, t.ports) && (forall u :: u in uuids <==> LocalPort(t, s, u))
    requires forall name :: name in local <==> LocalName(t, s, name)
    ensures LocalRouters(t, s, t.routers, local, segments, out)
    ensures NATIndex(t, s, t.routers, macs) && SegmentIndex(t, s, t.routers, segments, segs)
  {
    out, macs, segs := [], map[], map[];
    for n := 0 to |t.routers|
      invariant Collected(t, s, t.routers[..n], local, segments, out, macs, segs)
    {
      hide Collected, UniqueRows, IndexesPorts, LocalName, LocalPort;
      assert t.routers[..n + 1] == t.routers[..n] + [t.routers[n]];
      out, macs, segs := CollectRouter(t, s, byName, byUUID, uuids, local, segments, t.routers[..n], t.routers[n], out, macs, segs);
    }
    assert t.routers[..|t.routers|] == t.routers;
    hide LocalRouters, NATIndex, SegmentIndex;
  }

  lemma SkipRouter(t: Tables, s: Setup, done: seq<Router>, r: Router, local: map<string, string>, segments: map<string, Segment>,
                   out: seq<LocalRouter>, macs: map<string, string>, segs: map<string, string>)
    requires forall p :: !Matched(t, s, r, p)
    requires LocalRouters(t, s, done, local, segments, out) && NATIndex(t, s, done, macs) && SegmentIndex(t, s, done, segments, segs)
    ensures LocalRouters(t, s, done + [r], local, segments, out) && NATIndex(t, s, done + [r], macs)
            && SegmentIndex(t, s, done + [r], segments, segs)
  {
    hide Matched;
    assert forall x :: x in done + [r] <==> x in done || x == r;
  }

  lemma AddRouter(t: Tables, s: Setup, done: seq<Router>, r: Router, p: RouterPort, local: map<string, string>, segments: map<string, Segment>,
                  out: seq<LocalRouter>, lr: LocalRouter, macs: map<string, string>, macs': map<string, string>,
                  segs: map<string, string>, segs': map<string, string>)
    requires forall q :: Matched(t, s, r, q) <==> p == q
    requires LocalRouters(t, s, done, local, segments, out) && NATIndex(t, s, done, macs) && SegmentIndex(t, s, done, segments, segs)
    requires lr.router == r && lr.port == p && Describes(lr, local, segments)
    requires if p.mac == "" then macs' == macs else Overlaid(macs, r.nats, p.mac, macs')
    requires if lr.segment.None? then segs' == segs else Overlaid(segs, r.nats, lr.segment.value.localnetPort, segs')
    ensures LocalRouters(t, s, done + [r], local, segments, out + [lr]) && NATIndex(t, s, done + [r], macs')
            && SegmentIndex(t, s, done + [r], segments, segs')
  {
    hide Matched;
    assert forall x :: x in done + [r] <==> x in done || x == r;
    assert LocalRouters(t, s, done + [r], local, segments, out + [lr]) by {
      assert forall x :: x in out + [lr] <==> x in out || x == lr;
      hide Describes;
    }
    AddToNATIndex(t, s, done, r, p, macs, macs');
    AddToSegmentIndex(t, s, done, r, p, segments, segs, segs', lr.segment);
  }

  lemma AddToNATIndex(t: Tables, s: Setup, done: seq<Router>, r: Router, p: RouterPort, macs: map<string, string>, macs': map<string, string>)
    requires (forall q :: Matched(t, s, r, q) <==> p == q) && NATIndex(t, s, done, macs)
    requires if p.mac == "" then macs' == macs else Overlaid(macs, r.nats, p.mac, macs')
    ensures NATIndex(t, s, done + [r], macs')
  {
    hide Matched;
    var all := done + [r];
    assert forall x :: x in all <==> x in done || x == r;
    forall u | u in macs'
      ensures macs'[u] != "" && exists x, q :: x in all && u in x.nats && Matched(t, s, x, q) && q.mac == macs'[u]
    {
      if p.mac != "" && u in r.nats {
        assert r in all && Matched(t, s, r, p);
      } else {
        var x, q :| x in done && u in x.nats && Matched(t, s, x, q) && q.mac == macs[u];
        assert x in all;
      }
    }
  }

  lemma AddToSegmentIndex(t: Tables, s: Setup, done: seq<Router>, r: Router, p: RouterPort, segments: map<string, Segment>,
                          segs: map<string, string>, segs': map<string, string>, segment: Option<Segment>)
    requires (forall q :: Matched(t, s, r, q) <==> p == q) && SegmentIndex(t, s, done, segments, segs)
    requires segment == if p.name in segments then Some(segments[p.name]) else None
    requires if segment.None? then segs' == segs else Overlaid(segs, r.nats, segment.value.localnetPort, segs')
    ensures SegmentIndex(t, s, done + [r], segments, segs')
  {
    hide Matched;
    var all := done + [r];
    assert forall x :: x in all <==> x in done || x == r;
    forall u | u in segs'
      ensures exists x, q :: x in all && PortOfRow(t, s, x, q, u) && q.name in segments && segs'[u] == segments[q.name].localnetPort
    {
      if segment.Some? && u in r.nats {
        assert r in all && PortOfRow(t, s, r, p, u);
      } else {
        var x, q :| x in done && PortOfRow(t, s, x, q, u) && q.name in segments && segs[u] == segments[q.name].localnetPort;
        assert x in all;
      }
    }
  }

  /** The NAT index is the ownership relation: its keys are the owned rows, its values MACs of owners. */
  lemma NATIndexIsOwnership(t: Tables, s: Setup, macs: map<string, string>)
    requires NATIndex(t, s, t.routers, macs)
    ensures forall u :: u in macs ==> OwnsNAT(t, s, u, macs[u])
    ensures forall u, mac :: OwnsNAT(t, s, u, mac) ==> u in macs
  {
    hide Matched;
  }

  method ContainedInAny(ip: string, nets: seq<string>, contains: (string, string) -> bool) returns (r: bool)
    ensures r <==> exists n :: n in nets && contains(n, ip)
  {
    for i := 0 to |nets|
      invariant forall n :: n in nets[..i] ==> !contains(n, ip)
    {
      if contains(nets[i], ip) {
        return true;
      }
    }
    return false;
  }

  class NATCollection {
    var snatIPs: seq<string>
    var ipToRouterMAC: map<string, string>
    var ipToSegment: map<string, string>
    var fipCount: nat

    constructor ()
      ensures snatIPs == [] && ipToRouterMAC == map[] && ipToSegment == map[] && fipCount == 0
    {
      snatIPs, ipToRouterMAC, ipToSegment, fipCount := [], map[], map[], 0;
    }

    method Allowed(ip: string, filters: seq<string>, s: Setup) returns (ok: bool)
      ensures ok == Passes(filters, s.contains, ip)
    {
      ok := true;
      if |filters| > 0 {
        ok := ContainedInAny(ip, filters, s.contains);
      }
    }

    /** One NAT row of an owned router. */
    method AddNAT(row: NAT, mac: string, segment: Option<string>, filters: seq<string>, s: Setup)
      modifies this
      ensures ipToRouterMAC == if Admitted(row.externalIP, filters, s) then old(ipToRouterMAC)[row.externalIP := mac] else old(ipToRouterMAC)
      ensures ipToSegment == if Admitted(row.externalIP, filters, s) && segment.Some? then old(ipToSegment)[row.externalIP := segment.value] else old(ipToSegment)
      ensures snatIPs == if Admitted(row.externalIP, filters, s) && row.typ == "snat" && s.family(row.externalIP).V4? then old(snatIPs) + [row.externalIP] else old(snatIPs)
    {
      var ip := row.externalIP;
      if s.family(ip).NotIP? {
        return;
      }
      var allowed := Allowed(ip, filters, s);
      if !allowed {
        return;
      }
      ipToRouterMAC := ipToRouterMAC[ip := mac];
      if segment.Some? {
        ipToSegment := ipToSegment[ip := segment.value];
      }
      if row.typ == "dnat_and_snat" {
        fipCount := fipCount + 1;
      } else if row.typ == "snat" && s.family(ip).V4? {
        snatIPs := snatIPs + [ip];
      }
    }

    /** Step 5: the external addresses of owned NAT rows, each with the MAC and the segment the indexes have for such a row. */
    method AddNBNATs(nats: seq<NAT>, macs: map<string, string>, segs: map<string, string>, filters: seq<string>, s: Setup)
      requires ipToRouterMAC == map[] && ipToSegment == map[] && snatIPs == []
      modifies this
      ensures NATState(nats, macs, segs, filters, s, ipToRouterMAC, ipToSegment, snatIPs)
    {
      for n := 0 to |nats|
        invariant NATState(nats[..n], macs, segs, filters, s, ipToRouterMAC, ipToSegment, snatIPs)
      {
        hide NATState, Admitted;
        var row := nats[n];
        assert nats[..n + 1] == nats[..n] + [row];
        ghost var m, g, sn := ipToRouterMAC, ipToSegment, snatIPs;
        if row.uuid in macs {
          AddNAT(row, macs[row.uuid], if row.uuid in segs then Some(segs[row.uuid]) else None, filters, s);
        }
        NATStep(nats[..n], row, macs, segs, filters, s, m, g, sn, ipToRouterMAC, ipToSegment, snatIPs);
      }
      assert nats[..|nats|] == nats;
    }

    /** One address of a gateway patch port. */
    method AddPatchAddress(ip: string, routerMAC: string, segment: Option<Segment>, filters: seq<string>, s: Setup)
      modifies this
      ensures ipToRouterMAC == if Passes(filters, s.contains, ip) && routerMAC != "" then old(ipToRouterMAC)[ip := routerMAC] else old(ipToRouterMAC)
      ensures ipToSegment == if Passes(filters, s.contains, ip) && segment.Some? then old(ipToSegment)[ip := segment.value.localnetPort] else old(ipToSegment)
      ensures snatIPs == if Passes(filters, s.contains, ip) && s.family(ip).V4? then old(snatIPs) + [ip] else old(snatIPs)
    {
      var allowed := Allowed(ip, filters, s);
      if !allowed {
        return;
      }
      if s.family(ip).V4? {
        snatIPs := snatIPs + [ip];
      }
      if routerMAC != "" {
        ipToRouterMAC := ipToRouterMAC[ip := routerMAC];
      }
      if segment.Some? {
        ipToSegment := ipToSegment[ip := segment.value.localnetPort];
      }
    }

    method AddPatchAddresses(ips: seq<string>, routerMAC: string, segment: Option<Segment>, filters: seq<string>, s: Setup,
                             ghost m0: map<string, string>, ghost g0: map<string, string>, ghost s0: seq<string>, ghost seen: set<string>)
      requires PatchState(m0, g0, s0, seen, routerMAC, segment, filters, s, ipToRouterMAC, ipToSegment, snatIPs)
      modifies this
      ensures PatchState(m0, g0, s0, seen + Elems(ips), routerMAC, segment, filters, s, ipToRouterMAC, ipToSegment, snatIPs)
    {
      hide PatchState, Passes;
      ghost var now := seen;
      assert now == seen + Elems(ips[..0]);
      for j := 0 to |ips|
        invariant now == seen + Elems(ips[..j])
        invariant PatchState(m0, g0, s0, now, routerMAC, segment, filters, s, ipToRouterMAC, ipToSegment, snatIPs)
      {
        ghost var m1, g1, s1 := ipToRouterMAC, ipToSegment, snatIPs;
        assert Elems(ips[..j + 1]) == Elems(ips[..j]) + {ips[j]} by { assert ips[..j + 1] == ips[..j] + [ips[j]]; }
        AddPatchAddress(ips[j], routerMAC, segment, filters, s);
        PatchStep(m0, g0, s0, now, routerMAC, segment, filters, s, m1, g1, s1, ipToRouterMAC, ipToSegment, snatIPs, ips[j]);
        now := now + {ips[j]};
      }
      assert ips[..|ips|] == ips;
    }

    method AddPatchPort(pb: PortBinding, routerMAC: string, segment: Option<Segment>, filters: seq<string>, s: Setup)
      modifies this
      ensures Carries(pb, NonEmpty(routerMAC), filters, s, old(ipToRouterMAC), ipToRouterMAC)
      ensures Carries(pb, PortName(segment), filters, s, old(ipToSegment), ipToSegment)
      ensures forall ip :: ip in snatIPs <==> ip in old(snatIPs) || (s.family(ip).V4? && Carried(pb, filters, s, ip))
    {
      hide PatchState, SeenIn, Passes, NatAddressIPs, Carries, Carried, NonEmpty, PortName;
      ghost var m0, g0, s0 := ipToRouterMAC, ipToSegment, snatIPs;
      ghost var seen: set<string> := {};
      PatchStart(m0, g0, s0, routerMAC, segment, filters, s);
      for i := 0 to |pb.natAddresses|
        invariant SeenIn(seen, pb.natAddresses[..i], s)
        invariant PatchState(m0, g0, s0, seen, routerMAC, segment, filters, s, ipToRouterMAC, ipToSegment, snatIPs)
      {
        var ips := NatAddressIPs(pb.natAddresses[i], s.family);
        ghost var before := seen;
        AddPatchAddresses(ips, routerMAC, segment, filters, s, m0, g0, s0, seen);
        seen := seen + Elems(ips);
        SeenStep(before, pb.natAddresses[..i], pb.natAddresses[i], s);
        assert pb.natAddresses[..i + 1] == pb.natAddresses[..i] + [pb.natAddresses[i]];
      }
      assert pb.natAddresses[..|pb.natAddresses|] == pb.natAddresses;
      PatchDone(m0, g0, s0, seen, pb, routerMAC, segment, filters, s, ipToRouterMAC, ipToSegment, snatIPs);
    }

    /** Step 5b: the addresses of the gateway patch ports of local router ports. */
    method AddSBGatewayNATAddresses(bindings: seq<PortBinding>, local: map<string, string>, byName: map<string, RouterPort>,
                                    segments: map<string, Segment>, filters: seq<string>, s: Setup)
      modifies this
      ensures BindingState(bindings, local, byName, segments, filters, s, old(ipToRouterMAC), old(ipToSegment), old(snatIPs),
                           ipToRouterMAC, ipToSegment, snatIPs)
    {
      hide BindingState, Carries, Carried;
      ghost var m0, g0, s0 := ipToRouterMAC, ipToSegment, snatIPs;
      BindingStart(local, byName, segments, filters, s, m0, g0, s0);
      for n := 0 to |bindings|
        invariant BindingState(bindings[..n], local, byName, segments, filters, s, m0, g0, s0, ipToRouterMAC, ipToSegment, snatIPs)
      {
        var pb := bindings[n];
        var peer := Opt(pb.options, "peer");
        assert bindings[..n + 1] == bindings[..n] + [pb];
        ghost var m1, g1, s1 := ipToRouterMAC, ipToSegment, snatIPs;
        if pb.typ == "patch" && peer != "" && peer in local && Opt(pb.externalIDs, "neutron:device_owner") == "network:router_gateway" {
          AddPatchPort(pb, MACOf(byName, peer), if peer in segments then Some(segments[peer]) else None, filters, s);
        }
        BindingStep(bindings[..n], pb, local, byName, segments, filters, s, m0, g0, s0, m1, g1, s1, ipToRouterMAC, ipToSegment, snatIPs);
      }
      assert bindings[..|bindings|] == bindings;
    }
  }

  /** A map read of a missing row has no MAC. */
  function MACOf(byName: map<string, RouterPort>, name: string): string {
    if name in byName then byName[name].mac else ""
  }

  function NonEmpty(mac: string): Option<string> {
    if mac == "" then None else Some(mac)
  }

  function PortName(segment: Option<Segment>): Option<string> {
    if segment.None? then None else Some(segment.value.localnetPort)
  }

  // NAT rows

  predicate Admitted(ip: string, filters: seq<string>, s: Setup) {
    !s.family(ip).NotIP? && Passes(filters, s.contains, ip)
  }

  ghost predicate FromNAT(nats: seq<NAT>, macs: map<string, string>, filters: seq<string>, s: Setup, ip: string, mac: string) {
    Admitted(ip, filters, s) && exists n :: n in nats && n.externalIP == ip && n.uuid in macs && macs[n.uuid] == mac
  }

  ghost predicate SegmentFromNAT(nats: seq<NAT>, macs: map<string, string>, segs: map<string, string>, filters: seq<string>, s: Setup, ip: string, seg: string) {
    Admitted(ip, filters, s) && exists n :: n in nats && n.externalIP == ip && n.uuid in macs && n.uuid in segs && segs[n.uuid] == seg
  }

  ghost predicate SNATRow(nats: seq<NAT>, macs: map<string, string>, filters: seq<string>, s: Setup, ip: string) {
    Admitted(ip, filters, s) && s.family(ip).V4? && exists n :: n in nats && n.externalIP == ip && n.uuid in macs && n.typ == "snat"
  }

  /** What the NAT rows contribute, and nothing else. */
  ghost predicate NATState(nats: seq<NAT>, macs: map<string, string>, segs: map<string, string>, filters: seq<string>, s: Setup,
                           m: map<string, string>, g: map<string, string>, snat: seq<string>) {
    && (forall ip :: ip in m ==> FromNAT(nats, macs, filters, s, ip, m[ip]))
    && (forall ip, mac :: FromNAT(nats, macs, filters, s, ip, mac) ==> ip in m)
    && (forall ip :: ip in g ==> SegmentFromNAT(nats, macs, segs, filters, s, ip, g[ip]))
    && (forall ip, seg :: SegmentFromNAT(nats, macs, segs, filters, s, ip, seg) ==> ip in g)
    && (forall ip :: ip in snat <==> SNATRow(nats, macs, filters, s, ip))
  }

  lemma NATSnoc(nats: seq<NAT>, row: NAT, macs: map<string, string>, segs: map<string, string>, filters: seq<string>, s: Setup)
    ensures forall ip, mac :: FromNAT(nats + [row], macs, filters, s, ip, mac) <==>
              FromNAT(nats, macs, filters, s, ip, mac)
              || (Admitted(ip, filters, s) && row.externalIP == ip && row.uuid in macs && macs[row.uuid] == mac)
    ensures forall ip, seg :: SegmentFromNAT(nats + [row], macs, segs, filters, s, ip, seg) <==>
              SegmentFromNAT(nats, macs, segs, filters, s, ip, seg)
              || (Admitted(ip, filters, s) && row.externalIP == ip && row.uuid in macs && row.uuid in segs && segs[row.uuid] == seg)
    ensures forall ip :: SNATRow(nats + [row], macs, filters, s, ip) <==>
              SNATRow(nats, macs, filters, s, ip)
              || (Admitted(ip, filters, s) && s.family(ip).V4? && row.externalIP == ip && row.uuid in macs && row.typ == "snat")
  {
    hide Admitted;
    assert forall x :: x in nats + [row] <==> x in nats || x == row;
  }

  lemma NATStep(nats: seq<NAT>, row: NAT, macs: map<string, string>, segs: map<string, string>, filters: seq<string>, s: Setup,
                m: map<string, string>, g: map<string, string>, snat: seq<string>,
                m': map<string, string>, g': map<string, string>, snat': seq<string>)
    requires NATState(nats, macs, segs, filters, s, m, g, snat)
    requires var ip, on := row.externalIP, row.uuid in macs && Admitted(row.externalIP, filters, s);
      && m' == (if on then m[ip := macs[row.uuid]] else m)
      && g' == (if on && row.uuid in segs then g[ip := segs[row.uuid]] else g)
      && snat' == (if on && row.typ == "snat" && s.family(ip).V4? then snat + [ip] else snat)
    ensures NATState(nats + [row], macs, segs, filters, s, m', g', snat')
  {
    NATSnoc(nats, row, macs, segs, filters, s);
    hide FromNAT, SegmentFromNAT, SNATRow, Admitted;
  }

  // Gateway patch ports

  ghost predicate Carried(pb: PortBinding, filters: seq<string>, s: Setup, ip: string) {
    Passes(filters, s.contains, ip) && exists a :: a in pb.natAddresses && ip in NatAddressIPs(a, s.family)
  }

  /** `m` is `m0` with the value, if there is one, at every address the port carries. */
  ghost predicate Carries(pb: PortBinding, value: Option<string>, filters: seq<string>, s: Setup, m0: map<string, string>, m: map<string, string>) {
    && (forall ip :: ip in m <==> ip in m0 || (value.Some? && Carried(pb, filters, s, ip)))
    && (forall ip :: ip in m ==> (ip in m0 && m[ip] == m0[ip]) || (value.Some? && Carried(pb, filters, s, ip) && m[ip] == value.value))
  }

  ghost predicate MapState(m0: map<string, string>, seen: set<string>, value: Option<string>, filters: seq<string>, s: Setup, m: map<string, string>) {
    && (forall ip :: ip in m <==> ip in m0 || (value.Some? && ip in seen && Passes(filters, s.contains, ip)))
    && (forall ip :: ip in m ==> (ip in m0 && m[ip] == m0[ip]) || (value.Some? && ip in seen && Passes(filters, s.contains, ip) && m[ip] == value.value))
  }

  ghost predicate PatchState(m0: map<string, string>, g0: map<string, string>, s0: seq<string>, seen: set<string>, mac: string,
                             segment: Option<Segment>, filters: seq<string>, s: Setup,
                             m: map<string, string>, g: map<string, string>, snat: seq<string>) {
    && MapState(m0, seen, NonEmpty(mac), filters, s, m) && MapState(g0, seen, PortName(segment), filters, s, g)
    && (forall ip :: ip in snat <==> ip in s0 || (s.family(ip).V4? && ip in seen && Passes(filters, s.contains, ip)))
  }

  /** Exactly the addresses these entries hold. */
  ghost predicate SeenIn(seen: set<string>, addrs: seq<string>, s: Setup) {
    forall ip :: ip in seen <==> exists a :: a in addrs && ip in NatAddressIPs(a, s.family)
  }

  lemma SeenStep(seen: set<string>, addrs: seq<string>, a: string, s: Setup)
    requires SeenIn(seen, addrs, s)
    ensures SeenIn(seen + Elems(NatAddressIPs(a, s.family)), addrs + [a], s)
  {
    hide NatAddressIPs;
    assert forall x :: x in addrs + [a] <==> x in addrs || x == a;
  }

  lemma PatchStart(m0: map<string, string>, g0: map<string, string>, s0: seq<string>, mac: string, segment: Option<Segment>,
                   filters: seq<string>, s: Setup)
    ensures PatchState(m0, g0, s0, {}, mac, segment, filters, s, m0, g0, s0) && SeenIn({}, [], s)
  {
  }

  lemma PatchDone(m0: map<string, string>, g0: map<string, string>, s0: seq<string>, seen: set<string>, pb: PortBinding, mac: string,
                  segment: Option<Segment>, filters: seq<string>, s: Setup, m: map<string, string>, g: map<string, string>, snat: seq<string>)
    requires SeenIn(seen, pb.natAddresses, s) && PatchState(m0, g0, s0, seen, mac, segment, filters, s, m, g, snat)
    ensures Carries(pb, NonEmpty(mac), filters, s, m0, m) && Carries(pb, PortName(segment), filters, s, g0, g)
    ensures forall ip :: ip in snat <==> ip in s0 || (s.family(ip).V4? && Carried(pb, filters, s, ip))
  {
    hide Passes, NatAddressIPs;
    assert forall ip :: ip in seen && Passes(filters, s.contains, ip) <==> Carried(pb, filters, s, ip);
  }

  lemma MapStep(m0: map<string, string>, seen: set<string>, value: Option<string>, filters: seq<string>, s: Setup,
                m1: map<string, string>, m2: map<string, string>, ip: string)
    requires MapState(m0, seen, value, filters, s, m1)
    requires m2 == if Passes(filters, s.contains, ip) && value.Some? then m1[ip := value.value] else m1
    ensures MapState(m0, seen + {ip}, value, filters, s, m2)
  {
    hide Passes;
  }

  lemma PatchStep(m0: map<string, string>, g0: map<string, string>, s0: seq<string>, seen: set<string>, mac: string, segment: Option<Segment>,
                  filters: seq<string>, s: Setup, m1: map<string, string>, g1: map<string, string>, s1: seq<string>,
                  m2: map<string, string>, g2: map<string, string>, s2: seq<string>, ip: string)
    requires PatchState(m0, g0, s0, seen, mac, segment, filters, s, m1, g1, s1)
    requires m2 == if Passes(filters, s.contains, ip) && mac != "" then m1[ip := mac] else m1
    requires g2 == if Passes(filters, s.contains, ip) && segment.Some? then g1[ip := segment.value.localnetPort] else g1
    requires s2 == if Passes(filters, s.contains, ip) && s.family(ip).V4? then s1 + [ip] else s1
    ensures PatchState(m0, g0, s0, seen + {ip}, mac, segment, filters, s, m2, g2, s2)
  {
    MapStep(m0, seen, NonEmpty(mac), filters, s, m1, m2, ip);
    MapStep(g0, seen, PortName(segment), filters, s, g1, g2, ip);
    hide Passes, MapState;
  }

  /** A gateway patch port of a local router port. */
  predicate LocalPatch(pb: PortBinding, local: map<string, string>) {
    GatewayPatch(pb, Opt(pb.options, "peer")) && Opt(pb.options, "peer") in local
  }

  /** The segment of the peer, if it is resolved. */
  function PeerSegment(pb: PortBinding, segments: map<string, Segment>): Option<string> {
    var peer := Opt(pb.options, "peer");
    if peer in segments then Some(segments[peer].localnetPort) else None
  }

  ghost predicate FromPatch(bindings: seq<PortBinding>, local: map<string, string>, byName: map<string, RouterPort>,
                            filters: seq<string>, s: Setup, ip: string, mac: string) {
    exists pb :: pb in bindings && LocalPatch(pb, local) && NonEmpty(MACOf(byName, Opt(pb.options, "peer"))) == Some(mac) && Carried(pb, filters, s, ip)
  }

  ghost predicate SegmentFromPatch(bindings: seq<PortBinding>, local: map<string, string>, segments: map<string, Segment>,
                                   filters: seq<string>, s: Setup, ip: string, seg: string) {
    exists pb :: pb in bindings && LocalPatch(pb, local) && PeerSegment(pb, segments) == Some(seg) && Carried(pb, filters, s, ip)
  }

  ghost predicate SomePatch(bindings: seq<PortBinding>, local: map<string, string>, filters: seq<string>, s: Setup, ip: string) {
    exists pb :: pb in bindings && LocalPatch(pb, local) && Carried(pb, filters, s, ip)
  }

  /** What the gateway patch ports add to what was there, and nothing else. */
  ghost predicate BindingState(bindings: seq<PortBinding>, local: map<string, string>, byName: map<string, RouterPort>, segments: map<string, Segment>,
                               filters: seq<string>, s: Setup, m0: map<string, string>, g0: map<string, string>, s0: seq<string>,
                               m: map<string, string>, g: map<string, string>, snat: seq<string>) {
    && (forall ip :: ip in m0 ==> ip in m) && (forall ip :: ip in g0 ==> ip in g)
    && (forall ip :: ip in m ==> (ip in m0 && m[ip] == m0[ip]) || FromPatch(bindings, local, byName, filters, s, ip, m[ip]))
    && (forall ip, mac :: FromPatch(bindings, local, byName, filters, s, ip, mac) ==> ip in m)
    && (forall ip :: ip in g ==> (ip in g0 && g[ip] == g0[ip]) || SegmentFromPatch(bindings, local, segments, filters, s, ip, g[ip]))
    && (forall ip, seg :: SegmentFromPatch(bindings, local, segments, filters, s, ip, seg) ==> ip in g)
    && (forall ip :: ip in snat <==> ip in s0 || (s.family(ip).V4? && SomePatch(bindings, local, filters, s, ip)))
  }

  lemma BindingStart(local: map<string, string>, byName: map<string, RouterPort>, segments: map<string, Segment>,
                     filters: seq<string>, s: Setup, m0: map<string, string>, g0: map<string, string>, s0: seq<string>)
    ensures BindingState([], local, byName, segments, filters, s, m0, g0, s0, m0, g0, s0)
  {
  }

  lemma PatchSnoc(bindings: seq<PortBinding>, pb: PortBinding, local: map<string, string>, byName: map<string, RouterPort>,
                  segments: map<string, Segment>, filters: seq<string>, s: Setup)
    ensures forall ip, mac :: FromPatch(bindings + [pb], local, byName, filters, s, ip, mac) <==>
              FromPatch(bindings, local, byName, filters, s, ip, mac)
              || (LocalPatch(pb, local) && NonEmpty(MACOf(byName, Opt(pb.options, "peer"))) == Some(mac) && Carried(pb, filters, s, ip))
    ensures forall ip, seg :: SegmentFromPatch(bindings + [pb], local, segments, filters, s, ip, seg) <==>
              SegmentFromPatch(bindings, local, segments, filters, s, ip, seg)
              || (LocalPatch(pb, local) && PeerSegment(pb, segments) == Some(seg) && Carried(pb, filters, s, ip))
    ensures forall ip :: SomePatch(bindings + [pb], local, filters, s, ip) <==>
              SomePatch(bindings, local, filters, s, ip) || (LocalPatch(pb, local) && Carried(pb, filters, s, ip))
  {
    hide Carried, LocalPatch, NonEmpty, MACOf, PeerSegment, Opt;
    assert forall x :: x in bindings + [pb] <==> x in bindings || x == pb;
  }

  lemma BindingStep(bindings: seq<PortBinding>, pb: PortBinding, local: map<string, string>, byName: map<string, RouterPort>,
                    segments: map<string, Segment>, filters: seq<string>, s: Setup,
                    m0: map<string, string>, g0: map<string, string>, s0: seq<string>,
                    m1: map<string, string>, g1: map<string, string>, s1: seq<string>,
                    m2: map<string, string>, g2: map<string, string>, s2: seq<string>)
    requires BindingState(bindings, local, byName, segments, filters, s, m0, g0, s0, m1, g1, s1)
    requires if LocalPatch(pb, local) then
               && Carries(pb, NonEmpty(MACOf(byName, Opt(pb.options, "peer"))), filters, s, m1, m2)
               && Carries(pb, PeerSegment(pb, segments), filters, s, g1, g2)
               && (forall ip :: ip in s2 <==> ip in s1 || (s.family(ip).V4? && Carried(pb, filters, s, ip)))
             else m2 == m1 && g2 == g1 && s2 == s1
    ensures BindingState(bindings + [pb], local, byName, segments, filters, s, m0, g0, s0, m2, g2, s2)
  {
    PatchSnoc(bindings, pb, local, byName, segments, filters, s);
    hide FromPatch, SegmentFromPatch, SomePatch, Carried, LocalPatch, NonEmpty, MACOf, PeerSegment, Opt;
  }

  // ---------------------------------------------------------------------------
  // The refresh
  // ---------------------------------------------------------------------------

  /** The networks of the local routers' ports. */
  ghost predicate Discovered(out: seq<LocalRouter>, s: Setup, n: string) {
    exists lr, c :: lr in out && c in lr.port.networks && s.cidr(c) == Some(n)
  }

  method DiscoverLRPNetworks(out: seq<LocalRouter>, s: Setup) returns (nets: seq<string>)
    ensures Sorted(nets) && Distinct(nets) && forall n :: n in nets <==> Discovered(out, s, n)
  {
    var found: set<string> := {};
    for i := 0 to |out|
      invariant forall n :: n in found <==> Discovered(out[..i], s, n)
    {
      var lr := out[i];
      ghost var before := found;
      for j := 0 to |lr.port.networks|
        invariant forall n :: n in found <==> n in before || exists c :: c in lr.port.networks[..j] && s.cidr(c) == Some(n)
      {
        var c := lr.port.networks[j];
        assert lr.port.networks[..j + 1] == lr.port.networks[..j] + [c];
        if s.cidr(c).Some? {
          found := found + {s.cidr(c).value};
        }
      }
      assert lr.port.networks[..|lr.port.networks|] == lr.port.networks;
      assert forall x :: x in out[..i + 1] <==> x in out[..i] || x == lr;
    }
    assert out[..|out|] == out;
    nets := SortedKeys(found);
  }

  /** Manual configuration takes precedence. */
  function EffectiveNetworkFilters(manual: seq<string>, discovered: seq<string>): seq<string> {
    if |manual| > 0 then manual else discovered
  }

  datatype OVNState = OVNState(localRouters: seq<LocalRouter>, snatIPs: seq<string>, natIPToRouterMAC: map<string, string>,
                               natIPToSegment: map<string, string>, discovered: seq<string>, allChassisNames: set<string>)

  /** The address belongs to a local port with this MAC. */
  ghost predicate Owner(t: Tables, s: Setup, filters: seq<string>, ip: string, mac: string) {
    ByNAT(t, s, filters, ip, mac) || ByPatch(t, s, filters, ip, mac)
  }

  ghost predicate Owned(t: Tables, s: Setup, natUUID: string) {
    exists mac :: OwnsNAT(t, s, natUUID, mac)
  }

  /** A router with a local port owns the NAT row, and its port's segment is on this localnet port. */
  ghost predicate RowOnSegment(t: Tables, s: Setup, natUUID: string, localnetPort: string) {
    Owned(t, s, natUUID)
    && exists r, p, seg :: r in t.routers && PortOfRow(t, s, r, p, natUUID) && SegmentOf(t.bindings, p.name, seg) && seg.localnetPort == localnetPort
  }

  ghost predicate SegmentByNAT(t: Tables, s: Setup, filters: seq<string>, ip: string, localnetPort: string) {
    Admitted(ip, filters, s) && exists n :: n in t.nats && n.externalIP == ip && RowOnSegment(t, s, n.uuid, localnetPort)
  }

  ghost predicate SegmentByPatch(t: Tables, s: Setup, filters: seq<string>, ip: string, localnetPort: string) {
    && Passes(filters, s.contains, ip)
    && exists name, seg :: LocalName(t, s, name) && PatchCarries(t, s, name, ip) && SegmentOf(t.bindings, name, seg) && seg.localnetPort == localnetPort
  }

  /** The address is reached over this localnet port. */
  ghost predicate Reached(t: Tables, s: Setup, filters: seq<string>, ip: string, localnetPort: string) {
    SegmentByNAT(t, s, filters, ip, localnetPort) || SegmentByPatch(t, s, filters, ip, localnetPort)
  }

  /** An IPv4 address of an owned snat row, or of the gateway patch port of a local router port. */
  ghost predicate Translated(t: Tables, s: Setup, filters: seq<string>, ip: string) {
    && s.family(ip).V4? && Passes(filters, s.contains, ip)
    && ((exists n :: n in t.nats && n.externalIP == ip && n.typ == "snat" && Owned(t, s, n.uuid))
        || (exists name :: LocalName(t, s, name) && PatchCarries(t, s, name, ip)))
  }

  // What the indexes hold, in terms of the tables

  lemma FromNATIsByNAT(t: Tables, s: Setup, macs: map<string, string>, filters: seq<string>, ip: string, mac: string)
    requires NATIndex(t, s, t.routers, macs) && FromNAT(t.nats, macs, filters, s, ip, mac)
    ensures ByNAT(t, s, filters, ip, mac)
  {
    var n :| n in t.nats && n.externalIP == ip && n.uuid in macs && macs[n.uuid] == mac;
    assert OwnsNAT(t, s, n.uuid, mac) by { NATIndexIsOwnership(t, s, macs); }
    hide NATIndex, OwnsNAT, Passes;
  }

  lemma ByNATIsFromNAT(t: Tables, s: Setup, macs: map<string, string>, filters: seq<string>, ip: string, mac: string) returns (other: string)
    requires NATIndex(t, s, t.routers, macs) && ByNAT(t, s, filters, ip, mac)
    ensures FromNAT(t.nats, macs, filters, s, ip, other)
  {
    var n :| n in t.nats && n.externalIP == ip && OwnsNAT(t, s, n.uuid, mac);
    assert n.uuid in macs by { NATIndexIsOwnership(t, s, macs); }
    hide NATIndex, OwnsNAT, Passes;
    other := macs[n.uuid];
  }

  lemma IndexedIffOwned(t: Tables, s: Setup, macs: map<string, string>, u: string)
    requires NATIndex(t, s, t.routers, macs)
    ensures u in macs <==> Owned(t, s, u)
  {
    NATIndexIsOwnership(t, s, macs);
    hide NATIndex, OwnsNAT;
    if u in macs {
      assert OwnsNAT(t, s, u, macs[u]);
    }
  }

  lemma SNATRowMeans(t: Tables, s: Setup, macs: map<string, string>, filters: seq<string>, ip: string)
    requires NATIndex(t, s, t.routers, macs)
    ensures SNATRow(t.nats, macs, filters, s, ip) <==>
              Admitted(ip, filters, s) && s.family(ip).V4? && exists n :: n in t.nats && n.externalIP == ip && n.typ == "snat" && Owned(t, s, n.uuid)
  {
    hide NATIndex, Owned, Admitted;
    forall n | n in t.nats ensures n.uuid in macs <==> Owned(t, s, n.uuid) {
      IndexedIffOwned(t, s, macs, n.uuid);
    }
  }

  lemma RowPortIsLocal(t: Tables, s: Setup, r: Router, p: RouterPort, u: string)
    requires UniqueRows(t) && PortOfRow(t, s, r, p, u)
    ensures LocalName(t, s, p.name)
  {
    MatchedIsLocal(t, s, r, p);
  }

  /** The segment index of the NAT rows, on owned rows, holds only what the tables relate. */
  lemma IndexedFrom(t: Tables, s: Setup, segments: map<string, Segment>, segs: map<string, string>, u: string)
    returns (r: Router, p: RouterPort)
    requires SegmentIndex(t, s, t.routers, segments, segs) && u in segs
    ensures r in t.routers && PortOfRow(t, s, r, p, u) && p.name in segments && segs[u] == segments[p.name].localnetPort
  {
    hide PortOfRow;
    r, p :| r in t.routers && PortOfRow(t, s, r, p, u) && p.name in segments && segs[u] == segments[p.name].localnetPort;
  }

  lemma IndexedSegmentIsRelated(t: Tables, s: Setup, local: map<string, string>, segments: map<string, Segment>,
                                macs: map<string, string>, segs: map<string, string>, u: string)
    requires NATIndex(t, s, t.routers, macs) && SegmentIndex(t, s, t.routers, segments, segs)
    requires SegmentsResolved(t, local, segments) && u in macs && u in segs
    ensures RowOnSegment(t, s, u, segs[u])
  {
    IndexedIffOwned(t, s, macs, u);
    var r, p := IndexedFrom(t, s, segments, segs, u);
    hide NATIndex, SegmentIndex, Owned, SegmentOf, PortOfRow;
    assert SegmentOf(t.bindings, p.name, segments[p.name]);
  }

  lemma RowWithSegmentIsIndexed(t: Tables, s: Setup, local: map<string, string>, segments: map<string, Segment>, segs: map<string, string>,
                                r: Router, p: RouterPort, seg: Segment, u: string)
    requires SegmentIndex(t, s, t.routers, segments, segs) && SegmentsResolved(t, local, segments)
    requires r in t.routers && PortOfRow(t, s, r, p, u) && p.name in local && SegmentOf(t.bindings, p.name, seg)
    ensures u in segs
  {
    hide SegmentOf, PortOfRow;
  }

  lemma RelatedSegmentIsIndexed(t: Tables, s: Setup, local: map<string, string>, segments: map<string, Segment>,
                                macs: map<string, string>, segs: map<string, string>, u: string, localnetPort: string)
    requires UniqueRows(t) && NATIndex(t, s, t.routers, macs) && SegmentIndex(t, s, t.routers, segments, segs)
    requires (forall name :: name in local <==> LocalName(t, s, name)) && SegmentsResolved(t, local, segments)
    requires RowOnSegment(t, s, u, localnetPort)
    ensures u in macs && u in segs
  {
    hide NATIndex, Owned, SegmentOf, LocalName, PortOfRow, UniqueRows, SegmentIndex, SegmentsResolved;
    IndexedIffOwned(t, s, macs, u);
    var r, p, seg :| r in t.routers && PortOfRow(t, s, r, p, u) && SegmentOf(t.bindings, p.name, seg) && seg.localnetPort == localnetPort;
    RowPortIsLocal(t, s, r, p, u);
    RowWithSegmentIsIndexed(t, s, local, segments, segs, r, p, seg, u);
  }

  ghost predicate SegmentsResolved(t: Tables, local: map<string, string>, segments: map<string, Segment>) {
    && (forall name :: name in segments ==> name in local && SegmentOf(t.bindings, name, segments[name]))
    && (forall name, seg :: name in local && SegmentOf(t.bindings, name, seg) ==> name in segments)
  }

  lemma PatchMeans(t: Tables, s: Setup, local: map<string, string>, filters: seq<string>, pb: PortBinding, ip: string)
    requires (forall name :: name in local <==> LocalName(t, s, name)) && pb in t.bindings && LocalPatch(pb, local) && Carried(pb, filters, s, ip)
    ensures var peer := Opt(pb.options, "peer"); LocalName(t, s, peer) && PatchCarries(t, s, peer, ip) && Passes(filters, s.contains, ip)
  {
    hide LocalName, Passes, NatAddressIPs;
  }

  lemma PatchFrom(t: Tables, s: Setup, local: map<string, string>, filters: seq<string>, name: string, ip: string) returns (pb: PortBinding)
    requires (forall n :: n in local <==> LocalName(t, s, n)) && LocalName(t, s, name) && PatchCarries(t, s, name, ip) && Passes(filters, s.contains, ip)
    ensures pb in t.bindings && LocalPatch(pb, local) && Opt(pb.options, "peer") == name && Carried(pb, filters, s, ip)
  {
    hide LocalName, Passes, NatAddressIPs;
    var a;
    pb, a :| pb in t.bindings && GatewayPatch(pb, name) && a in pb.natAddresses && ip in NatAddressIPs(a, s.family);
  }

  lemma FromPatchIsByPatch(t: Tables, s: Setup, local: map<string, string>, byName: map<string, RouterPort>, byUUID: map<string, RouterPort>,
                           filters: seq<string>, ip: string, mac: string)
    requires UniqueRows(t) && IndexesPorts(byName, byUUID, t.ports) && forall name :: name in local <==> LocalName(t, s, name)
    ensures FromPatch(t.bindings, local, byName, filters, s, ip, mac) <==> ByPatch(t, s, filters, ip, mac)
  {
    hide LocalName, Passes, NatAddressIPs, PatchCarries, LocalPatch, Carried;
    if FromPatch(t.bindings, local, byName, filters, s, ip, mac) {
      var pb :| pb in t.bindings && LocalPatch(pb, local) && NonEmpty(MACOf(byName, Opt(pb.options, "peer"))) == Some(mac) && Carried(pb, filters, s, ip);
      PatchMeans(t, s, local, filters, pb, ip);
      var p := byName[Opt(pb.options, "peer")];
      assert p in t.ports && PatchCarries(t, s, p.name, ip);
    }
    if ByPatch(t, s, filters, ip, mac) {
      var p :| p in t.ports && p.mac == mac && LocalName(t, s, p.name) && PatchCarries(t, s, p.name, ip);
      var pb := PatchFrom(t, s, local, filters, p.name, ip);
      assert byName[p.name] == p;
    }
  }

  lemma SegmentFromPatchMeans(t: Tables, s: Setup, local: map<string, string>, segments: map<string, Segment>, filters: seq<string>, ip: string)
    requires (forall name :: name in local <==> LocalName(t, s, name)) && SegmentsResolved(t, local, segments)
    ensures forall ln :: SegmentFromPatch(t.bindings, local, segments, filters, s, ip, ln) ==> SegmentByPatch(t, s, filters, ip, ln)
    ensures (exists ln :: SegmentByPatch(t, s, filters, ip, ln)) ==> exists ln :: SegmentFromPatch(t.bindings, local, segments, filters, s, ip, ln)
    ensures SomePatch(t.bindings, local, filters, s, ip) <==>
              Passes(filters, s.contains, ip) && exists name :: LocalName(t, s, name) && PatchCarries(t, s, name, ip)
  {
    hide LocalName, Passes, PatchCarries, LocalPatch, Carried, SegmentOf, Opt;
    forall ln | SegmentFromPatch(t.bindings, local, segments, filters, s, ip, ln) ensures SegmentByPatch(t, s, filters, ip, ln) {
      var pb :| pb in t.bindings && LocalPatch(pb, local) && PeerSegment(pb, segments) == Some(ln) && Carried(pb, filters, s, ip);
      PatchMeans(t, s, local, filters, pb, ip);
    }
    if ln :| SegmentByPatch(t, s, filters, ip, ln) {
      var name, seg :| LocalName(t, s, name) && PatchCarries(t, s, name, ip) && SegmentOf(t.bindings, name, seg) && seg.localnetPort == ln;
      var pb := PatchFrom(t, s, local, filters, name, ip);
      assert PeerSegment(pb, segments) == Some(segments[name].localnetPort);
      assert SegmentFromPatch(t.bindings, local, segments, filters, s, ip, segments[name].localnetPort);
    }
    if SomePatch(t.bindings, local, filters, s, ip) {
      var pb :| pb in t.bindings && LocalPatch(pb, local) && Carried(pb, filters, s, ip);
      PatchMeans(t, s, local, filters, pb, ip);
    }
    if Passes(filters, s.contains, ip) {
      if name :| LocalName(t, s, name) && PatchCarries(t, s, name, ip) {
        var pb := PatchFrom(t, s, local, filters, name, ip);
      }
    }
  }

  /** The join: the keys are exactly the owned addresses, and each value is the MAC of an owning port. */
  method RefreshState(t: Tables, s: Setup) returns (state: OVNState)
    requires UniqueRows(t) && ShortHostname(s.localName) != ""
    ensures var filters := EffectiveNetworkFilters(s.manual, state.discovered);
      && (forall ip :: ip in state.natIPToRouterMAC ==> Owner(t, s, filters, ip, state.natIPToRouterMAC[ip]))
      && (forall ip, mac :: Owner(t, s, filters, ip, mac) ==> ip in state.natIPToRouterMAC)
    ensures var filters := EffectiveNetworkFilters(s.manual, state.discovered);
      && (forall ip :: ip in state.natIPToSegment ==> Reached(t, s, filters, ip, state.natIPToSegment[ip]))
      && (forall ip, localnetPort :: Reached(t, s, filters, ip, localnetPort) ==> ip in state.natIPToSegment)
      && (forall ip :: ip in state.snatIPs <==> Translated(t, s, filters, ip))
    ensures forall r, p :: r in t.routers ==> (Matched(t, s, r, p) <==> exists lr :: lr in state.localRouters && lr.router == r && lr.port == p)
    ensures forall lr :: lr in state.localRouters ==> lr.router in t.routers && (lr.segment.Some? ==> SegmentOf(t.bindings, lr.port.name, lr.segment.value))
    ensures forall n :: n in state.discovered <==> Discovered(state.localRouters, s, n)
    ensures forall n :: n in state.allChassisNames <==> exists c :: c in t.chassis && ShortHostname(c.hostname) == n
  {
    hide IndexesChassis, IndexesPorts, NATIndex, SegmentIndex, LocalPorts, Matched, LocalName, LocalPort, UniqueRows, Discovered, SegmentOf, ShortHostname;
    hide NATState, BindingState, Owner, Reached, Translated, LocalRouters;
    var hostnameByRef, allNames := ChassisIndex(t.chassis);
    var local := LocalCRPorts(t, hostnameByRef, s);
    var segments := SegmentsByLRP(t.bindings, local);
    var byName, byUUID := IndexLRPs(t.ports);
    var uuids := LocalLRPUUIDSet(t, s, local, byName, byUUID);
    var routers, macs, segs := CollectLocalRouters(t, s, byName, byUUID, uuids, local, segments);
    var nets := DiscoverLRPNetworks(routers, s);
    var filters := EffectiveNetworkFilters(s.manual, nets);
    var nc := new NATCollection();
    nc.AddNBNATs(t.nats, macs, segs, filters, s);
    ghost var m1, g1, s1 := nc.ipToRouterMAC, nc.ipToSegment, nc.snatIPs;
    nc.AddSBGatewayNATAddresses(t.bindings, local, byName, segments, filters, s);
    state := OVNState(routers, nc.snatIPs, nc.ipToRouterMAC, nc.ipToSegment, nets, allNames);
    assert Indexed(t, s, local, byName, byUUID, segments, macs, segs);
    MACsMean(t, s, local, byName, byUUID, segments, macs, segs, filters, m1, g1, s1, nc.ipToRouterMAC, nc.ipToSegment, nc.snatIPs);
    SegmentsMean(t, s, local, byName, byUUID, segments, macs, segs, filters, m1, g1, s1, nc.ipToRouterMAC, nc.ipToSegment, nc.snatIPs);
    SNATMeans(t, s, local, byName, byUUID, segments, macs, segs, filters, m1, g1, s1, nc.ipToRouterMAC, nc.ipToSegment, nc.snatIPs);
    RoutersMean(t, s, local, segments, routers);
  }

  lemma RoutersMean(t: Tables, s: Setup, local: map<string, string>, segments: map<string, Segment>, out: seq<LocalRouter>)
    requires LocalRouters(t, s, t.routers, local, segments, out)
    ensures forall r, p :: r in t.routers ==> (Matched(t, s, r, p) <==> exists lr :: lr in out && lr.router == r && lr.port == p)
    ensures forall lr :: lr in out ==> lr.router in t.routers && (lr.segment.Some? ==> lr.port.name in segments && lr.segment.value == segments[lr.port.name])
  {
    hide Matched;
  }

  /** Every index, against the tables. */
  ghost predicate Indexed(t: Tables, s: Setup, local: map<string, string>, byName: map<string, RouterPort>, byUUID: map<string, RouterPort>,
                          segments: map<string, Segment>, macs: map<string, string>, segs: map<string, string>) {
    && UniqueRows(t) && IndexesPorts(byName, byUUID, t.ports) && (forall name :: name in local <==> LocalName(t, s, name))
    && SegmentsResolved(t, local, segments) && NATIndex(t, s, t.routers, macs) && SegmentIndex(t, s, t.routers, segments, segs)
  }

  lemma MACsMean(t: Tables, s: Setup, local: map<string, string>, byName: map<string, RouterPort>, byUUID: map<string, RouterPort>,
                 segments: map<string, Segment>, macs: map<string, string>, segs: map<string, string>, filters: seq<string>,
                 m1: map<string, string>, g1: map<string, string>, s1: seq<string>, m: map<string, string>, g: map<string, string>, snat: seq<string>)
    requires Indexed(t, s, local, byName, byUUID, segments, macs, segs)
    requires NATState(t.nats, macs, segs, filters, s, m1, g1, s1)
    requires BindingState(t.bindings, local, byName, segments, filters, s, m1, g1, s1, m, g, snat)
    ensures forall ip :: ip in m ==> Owner(t, s, filters, ip, m[ip])
    ensures forall ip, mac :: Owner(t, s, filters, ip, mac) ==> ip in m
  {
    hide UniqueRows, IndexesPorts, NATIndex, SegmentIndex, SegmentsResolved, LocalName, FromNAT, FromPatch, ByNAT, ByPatch;
    hide SegmentFromNAT, SegmentFromPatch, SNATRow, SomePatch;
    forall ip | ip in m ensures Owner(t, s, filters, ip, m[ip]) {
      if FromNAT(t.nats, macs, filters, s, ip, m[ip]) {
        FromNATIsByNAT(t, s, macs, filters, ip, m[ip]);
      }
      FromPatchIsByPatch(t, s, local, byName, byUUID, filters, ip, m[ip]);
    }
    forall ip, mac | Owner(t, s, filters, ip, mac) ensures ip in m {
      if ByNAT(t, s, filters, ip, mac) {
        var other := ByNATIsFromNAT(t, s, macs, filters, ip, mac);
      }
      FromPatchIsByPatch(t, s, local, byName, byUUID, filters, ip, mac);
    }
  }

  lemma SegmentsMean(t: Tables, s: Setup, local: map<string, string>, byName: map<string, RouterPort>, byUUID: map<string, RouterPort>,
                     segments: map<string, Segment>, macs: map<string, string>, segs: map<string, string>, filters: seq<string>,
                     m1: map<string, string>, g1: map<string, string>, s1: seq<string>, m: map<string, string>, g: map<string, string>, snat: seq<string>)
    requires Indexed(t, s, local, byName, byUUID, segments, macs, segs)
    requires NATState(t.nats, macs, segs, filters, s, m1, g1, s1)
    requires BindingState(t.bindings, local, byName, segments, filters, s, m1, g1, s1, m, g, snat)
    ensures forall ip :: ip in g ==> Reached(t, s, filters, ip, g[ip])
    ensures forall ip, ln :: Reached(t, s, filters, ip, ln) ==> ip in g
  {
    hide UniqueRows, IndexesPorts, NATIndex, SegmentIndex, SegmentsResolved, LocalName, FromNAT, FromPatch, SegmentByNAT, SegmentByPatch;
    hide SegmentFromNAT, SegmentFromPatch, SNATRow, SomePatch;
    forall ip | ip in g ensures Reached(t, s, filters, ip, g[ip]) {
      SegmentFromNATMeans(t, s, local, segments, macs, segs, filters, ip);
      SegmentFromPatchMeans(t, s, local, segments, filters, ip);
    }
    forall ip, ln | Reached(t, s, filters, ip, ln) ensures ip in g {
      SegmentFromNATMeans(t, s, local, segments, macs, segs, filters, ip);
      SegmentFromPatchMeans(t, s, local, segments, filters, ip);
    }
  }

  lemma SegmentFromNATMeans(t: Tables, s: Setup, local: map<string, string>, segments: map<string, Segment>, macs: map<string, string>,
                            segs: map<string, string>, filters: seq<string>, ip: string)
    requires UniqueRows(t) && NATIndex(t, s, t.routers, macs) && SegmentIndex(t, s, t.routers, segments, segs)
    requires (forall name :: name in local <==> LocalName(t, s, name)) && SegmentsResolved(t, local, segments)
    ensures forall ln :: SegmentFromNAT(t.nats, macs, segs, filters, s, ip, ln) ==> SegmentByNAT(t, s, filters, ip, ln)
    ensures (exists ln :: SegmentByNAT(t, s, filters, ip, ln)) ==> exists ln :: SegmentFromNAT(t.nats, macs, segs, filters, s, ip, ln)
  {
    hide UniqueRows, NATIndex, SegmentIndex, SegmentsResolved, LocalName, RowOnSegment, Admitted;
    forall ln | SegmentFromNAT(t.nats, macs, segs, filters, s, ip, ln) ensures SegmentByNAT(t, s, filters, ip, ln) {
      var n :| n in t.nats && n.externalIP == ip && n.uuid in macs && n.uuid in segs && segs[n.uuid] == ln;
      IndexedSegmentIsRelated(t, s, local, segments, macs, segs, n.uuid);
    }
    if ln :| SegmentByNAT(t, s, filters, ip, ln) {
      var n :| n in t.nats && n.externalIP == ip && RowOnSegment(t, s, n.uuid, ln);
      RelatedSegmentIsIndexed(t, s, local, segments, macs, segs, n.uuid, ln);
      assert SegmentFromNAT(t.nats, macs, segs, filters, s, ip, segs[n.uuid]);
    }
  }

  lemma SNATMeans(t: Tables, s: Setup, local: map<string, string>, byName: map<string, RouterPort>, byUUID: map<string, RouterPort>,
                  segments: map<string, Segment>, macs: map<string, string>, segs: map<string, string>, filters: seq<string>,
                  m1: map<string, string>, g1: map<string, string>, s1: seq<string>, m: map<string, string>, g: map<string, string>, snat: seq<string>)
    requires Indexed(t, s, local, byName, byUUID, segments, macs, segs)
    requires NATState(t.nats, macs, segs, filters, s, m1, g1, s1)
    requires BindingState(t.bindings, local, byName, segments, filters, s, m1, g1, s1, m, g, snat)
    ensures forall ip :: ip in snat <==> Translated(t, s, filters, ip)
  {
    hide UniqueRows, IndexesPorts, NATIndex, SegmentIndex, SegmentsResolved, LocalName, FromNAT, FromPatch, SegmentFromNAT, SegmentFromPatch;
    hide SNATRow, SomePatch, Passes, PatchCarries, Owned;
    forall ip ensures ip in snat <==> Translated(t, s, filters, ip) {
      SNATRowMeans(t, s, macs, filters, ip);
      SegmentFromPatchMeans(t, s, local, segments, filters, ip);
    }
  }
}
