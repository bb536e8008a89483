/**
 What one reconcile cycle derives from an OVN snapshot and the configured port forwards,
 before it touches the data plane. Address parsing is a parameter with the laws it needs.
 */
module DesiredState {
  import opened Common
  import opened Text
  import RouteSync

  /** What net.ParseIP and To4 say of a text. */
  datatype Family = NotIP | V4 | V6

  datatype LocalnetSegment = LocalnetSegment(localnetPort: string, vlanTag: Option<int>)

  datatype DesiredSegment = DesiredSegment(localnetPort: string, vlanTag: Option<int>)

  datatype HairpinTarget = HairpinTarget(routerMAC: string, segment: string)

  datatype Router = Router(mac: string, networks: seq<string>, segment: Option<LocalnetSegment>) {
    function SegmentName(): string {
      if segment.None? then "" else segment.value.localnetPort
    }

    function Target(): HairpinTarget {
      HairpinTarget(mac, SegmentName())
    }

    /** The router has a gateway address `ip` and a MAC to deliver to. */
    ghost predicate Gateway(cidr: string -> Option<string>, ip: string) {
      mac != "" && exists n :: n in networks && cidr(n) == Some(ip)
    }
  }

  datatype State = State(natIPToRouterMAC: map<string, string>, natIPToSegment: map<string, string>, localRouters: seq<Router>)

  datatype Desired = Desired(
    hairpinTargets: map<string, HairpinTarget>,
    segments: seq<DesiredSegment>,
    segmentByName: map<string, DesiredSegment>,
    hairpinIPs: seq<string>,
    excludedNonV4: seq<string>,
    desiredIPs: seq<string>,
    frrStaticIPs: seq<string>,
    dormantVIPs: seq<string>,
    announcedVIPs: seq<string>)

  /** A text that parses as an address has no surrounding space. */
  ghost predicate ParserLaw(family: string -> Family) {
    forall s :: !family(s).NotIP? ==> s != "" && Trimmed(s)
  }

  function SegmentOf(state: State, ip: string): string {
    if ip in state.natIPToSegment then state.natIPToSegment[ip] else ""
  }

  // ---------------------------------------------------------------------------
  // Hairpin targets
  // ---------------------------------------------------------------------------

  /** The target of `ip` is the last router that has it as a gateway address, else the NAT owner. */
  ghost predicate TargetMeaning(state: State, routers: seq<Router>, cidr: string -> Option<string>, targets: map<string, HairpinTarget>, ip: string) {
    && (ip in targets <==> ip in state.natIPToRouterMAC || exists r :: r in routers && r.Gateway(cidr, ip))
    && ((forall r :: r in routers ==> !r.Gateway(cidr, ip)) && ip in state.natIPToRouterMAC ==>
          ip in targets && targets[ip] == HairpinTarget(state.natIPToRouterMAC[ip], SegmentOf(state, ip)))
    && ((exists r :: r in routers && r.Gateway(cidr, ip)) ==>
          exists i :: 0 <= i < |routers| && routers[i].Gateway(cidr, ip)
                      && ip in targets && targets[ip] == routers[i].Target()
                      && forall j :: i < j < |routers| ==> !routers[j].Gateway(cidr, ip))
  }

  method AddGatewayTargets(r: Router, cidr: string -> Option<string>, before: map<string, HairpinTarget>)
    returns (targets: map<string, HairpinTarget>)
    ensures forall ip :: ip in targets <==> ip in before || r.Gateway(cidr, ip)
    ensures forall ip :: ip in targets ==> targets[ip] == if r.Gateway(cidr, ip) then r.Target() else before[ip]
  {
    targets := before;
    for n := 0 to |r.networks|
      invariant forall ip :: ip in targets <==> ip in before || r.(networks := r.networks[..n]).Gateway(cidr, ip)
      invariant forall ip :: ip in targets ==>
        targets[ip] == if r.(networks := r.networks[..n]).Gateway(cidr, ip) then r.Target() else before[ip]
    {
      var ip := cidr(r.networks[n]);
      assert r.networks[..n + 1] == r.networks[..n] + [r.networks[n]];
      if ip.Some? && r.mac != "" {
        targets := targets[ip.value := r.Target()];
      }
    }
    assert r.networks[..|r.networks|] == r.networks;
  }

  lemma TargetStep(state: State, routers: seq<Router>, n: nat, cidr: string -> Option<string>,
                   before: map<string, HairpinTarget>, after: map<string, HairpinTarget>, ip: string)
    requires n < |routers| && TargetMeaning(state, routers[..n], cidr, before, ip)
    requires ip in after <==> ip in before || routers[n].Gateway(cidr, ip)
    requires ip in after ==> after[ip] == if routers[n].Gateway(cidr, ip) then routers[n].Target() else before[ip]
    ensures TargetMeaning(state, routers[..n + 1], cidr, after, ip)
  {
    var some, all := routers[..n], routers[..n + 1];
    assert all == some + [routers[n]];
    if routers[n].Gateway(cidr, ip) {
      assert all[n].Gateway(cidr, ip);
    } else if exists r :: r in some && r.Gateway(cidr, ip) {
      var i :| 0 <= i < |some| && some[i].Gateway(cidr, ip) && before[ip] == some[i].Target()
               && forall j :: i < j < |some| ==> !some[j].Gateway(cidr, ip);
      assert all[i].Gateway(cidr, ip);
    }
  }

  /** The targets of the NAT addresses. */
  method NATTargets(state: State) returns (targets: map<string, HairpinTarget>)
    ensures targets.Keys == state.natIPToRouterMAC.Keys
    ensures forall ip :: ip in targets ==> targets[ip] == HairpinTarget(state.natIPToRouterMAC[ip], SegmentOf(state, ip))
  {
    targets := map[];
    var todo := state.natIPToRouterMAC.Keys;
    while todo != {}
      invariant todo <= state.natIPToRouterMAC.Keys && targets.Keys == state.natIPToRouterMAC.Keys - todo
      invariant forall ip :: ip in targets ==> targets[ip] == HairpinTarget(state.natIPToRouterMAC[ip], SegmentOf(state, ip))
      decreases |todo|
    {
      var ip :| ip in todo;
      targets := targets[ip := HairpinTarget(state.natIPToRouterMAC[ip], SegmentOf(state, ip))];
      todo := todo - {ip};
    }
  }

  method BuildHairpinTargets(state: State, cidr: string -> Option<string>) returns (targets: map<string, HairpinTarget>)
    ensures forall ip :: TargetMeaning(state, state.localRouters, cidr, targets, ip)
  {
    targets := NATTargets(state);
    var routers := state.localRouters;
    for n := 0 to |routers|
      invariant forall ip :: TargetMeaning(state, routers[..n], cidr, targets, ip)
    {
      hide TargetMeaning, Router.Gateway;
      ghost var before := targets;
      targets := AddGatewayTargets(routers[n], cidr, targets);
      ghost var seen := routers[..n + 1];
      forall ip ensures TargetMeaning(state, seen, cidr, targets, ip) {
        TargetStep(state, routers, n, cidr, before, targets, ip);
      }
    }
    assert routers[..|routers|] == routers;
  }

  // ---------------------------------------------------------------------------
  // Segments
  // ---------------------------------------------------------------------------

  function NamesOf(segments: seq<DesiredSegment>): seq<string> {
    seq(|segments|, (i: nat) requires i < |segments| => segments[i].localnetPort)
  }

  /** The segment `name` is the one of the first router on it. */
  ghost predicate FirstOnSegment(routers: seq<Router>, name: string, d: DesiredSegment) {
    exists i :: 0 <= i < |routers| && routers[i].SegmentName() == name && d == SegmentFor(routers[i])
                && forall j :: 0 <= j < i ==> routers[j].SegmentName() != name
  }

  function SegmentFor(r: Router): DesiredSegment {
    DesiredSegment(r.SegmentName(), if r.segment.Some? then r.segment.value.vlanTag else None)
  }

  lemma FirstStep(routers: seq<Router>, n: nat, name: string, d: DesiredSegment)
    requires n < |routers|
    requires FirstOnSegment(routers[..n], name, d)
             || (name == routers[n].SegmentName() && d == SegmentFor(routers[n]) && forall r :: r in routers[..n] ==> r.SegmentName() != name)
    ensures FirstOnSegment(routers[..n + 1], name, d)
  {
    var some, all := routers[..n], routers[..n + 1];
    if FirstOnSegment(some, name, d) {
      var i :| 0 <= i < |some| && some[i].SegmentName() == name && d == SegmentFor(some[i])
               && forall j :: 0 <= j < i ==> some[j].SegmentName() != name;
      assert all[i] == some[i] && forall j :: 0 <= j < i ==> all[j] == some[j];
    } else {
      assert all[n] == routers[n] && forall j :: 0 <= j < n ==> all[j] == some[j];
    }
  }

  method SegmentMap(routers: seq<Router>) returns (byName: map<string, DesiredSegment>)
    ensures forall name :: name in byName <==> exists r :: r in routers && r.SegmentName() == name
    ensures forall name :: name in byName ==> FirstOnSegment(routers, name, byName[name])
  {
    byName := map[];
    for n := 0 to |routers|
      invariant forall name :: name in byName <==> exists r :: r in routers[..n] && r.SegmentName() == name
      invariant forall name :: name in byName ==> FirstOnSegment(routers[..n], name, byName[name])
    {
      var key := routers[n].SegmentName();
      ghost var before := byName;
      if key !in byName {
        byName := byName[key := SegmentFor(routers[n])];
      }
      assert routers[..n + 1] == routers[..n] + [routers[n]];
      forall name | name in byName
        ensures FirstOnSegment(routers[..n + 1], name, byName[name])
      {
        FirstStep(routers, n, name, byName[name]);
      }
    }
    assert routers[..|routers|] == routers;
  }

  /** One segment per name in use, in the order of the names. */
  method BuildDesiredSegments(routers: seq<Router>) returns (segments: seq<DesiredSegment>, byName: map<string, DesiredSegment>)
    ensures forall name :: name in byName <==> exists r :: r in routers && r.SegmentName() == name
    ensures forall name :: name in byName ==> FirstOnSegment(routers, name, byName[name])
    ensures forall d :: d in segments <==> d.localnetPort in byName && byName[d.localnetPort] == d
    ensures Sorted(NamesOf(segments)) && Distinct(NamesOf(segments))
  {
    byName := SegmentMap(routers);
    assert forall name :: name in byName ==> byName[name].localnetPort == name;
    var names := SortedKeys(byName.Keys);
    segments := [];
    for n := 0 to |names|
      invariant NamesOf(segments) == names[..n]
      invariant forall i :: 0 <= i < |segments| ==> names[i] in byName && segments[i] == byName[names[i]]
    {
      assert names[n] in byName;
      segments := segments + [byName[names[n]]];
    }
    assert names[..|names|] == names;
    forall d: DesiredSegment | d.localnetPort in byName && byName[d.localnetPort] == d
      ensures d in segments
    {
      var i :| 0 <= i < |names| && names[i] == d.localnetPort;
      assert segments[i] == d;
    }
  }

  // ---------------------------------------------------------------------------
  // Sorted sets of texts
  // ---------------------------------------------------------------------------

  /** Trims, drops empty texts and duplicates, and sorts. */
  method UniqueIPs(ips: seq<string>) returns (result: seq<string>)
    ensures Sorted(result) && Distinct(result)
    ensures forall x :: x in result <==> x != "" && exists ip :: ip in ips && TrimSpace(ip) == x
  {
    var seen := {};
    result := [];
    for n := 0 to |ips|
      invariant Distinct(result) && seen == Elems(result)
      invariant forall x :: x in result <==> x != "" && exists ip :: ip in ips[..n] && TrimSpace(ip) == x
    {
      var ip := TrimSpace(ips[n]);
      assert ips[..n + 1] == ips[..n] + [ips[n]];
      if ip != "" && ip !in seen {
        seen := seen + {ip};
        result := result + [ip];
      }
    }
    assert ips[..|ips|] == ips;
    SortDistinct(result);
    result := SortStrings(result);
  }

  lemma TrimOfTrimmed(s: string)
    requires Trimmed(s)
    ensures TrimSpace(s) == s
  {
  }

  /** On addresses, uniqueIPs only removes duplicates. */
  lemma UniqueOfAddresses(ips: seq<string>, result: seq<string>, family: string -> Family)
    requires ParserLaw(family) && forall ip :: ip in ips ==> !family(ip).NotIP?
    requires forall x :: x in result <==> x != "" && exists ip :: ip in ips && TrimSpace(ip) == x
    ensures forall x :: x in result <==> x in ips
  {
    forall ip | ip in ips ensures TrimSpace(ip) == ip && ip != "" { TrimOfTrimmed(ip); }
  }

  // ---------------------------------------------------------------------------
  // The fork between the dual-stack hairpin plane and the IPv4 route plane
  // ---------------------------------------------------------------------------

  method SplitIPv4(targets: set<string>, family: string -> Family) returns (v4: seq<string>, nonV4: seq<string>)
    ensures Sorted(v4) && Distinct(v4) && forall ip :: ip in v4 <==> ip in targets && family(ip).V4?
    ensures Sorted(nonV4) && Distinct(nonV4) && forall ip :: ip in nonV4 <==> ip in targets && !family(ip).V4?
  {
    v4, nonV4 := [], [];
    var todo := targets;
    while todo != {}
      invariant todo <= targets && Distinct(v4) && Distinct(nonV4)
      invariant forall ip :: ip in v4 <==> ip in targets - todo && family(ip).V4?
      invariant forall ip :: ip in nonV4 <==> ip in targets - todo && !family(ip).V4?
      decreases |todo|
    {
      var ip :| ip in todo;
      todo := todo - {ip};
      if !family(ip).V4? {
        nonV4 := nonV4 + [ip];
      } else {
        v4 := v4 + [ip];
      }
    }
    SortDistinct(v4);
    SortDistinct(nonV4);
    v4, nonV4 := SortStrings(v4), SortStrings(nonV4);
  }

  method SplitVIPs(vips: seq<string>, announceVIPs: bool, hairpinIPs: seq<string>)
    returns (ips: seq<string>, dormant: seq<string>, announced: seq<string>)
    ensures forall x :: x in ips <==> x in hairpinIPs || (announceVIPs && x in vips)
    ensures dormant == (if announceVIPs then [] else vips) && announced == if announceVIPs then vips else []
  {
    ips, dormant, announced := hairpinIPs, [], [];
    for n := 0 to |vips|
      invariant forall x :: x in ips <==> x in hairpinIPs || (announceVIPs && x in vips[..n])
      invariant dormant == (if announceVIPs then [] else vips[..n]) && announced == if announceVIPs then vips[..n] else []
    {
      assert vips[..n + 1] == vips[..n] + [vips[n]];
      if !announceVIPs {
        dormant := dormant + [vips[n]];
      } else {
        ips := ips + [vips[n]];
        announced := announced + [vips[n]];
      }
    }
    assert vips[..|vips|] == vips;
  }

  /** uniqueIPs of addresses. */
  method UniqueAddresses(ips: seq<string>, family: string -> Family) returns (result: seq<string>)
    requires ParserLaw(family) && forall ip :: ip in ips ==> !family(ip).NotIP?
    ensures Sorted(result) && Distinct(result)
    ensures forall x :: x in result <==> x in ips
  {
    result := UniqueIPs(ips);
    UniqueOfAddresses(ips, result, family);
  }

  method UniquePlanes(ips: seq<string>, hairpinIPs: seq<string>, dormant: seq<string>, announced: seq<string>, family: string -> Family)
    returns (desiredIPs: seq<string>, frrStaticIPs: seq<string>, dormantVIPs: seq<string>, announcedVIPs: seq<string>)
    requires ParserLaw(family) && Sorted(hairpinIPs) && Distinct(hairpinIPs)
    requires forall ip :: ip in ips || ip in hairpinIPs || ip in dormant || ip in announced ==> family(ip).V4?
    ensures Sorted(desiredIPs) && Distinct(desiredIPs) && forall ip :: ip in desiredIPs <==> ip in ips
    ensures frrStaticIPs == hairpinIPs
    ensures forall ip :: ip in dormantVIPs <==> ip in dormant
    ensures forall ip :: ip in announcedVIPs <==> ip in announced
  {
    hide Sorted, Distinct;
    desiredIPs := UniqueAddresses(ips, family);
    frrStaticIPs := UniqueAddresses(hairpinIPs, family);
    SortedSetUnique(hairpinIPs, frrStaticIPs);
    dormantVIPs := UniqueAddresses(dormant, family);
    announcedVIPs := UniqueAddresses(announced, family);
  }

  /**
   The planes of one cycle. Validation admits only IPv4 VIPs. The route plane holds exactly the
   IPv4 hairpin targets and the announceable VIPs, the FRR plane exactly the former, so the
   result meets what RouteSync.EnsureRoutes asks of its caller.
   */
  method ComputeDesiredState(state: State, vips: seq<string>, announceVIPs: bool, family: string -> Family, cidr: string -> Option<string>)
    returns (d: Desired)
    requires ParserLaw(family) && forall v :: v in vips ==> family(v).V4?
    ensures forall ip :: TargetMeaning(state, state.localRouters, cidr, d.hairpinTargets, ip)
    ensures forall ip :: ip in d.frrStaticIPs <==> ip in d.hairpinTargets && family(ip).V4?
    ensures forall ip :: ip in d.excludedNonV4 <==> ip in d.hairpinTargets && !family(ip).V4?
    ensures forall ip :: ip in d.desiredIPs <==> ip in d.frrStaticIPs || ip in d.announcedVIPs
    ensures forall ip :: ip in d.announcedVIPs <==> announceVIPs && ip in vips
    ensures forall ip :: ip in d.dormantVIPs <==> !announceVIPs && ip in vips
    ensures forall name :: name in d.segmentByName <==> exists r :: r in state.localRouters && r.SegmentName() == name
    ensures forall name :: name in d.segmentByName ==> FirstOnSegment(state.localRouters, name, d.segmentByName[name])
    ensures forall x :: x in d.segments <==> x.localnetPort in d.segmentByName && d.segmentByName[x.localnetPort] == x
    ensures d.frrStaticIPs == d.hairpinIPs
    ensures Sorted(d.desiredIPs) && Distinct(d.desiredIPs)
    ensures forall ip :: ip in d.desiredIPs ==> family(ip).V4?
    ensures forall ipDev, skip, dev :: RouteSync.Desired(d.desiredIPs, d.frrStaticIPs, ipDev, skip, dev).Nested()
  {
    hide Sorted, Distinct, TargetMeaning, ParserLaw;
    var targets := BuildHairpinTargets(state, cidr);
    var hairpinIPs, excluded := SplitIPv4(targets.Keys, family);
    var segments, byName := BuildDesiredSegments(state.localRouters);
    var ips, dormant, announced := SplitVIPs(vips, announceVIPs, hairpinIPs);
    var desiredIPs, frrStaticIPs, dormantVIPs, announcedVIPs := UniquePlanes(ips, hairpinIPs, dormant, announced, family);
    d := Desired(targets, segments, byName, hairpinIPs, excluded, desiredIPs, frrStaticIPs, dormantVIPs, announcedVIPs);
  }
}
