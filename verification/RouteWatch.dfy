/**
 What the route watch counts as drift, against the kernel notifications that the agent's own
 route commands cause. A notification names the table it happened in; the watch reduces it to
 the two tables the agent's routes live in, which a configuration may make the same table.
 */
module RouteWatch {
  import opened Common
  import opened Text
  import NexthopRepair
  import RouteSync

  datatype RouteEvent = RouteEvent(deleted: bool, replaced: bool, kernelTable: bool, vrfTable: bool, agentProto: bool, dst: string, gw: string)

  datatype Kind = Kernel | FRR

  datatype Ownership = Ownership(kernelIPs: set<string>, frrIPs: set<string>, leakNets: set<string>)

  /** A change in the kernel's routing tables, before it is reduced to an event. */
  datatype RouteChange = RouteChange(table: int, deleted: bool, replaced: bool, agentProto: bool, dst: string, gw: string)

  /** The two tables of one configuration. */
  datatype Tables = Tables(kernel: int, vrf: int)

  const HOST_MASK := "/32"

  /** The IP of a host route, by strings.CutSuffix. */
  function HostIP(dst: string): Option<string> {
    if HasSuffix(dst, HOST_MASK) then Some(dst[..|dst| - 3]) else None
  }

  lemma HostIPIs(ip: string)
    ensures HostIP(ip + HOST_MASK) == Some(ip)
  {
  }

  /** toRouteEvent: a change outside the two tables is no event. */
  function ToRouteEvent(c: RouteChange, t: Tables): Option<RouteEvent> {
    if c.table != t.kernel && c.table != t.vrf then None
    else Some(RouteEvent(c.deleted, !c.deleted && c.replaced, c.table == t.kernel, c.table == t.vrf, c.agentProto, c.dst, c.gw))
  }

  function ClassifyRouteEvent(ev: RouteEvent, owned: Ownership, vethNexthop: string): Option<Kind> {
    var host := HostIP(ev.dst);
    var isHost := host.Some?;
    var ip := if isHost then host.value else ev.dst;
    if ev.deleted then
      if ev.kernelTable && ev.agentProto && isHost && ip in owned.kernelIPs then Some(Kernel)
      else if ev.vrfTable && ev.agentProto && ev.dst in owned.leakNets then Some(Kernel)
      else if ev.vrfTable && !ev.agentProto && isHost && ip in owned.frrIPs then Some(FRR)
      else None
    else if !ev.replaced || ev.agentProto || !isHost then None
    else if ev.kernelTable && ip in owned.kernelIPs then Some(Kernel)
    else if ev.vrfTable && ip in owned.frrIPs && ev.gw != "" && ev.gw != vethNexthop then Some(FRR)
    else None
  }

  predicate Drifts(c: RouteChange, t: Tables, owned: Ownership, vethNexthop: string) {
    var ev := ToRouteEvent(c, t);
    ev.Some? && ClassifyRouteEvent(ev.value, owned, vethNexthop).Some?
  }

  /** The routes a cycle owns: the agent's /32 in the kernel table, zebra's /32 of an FRR static and the agent's leak networks in the VRF table. */
  predicate OwnedRoute(table: int, agentProto: bool, dst: string, t: Tables, owned: Ownership) {
    || (table == t.kernel && agentProto && exists ip :: ip in owned.kernelIPs && dst == ip + HOST_MASK)
    || (table == t.vrf && agentProto && dst in owned.leakNets)
    || (table == t.vrf && !agentProto && exists ip :: ip in owned.frrIPs && dst == ip + HOST_MASK)
  }

  lemma HostRoute(dst: string, ips: set<string>)
    ensures (exists ip :: ip in ips && dst == ip + HOST_MASK) <==> HostIP(dst).Some? && HostIP(dst).value in ips
  {
    if HostIP(dst).Some? { assert dst == HostIP(dst).value + HOST_MASK; }
    if ip :| ip in ips && dst == ip + HOST_MASK { HostIPIs(ip); }
  }

  /** A deletion is drift exactly when it removed an owned route. */
  lemma DeletionIsDriftIffOwned(c: RouteChange, t: Tables, owned: Ownership, vethNexthop: string)
    requires c.deleted
    ensures Drifts(c, t, owned, vethNexthop) <==> OwnedRoute(c.table, c.agentProto, c.dst, t, owned)
  {
    HostRoute(c.dst, owned.kernelIPs);
    HostRoute(c.dst, owned.frrIPs);
  }

  /** An addition is drift exactly when it put a foreign route in place of an owned one, in the VRF table with another gateway. */
  lemma AdditionIsDriftIffForeign(c: RouteChange, t: Tables, owned: Ownership, vethNexthop: string)
    requires !c.deleted
    ensures Drifts(c, t, owned, vethNexthop) <==>
      && c.replaced && !c.agentProto
      && (OwnedRoute(c.table, true, c.dst, t, owned.(leakNets := {}))
          || (OwnedRoute(c.table, false, c.dst, t, owned) && c.gw != "" && c.gw != vethNexthop))
  {
    HostRoute(c.dst, owned.kernelIPs);
    HostRoute(c.dst, owned.frrIPs);
  }

  method NewRouteOwnership(kernelIPs: seq<string>, frrIPs: seq<string>, leakNets: seq<string>) returns (o: Ownership)
    ensures o == Ownership(Elems(kernelIPs), Elems(frrIPs), Elems(leakNets))
  {
    o := Ownership({}, {}, {});
    for n := 0 to |kernelIPs|
      invariant o == Ownership(Elems(kernelIPs[..n]), {}, {})
    {
      assert kernelIPs[..n + 1] == kernelIPs[..n] + [kernelIPs[n]];
      o := o.(kernelIPs := o.kernelIPs + {kernelIPs[n]});
    }
    assert kernelIPs[..|kernelIPs|] == kernelIPs;
    for n := 0 to |frrIPs|
      invariant o == Ownership(Elems(kernelIPs), Elems(frrIPs[..n]), {})
    {
      assert frrIPs[..n + 1] == frrIPs[..n] + [frrIPs[n]];
      o := o.(frrIPs := o.frrIPs + {frrIPs[n]});
    }
    assert frrIPs[..|frrIPs|] == frrIPs;
    for n := 0 to |leakNets|
      invariant o == Ownership(Elems(kernelIPs), Elems(frrIPs), Elems(leakNets[..n]))
    {
      assert leakNets[..n + 1] == leakNets[..n] + [leakNets[n]];
      o := o.(leakNets := o.leakNets + {leakNets[n]});
    }
    assert leakNets[..|leakNets|] == leakNets;
  }

  // ---------------------------------------------------------------------------
  // The changes the agent's own commands cause
  // ---------------------------------------------------------------------------

  /**
   A change that a command of the route plane may cause. A kernel add replaces or creates the
   agent's route, and deletes it only when it rolls it back; zebra installs and removes the /32 of each
   static in the VRF table, under its own protocol and with the veth next hop.
   */
  ghost predicate Causes(e: RouteSync.Entry, t: Tables, vethNexthop: string, c: RouteChange) {
    match e.cmd
    case AddKernel(ip, dev, rolledBack) => c.table == t.kernel && c.agentProto && c.dst == ip + HOST_MASK && (c.deleted ==> rolledBack)
    case DelKernel(ip, dev) => e.ok && c.table == t.kernel && c.agentProto && c.dst == ip + HOST_MASK && c.deleted
    case AddFRR(chunk) => c.table == t.vrf && !c.agentProto && !c.deleted && c.gw == vethNexthop
                          && exists ip :: ip in chunk && ip in e.frr && c.dst == ip + HOST_MASK
    case DelFRR(chunk) => c.table == t.vrf && !c.agentProto && c.deleted && exists ip :: ip in chunk && c.dst == ip + HOST_MASK
    case _ => false
  }

  function OwnedBy(d: RouteSync.Desired, leakNets: set<string>): Ownership {
    Ownership(Elems(d.ips), Elems(d.frrStatic), leakNets)
  }

  /** The agent can mistake a command of its own for drift. */
  ghost predicate SelfDrift(e: RouteSync.Entry, d: RouteSync.Desired, t: Tables, leakNets: set<string>, vethNexthop: string) {
    exists c :: Causes(e, t, vethNexthop, c) && Drifts(c, t, OwnedBy(d, leakNets), vethNexthop)
  }

  lemma SelfDriftOnlyThen(e: RouteSync.Entry, d: RouteSync.Desired, t: Tables, leakNets: set<string>, vethNexthop: string, c: RouteChange)
    requires d.Nested() && RouteSync.Permitted(e.cmd, d)
    requires Causes(e, t, vethNexthop, c) && Drifts(c, t, OwnedBy(d, leakNets), vethNexthop)
    ensures || (e.cmd.AddKernel? && e.cmd.rolledBack)
            || (t.kernel == t.vrf && e.cmd.AddFRR? && exists ip :: ip in e.cmd.chunk && ip in e.frr)
            || (t.kernel == t.vrf && e.cmd.DelKernel? && e.ok && e.cmd.ip + HOST_MASK in leakNets)
  {
    match e.cmd
    case AddKernel(ip, dev, _) => HostIPIs(ip);
    case DelKernel(ip, dev) => HostIPIs(ip);
    case AddFRR(chunk) =>
    case DelFRR(chunk) =>
      var ip :| ip in chunk && c.dst == ip + HOST_MASK;
      HostIPIs(ip);
    case _ =>
  }

  /**
   Exactly when one of its own commands can look like drift: a kernel add whose route was rolled
   back, or a configuration with one table for both planes, in which zebra's install of a
   static, or the completed removal of a /32 that is a leak network, does.
   */
  lemma SelfDriftIff(e: RouteSync.Entry, d: RouteSync.Desired, t: Tables, leakNets: set<string>, vethNexthop: string)
    requires d.Nested() && RouteSync.Permitted(e.cmd, d)
    ensures SelfDrift(e, d, t, leakNets, vethNexthop) <==>
      || (e.cmd.AddKernel? && e.cmd.rolledBack)
      || (t.kernel == t.vrf && e.cmd.AddFRR? && exists ip :: ip in e.cmd.chunk && ip in e.frr)
      || (t.kernel == t.vrf && e.cmd.DelKernel? && e.ok && e.cmd.ip + HOST_MASK in leakNets)
  {
    if SelfDrift(e, d, t, leakNets, vethNexthop) {
      var c :| Causes(e, t, vethNexthop, c) && Drifts(c, t, OwnedBy(d, leakNets), vethNexthop);
      SelfDriftOnlyThen(e, d, t, leakNets, vethNexthop, c);
    }
    if (e.cmd.AddKernel? && e.cmd.rolledBack) || (t.kernel == t.vrf && e.cmd.DelKernel? && e.ok && e.cmd.ip + HOST_MASK in leakNets) {
      var c := RouteChange(t.kernel, true, false, true, e.cmd.ip + HOST_MASK, "");
      HostIPIs(e.cmd.ip);
      assert Causes(e, t, vethNexthop, c) && Drifts(c, t, OwnedBy(d, leakNets), vethNexthop);
    }
    if t.kernel == t.vrf && e.cmd.AddFRR? && exists ip :: ip in e.cmd.chunk && ip in e.frr {
      var ip :| ip in e.cmd.chunk && ip in e.frr;
      var c := RouteChange(t.vrf, false, true, false, ip + HOST_MASK, vethNexthop);
      HostIPIs(ip);
      assert ip in e.cmd.chunk && ip in d.frrStatic;
      assert Causes(e, t, vethNexthop, c) && Drifts(c, t, OwnedBy(d, leakNets), vethNexthop);
    }
  }

  class RouteWatcher {
    const vethNexthop: string
    var owned: Ownership

    constructor (vethNexthop: string)
      ensures this.vethNexthop == vethNexthop && owned == Ownership({}, {}, {})
    {
      this.vethNexthop, owned := vethNexthop, Ownership({}, {}, {});
    }

    method SetOwned(o: Ownership)
      modifies this
      ensures owned == o
    {
      owned := o;
    }

    /**
     The route part of one cycle: the ownership is published before the first command. With two
     tables, no change the cycle's own pass and verification cause is drift unless a kernel add
     was rolled back; every deletion of an owned route is.
     */
    method ReconcileRoutes(rm: RouteSync.RouteManager, d: RouteSync.Desired, leakNets: seq<string>, t: Tables,
                           resolvable: Option<bool>, now: int, ghost h: seq<NexthopRepair.Check>)
      returns (res: RouteSync.RouteSyncResult, repaired: bool, ghost pass: seq<RouteSync.Entry>, ghost verify: seq<RouteSync.Entry>,
               ghost check: NexthopRepair.Check)
      requires rm.Valid() && d.Nested() && forall ip :: ip in d.ips ==> rm.isV4(ip)
      requires rm.Memory() == NexthopRepair.After(h, rm.vethLeak)
      modifies this, rm
      ensures rm.Valid() && owned == OwnedBy(d, Elems(leakNets))
      ensures rm.Memory() == NexthopRepair.After(h + [check], rm.vethLeak) && repaired == NexthopRepair.RepairsAt(h + [check], |h|, rm.vethLeak)
      ensures t.kernel != t.vrf ==> forall e, c ::
        (e in pass || e in verify) && Causes(e, t, vethNexthop, c) && Drifts(c, t, owned, vethNexthop) ==> e.cmd.AddKernel? && e.cmd.rolledBack
      ensures forall c: RouteChange :: c.deleted ==> (Drifts(c, t, owned, vethNexthop) <==> OwnedRoute(c.table, c.agentProto, c.dst, t, owned))
    {
      var o := NewRouteOwnership(d.ips, d.frrStatic, leakNets);
      SetOwned(o);
      res, pass := rm.EnsureRoutes(d);
      repaired, verify, check := rm.CheckAfterSync(res.changed, d, resolvable, now, h);
      hide Causes, Drifts, OwnedRoute, RouteSync.Permitted;
      forall e, c | (e in pass || e in verify) && t.kernel != t.vrf && Causes(e, t, vethNexthop, c) && Drifts(c, t, owned, vethNexthop)
        ensures e.cmd.AddKernel? && e.cmd.rolledBack
      {
        SelfDriftOnlyThen(e, d, t, Elems(leakNets), vethNexthop, c);
      }
      forall c: RouteChange | c.deleted
        ensures Drifts(c, t, owned, vethNexthop) <==> OwnedRoute(c.table, c.agentProto, c.dst, t, owned)
      {
        DeletionIsDriftIffOwned(c, t, owned, vethNexthop);
      }
    }
  }
}
