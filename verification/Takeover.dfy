/**
 The drain takeover handshake on the northbound static routes: the writer stamps its
 readiness marker, the reader waits for it. The methods follow the loops of the code.
 TakeoverProtocol puts them into runs of many chassis.
 */
module Takeover {
  import opened Common

  const MANAGED_KEY := "ovn-network-agent"
  const MARKER_KEY := "ovn-network-agent-advertised"
  const DEFAULT_PREFIX := "0.0.0.0/0"

  datatype StaticRoute = StaticRoute(uuid: string, ipPrefix: string, externalIDs: map<string, string>)

  datatype Router = Router(uuid: string, staticRoutes: seq<string>)

  datatype LocalRouter = LocalRouter(routerUUID: string, lrpName: string)

  function Get(m: map<string, string>, key: string): string {
    if key in m then m[key] else ""
  }

  predicate IsManagedDefault(r: StaticRoute) {
    r.ipPrefix == DEFAULT_PREFIX && Get(r.externalIDs, MANAGED_KEY) == "managed"
  }

  /** The route belongs to a router that is active on this chassis. */
  ghost predicate OwnedLocally(routers: seq<Router>, localRouters: seq<LocalRouter>, uuid: string) {
    exists r, lr :: r in routers && lr in localRouters && r.uuid == lr.routerUUID && uuid in r.staticRoutes
  }

  ghost predicate Awaited(routers: seq<Router>, localRouters: seq<LocalRouter>, r: StaticRoute) {
    IsManagedDefault(r) && OwnedLocally(routers, localRouters, r.uuid)
  }

  ghost predicate UniqueUUIDs(routes: seq<StaticRoute>) {
    forall i, j :: 0 <= i < j < |routes| ==> routes[i].uuid != routes[j].uuid
  }

  /** The marker of each listed row, by the row's UUID. */
  function MarkersOf(routes: seq<StaticRoute>): map<string, string> {
    if routes == [] then map[]
    else
      var last := routes[|routes| - 1];
      MarkersOf(routes[..|routes| - 1])[last.uuid := Get(last.externalIDs, MARKER_KEY)]
  }

  /** The rows are the keys, and each key has its own row's marker. */
  lemma {:induction false} MarkersMean(routes: seq<StaticRoute>)
    requires UniqueUUIDs(routes)
    ensures forall r :: r in routes ==> r.uuid in MarkersOf(routes) && MarkersOf(routes)[r.uuid] == Get(r.externalIDs, MARKER_KEY)
    ensures forall u :: u in MarkersOf(routes) ==> exists r :: r in routes && r.uuid == u
  {
    if routes != [] {
      var most, last := routes[..|routes| - 1], routes[|routes| - 1];
      MarkersMean(most);
      assert routes == most + [last];
      assert last in routes;
      forall u | u in MarkersOf(routes) ensures exists r :: r in routes && r.uuid == u {
        if u != last.uuid {
          assert u in MarkersOf(most);
          var r: StaticRoute :| r in most && r.uuid == u;
          assert r in routes;
        }
      }
    }
  }

  /** An awaited route no longer holds the drain back: its row is gone or its marker names another chassis. */
  predicate HandedOver(markers: map<string, string>, uuid: string, local: string) {
    uuid in markers ==> markers[uuid] != "" && markers[uuid] != local
  }

  ghost predicate AllHandedOver(markers: map<string, string>, wait: set<string>, local: string) {
    forall u :: u in wait ==> HandedOver(markers, u, local)
  }

  /** Of the routers that can migrate, every managed default route, and nothing when the read failed. */
  ghost predicate WaitSet(routers: seq<Router>, localRouters: seq<LocalRouter>, skipLRPs: set<string>, listed: Option<seq<StaticRoute>>, wait: set<string>) {
    forall u :: u in wait <==> listed.Some? && exists r, kept ::
      r in listed.value && r.uuid == u && Awaited(routers, kept, r)
      && (forall lr :: lr in kept <==> lr in localRouters && lr.lrpName !in skipLRPs)
  }

  /** The managed default routes of the given routers, by position in the listing. */
  method LocalManagedDefaultRoutes(routers: seq<Router>, routes: seq<StaticRoute>, localRouters: seq<LocalRouter>)
    returns (out: seq<nat>)
    ensures forall i: nat :: i in out <==> i < |routes| && Awaited(routers, localRouters, routes[i])
    ensures forall i, j :: 0 <= i < j < |out| ==> out[i] < out[j]
  {
    out := [];
    var localUUIDs := set lr | lr in localRouters :: lr.routerUUID;
    var owned: set<string> := {};
    for n := 0 to |routers|
      invariant forall u :: u in owned <==> OwnedLocally(routers[..n], localRouters, u)
    {
      assert routers[..n + 1] == routers[..n] + [routers[n]];
      if routers[n].uuid in localUUIDs {
        owned := owned + Elems(routers[n].staticRoutes);
      }
    }
    assert routers[..|routers|] == routers;
    for n := 0 to |routes|
      invariant forall i: nat :: i in out <==> i < n && Awaited(routers, localRouters, routes[i])
      invariant forall i, j :: 0 <= i < j < |out| ==> out[i] < out[j]
    {
      if routes[n].uuid in owned && routes[n].ipPrefix == DEFAULT_PREFIX
         && Get(routes[n].externalIDs, MANAGED_KEY) == "managed" {
        assert forall k :: 0 <= k < |out| ==> out[k] in out;
        out := out + [n];
      }
    }
  }

  /** One poll of the reader: the marker of every awaited row, looked up by UUID. */
  method TakeoverMarkersReady(routes: seq<StaticRoute>, wait: set<string>, local: string) returns (ready: bool)
    ensures ready <==> AllHandedOver(MarkersOf(routes), wait, local)
  {
    var markerByUUID: map<string, string> := map[];
    for n := 0 to |routes|
      invariant markerByUUID == MarkersOf(routes[..n])
    {
      assert routes[..n + 1][..n] == routes[..n];
      markerByUUID := markerByUUID[routes[n].uuid := Get(routes[n].externalIDs, MARKER_KEY)];
    }
    assert routes[..|routes|] == routes;
    var todo := wait;
    while todo != {}
      invariant todo <= wait
      invariant forall u :: u in wait - todo ==> HandedOver(markerByUUID, u, local)
      decreases |todo|
    {
      var u :| u in todo;
      if u in markerByUUID && (markerByUUID[u] == "" || markerByUUID[u] == local) {
        assert !HandedOver(markerByUUID, u, local);
        return false;
      }
      todo := todo - {u};
    }
    return true;
  }

  /** None of these reads showed every awaited route handed over. */
  ghost predicate NotYet(polls: seq<Option<seq<StaticRoute>>>, wait: set<string>, local: string) {
    forall k :: 0 <= k < |polls| && polls[k].Some? ==> !AllHandedOver(MarkersOf(polls[k].value), wait, local)
  }

  /** Why the wait ended: released by poll k, or held for the margin only, or cut off by the drain deadline. */
  datatype Outcome = Disabled | MarginOnly | Released(poll: nat) | Deadline

  /**
   The reader. `listed` is the read that resolves the wait set, `polls` what each poll
   before the deadline read; None is a failed read.
   */
  method AwaitTakeoverReady(settleDelay: int, routers: seq<Router>, localRouters: seq<LocalRouter>, skipLRPs: set<string>,
                            listed: Option<seq<StaticRoute>>, polls: seq<Option<seq<StaticRoute>>>, local: string)
    returns (outcome: Outcome, wait: set<string>)
    ensures outcome == Disabled <==> settleDelay <= 0
    ensures settleDelay > 0 ==> WaitSet(routers, localRouters, skipLRPs, listed, wait)
    ensures settleDelay > 0 ==> (outcome == MarginOnly <==> wait == {})
    ensures outcome.Released? ==>
      && outcome.poll < |polls| && polls[outcome.poll].Some?
      && AllHandedOver(MarkersOf(polls[outcome.poll].value), wait, local)
      && NotYet(polls[..outcome.poll], wait, local)
    ensures outcome == Deadline ==> NotYet(polls, wait, local)
  {
    wait := {};
    if settleDelay <= 0 {
      return Disabled, {};
    }
    var kept: seq<LocalRouter> := [];
    for n := 0 to |localRouters|
      invariant forall lr :: lr in kept <==> lr in localRouters[..n] && lr.lrpName !in skipLRPs
    {
      if localRouters[n].lrpName !in skipLRPs {
        kept := kept + [localRouters[n]];
      }
    }
    if listed.None? {
      return MarginOnly, {};
    }
    var waitRoutes := LocalManagedDefaultRoutes(routers, listed.value, kept);
    wait := set i | i in waitRoutes :: listed.value[i].uuid;
    SameKept(routers, localRouters, skipLRPs, kept, listed.value, wait, waitRoutes);
    if |waitRoutes| == 0 {
      return MarginOnly, wait;
    }
    assert listed.value[waitRoutes[0]].uuid in wait;
    for k := 0 to |polls|
      invariant NotYet(polls[..k], wait, local)
    {
      assert polls[..k + 1] == polls[..k] + [polls[k]];
      if polls[k].Some? {
        var ready := TakeoverMarkersReady(polls[k].value, wait, local);
        if ready {
          return Released(k), wait;
        }
      }
    }
    assert polls[..|polls|] == polls;
    return Deadline, wait;
  }

  lemma SameKept(routers: seq<Router>, localRouters: seq<LocalRouter>, skipLRPs: set<string>, kept: seq<LocalRouter>,
                 listed: seq<StaticRoute>, wait: set<string>, waitRoutes: seq<nat>)
    requires forall lr :: lr in kept <==> lr in localRouters && lr.lrpName !in skipLRPs
    requires forall i: nat :: i in waitRoutes <==> i < |listed| && Awaited(routers, kept, listed[i])
    requires wait == set i | i in waitRoutes :: listed[i].uuid
    ensures WaitSet(routers, localRouters, skipLRPs, Some(listed), wait)
  {
    forall u
      ensures u in wait <==> exists r, k ::
        r in listed && r.uuid == u && Awaited(routers, k, r) && (forall lr :: lr in k <==> lr in localRouters && lr.lrpName !in skipLRPs)
    {
      if r, k :| r in listed && r.uuid == u && Awaited(routers, k, r)
                 && (forall lr :: lr in k <==> lr in localRouters && lr.lrpName !in skipLRPs) {
        var i :| 0 <= i < |listed| && listed[i] == r;
        assert OwnedLocally(routers, kept, r.uuid);
        assert i in waitRoutes;
      }
      if u in wait {
        var i :| i in waitRoutes && listed[i].uuid == u;
        assert listed[i] in listed;
      }
    }
  }

  class NorthboundRoutes {
    var routers: seq<Router>
    var routes: seq<StaticRoute>

    constructor (routers: seq<Router>, routes: seq<StaticRoute>)
      ensures this.routers == routers && this.routes == routes
    {
      this.routers, this.routes := routers, routes;
    }

    /**
     The writer: one transaction that stamps the local chassis on every managed default
     route of the local routers, and on nothing else.
     */
    method MarkTakeoverReady(localRouters: seq<LocalRouter>, local: string) returns (ok: bool, written: set<nat>)
      modifies this`routes
      ensures |routes| == |old(routes)|
      ensures forall i: nat :: i in written <==>
        ok && i < |routes| && Awaited(routers, localRouters, old(routes)[i]) && Get(old(routes)[i].externalIDs, MARKER_KEY) != local
      ensures forall i: nat :: i < |routes| ==>
        routes[i] == if i in written then old(routes)[i].(externalIDs := old(routes)[i].externalIDs[MARKER_KEY := local]) else old(routes)[i]
      ensures ok ==> forall i: nat :: i < |routes| && Awaited(routers, localRouters, old(routes)[i]) ==>
        Get(routes[i].externalIDs, MARKER_KEY) == local
    {
      var mine := LocalManagedDefaultRoutes(routers, routes, localRouters);
      written := {};
      for n := 0 to |mine|
        invariant unchanged(this)
        invariant forall i: nat :: i in written <==>
          i in mine[..n] && i < |routes| && Get(routes[i].externalIDs, MARKER_KEY) != local
      {
        assert mine[n] in mine;
        if Get(routes[mine[n]].externalIDs, MARKER_KEY) != local {
          written := written + {mine[n]};
        }
      }
      assert mine[..|mine|] == mine;
      if written == {} {
        assert forall i: nat :: i < |routes| ==> i !in written;
        return true, {};
      }
      ok := *;
      if !ok {
        return false, {};
      }
      var was, w := routes, written;
      routes := seq(|was|, (i: nat) requires i < |was| =>
        if i in w then was[i].(externalIDs := was[i].externalIDs[MARKER_KEY := local]) else was[i]);
    }
  }
}
