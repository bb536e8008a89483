/**
 The stale-chassis cleanup: which chassis have been absent long enough, and what may be
 deleted for them. The tracker is proved against the history of scans, the cleanup against a
 frame: every transaction may fail.
 */
module StaleChassis {
  import opened Common

  /** A static route; `attached` when a router's static_routes holds it. */
  datatype Route = Route(managed: bool, chassis: string, outputPort: Option<string>, nexthop: string, attached: bool)

  datatype MACBinding = MACBinding(logicalPort: string, ip: string)

  /** One completed scan: the chassis that managed routes name, the live ones, the time, what was handed to cleanup and whether that succeeded. */
  datatype Scan = Scan(referenced: set<string>, live: set<string>, now: int, handed: set<string>, cleaned: bool)

  predicate Missing(s: Scan, c: string) {
    c in s.referenced && c !in s.live
  }

  // ---------------------------------------------------------------------------
  // The history of scans
  // ---------------------------------------------------------------------------

  /** The run of scan n - 1: since when the chassis has been tracked when that scan decides. */
  function Since(h: seq<Scan>, c: string, n: nat): Option<int>
    requires n <= |h|
  {
    if n == 0 || !Missing(h[n - 1], c) then None
    else if n > 1 && Since(h, c, n - 1).Some? && !(h[n - 2].cleaned && c in h[n - 2].handed) then Since(h, c, n - 1)
    else Some(h[n - 1].now)
  }

  /** What is tracked after n scans. */
  function Tracked(h: seq<Scan>, c: string, n: nat): Option<int>
    requires n <= |h|
  {
    if n > 0 && h[n - 1].cleaned && c in h[n - 1].handed then None else Since(h, c, n)
  }

  /** At every scan from i up to n - 1 the chassis was referenced and absent, and no scan in between cleaned it up; i is the first such scan. */
  ghost predicate AbsentSince(h: seq<Scan>, c: string, n: nat, i: int) {
    && 0 <= i < n <= |h|
    && (forall k :: i <= k < n ==> Missing(h[k], c))
    && (forall k :: i <= k < n - 1 ==> !(h[k].cleaned && c in h[k].handed))
    && (i > 0 ==> !Missing(h[i - 1], c) || (h[i - 1].cleaned && c in h[i - 1].handed))
  }

  lemma {:induction false} SinceUnique(h: seq<Scan>, c: string, n: nat, i: int)
    requires AbsentSince(h, c, n, i)
    ensures Since(h, c, n) == Some(h[i].now)
  {
    var m := n - 1;
    assert Missing(h[m], c);
    if i < m {
      SinceUnique(h, c, m, i);
      assert !(h[m - 1].cleaned && c in h[m - 1].handed);
    }
  }

  lemma {:induction false} SinceWitness(h: seq<Scan>, c: string, n: nat) returns (i: int)
    requires n <= |h| && Since(h, c, n).Some?
    ensures AbsentSince(h, c, n, i)
  {
    if n > 1 && Since(h, c, n - 1).Some? && !(h[n - 2].cleaned && c in h[n - 2].handed) {
      i := SinceWitness(h, c, n - 1);
    } else {
      i := n - 1;
      assert i > 0 && Missing(h[i - 1], c) ==> Since(h, c, n - 1).Some?;
    }
  }

  /** What was said of the first n scans stays true. */
  lemma {:induction false} SinceExtends(h: seq<Scan>, s: Scan, c: string, n: nat)
    requires n <= |h|
    ensures Since(h + [s], c, n) == Since(h, c, n)
  {
    if n > 0 { SinceExtends(h, s, c, n - 1); }
  }

  /** The chassis is handed to cleanup by the last scan. */
  ghost predicate Due(h: seq<Scan>, c: string, effectiveGrace: int) {
    exists i :: AbsentSince(h, c, |h|, i) && h[|h| - 1].now - h[i].now >= effectiveGrace
  }

  lemma DueIff(h: seq<Scan>, c: string, effectiveGrace: int)
    requires h != []
    ensures Due(h, c, effectiveGrace) <==> Since(h, c, |h|).Some? && h[|h| - 1].now - Since(h, c, |h|).value >= effectiveGrace
  {
    if Since(h, c, |h|).Some? {
      var i := SinceWitness(h, c, |h|);
      SinceUnique(h, c, |h|, i);
    }
    forall i | AbsentSince(h, c, |h|, i) ensures Since(h, c, |h|) == Some(h[i].now) {
      SinceUnique(h, c, |h|, i);
    }
  }

  // ---------------------------------------------------------------------------
  // What cleanup may delete
  // ---------------------------------------------------------------------------

  /** A managed route whose tag names a stale chassis. */
  predicate StaleRoute(r: Route, stale: set<string>) {
    r.managed && r.chassis != "" && r.chassis in stale && r.attached
  }

  /** A live chassis holds a managed route on the port. */
  ghost predicate LivePort(routes: map<string, Route>, stale: set<string>, port: string) {
    exists u :: u in routes && routes[u].managed && routes[u].chassis != "" && routes[u].chassis !in stale && routes[u].outputPort == Some(port)
  }

  /** The binding is what a stale route's agent created, and no live chassis needs its port. */
  ghost predicate StaleBinding(routes: map<string, Route>, stale: set<string>, b: MACBinding) {
    && !LivePort(routes, stale, b.logicalPort)
    && exists u :: u in routes && StaleRoute(routes[u], stale) && routes[u].outputPort == Some(b.logicalPort) && routes[u].nexthop == b.ip
  }

  ghost predicate StaleKey(routes: map<string, Route>, stale: set<string>, done: set<string>, key: (string, string)) {
    && !LivePort(routes, stale, key.0)
    && exists u :: u in done && u in routes && StaleRoute(routes[u], stale) && routes[u].outputPort == Some(key.0) && routes[u].nexthop == key.1
  }

  /** The MAC binding keys of the stale routes seen so far. */
  ghost predicate KeysOf(routes: map<string, Route>, stale: set<string>, done: set<string>, keys: set<(string, string)>) {
    forall key :: key in keys <==> StaleKey(routes, stale, done, key)
  }

  /** Only stale routes among those seen are gone, and without a failure all of them. */
  ghost predicate Deleted(before: map<string, Route>, now: map<string, Route>, stale: set<string>, done: set<string>, allOk: bool) {
    && (forall u :: u in now ==> u in before && now[u] == before[u])
    && (forall u :: u in before && (u !in done || !StaleRoute(before[u], stale)) ==> u in now)
    && (allOk ==> forall u :: u in done && u in now ==> !StaleRoute(now[u], stale))
  }

  lemma NothingSeen(routes: map<string, Route>, stale: set<string>)
    ensures KeysOf(routes, stale, {}, {}) && Deleted(routes, routes, stale, {}, true)
  {
  }

  lemma KeysStep(routes: map<string, Route>, stale: set<string>, live: set<string>, done: set<string>, u: string, keys: set<(string, string)>)
    requires u in routes && KeysOf(routes, stale, done, keys) && forall p :: p in live <==> LivePort(routes, stale, p)
    ensures KeysOf(routes, stale, done + {u}, KeysWith(routes[u], stale, live, keys))
  {
    hide LivePort, StaleRoute;
    assert forall x :: x in done + {u} <==> x in done || x == u;
  }

  /** The keys with that of the route, if it is stale and no live chassis needs its port. */
  function KeysWith(r: Route, stale: set<string>, live: set<string>, keys: set<(string, string)>): set<(string, string)> {
    if StaleRoute(r, stale) && r.outputPort.Some? && r.outputPort.value !in live then keys + {(r.outputPort.value, r.nexthop)} else keys
  }

  lemma DeletedStep(before: map<string, Route>, was: map<string, Route>, now: map<string, Route>, stale: set<string>, done: set<string>, u: string,
                    allOk: bool, ok: bool)
    requires Deleted(before, was, stale, done, allOk) && u in before
    requires now == if StaleRoute(before[u], stale) && ok then was - {u} else was
    ensures Deleted(before, now, stale, done + {u}, allOk && (StaleRoute(before[u], stale) ==> ok))
  {
    hide StaleRoute;
  }

  /** Nothing was added or changed, and only rows of `gone` are missing. */
  ghost predicate OnlyRemoved<K(!new), V>(before: map<K, V>, after: map<K, V>, gone: K -> bool) {
    && (forall u :: u in after ==> u in before && after[u] == before[u])
    && (forall u :: u in before && !gone(u) ==> u in after)
  }

  class Agent {
    const gracePeriod: int
    const jitter: int
    var missingChassis: map<string, int>
    var routes: map<string, Route>
    var bindings: map<string, MACBinding>

    /** The tracker is what the history says. */
    ghost predicate After(h: seq<Scan>)
      reads this
    {
      forall c :: Tracked(h, c, |h|) == if c in missingChassis then Some(missingChassis[c]) else None
    }

    constructor (gracePeriod: int, jitter: int)
      ensures this.gracePeriod == gracePeriod && this.jitter == jitter
      ensures missingChassis == map[] && routes == map[] && bindings == map[] && After([])
    {
      this.gracePeriod, this.jitter := gracePeriod, jitter;
      missingChassis, routes, bindings := map[], map[], map[];
    }

    method ListManagedRouteChassis() returns (ok: bool, referenced: set<string>)
      ensures forall c :: c in referenced <==> ok && c != "" && exists u :: u in routes && routes[u].managed && routes[u].chassis == c
    {
      ok, referenced := *, {};
      if !ok {
        return;
      }
      var todo := routes.Keys;
      while todo != {}
        invariant todo <= routes.Keys
        invariant forall c :: c in referenced <==>
                    c != "" && exists u :: u in routes.Keys - todo && routes[u].managed && routes[u].chassis == c
        decreases |todo|
      {
        var u :| u in todo;
        todo := todo - {u};
        if routes[u].managed && routes[u].chassis != "" {
          referenced := referenced + {routes[u].chassis};
        }
      }
    }

    /** Adds newly missing chassis, forgets returned and unreferenced ones. */
    method UpdateMissing(referenced: set<string>, live: set<string>, now: int)
      modifies this`missingChassis
      ensures forall c :: c in missingChassis <==> c in referenced && c !in live
      ensures forall c :: c in missingChassis ==> missingChassis[c] == if c in old(missingChassis) then old(missingChassis)[c] else now
    {
      ghost var before := missingChassis;
      var todo := referenced;
      while todo != {}
        invariant todo <= referenced
        invariant forall c :: c in missingChassis <==> if c in referenced - todo then c !in live else c in before
        invariant forall c :: c in missingChassis ==> missingChassis[c] == if c in before then before[c] else now
        decreases |todo|
      {
        var c :| c in todo;
        todo := todo - {c};
        if c in live {
          if c in missingChassis {
            missingChassis := missingChassis - {c};
          }
        } else if c !in missingChassis {
          missingChassis := missingChassis[c := now];
        }
      }
      todo := missingChassis.Keys;
      while todo != {}
        invariant missingChassis.Keys <= before.Keys + referenced && todo <= missingChassis.Keys
        invariant forall c :: c in missingChassis && c !in todo ==> c in referenced
        invariant forall c :: c in referenced ==> (c in missingChassis <==> c !in live)
        invariant forall c :: c in missingChassis ==> missingChassis[c] == if c in before then before[c] else now
        decreases |todo|
      {
        var c :| c in todo;
        todo := todo - {c};
        if c !in referenced {
          missingChassis := missingChassis - {c};
        }
      }
    }

    method Overdue(now: int) returns (stale: set<string>)
      ensures forall c :: c in stale <==> c in missingChassis && now - missingChassis[c] >= gracePeriod + jitter
    {
      stale := {};
      var todo := missingChassis.Keys;
      while todo != {}
        invariant todo <= missingChassis.Keys
        invariant forall c :: c in stale <==> c in missingChassis.Keys - todo && now - missingChassis[c] >= gracePeriod + jitter
        decreases |todo|
      {
        var c :| c in todo;
        todo := todo - {c};
        if now - missingChassis[c] >= gracePeriod + jitter {
          stale := stale + {c};
        }
      }
    }

    /** A transaction that deletes one route with its reference, or fails. */
    method TransactDeleteRoute(u: string) returns (ok: bool)
      requires u in routes
      modifies this`routes
      ensures routes == if ok then old(routes) - {u} else old(routes)
    {
      ok := *;
      if ok {
        routes := routes - {u};
      }
    }

    method TransactDeleteBinding(u: string) returns (ok: bool)
      requires u in bindings
      modifies this`bindings
      ensures bindings == if ok then old(bindings) - {u} else old(bindings)
    {
      ok := *;
      if ok {
        bindings := bindings - {u};
      }
    }

    method LiveOutputPorts(stale: set<string>) returns (ports: set<string>)
      ensures forall p :: p in ports <==> LivePort(routes, stale, p)
    {
      ports := {};
      var todo := routes.Keys;
      while todo != {}
        invariant todo <= routes.Keys
        invariant forall p :: p in ports <==>
                    exists u :: u in routes.Keys - todo && routes[u].managed && routes[u].chassis != "" && routes[u].chassis !in stale
                                && routes[u].outputPort == Some(p)
        decreases |todo|
      {
        var u :| u in todo;
        todo := todo - {u};
        var r := routes[u];
        if r.managed && r.chassis != "" && r.chassis !in stale && r.outputPort.Some? {
          ports := ports + {r.outputPort.value};
        }
      }
    }

    /** Deletes the stale routes and collects the ports and next hops of their MAC bindings. */
    method DeleteStaleRoutes(stale: set<string>, live: set<string>) returns (keys: set<(string, string)>, allOk: bool)
      requires forall p :: p in live <==> LivePort(routes, stale, p)
      modifies this`routes
      ensures OnlyRemoved(old(routes), routes, u => u in old(routes) && StaleRoute(old(routes)[u], stale))
      ensures allOk ==> forall u :: u in routes ==> !StaleRoute(routes[u], stale)
      ensures forall key :: key in keys <==> StaleKey(old(routes), stale, old(routes).Keys, key)
    {
      hide LivePort, StaleKey, StaleRoute;
      ghost var before := routes;
      var listed := routes;
      keys, allOk := {}, true;
      ghost var done := {};
      var todo := listed.Keys;
      NothingSeen(before, stale);
      while todo != {}
        invariant todo <= before.Keys && done == before.Keys - todo && listed == before
        invariant Deleted(before, routes, stale, done, allOk) && KeysOf(before, stale, done, keys)
        decreases |todo|
      {
        hide Deleted, KeysOf;
        var u :| u in todo;
        var r := listed[u];
        ghost var was, wasOk := routes, allOk;
        KeysStep(before, stale, live, done, u, keys);
        var ok := true;
        if StaleRoute(r, stale) {
          if r.outputPort.Some? && r.outputPort.value !in live {
            keys := keys + {(r.outputPort.value, r.nexthop)};
          }
          ok := TransactDeleteRoute(u);
          allOk := allOk && ok;
        }
        DeletedStep(before, was, routes, stale, done, u, wasOk, ok);
        todo, done := todo - {u}, done + {u};
      }
      assert done == before.Keys;
    }

    method DeleteBindings(keys: set<(string, string)>) returns (allOk: bool)
      modifies this`bindings
      ensures OnlyRemoved(old(bindings), bindings, u => u in old(bindings) && (old(bindings)[u].logicalPort, old(bindings)[u].ip) in keys)
      ensures allOk ==> forall u :: u in bindings ==> (bindings[u].logicalPort, bindings[u].ip) !in keys
    {
      ghost var before := bindings;
      var listed := bindings;
      allOk := true;
      var todo := listed.Keys;
      while todo != {}
        invariant todo <= before.Keys && listed == before
        invariant forall u :: u in bindings ==> u in before && bindings[u] == before[u]
        invariant forall u :: u in before && (u in todo || (before[u].logicalPort, before[u].ip) !in keys) ==> u in bindings
        invariant allOk ==> forall u :: u in bindings && u !in todo ==> (bindings[u].logicalPort, bindings[u].ip) !in keys
        decreases |todo|
      {
        var u :| u in todo;
        todo := todo - {u};
        if (listed[u].logicalPort, listed[u].ip) in keys {
          var ok := TransactDeleteBinding(u);
          allOk := allOk && ok;
        }
      }
    }

    /**
     Deletes only managed routes tagged with a stale chassis, and only MAC bindings that match the
     port and next hop of such a route where no live chassis holds a managed route on the port.
     Without a failure all of them go.
     */
    method CleanupStaleChassisManagedEntries(stale: set<string>) returns (err: bool, allOk: bool)
      modifies this`routes, this`bindings
      ensures OnlyRemoved(old(routes), routes, u => u in old(routes) && StaleRoute(old(routes)[u], stale))
      ensures OnlyRemoved(old(bindings), bindings, u => u in old(bindings) && StaleBinding(old(routes), stale, old(bindings)[u]))
      ensures !err && allOk ==> (forall u :: u in routes ==> !StaleRoute(routes[u], stale))
                                && (forall u :: u in bindings ==> !StaleBinding(old(routes), stale, bindings[u]))
    {
      ghost var r0, b0 := routes, bindings;
      err, allOk := *, true;
      if err {
        return;
      }
      var live := LiveOutputPorts(stale);
      var keys, routesOk := DeleteStaleRoutes(stale, live);
      allOk := routesOk;
      forall b: MACBinding ensures (b.logicalPort, b.ip) in keys <==> StaleBinding(r0, stale, b) {
        assert (b.logicalPort, b.ip) in keys <==> StaleKey(r0, stale, r0.Keys, (b.logicalPort, b.ip));
      }
      if keys != {} {
        err := *;
        if err {
          return;
        }
        var bindingsOk := DeleteBindings(keys);
        allOk := allOk && bindingsOk;
      }
    }

    /** Other agents may write between two reads of the database. */
    method Others()
      modifies this`routes, this`bindings
    {
      routes, bindings := *, *;
    }

    /**
     One cycle. A chassis is handed to cleanup exactly when at every completed scan since a time
     at least grace plus jitter ago it was referenced and absent, and no cleanup of it succeeded
     in between. Of the rows the cleanup reads, nothing of any other chassis is deleted, and
     without a failure everything of the handed ones is. `r1` and `b1` are those rows.
     */
    method CleanupStaleChassis(now: int, allChassis: set<string>, ghost h: seq<Scan>)
      returns (ghost h': seq<Scan>, ghost r1: map<string, Route>, ghost b1: map<string, MACBinding>, ghost allOk: bool)
      requires After(h)
      modifies this`missingChassis, this`routes, this`bindings
      ensures After(h')
      ensures gracePeriod <= 0 ==> h' == h
      ensures h' == h ==> routes == old(routes) && bindings == old(bindings)
      ensures h' != h ==>
        && |h'| == |h| + 1 && h'[..|h|] == h && h'[|h|].now == now && h'[|h|].live == allChassis
        && (forall c :: c in h'[|h|].handed <==> Due(h', c, gracePeriod + jitter))
        && OnlyRemoved(r1, routes, u => u in r1 && StaleRoute(r1[u], h'[|h|].handed))
        && OnlyRemoved(b1, bindings, u => u in b1 && StaleBinding(r1, h'[|h|].handed, b1[u]))
        && (h'[|h|].cleaned && allOk ==>
              && (forall u :: u in routes ==> !StaleRoute(routes[u], h'[|h|].handed))
              && (forall u :: u in bindings ==> !StaleBinding(r1, h'[|h|].handed, bindings[u])))
    {
      h', r1, b1, allOk := h, routes, bindings, true;
      if gracePeriod <= 0 {
        return;
      }
      var ok, referenced := ListManagedRouteChassis();
      if !ok {
        return;
      }
      ghost var before := missingChassis;
      UpdateMissing(referenced, allChassis, now);
      var stale := Overdue(now);
      var cleaned := false;
      Others();
      r1, b1 := routes, bindings;
      if stale != {} {
        var err, done := CleanupStaleChassisManagedEntries(stale);
        cleaned, allOk := !err, done;
      }
      ghost var s := Scan(referenced, allChassis, now, stale, cleaned);
      h' := h + [s];
      ScanStep(h, s, before, missingChassis, gracePeriod + jitter);
      if cleaned {
        missingChassis := missingChassis - stale;
      }
    }
  }

  /** One scan as the history sees it. */
  lemma ScanStep(h: seq<Scan>, s: Scan, before: map<string, int>, after: map<string, int>, effectiveGrace: int)
    requires forall c :: Tracked(h, c, |h|) == if c in before then Some(before[c]) else None
    requires forall c :: c in after <==> Missing(s, c)
    requires forall c :: c in after ==> after[c] == if c in before then before[c] else s.now
    requires forall c :: c in s.handed <==> c in after && s.now - after[c] >= effectiveGrace
    ensures forall c :: Since(h + [s], c, |h| + 1) == if c in after then Some(after[c]) else None
    ensures forall c :: c in s.handed <==> Due(h + [s], c, effectiveGrace)
  {
    var more := h + [s];
    forall c ensures Since(more, c, |h| + 1) == (if c in after then Some(after[c]) else None)
      ensures c in s.handed <==> Due(more, c, effectiveGrace)
    {
      SinceExtends(h, s, c, |h|);
      assert Tracked(h, c, |h|) == if c in before then Some(before[c]) else None;
      DueIff(more, c, effectiveGrace);
    }
  }
}
