/**
 The takeover handshake over whole runs of many chassis. A chassis that stops drains, waits for
 the markers of the default routes it used to own and then cleans up; a chassis that takes over
 marks a route only in a reconcile cycle whose route sync was ready. Any process may end and
 start anew at any moment. The last section ties the steps to the code.
 */
module TakeoverProtocol {
  import opened Common
  import PriorityLead
  import RouteSync
  import Takeover

  /** Where the shutdown of a chassis is. */
  datatype Phase =
    | Leaving                      // it no longer reconciles; the drain has read nothing yet
    | Lowering                     // it has rows to lower
    | Migrating                    // its priorities are lowered, the ports are leaving
    | Migrated
    | Waiting(wait: set<string>)   // it polls the markers of these routes
    | Cleaning(released: bool)     // the cleanup is reached, after a release or without one

  datatype State = State(
    markers: map<string, string>,  // default route UUID -> takeover marker, "" when unstamped
    used: set<string>,             // UUIDs handed out so far; the server never reuses one
    ready: set<string>,            // chassis whose running cycle had a ready route sync
    phase: map<string, Phase>      // of the chassis that are shutting down
  )

  datatype Event =
    | Begin(c: string)                                               // a reconcile cycle starts
    | Sync(c: string, ok: bool)                                      // its ensureRoutes returned ready == ok
    | Mark(c: string, routes: set<string>)                           // MarkTakeoverReady committed
    | Create(uuid: string)                                           // a default route row appears, unstamped
    | Delete(uuid: string)                                           // a default route row is gone
    | Stop(c: string, drain: bool)                                   // the main loop ends, with or without a drain
    | Candidates(c: string, found: Option<bool>)                     // the drain read its rows: whether any is to be lowered
    | Lower(c: string, ok: bool)                                     // the priority transaction
    | Bindings(c: string, remaining: Option<nat>)                    // a read of the ports still bound here
    | Resolve(c: string, hold: bool, wait: Option<set<string>>)      // the handshake starts, or is disabled
    | Poll(c: string, read: bool)                                    // a read of the markers
    | Deadline(c: string)                                            // the drain timeout
    | Restart(c: string)                                             // the process of c ended, however it did, and starts anew

  /** What a step of a chassis needs of its own phase. */
  predicate Acts(p: Option<Phase>, e: Event) {
    match e
    case Begin(c) => c != "" && p.None?
    case Sync(c, _) => c != "" && p.None?
    case Mark(c, _) => c != "" && p.None?
    case Stop(c, _) => c != "" && p.None?
    case Candidates(_, _) => p == Some(Leaving)
    case Lower(_, _) => p == Some(Lowering)
    case Bindings(_, _) => p == Some(Migrating)
    case Resolve(_, _, _) => p == Some(Migrated)
    case Poll(_, _) => p.Some? && p.value.Waiting?
    case Deadline(_) => p == Some(Migrating) || (p.Some? && p.value.Waiting?)
    case _ => true
  }

  /** The shutdown of the chassis that takes the step; `markers` is what a poll reads. */
  ghost function PhaseAfter(p: Option<Phase>, e: Event, markers: map<string, string>): Option<Phase>
    requires Acts(p, e)
  {
    match e
    case Stop(_, drain) => Some(if drain then Leaving else Cleaning(false))
    case Candidates(_, found) => Some(if found == Some(true) then Lowering else Cleaning(false))
    case Lower(_, ok) => Some(if ok then Migrating else Cleaning(false))
    case Bindings(_, remaining) => Some(if remaining.None? then Cleaning(false) else if remaining.value == 0 then Migrated else Migrating)
    case Resolve(_, hold, wait) => Some(if hold && wait.Some? && wait.value != {} then Waiting(wait.value) else Cleaning(false))
    case Poll(c, read) => if read && Takeover.AllHandedOver(markers, p.value.wait, c) then Some(Cleaning(true)) else p
    case Deadline(_) => Some(Cleaning(false))
    case Restart(_) => None
    case _ => p
  }

  function PhaseOf(s: State, c: string): Option<Phase> {
    if c in s.phase then Some(s.phase[c]) else None
  }

  predicate OfChassis(e: Event) {
    !e.Create? && !e.Delete?
  }

  /** The guards are those of the code: the writer runs only after a ready sync of the same cycle, and never while stopping. */
  predicate Enabled(s: State, e: Event) {
    && (OfChassis(e) ==> Acts(PhaseOf(s, e.c), e))
    && match e
       case Mark(c, routes) => c in s.ready && routes <= s.markers.Keys
       case Create(uuid) => uuid !in s.used
       case Delete(uuid) => uuid in s.markers
       case Resolve(c, _, wait) => wait.Some? ==> wait.value <= s.markers.Keys
       case _ => true
  }

  function WithPhase(phase: map<string, Phase>, c: string, p: Option<Phase>): map<string, Phase> {
    if p.Some? then phase[c := p.value] else phase - {c}
  }

  function Marked(markers: map<string, string>, c: string, routes: set<string>): map<string, string> {
    map u | u in markers :: if u in routes then c else markers[u]
  }

  ghost function After(s: State, e: Event): State
    requires Enabled(s, e)
  {
    match e
    case Begin(c) => s.(ready := s.ready - {c})
    case Sync(c, ok) => s.(ready := if ok then s.ready + {c} else s.ready - {c})
    case Mark(c, routes) => s.(markers := Marked(s.markers, c, routes))
    case Create(uuid) => s.(markers := s.markers[uuid := ""], used := s.used + {uuid})
    case Delete(uuid) => s.(markers := s.markers - {uuid})
    case _ => s.(phase := WithPhase(s.phase, e.c, PhaseAfter(PhaseOf(s, e.c), e, s.markers)), ready := s.ready - {e.c})
  }

  ghost predicate Valid(s: State) {
    s.markers.Keys <= s.used && s.ready !! s.phase.Keys
  }

  ghost predicate Steps(states: seq<State>, events: seq<Event>) {
    && |states| == |events| + 1
    && forall i :: 0 <= i < |events| ==> Enabled(states[i], events[i]) && states[i + 1] == After(states[i], events[i])
  }

  /** A run from a state where nobody is inside a cycle or shutting down. */
  ghost predicate Run(states: seq<State>, events: seq<Event>) {
    Steps(states, events) && Valid(states[0]) && states[0].ready == {} && states[0].phase == map[]
  }

  // ---------------------------------------------------------------------------
  // What a mark means
  // ---------------------------------------------------------------------------

  /** d's cycle had a ready sync at j and was still the running cycle before n. */
  ghost predicate ReadySince(events: seq<Event>, d: string, j: nat, n: nat)
    requires n <= |events|
  {
    && j < n && events[j] == Sync(d, true)
    && forall i :: j < i < n && OfChassis(events[i]) && events[i].c == d ==> events[i].Mark?
  }

  lemma {:induction false} ReadyMeansSynced(states: seq<State>, events: seq<Event>, d: string, n: nat)
    requires Run(states, events) && n < |states| && d in states[n].ready
    ensures exists j :: ReadySince(events, d, j, n)
  {
    var e := events[n - 1];
    if e != Sync(d, true) {
      ReadyMeansSynced(states, events, d, n - 1);
      var j :| ReadySince(events, d, j, n - 1);
      assert ReadySince(events, d, j, n);
    } else {
      assert ReadySince(events, d, n - 1, n);
    }
  }

  /** Route u was stamped by d after step m and before n, in a cycle whose ensureRoutes was ready. */
  ghost predicate Vouched(events: seq<Event>, u: string, d: string, m: nat, n: nat)
    requires n <= |events|
  {
    exists k, j :: m < k < n && events[k].Mark? && events[k].c == d && u in events[k].routes && ReadySince(events, d, j, k)
  }

  ghost predicate StillOwn(markers: map<string, string>, u: string, c: string) {
    u in markers && (markers[u] == "" || markers[u] == c)
  }

  /** A marker that names another chassis than c, where it did not at step m, has been vouched for since. */
  lemma {:induction false} MarkersSince(states: seq<State>, events: seq<Event>, m: nat, n: nat, c: string, u: string)
    requires Run(states, events) && m <= n < |states|
    requires m == n || !events[m].Mark?
    requires u in states[m].markers ==> StillOwn(states[m].markers, u, c)
    ensures u in states[n].markers ==> StillOwn(states[n].markers, u, c) || Vouched(events, u, states[n].markers[u], m, n)
    decreases n
  {
    if n > m {
      MarkersSince(states, events, m, n - 1, c, u);
      var e := events[n - 1];
      if e.Mark? && u in e.routes {
        ReadyMeansSynced(states, events, e.c, n - 1);
        var j :| ReadySince(events, e.c, j, n - 1);
        assert Vouched(events, u, e.c, m, n);
      } else if u in states[n].markers && !StillOwn(states[n].markers, u, c) {
        var d := states[n].markers[u];
        var k, j :| m < k < n - 1 && events[k].Mark? && events[k].c == d && u in events[k].routes && ReadySince(events, d, j, k);
        assert Vouched(events, u, d, m, n);
      }
    }
  }

  // ---------------------------------------------------------------------------
  // The shutdown of one chassis
  // ---------------------------------------------------------------------------

  ghost predicate NoRestart(events: seq<Event>, c: string, m: nat, n: nat)
    requires n <= |events|
  {
    forall i :: m < i < n ==> events[i] != Restart(c)
  }

  /** c stopped at m, and its process has not been started anew before n. */
  ghost predicate StoppedAt(states: seq<State>, events: seq<Event>, c: string, m: nat, n: nat) {
    Run(states, events) && m < n < |states| && events[m].Stop? && events[m].c == c && NoRestart(events, c, m, n)
  }

  /** A read of the markers showed every awaited route handed over. */
  ghost predicate Releases(states: seq<State>, events: seq<Event>, c: string, r: nat) {
    && r < |events| && r < |states| && events[r] == Poll(c, true) && c in states[r].phase && states[r].phase[c].Waiting?
    && Takeover.AllHandedOver(states[r].markers, states[r].phase[c].wait, c)
  }

  /**
   A step that sends the chassis to its cleanup without the handshake: draining is off, a read or
   the priority write failed, nothing is to be lowered, the handshake is disabled, no route
   is awaited, or the deadline passed.
   */
  predicate CutsShort(e: Event, c: string) {
    match e
    case Stop(d, drain) => d == c && !drain
    case Candidates(d, found) => d == c && found != Some(true)
    case Lower(d, ok) => d == c && !ok
    case Bindings(d, remaining) => d == c && remaining.None?
    case Resolve(d, hold, wait) => d == c && (!hold || wait.None? || wait.value == {})
    case Deadline(d) => d == c
    case _ => false
  }

  ghost predicate CutShort(events: seq<Event>, c: string, m: nat, n: nat)
    requires n <= |events|
  {
    exists k :: m <= k < n && CutsShort(events[k], c)
  }

  /** The phase of a stopped chassis tells what happened since it stopped. */
  ghost predicate PhaseTells(states: seq<State>, events: seq<Event>, c: string, m: nat, n: nat)
    requires n < |states| && n <= |events|
  {
    && c in states[n].phase
    && (states[n].phase[c] == Cleaning(false) <==> CutShort(events, c, m, n))
    && (states[n].phase[c] == Cleaning(true) ==> exists r: nat :: m < r < n && Releases(states, events, c, r))
    && (states[n].phase[c].Waiting? ==> exists q: nat :: m < q < n && events[q] == Resolve(c, true, Some(states[n].phase[c].wait)))
  }

  lemma CutShortStep(events: seq<Event>, c: string, m: nat, n: nat)
    requires m <= n < |events|
    ensures CutShort(events, c, m, n + 1) <==> CutShort(events, c, m, n) || CutsShort(events[n], c)
  {
    assert m <= n < n + 1;
  }

  lemma {:induction false} ShutdownSince(states: seq<State>, events: seq<Event>, m: nat, n: nat, c: string)
    requires StoppedAt(states, events, c, m, n)
    ensures PhaseTells(states, events, c, m, n)
    decreases n
  {
    CutShortStep(events, c, m, n - 1);
    if n == m + 1 {
      assert !CutShort(events, c, m, m);
    } else {
      ShutdownSince(states, events, m, n - 1, c);
      PhaseStep(states, events, m, n - 1, c);
    }
  }

  lemma PhaseStep(states: seq<State>, events: seq<Event>, m: nat, n: nat, c: string)
    requires Run(states, events) && m < n < |events| && events[n] != Restart(c) && PhaseTells(states, events, c, m, n)
    requires CutShort(events, c, m, n + 1) <==> CutShort(events, c, m, n) || CutsShort(events[n], c)
    ensures PhaseTells(states, events, c, m, n + 1)
  {
    var s, e := states[n], events[n];
    hide CutShort, Takeover.AllHandedOver;
    if OfChassis(e) && e.c == c {
      if Releases(states, events, c, n) {
        assert states[n + 1].phase[c] == Cleaning(true);
      }
    } else {
      assert states[n + 1].phase[c] == s.phase[c];
    }
  }

  /** A stopped chassis marks nothing. */
  lemma StoppedIsSilent(states: seq<State>, events: seq<Event>, m: nat, n: nat, c: string)
    requires StoppedAt(states, events, c, m, n) && n < |events|
    ensures !(events[n].Mark? && events[n].c == c)
  {
    ShutdownSince(states, events, m, n, c);
  }

  /**
   Exactly when the cleanup is reached without a release: some step since the chassis stopped
   cut the handshake short. Otherwise a poll released it.
   */
  lemma CleanupWithoutReleaseIff(states: seq<State>, events: seq<Event>, m: nat, n: nat, c: string)
    requires StoppedAt(states, events, c, m, n) && c in states[n].phase && states[n].phase[c].Cleaning?
    ensures !states[n].phase[c].released <==> exists k :: m <= k < n && CutsShort(events[k], c)
    ensures states[n].phase[c].released ==> exists r: nat :: m < r < n && Releases(states, events, c, r)
  {
    ShutdownSince(states, events, m, n, c);
  }

  /** What c resolved to wait for was its own or unstamped when it stopped, or did not exist yet. */
  ghost predicate WaitsForItsOwn(states: seq<State>, events: seq<Event>, c: string, m: nat, n: nat)
    requires |states| > m && n <= |events|
  {
    forall q, u :: m < q < n && events[q].Resolve? && events[q].c == c && events[q].wait.Some? && u in events[q].wait.value && u in states[m].markers ==>
      StillOwn(states[m].markers, u, c)
  }

  /** Each awaited route is gone, or carries the mark of another chassis, made since m in a cycle with a ready route sync. */
  ghost predicate AllVouched(states: seq<State>, events: seq<Event>, c: string, wait: set<string>, m: nat, r: nat)
    requires r < |states| && r <= |events|
  {
    forall u :: u in wait && u in states[r].markers ==> states[r].markers[u] != c && Vouched(events, u, states[r].markers[u], m, r)
  }

  /**
   The handshake: if the awaited routes were the stopping chassis's own or unstamped when it
   stopped, its release means that each of them is gone or was marked since then by another
   chassis, whose route sync was ready. Marks made while the ports still migrate count.
   */
  lemma ReleaseIsVouched(states: seq<State>, events: seq<Event>, m: nat, r: nat, c: string)
    requires StoppedAt(states, events, c, m, r) && Releases(states, events, c, r) && WaitsForItsOwn(states, events, c, m, r)
    ensures AllVouched(states, events, c, states[r].phase[c].wait, m, r)
  {
    ShutdownSince(states, events, m, r, c);
    var wait := states[r].phase[c].wait;
    var q: nat :| m < q < r && events[q] == Resolve(c, true, Some(wait));
    forall u | u in wait && u in states[r].markers
      ensures states[r].markers[u] != c && Vouched(events, u, states[r].markers[u], m, r)
    {
      assert u in states[m].markers ==> StillOwn(states[m].markers, u, c);
      MarkersSince(states, events, m, r, c, u);
      assert Takeover.HandedOver(states[r].markers, u, c);
    }
  }

  /** On every run in which nothing cuts the handshake short, the cleanup is reached only after a vouched release. */
  lemma CleanupIsVouched(states: seq<State>, events: seq<Event>, m: nat, n: nat, c: string) returns (r: nat)
    requires StoppedAt(states, events, c, m, n) && c in states[n].phase && states[n].phase[c].Cleaning?
    requires WaitsForItsOwn(states, events, c, m, n) && !CutShort(events, c, m, n)
    ensures m < r < n && Releases(states, events, c, r) && AllVouched(states, events, c, states[r].phase[c].wait, m, r)
  {
    ShutdownSince(states, events, m, n, c);
    r :| m < r < n && Releases(states, events, c, r);
    ReleaseIsVouched(states, events, m, r, c);
  }

  /** The first poll releases exactly when no awaited route is the chassis's own or unstamped by then. */
  lemma ReleasedAtOnce(s: State, c: string, wait: set<string>)
    requires Valid(s) && wait != {} && Enabled(s, Resolve(c, true, Some(wait)))
    ensures var t := After(s, Resolve(c, true, Some(wait)));
      && Enabled(t, Poll(c, true))
      && (After(t, Poll(c, true)).phase[c] == Cleaning(true) <==> forall u :: u in wait ==> !StillOwn(s.markers, u, c))
  {
    var t := After(s, Resolve(c, true, Some(wait)));
    if After(t, Poll(c, true)).phase[c] == Cleaning(true) {
      forall u | u in wait ensures !StillOwn(s.markers, u, c) { assert Takeover.HandedOver(t.markers, u, c); }
    }
  }

  // ---------------------------------------------------------------------------
  // The code of the steps
  // ---------------------------------------------------------------------------

  /** What one transaction of the writer did: it stamped exactly these rows. */
  ghost predicate Stamped(before: seq<Takeover.StaticRoute>, after: seq<Takeover.StaticRoute>, written: set<nat>, c: string) {
    && |after| == |before| && (forall i :: i in written ==> i < |before|)
    && forall i: nat :: i < |after| ==>
      after[i] == if i in written then before[i].(externalIDs := before[i].externalIDs[Takeover.MARKER_KEY := c]) else before[i]
  }

  ghost function UUIDs(routes: seq<Takeover.StaticRoute>, rows: set<nat>): set<string>
    requires forall i :: i in rows ==> i < |routes|
  {
    set i | i in rows :: routes[i].uuid
  }

  lemma MarkRefinesRow(before: seq<Takeover.StaticRoute>, after: seq<Takeover.StaticRoute>, written: set<nat>, c: string, i: nat)
    requires Takeover.UniqueUUIDs(before) && Stamped(before, after, written, c) && i < |before|
    ensures after[i].uuid == before[i].uuid && (before[i].uuid in UUIDs(before, written) <==> i in written)
    ensures Takeover.Get(after[i].externalIDs, Takeover.MARKER_KEY)
         == if i in written then c else Takeover.Get(before[i].externalIDs, Takeover.MARKER_KEY)
  {
  }

  /** The writer's transaction is a mark of the rows it wrote. */
  lemma MarkRefines(before: seq<Takeover.StaticRoute>, after: seq<Takeover.StaticRoute>, written: set<nat>, c: string)
    requires Takeover.UniqueUUIDs(before) && Stamped(before, after, written, c)
    ensures Takeover.UniqueUUIDs(after)
    ensures Takeover.MarkersOf(after) == Marked(Takeover.MarkersOf(before), c, UUIDs(before, written))
  {
    forall i: nat | i < |before| ensures after[i].uuid == before[i].uuid {
      MarkRefinesRow(before, after, written, c, i);
    }
    Takeover.MarkersMean(before);
    Takeover.MarkersMean(after);
    var was, now, want := Takeover.MarkersOf(before), Takeover.MarkersOf(after), Marked(Takeover.MarkersOf(before), c, UUIDs(before, written));
    hide Takeover.MarkersOf, Stamped, UUIDs, Takeover.Get;
    forall u | u in now || u in was ensures u in now && u in was && now[u] == want[u] {
      var r :| (r in before || r in after) && r.uuid == u;
      var i: nat :| i < |before| && (before[i] == r || after[i] == r);
      assert before[i] in before && after[i] in after;
      MarkRefinesRow(before, after, written, c, i);
    }
    assert now.Keys == was.Keys;
  }

  lemma Synced(s: State, c: string, ready: bool) returns (states: seq<State>, events: seq<Event>)
    requires c != "" && c !in s.phase
    ensures Steps(states, events) && |states| == 3 && |events| == 2 && states[0] == s && states[2].markers == s.markers
    ensures events[0] == Begin(c) && events[1] == Sync(c, ready)
    ensures ready ==> Enabled(states[2], Mark(c, {}))
  {
    events := [Begin(c), Sync(c, ready)];
    var s1 := After(s, Begin(c));
    states := [s, s1, After(s1, Sync(c, ready))];
  }

  lemma WrittenAreListed(before: seq<Takeover.StaticRoute>, after: seq<Takeover.StaticRoute>, written: set<nat>, c: string)
    requires Takeover.UniqueUUIDs(before) && Stamped(before, after, written, c)
    ensures UUIDs(before, written) <= Takeover.MarkersOf(before).Keys
  {
    Takeover.MarkersMean(before);
    hide Takeover.MarkersOf;
    forall i | i in written ensures before[i].uuid in Takeover.MarkersOf(before) { assert before[i] in before; }
  }

  lemma MarkedAfter(states: seq<State>, events: seq<Event>, before: seq<Takeover.StaticRoute>, after: seq<Takeover.StaticRoute>, written: set<nat>,
                    c: string)
    returns (states': seq<State>, events': seq<Event>)
    requires Takeover.UniqueUUIDs(before) && Stamped(before, after, written, c)
    requires Steps(states, events) && |states| == |events| + 1 && states[|events|].markers == Takeover.MarkersOf(before)
    requires Enabled(states[|events|], Mark(c, {}))
    ensures Steps(states', events') && |events'| == |events| + 1 && |states'| == |states| + 1
    ensures events' == events + [Mark(c, UUIDs(before, written))] && states'[0] == states[0]
    ensures states'[|events'|].markers == Takeover.MarkersOf(after)
  {
    MarkRefines(before, after, written, c);
    WrittenAreListed(before, after, written, c);
    hide Stamped, UUIDs, Takeover.MarkersOf, Takeover.UniqueUUIDs;
    var e := Mark(c, UUIDs(before, written));
    events', states' := events + [e], states + [After(states[|events|], e)];
  }

  /**
   One reconcile cycle is the steps Begin, Sync and, if the sync was ready, Mark of the protocol.
   When it marks anything, every FRR static is configured and every desired IP has its kernel
   route.
   */
  method ReconcileCycle(rm: RouteSync.RouteManager, nb: Takeover.NorthboundRoutes, d: RouteSync.Desired,
                        localRouters: seq<Takeover.LocalRouter>, c: string, ghost s: State)
    returns (ghost states: seq<State>, ghost events: seq<Event>)
    requires rm.Valid() && d.Nested() && forall ip :: ip in d.ips ==> rm.isV4(ip)
    requires Takeover.UniqueUUIDs(nb.routes) && s.markers == Takeover.MarkersOf(nb.routes) && c != "" && c !in s.phase
    modifies rm, nb
    ensures Steps(states, events) && states[0] == s && states[|events|].markers == Takeover.MarkersOf(nb.routes)
    ensures |events| >= 2 && events[0] == Begin(c) && events[1].Sync? && events[1].c == c
    ensures |events| > 2 ==> |events| == 3 && events[2].Mark? && events[2].c == c
    ensures |events| > 2 ==> Elems(d.frrStatic) <= rm.frr && (!rm.portForwardOnly ==> d.KernelServed(rm.kernel))
    ensures nb.routes != old(nb.routes) ==> |events| > 2
  {
    ghost var before := nb.routes;
    var res, _ := rm.EnsureRoutes(d);
    hide Takeover.UniqueUUIDs, Takeover.MarkersOf, Stamped, Steps, Elems;
    states, events := Synced(s, c, res.ready);
    if res.ready && localRouters != [] {
      var ok, written := nb.MarkTakeoverReady(localRouters, c);
      if ok && written != {} {
        states, events := MarkedAfter(states, events, before, nb.routes, written, c);
      } else {
        assert nb.routes == before;
      }
    }
  }

  /** The steps one chassis takes: `views` are the markers its reads saw, `phases` where its shutdown is before and after each step. */
  datatype Trail = Trail(phases: seq<Option<Phase>>, events: seq<Event>, views: seq<map<string, string>>)
  {
    ghost predicate Valid() {
      && |phases| == |events| + 1 && |views| == |events| && phases[0] == None
      && forall i :: 0 <= i < |events| ==> Acts(phases[i], events[i]) && phases[i + 1] == PhaseAfter(phases[i], events[i], views[i])
    }

    ghost predicate At(p: Phase) {
      Valid() && phases[|events|] == Some(p)
    }

    ghost function Then(e: Event, view: map<string, string>): Trail
      requires Valid() && Acts(phases[|events|], e)
      ensures Then(e, view).Valid() && events < Then(e, view).events
      ensures Then(e, view).phases[|events| + 1] == PhaseAfter(phases[|events|], e, view) && |Then(e, view).events| == |events| + 1
    {
      Trail(phases + [PhaseAfter(phases[|events|], e, view)], events + [e], views + [view])
    }
  }

  lemma AtStep(t: Trail, p: Phase, e: Event, view: map<string, string>)
    requires t.At(p) && Acts(Some(p), e) && PhaseAfter(Some(p), e, view).Some?
    ensures t.Valid() && Acts(t.phases[|t.events|], e) && t.Then(e, view).At(PhaseAfter(Some(p), e, view).value)
  {
  }

  /** What the waits of the shutdown read, in order: None is a failed read, and the lists end where the deadline passes. */
  datatype Inputs = Inputs(bindings: seq<Option<nat>>, listed: Option<seq<Takeover.StaticRoute>>,
                           polls: seq<Option<seq<Takeover.StaticRoute>>>)

  function ViewOf(read: Option<seq<Takeover.StaticRoute>>): map<string, string> {
    if read.Some? then Takeover.MarkersOf(read.value) else map[]
  }

  /** The wait for the ports to migrate; a failed read or the deadline ends the drain. */
  method AwaitMigration(c: string, bindings: seq<Option<nat>>, ghost t0: Trail) returns (migrated: bool, ghost t: Trail)
    requires t0.At(Migrating)
    ensures t.At(if migrated then Migrated else Cleaning(false))
  {
    t := t0;
    for k := 0 to |bindings|
      invariant t.At(Migrating)
    {
      hide Trail.At, Trail.Then;
      ghost var e := Bindings(c, bindings[k]);
      AtStep(t, Migrating, e, map[]);
      t := t.Then(e, map[]);
      if bindings[k].None? {
        return false, t;
      }
      if bindings[k].value == 0 {
        return true, t;
      }
    }
    AtStep(t, Migrating, Deadline(c), map[]);
    return false, t.Then(Deadline(c), map[]);
  }

  /** Polls that release nothing leave the protocol waiting. */
  lemma {:induction false} PollsWait(c: string, wait: set<string>, polls: seq<Option<seq<Takeover.StaticRoute>>>, t0: Trail) returns (t: Trail)
    requires t0.At(Waiting(wait)) && Takeover.NotYet(polls, wait, c)
    ensures t.At(Waiting(wait))
  {
    t := t0;
    if polls != [] {
      var last := polls[|polls| - 1];
      assert Takeover.NotYet(polls[..|polls| - 1], wait, c);
      t := PollsWait(c, wait, polls[..|polls| - 1], t0);
      AtStep(t, Waiting(wait), Poll(c, last.Some?), ViewOf(last));
      t := t.Then(Poll(c, last.Some?), ViewOf(last));
    }
  }

  /** The reader of the code takes the protocol's steps: its release is the protocol's, by the same read. */
  lemma ReleaseRefines(c: string, hold: bool, wait: Option<set<string>>, outcome: Takeover.Outcome, input: Inputs, t0: Trail) returns (t: Trail)
    requires t0.At(Migrated)
    requires outcome == Takeover.Disabled <==> !hold
    requires outcome == Takeover.MarginOnly <==> hold && (wait.None? || wait.value == {})
    requires outcome.Released? ==>
      && wait.Some? && outcome.poll < |input.polls| && input.polls[outcome.poll].Some?
      && Takeover.AllHandedOver(Takeover.MarkersOf(input.polls[outcome.poll].value), wait.value, c)
      && Takeover.NotYet(input.polls[..outcome.poll], wait.value, c)
    requires outcome == Takeover.Deadline ==> wait.Some? && Takeover.NotYet(input.polls, wait.value, c)
    ensures t.At(Cleaning(outcome.Released?))
  {
    hide Trail.At, Trail.Then, Takeover.NotYet, Takeover.MarkersOf;
    AtStep(t0, Migrated, Resolve(c, hold, wait), map[]);
    t := t0.Then(Resolve(c, hold, wait), map[]);
    match outcome {
      case Released(k) =>
        t := PollsWait(c, wait.value, input.polls[..k], t);
        AtStep(t, Waiting(wait.value), Poll(c, true), ViewOf(input.polls[k]));
        t := t.Then(Poll(c, true), ViewOf(input.polls[k]));
      case Deadline =>
        t := PollsWait(c, wait.value, input.polls, t);
        AtStep(t, Waiting(wait.value), Deadline(c), map[]);
        t := t.Then(Deadline(c), map[]);
      case _ =>
    }
  }

  /**
   The shutdown branch up to the cleanup, with the drain and its two waits: every step is one of
   the protocol, and the handshake releases the code exactly when it releases the chassis
   there. Whether there is anything to lower, whether it was lowered and which ports are left
   out of the wait is what the drain's own priority step says; `gateways` and `localRouters`
   are the gateway ports and the routers of the frozen state.
   */
  method ShutDown(c: string, drain: bool, input: Inputs, settleDelay: int, db: PriorityLead.NorthboundDB, gateways: seq<PriorityLead.LocalRouter>,
                  routers: seq<Takeover.Router>, localRouters: seq<Takeover.LocalRouter>)
    returns (released: bool, ghost t: Trail, ghost sole: set<string>, ghost soleLRPs: set<string>)
    requires c != ""
    modifies db
    ensures t.At(Cleaning(released))
    ensures drain ==> forall u :: u in sole <==> PriorityLead.IsSole(gateways, u)
    ensures drain ==> forall l :: l in soleLRPs <==> PriorityLead.IsSoleLRP(gateways, l)
    ensures db.rows == old(db.rows) || (drain && db.rows == PriorityLead.Drained(old(db.rows), c, sole))
    ensures released ==> drain && db.rows != old(db.rows)
    ensures released ==> exists k, wait ::
      && 0 <= k < |input.polls| && input.polls[k].Some?
      && Takeover.WaitSet(routers, localRouters, soleLRPs, input.listed, wait) && Takeover.AllHandedOver(ViewOf(input.polls[k]), wait, c)
  {
    hide Takeover.WaitSet, Takeover.AllHandedOver, Takeover.NotYet, PriorityLead.IsSole, PriorityLead.IsSoleLRP;
    sole, soleLRPs := {}, {};
    t := Trail([None], [], []).Then(Stop(c, drain), map[]);
    if !drain {
      released := false;
      return;
    }
    var found, lowered, skip;
    found, lowered, skip, sole := db.DrainPriorities(gateways, c);
    soleLRPs := skip;
    t := t.Then(Candidates(c, found), map[]);
    if found != Some(true) {
      released := false;
      return;
    }
    t := t.Then(Lower(c, lowered), map[]);
    if !lowered {
      released := false;
      return;
    }
    var migrated;
    migrated, t := AwaitMigration(c, input.bindings, t);
    if !migrated {
      released := false;
      return;
    }
    var outcome, wait := Takeover.AwaitTakeoverReady(settleDelay, routers, localRouters, skip, input.listed, input.polls, c);
    t := ReleaseRefines(c, settleDelay > 0, Some(wait), outcome, input, t);
    released := outcome.Released?;
  }
}
