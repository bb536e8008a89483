/**
 The path of an OVN change from the clients' caches to a reconcile: the event handlers of the
 southbound and the northbound client, the refresh loop and the reconcile loop run concurrently
 and talk through channels of capacity 1, timers and atomics. One step of a run is one atomic
 action of one of them. A run starts after startup, when the refresh loop and the reconcile loop
 wait on empty channels.
 */
module RefreshLoop {
  import opened Common

  /** The two databases, each with its own client and event handler. */
  datatype Client = SB | NB

  /** What a change asks for: southbound chassisredirect changes bypass the debouncing. */
  datatype Kind = Debounced | Immediate

  /** How many changes of each database. */
  datatype Seen = Seen(sb: nat, nb: nat) {
    function Of(client: Client): nat {
      if client.SB? then sb else nb
    }
  }

  /** The southbound handler, at its oldest unsignalled change; `gen` is the refresh counter it loaded. */
  datatype Handler = Waiting | Loaded(gen: nat) | Stamped

  /** The refresh loop; `sees` counts the changes applied before the pass read anything. */
  datatype Loop =
    | Selecting
    | Starting(kind: Kind)
    | Refreshing(kind: Kind, pass: nat, sees: Seen)
    | Refreshed(kind: Kind)

  datatype Reconciler = Idle | Taken | Snapped(gen: nat, seen: Seen)

  /** A chassisredirect change (its number among the southbound ones) and the refresh counter when it was observed. */
  datatype Observation = Observation(change: nat, gen: nat)

  datatype State = State(
    sb: seq<Kind>,
    nb: nat,
    handled: Seen,
    handler: Handler,
    debounceCh: bool,
    immediateCh: bool,
    reconcileCh: bool,
    debounceTimer: bool,
    reconcileTimer: bool,
    loop: Loop,
    refreshSeq: nat,
    gen: nat,
    published: Seen,
    reconciler: Reconciler,
    snapshot: Seen,
    observed: Option<Observation>,
    lastFailed: bool)
  {
    /** The changes in both caches. */
    function Applied(): Seen {
      Seen(|sb|, nb)
    }
  }

  const START := State([], 0, Seen(0, 0), Waiting, false, false, false, false, false, Selecting, 0, 0, Seen(0, 0), Idle, Seen(0, 0), None, false)

  datatype Event =
    | Apply(kind: Kind)
    | ApplyNB
    | SignalDebounced
    | SignalNB
    | LoadCounter
    | Stamp
    | SignalImmediate
    | TakeDebounce
    | FireDebounce
    | TakeImmediate
    | Begin
    | Publish
    | Fail
    | ArmReconcile
    | NotifyReconcile
    | FireReconcile
    | TakeReconcile
    | Tick
    | Snapshot
    | TakeObservation

  /** The southbound change whose handler runs now. */
  predicate Handling(s: State, kind: Kind) {
    s.handled.sb < |s.sb| && s.sb[s.handled.sb] == kind
  }

  predicate Enabled(s: State, e: Event) {
    match e
    case Apply(kind) => true
    case ApplyNB => true
    case SignalNB => s.handled.nb < s.nb
    case SignalDebounced => Handling(s, Debounced) && s.handler.Waiting?
    case LoadCounter => Handling(s, Immediate) && s.handler.Waiting?
    case Stamp => Handling(s, Immediate) && s.handler.Loaded?
    case SignalImmediate => Handling(s, Immediate) && s.handler.Stamped?
    case TakeDebounce => s.loop.Selecting? && s.debounceCh
    case FireDebounce => s.loop.Selecting? && s.debounceTimer
    case TakeImmediate => s.loop.Selecting? && s.immediateCh
    case Begin => s.loop.Starting?
    case Publish => s.loop.Refreshing?
    case Fail => s.loop.Refreshing?
    case ArmReconcile => s.loop.Refreshed? && s.loop.kind.Debounced?
    case NotifyReconcile => s.loop.Refreshed? && s.loop.kind.Immediate?
    case FireReconcile => s.loop.Selecting? && s.reconcileTimer
    case TakeReconcile => s.reconciler.Idle? && s.reconcileCh
    case Tick => s.reconciler.Idle?
    case Snapshot => s.reconciler.Taken?
    case TakeObservation => s.reconciler.Snapped?
  }

  function Step(s: State, e: Event): State
    requires Enabled(s, e)
  {
    match e
    case Apply(kind) => s.(sb := s.sb + [kind])
    case ApplyNB => s.(nb := s.nb + 1)
    case SignalDebounced => s.(debounceCh := true, handled := Seen(s.handled.sb + 1, s.handled.nb))
    case SignalNB => s.(debounceCh := true, handled := Seen(s.handled.sb, s.handled.nb + 1))
    case LoadCounter => s.(handler := Loaded(s.refreshSeq))
    case Stamp => s.(handler := Stamped, observed := if s.observed.None? then Some(Observation(s.handled.sb, s.handler.gen)) else s.observed)
    case SignalImmediate => s.(immediateCh := true, handled := Seen(s.handled.sb + 1, s.handled.nb), handler := Waiting)
    case TakeDebounce => s.(debounceCh := false, debounceTimer := true)
    case FireDebounce => s.(debounceTimer := false, loop := Starting(Debounced))
    case TakeImmediate => s.(immediateCh := false, debounceTimer := false, loop := Starting(Immediate))
    case Begin => s.(refreshSeq := s.refreshSeq + 1, loop := Refreshing(s.loop.kind, s.refreshSeq + 1, s.Applied()), lastFailed := false)
    case Publish => s.(gen := s.loop.pass, published := s.loop.sees, loop := Refreshed(s.loop.kind))
    case Fail => s.(loop := Refreshed(s.loop.kind), lastFailed := true)
    case ArmReconcile => s.(reconcileTimer := true, loop := Selecting)
    case NotifyReconcile => s.(reconcileCh := true, loop := Selecting)
    case FireReconcile => s.(reconcileTimer := false, reconcileCh := true)
    case TakeReconcile => s.(reconcileCh := false, reconciler := Taken)
    case Tick => s.(reconciler := Taken)
    case Snapshot => s.(reconciler := Snapped(s.gen, s.published), snapshot := s.published)
    case TakeObservation => s.(reconciler := Idle, observed := if Consumes(s) then None else s.observed)
  }

  /** The reconcile's snapshot is newer than the observation. */
  predicate Consumes(s: State) {
    s.reconciler.Snapped? && s.observed.Some? && s.reconciler.gen > s.observed.value.gen
  }

  /** A run: its events and the states between them. */
  ghost predicate Run(es: seq<Event>, ss: seq<State>) {
    && |ss| == |es| + 1 && ss[0] == START
    && forall i :: 0 <= i < |es| ==> Enabled(ss[i], es[i]) && ss[i + 1] == Step(ss[i], es[i])
  }

  ghost predicate NoFailure(es: seq<Event>) {
    Fail !in es
  }

  // ---------------------------------------------------------------------------
  // No lost wake-up
  // ---------------------------------------------------------------------------

  /** A refresh pass that has not read anything yet will follow. */
  predicate RefreshAhead(s: State) {
    s.debounceCh || s.immediateCh || s.debounceTimer || s.loop.Starting?
  }

  /** A reconcile that has not taken its snapshot yet will follow. */
  predicate ReconcileAhead(s: State) {
    s.loop.Refreshed? || s.reconcileTimer || s.reconcileCh || s.reconciler.Taken?
  }

  /** Change i of the database was seen by a reconcile, or something under way leads to a reconcile that sees it. */
  predicate Covered(s: State, client: Client, i: nat) {
    || i < s.snapshot.Of(client)
    || i >= s.handled.Of(client)
    || RefreshAhead(s)
    || (s.loop.Refreshing? && i < s.loop.sees.Of(client))
    || (i < s.published.Of(client) && ReconcileAhead(s))
  }

  predicate Within(a: Seen, b: Seen) {
    a.sb <= b.sb && a.nb <= b.nb
  }

  /** What holds between the counters in every state. */
  ghost predicate Counters(s: State) {
    && Within(s.handled, s.Applied()) && (s.handler.Waiting? || Handling(s, Immediate))
    && Within(s.snapshot, s.published) && Within(s.published, s.Applied()) && s.gen <= s.refreshSeq
    && (s.handler.Loaded? ==> s.handler.gen <= s.refreshSeq)
    && (s.loop.Refreshing? ==> Within(s.published, s.loop.sees) && Within(s.loop.sees, s.Applied()) && s.gen < s.loop.pass == s.refreshSeq)
    && (s.reconciler.Snapped? ==> s.reconciler.gen <= s.gen && Within(s.reconciler.seen, s.published))
  }

  ghost predicate AwakeFor(s: State, client: Client) {
    s.handled.Of(client) == 0 || Covered(s, client, s.handled.Of(client) - 1) || s.lastFailed
  }

  /** The latest signalled change of each database is covered, unless the last refresh failed. */
  ghost predicate Awake(s: State) {
    AwakeFor(s, SB) && AwakeFor(s, NB)
  }

  lemma CoveredBelow(s: State, client: Client, i: nat)
    requires i < s.handled.Of(client) && Covered(s, client, s.handled.Of(client) - 1)
    ensures Covered(s, client, i)
  {
  }

  // The steps by who takes them: event handlers, the refresh loop's select, its passes, the reconcile loop.

  predicate OfHandlers(e: Event) {
    e.Apply? || e.ApplyNB? || e.SignalDebounced? || e.SignalNB? || e.LoadCounter? || e.Stamp? || e.SignalImmediate?
  }

  predicate OfSignals(e: Event) {
    e.TakeDebounce? || e.FireDebounce? || e.TakeImmediate? || e.FireReconcile?
  }

  predicate OfPasses(e: Event) {
    e.Begin? || e.Publish? || e.Fail? || e.ArmReconcile? || e.NotifyReconcile?
  }

  predicate OfReconciler(e: Event) {
    e.TakeReconcile? || e.Tick? || e.Snapshot? || e.TakeObservation?
  }

  lemma StepKeepsHandlers(s: State, e: Event)
    requires OfHandlers(e) && Counters(s) && Awake(s) && Enabled(s, e)
    ensures Counters(Step(s, e)) && Awake(Step(s, e))
  {
  }

  lemma StepKeepsSignals(s: State, e: Event)
    requires OfSignals(e) && Counters(s) && Awake(s) && Enabled(s, e)
    ensures Counters(Step(s, e)) && Awake(Step(s, e))
  {
  }

  lemma StepKeepsPasses(s: State, e: Event)
    requires OfPasses(e) && Counters(s) && Awake(s) && Enabled(s, e)
    ensures Counters(Step(s, e)) && Awake(Step(s, e))
  {
  }

  lemma StepKeepsReconciler(s: State, e: Event)
    requires OfReconciler(e) && Counters(s) && Awake(s) && Enabled(s, e)
    ensures Counters(Step(s, e)) && Awake(Step(s, e))
  {
  }

  lemma StepKeeps(s: State, e: Event)
    requires Counters(s) && Awake(s) && Enabled(s, e)
    ensures Counters(Step(s, e)) && Awake(Step(s, e))
  {
    hide Counters, Awake, Ordered, Awaited, Enabled, Step, Work;
    if OfHandlers(e) { StepKeepsHandlers(s, e); }
    else if OfSignals(e) { StepKeepsSignals(s, e); }
    else if OfPasses(e) { StepKeepsPasses(s, e); }
    else { StepKeepsReconciler(s, e); }
  }

  lemma StepFails(s: State, e: Event)
    requires Enabled(s, e)
    ensures Step(s, e).lastFailed ==> s.lastFailed || e == Fail
  {
  }

  lemma {:induction false} RunKeeps(es: seq<Event>, ss: seq<State>, n: nat)
    requires Run(es, ss) && n <= |es|
    ensures Counters(ss[n]) && Awake(ss[n])
    ensures NoFailure(es) ==> !ss[n].lastFailed
  {
    if n > 0 {
      RunKeeps(es, ss, n - 1);
      assert es[n - 1] in es;
      StepKeeps(ss[n - 1], es[n - 1]);
      StepFails(ss[n - 1], es[n - 1]);
    }
  }

  /** In every run without a failing refresh, every change not yet seen by a reconcile is covered. */
  lemma NoLostWakeup(es: seq<Event>, ss: seq<State>, n: nat, client: Client, i: nat)
    requires Run(es, ss) && n <= |es| && NoFailure(es)
    ensures Covered(ss[n], client, i)
  {
    RunKeeps(es, ss, n);
    if i < ss[n].handled.Of(client) { CoveredBelow(ss[n], client, i); }
  }

  /** With failing refreshes, a change can be uncovered only while the last refresh pass is one that failed. */
  lemma OnlyFailureUncovers(es: seq<Event>, ss: seq<State>, n: nat, client: Client, i: nat)
    requires Run(es, ss) && n <= |es|
    ensures Covered(ss[n], client, i) || ss[n].lastFailed
  {
    RunKeeps(es, ss, n);
    if i < ss[n].handled.Of(client) && !ss[n].lastFailed { CoveredBelow(ss[n], client, i); }
  }

  // ---------------------------------------------------------------------------
  // Every change is seen once the cache is quiet
  // ---------------------------------------------------------------------------

  /** Only the cache and the ticker can move. */
  predicate Quiescent(s: State) {
    && s.handled == s.Applied() && !s.debounceCh && !s.immediateCh && !s.reconcileCh && !s.debounceTimer && !s.reconcileTimer
    && s.loop.Selecting? && s.reconciler.Idle?
  }

  predicate Internal(e: Event) {
    !e.Apply? && e != ApplyNB && e != Tick
  }

  /** The steps the unsignalled changes can still cause. */
  function HandlerWork(applied: Seen, handled: Seen, handler: Handler): nat
    requires Within(handled, applied)
  {
    14 * (applied.sb - handled.sb) + 10 * (applied.nb - handled.nb) + (if applied.sb == handled.sb then 2 else 0)
    - (match handler case Waiting => 0 case Loaded(_) => 1 case Stamped => 2)
  }

  /** The steps the pass under way can still cause. */
  function PassWork(loop: Loop): nat {
    match loop
    case Selecting => 0
    case Starting(_) => 7
    case Refreshing(_, _, _) => 6
    case Refreshed(_) => 5
  }

  function ReconcilerWork(reconciler: Reconciler): nat {
    match reconciler
    case Idle => 0
    case Taken => 2
    case Snapped(_, _) => 1
  }

  /** The steps the channels and timers can still cause. */
  function SignalWork(s: State): nat {
    (if s.debounceCh then 9 else 0) + (if s.debounceTimer then 8 else 0) + (if s.immediateCh then 8 else 0)
    + (if s.reconcileTimer then 4 else 0) + (if s.reconcileCh then 3 else 0)
  }

  /** The internal steps still possible, bounded from above. */
  function Work(s: State): nat
    requires Within(s.handled, s.Applied())
  {
    HandlerWork(s.Applied(), s.handled, s.handler) + SignalWork(s) + PassWork(s.loop) + ReconcilerWork(s.reconciler)
  }

  lemma InternalStepsEndHandlers(s: State, e: Event)
    requires OfHandlers(e) && Counters(s) && Internal(e) && Enabled(s, e)
    ensures Within(Step(s, e).handled, Step(s, e).Applied()) && Work(Step(s, e)) < Work(s)
  {
    hide PassWork, ReconcilerWork;
    match e {
      case SignalDebounced =>
      case SignalNB =>
      case LoadCounter =>
      case Stamp =>
      case SignalImmediate =>
    }
  }

  lemma InternalStepsEndSignals(s: State, e: Event)
    requires OfSignals(e) && Counters(s) && Internal(e) && Enabled(s, e)
    ensures Within(Step(s, e).handled, Step(s, e).Applied()) && Work(Step(s, e)) < Work(s)
  {
    hide HandlerWork, ReconcilerWork;
    match e {
      case TakeDebounce =>
      case FireDebounce =>
      case TakeImmediate =>
      case FireReconcile =>
    }
  }

  lemma InternalStepsEndPasses(s: State, e: Event)
    requires OfPasses(e) && Counters(s) && Internal(e) && Enabled(s, e)
    ensures Within(Step(s, e).handled, Step(s, e).Applied()) && Work(Step(s, e)) < Work(s)
  {
    hide HandlerWork, ReconcilerWork;
    match e {
      case Begin =>
      case Publish =>
      case Fail =>
      case ArmReconcile =>
      case NotifyReconcile =>
    }
  }

  lemma InternalStepsEndReconciler(s: State, e: Event)
    requires OfReconciler(e) && Counters(s) && Internal(e) && Enabled(s, e)
    ensures Within(Step(s, e).handled, Step(s, e).Applied()) && Work(Step(s, e)) < Work(s)
  {
    hide HandlerWork, PassWork;
    match e {
      case TakeReconcile =>
      case Snapshot =>
      case TakeObservation =>
    }
  }

  /** Every internal step brings the run nearer to rest, so rest comes after boundedly many of them. */
  lemma InternalStepsEnd(s: State, e: Event)
    requires Counters(s) && Internal(e) && Enabled(s, e)
    ensures Within(Step(s, e).handled, Step(s, e).Applied()) && Work(Step(s, e)) < Work(s)
  {
    hide Counters, Awake, Ordered, Awaited, Enabled, Step, Work;
    if OfHandlers(e) { InternalStepsEndHandlers(s, e); }
    else if OfSignals(e) { InternalStepsEndSignals(s, e); }
    else if OfPasses(e) { InternalStepsEndPasses(s, e); }
    else { InternalStepsEndReconciler(s, e); }
  }

  /** A state that is not at rest can make an internal step. */
  lemma NotQuiescentMoves(s: State)
    requires Counters(s)
    ensures Quiescent(s) <==> forall e :: Internal(e) ==> !Enabled(s, e)
  {
    if !Quiescent(s) {
      var e :=
        if s.handled.nb < s.nb then SignalNB
        else if s.handled.sb < |s.sb| && s.sb[s.handled.sb].Debounced? then SignalDebounced
        else if s.handled.sb < |s.sb| && s.handler.Waiting? then LoadCounter
        else if s.handled.sb < |s.sb| && s.handler.Loaded? then Stamp
        else if s.handled.sb < |s.sb| then SignalImmediate
        else if s.loop.Starting? then Begin
        else if s.loop.Refreshing? then Publish
        else if s.loop.Refreshed? && s.loop.kind.Debounced? then ArmReconcile
        else if s.loop.Refreshed? then NotifyReconcile
        else if s.debounceCh then TakeDebounce
        else if s.debounceTimer then FireDebounce
        else if s.immediateCh then TakeImmediate
        else if s.reconcileTimer then FireReconcile
        else if s.reconciler.Taken? then Snapshot
        else if s.reconciler.Snapped? then TakeObservation
        else TakeReconcile;
      assert Internal(e) && Enabled(s, e);
    }
  }

  /** At rest, without failures, the last reconcile has seen every change. */
  lemma QuiescentHasSeenAll(es: seq<Event>, ss: seq<State>, n: nat)
    requires Run(es, ss) && n <= |es| && NoFailure(es) && Quiescent(ss[n])
    ensures ss[n].snapshot == ss[n].Applied() && ss[n].observed.None?
  {
    RunKeeps(es, ss, n);
    RunKeepsObservation(es, ss, n);
  }

  // ---------------------------------------------------------------------------
  // Which changes are lost when refreshes fail
  // ---------------------------------------------------------------------------

  /** The pass that began at j, after change i was in the cache, published at k. */
  ghost predicate PassReads(es: seq<Event>, ss: seq<State>, j: nat, k: nat, client: Client, i: nat)
    requires |ss| == |es| + 1
  {
    && j < k < |es| && es[j] == Begin && es[k] == Publish && i < ss[j].Applied().Of(client)
    && forall x :: j < x < k ==> es[x] != Begin
  }

  /** The pass that began at j failed at k. */
  ghost predicate PassFails(es: seq<Event>, j: nat, k: nat) {
    j < k < |es| && es[j] == Begin && es[k] == Fail && forall x :: j < x < k ==> es[x] != Begin
  }

  ghost predicate ReadBefore(es: seq<Event>, ss: seq<State>, n: nat, client: Client, i: nat)
    requires |ss| == |es| + 1
  {
    exists j: nat, k: nat :: PassReads(es, ss, j, k, client, i) && k < n
  }

  /** Only a new pass changes what the running one sees. */
  lemma RefreshingStep(s: State, e: Event)
    requires Enabled(s, e)
    ensures Step(s, e).loop.Refreshing? ==> if e == Begin then Step(s, e).loop.sees == s.Applied() else s.loop.Refreshing? && Step(s, e).loop.sees == s.loop.sees
    ensures Step(s, e).published == if e == Publish then s.loop.sees else s.published
    ensures e == Publish || e == Fail ==> s.loop.Refreshing? && !Step(s, e).loop.Refreshing?
    ensures s.loop.Refreshing? && !Step(s, e).loop.Refreshing? ==> e == Publish || e == Fail
  {
  }

  lemma {:induction false} RefreshingSince(es: seq<Event>, ss: seq<State>, n: nat) returns (j: nat)
    requires Run(es, ss) && n <= |es| && ss[n].loop.Refreshing?
    ensures j < n && es[j] == Begin && ss[n].loop.sees == ss[j].Applied()
    ensures forall x :: j < x < n ==> es[x] != Begin && es[x] != Publish && es[x] != Fail
  {
    RefreshingStep(ss[n - 1], es[n - 1]);
    if es[n - 1] == Begin {
      j := n - 1;
    } else {
      hide Enabled, Step;
      j := RefreshingSince(es, ss, n - 1);
    }
  }

  /** What is published is what the passes that succeeded have read. */
  lemma {:induction false} PublishedIff(es: seq<Event>, ss: seq<State>, n: nat, client: Client, i: nat)
    requires Run(es, ss) && n <= |es|
    ensures i < ss[n].published.Of(client) <==> ReadBefore(es, ss, n, client, i)
  {
    if n > 0 {
      var e := es[n - 1];
      PublishedIff(es, ss, n - 1, client, i);
      RefreshingStep(ss[n - 1], e);
      RunKeeps(es, ss, n - 1);
      hide Enabled, Step, Run, Awake;
      if e == Publish {
        var b := RefreshingSince(es, ss, n - 1);
        if i < ss[n].published.Of(client) {
          assert PassReads(es, ss, b, n - 1, client, i);
        }
        if ReadBefore(es, ss, n, client, i) {
          LastPass(es, ss, n, client, i, b);
        }
      } else {
        assert ReadBefore(es, ss, n, client, i) ==> ReadBefore(es, ss, n - 1, client, i);
      }
    }
  }

  lemma LastPass(es: seq<Event>, ss: seq<State>, n: nat, client: Client, i: nat, b: nat)
    requires |ss| == |es| + 1 && 0 < n <= |es| && b < n - 1 && es[n - 1] == Publish && es[b] == Begin
    requires forall x :: b < x < n - 1 ==> es[x] != Begin
    requires ReadBefore(es, ss, n, client, i)
    ensures ReadBefore(es, ss, n - 1, client, i) || i < ss[b].Applied().Of(client)
  {
    var j: nat, k: nat :| PassReads(es, ss, j, k, client, i) && k < n;
    if k == n - 1 {
      assert j == b;
    }
  }

  /** What is published and not in the last snapshot has a reconcile ahead. */
  lemma SnapshotStepHandlers(s: State, e: Event)
    requires OfHandlers(e) && Enabled(s, e) && (s.snapshot == s.published || ReconcileAhead(s))
    ensures Step(s, e).snapshot == Step(s, e).published || ReconcileAhead(Step(s, e))
  {
    match e
    case Apply(_) =>
    case ApplyNB =>
    case SignalDebounced =>
    case SignalNB =>
    case LoadCounter =>
    case Stamp =>
    case SignalImmediate =>
    case _ =>
  }

  lemma SnapshotStepSignals(s: State, e: Event)
    requires OfSignals(e) && Enabled(s, e) && (s.snapshot == s.published || ReconcileAhead(s))
    ensures Step(s, e).snapshot == Step(s, e).published || ReconcileAhead(Step(s, e))
  {
    match e
    case TakeDebounce =>
    case FireDebounce =>
    case TakeImmediate =>
    case FireReconcile =>
    case _ =>
  }

  lemma SnapshotStepPasses(s: State, e: Event)
    requires OfPasses(e) && Enabled(s, e) && (s.snapshot == s.published || ReconcileAhead(s))
    ensures Step(s, e).snapshot == Step(s, e).published || ReconcileAhead(Step(s, e))
  {
    match e
    case Begin =>
    case Publish =>
    case Fail =>
    case ArmReconcile =>
    case NotifyReconcile =>
    case _ =>
  }

  lemma SnapshotStepReconciler(s: State, e: Event)
    requires OfReconciler(e) && Enabled(s, e) && (s.snapshot == s.published || ReconcileAhead(s))
    ensures Step(s, e).snapshot == Step(s, e).published || ReconcileAhead(Step(s, e))
  {
    match e
    case TakeReconcile =>
    case Tick =>
    case Snapshot =>
    case TakeObservation =>
    case _ =>
  }

  lemma SnapshotStep(s: State, e: Event)
    requires Enabled(s, e) && (s.snapshot == s.published || ReconcileAhead(s))
    ensures Step(s, e).snapshot == Step(s, e).published || ReconcileAhead(Step(s, e))
  {
    hide Enabled, Step, ReconcileAhead;
    if OfHandlers(e) { SnapshotStepHandlers(s, e); }
    else if OfSignals(e) { SnapshotStepSignals(s, e); }
    else if OfPasses(e) { SnapshotStepPasses(s, e); }
    else { SnapshotStepReconciler(s, e); }
  }

  lemma {:induction false} SnapshotFollows(es: seq<Event>, ss: seq<State>, n: nat)
    requires Run(es, ss) && n <= |es|
    ensures ss[n].snapshot == ss[n].published || ReconcileAhead(ss[n])
  {
    if n > 0 {
      SnapshotFollows(es, ss, n - 1);
      SnapshotStep(ss[n - 1], es[n - 1]);
    }
  }

  /**
   At rest, a change has been seen by a reconcile exactly if some refresh pass that began after
   the change was in the cache succeeded.
   */
  lemma SeenAtRestIff(es: seq<Event>, ss: seq<State>, n: nat, client: Client, i: nat)
    requires Run(es, ss) && n <= |es| && Quiescent(ss[n])
    ensures i < ss[n].snapshot.Of(client) <==> ReadBefore(es, ss, n, client, i)
  {
    PublishedIff(es, ss, n, client, i);
    SnapshotFollows(es, ss, n);
  }

  /** A pass that has begun has ended at rest, in one way or the other. */
  lemma {:induction false} PassEnds(es: seq<Event>, ss: seq<State>, j: nat, n: nat) returns (k: nat)
    requires Run(es, ss) && j < n <= |es| && es[j] == Begin
    ensures j < k <= n && forall x :: j < x < k ==> es[x] != Begin
    ensures if k == n then ss[n].loop.Refreshing? else es[k] == Publish || es[k] == Fail
  {
    if n == j + 1 {
      k := n;
    } else {
      k := PassEnds(es, ss, j, n - 1);
      RefreshingStep(ss[n - 1], es[n - 1]);
      if k == n - 1 {
        BeginNeedsStarting(ss[n - 1], es[n - 1]);
        k := if ss[n].loop.Refreshing? then n else n - 1;
      }
    }
  }

  lemma BeginNeedsStarting(s: State, e: Event)
    requires Enabled(s, e) && s.loop.Refreshing?
    ensures e != Begin
  {
  }

  /** A change that is lost at rest was in the cache before a pass began, and every such pass failed. */
  lemma OnlyFailureLoses(es: seq<Event>, ss: seq<State>, n: nat, client: Client, i: nat)
    requires Run(es, ss) && n <= |es| && Quiescent(ss[n]) && ss[n].snapshot.Of(client) <= i < ss[n].Applied().Of(client)
    ensures ss[n].lastFailed && Fail in es
    ensures forall j: nat :: j < n && es[j] == Begin && i < ss[j].Applied().Of(client) ==> exists k: nat :: PassFails(es, j, k) && k < n
  {
    SeenAtRestIff(es, ss, n, client, i);
    OnlyFailureUncovers(es, ss, n, client, i);
    RunKeeps(es, ss, n);
    forall j: nat | j < n && es[j] == Begin && i < ss[j].Applied().Of(client) ensures exists k: nat :: PassFails(es, j, k) && k < n {
      var k := PassEnds(es, ss, j, n);
      assert !PassReads(es, ss, j, k, client, i);
      assert PassFails(es, j, k);
    }
  }

  lemma RunStarts()
    ensures Run([], [START])
  {
  }

  lemma Extend(es: seq<Event>, ss: seq<State>, e: Event) returns (es': seq<Event>, ss': seq<State>)
    requires Run(es, ss) && |ss| == |es| + 1 && Enabled(ss[|es|], e)
    ensures Run(es', ss') && |ss'| == |es'| + 1 && ss'[|es'|] == Step(ss[|es|], e) && es' == es + [e]
  {
    es', ss' := es + [e], ss + [Step(ss[|es|], e)];
  }

  const WHEN_STARTING := START.(sb := [Debounced], handled := Seen(1, 0), loop := Starting(Debounced))
  const AFTER_FAILURE := WHEN_STARTING.(loop := Refreshed(Debounced), refreshSeq := 1, lastFailed := true)
  const WHEN_RECONCILING := AFTER_FAILURE.(loop := Selecting, reconciler := Taken)

  lemma RunToPass() returns (es: seq<Event>, ss: seq<State>)
    ensures Run(es, ss) && |ss| == |es| + 1 && ss[|es|] == WHEN_STARTING && Publish !in es
  {
    hide Run;
    assert Run([], [START]) by { RunStarts(); }
    es, ss := Extend([], [START], Apply(Debounced));
    es, ss := Extend(es, ss, SignalDebounced);
    es, ss := Extend(es, ss, TakeDebounce);
    es, ss := Extend(es, ss, FireDebounce);
  }

  lemma RunToFailure() returns (es: seq<Event>, ss: seq<State>)
    ensures Run(es, ss) && |ss| == |es| + 1 && ss[|es|] == AFTER_FAILURE && Publish !in es
  {
    hide Run;
    es, ss := RunToPass();
    es, ss := Extend(es, ss, Begin);
    es, ss := Extend(es, ss, Fail);
  }

  lemma RunToReconcile() returns (es: seq<Event>, ss: seq<State>)
    ensures Run(es, ss) && |ss| == |es| + 1 && ss[|es|] == WHEN_RECONCILING && Publish !in es
  {
    hide Run;
    es, ss := RunToFailure();
    es, ss := Extend(es, ss, ArmReconcile);
    es, ss := Extend(es, ss, FireReconcile);
    es, ss := Extend(es, ss, TakeReconcile);
  }

  /** One failed refresh does lose a change: at rest no pass has read it, and nothing will show it to a reconcile. */
  lemma FailedRefreshLoses() returns (es: seq<Event>, ss: seq<State>)
    ensures Run(es, ss) && |ss| == |es| + 1 && !Covered(ss[|es|], SB, 0) && Quiescent(ss[|es|])
  {
    hide Run, PassReads;
    es, ss := RunToReconcile();
    es, ss := Extend(es, ss, Snapshot);
    es, ss := Extend(es, ss, TakeObservation);
    SeenAtRestIff(es, ss, |es|, SB, 0);
    NeverRead(es, ss, |es|, SB, 0);
  }

  lemma NeverRead(es: seq<Event>, ss: seq<State>, n: nat, client: Client, i: nat)
    requires |ss| == |es| + 1 && Publish !in es
    ensures !ReadBefore(es, ss, n, client, i)
  {
  }

  // ---------------------------------------------------------------------------
  // The failover observation
  // ---------------------------------------------------------------------------

  /** Every pass numbered above an observation started after the observed change was in the cache. */
  ghost predicate Ordered(s: State) {
    && (s.observed.Some? ==> var o := s.observed.value;
          && o.change < |s.sb| && s.sb[o.change] == Immediate && o.gen <= s.refreshSeq
          && (s.loop.Refreshing? && s.loop.pass > o.gen ==> s.loop.sees.sb > o.change)
          && (s.gen > o.gen ==> s.published.sb > o.change)
          && (s.reconciler.Snapped? && s.reconciler.gen > o.gen ==> s.reconciler.seen.sb > o.change))
    && (s.handler.Loaded? ==>
          && (s.loop.Refreshing? && s.loop.pass > s.handler.gen ==> s.loop.sees.sb > s.handled.sb)
          && (s.gen > s.handler.gen ==> s.published.sb > s.handled.sb)
          && (s.reconciler.Snapped? && s.reconciler.gen > s.handler.gen ==> s.reconciler.seen.sb > s.handled.sb))
  }

  /** An observation waits only while something that will consume it is under way. */
  ghost predicate Awaited(s: State) {
    s.observed.Some? ==> var o := s.observed.value;
      || s.handler.Stamped?
      || RefreshAhead(s)
      || (s.loop.Refreshing? && s.loop.pass > o.gen)
      || (s.gen > o.gen && ReconcileAhead(s))
      || Consumes(s)
      || s.lastFailed
  }

  lemma StepKeepsObservationHandlers(s: State, e: Event)
    requires OfHandlers(e) && Counters(s) && Ordered(s) && Awaited(s) && Enabled(s, e)
    ensures Ordered(Step(s, e)) && Awaited(Step(s, e))
  {
  }

  lemma StepKeepsObservationSignals(s: State, e: Event)
    requires OfSignals(e) && Counters(s) && Ordered(s) && Awaited(s) && Enabled(s, e)
    ensures Ordered(Step(s, e)) && Awaited(Step(s, e))
  {
  }

  lemma StepKeepsObservationPasses(s: State, e: Event)
    requires OfPasses(e) && Counters(s) && Ordered(s) && Awaited(s) && Enabled(s, e)
    ensures Ordered(Step(s, e)) && Awaited(Step(s, e))
  {
  }

  lemma StepKeepsObservationReconciler(s: State, e: Event)
    requires OfReconciler(e) && Counters(s) && Ordered(s) && Awaited(s) && Enabled(s, e)
    ensures Ordered(Step(s, e)) && Awaited(Step(s, e))
  {
  }

  lemma StepKeepsObservation(s: State, e: Event)
    requires Counters(s) && Ordered(s) && Awaited(s) && Enabled(s, e)
    ensures Ordered(Step(s, e)) && Awaited(Step(s, e))
  {
    hide Counters, Awake, Ordered, Awaited, Enabled, Step, Work;
    if OfHandlers(e) { StepKeepsObservationHandlers(s, e); }
    else if OfSignals(e) { StepKeepsObservationSignals(s, e); }
    else if OfPasses(e) { StepKeepsObservationPasses(s, e); }
    else { StepKeepsObservationReconciler(s, e); }
  }

  lemma {:induction false} RunKeepsObservation(es: seq<Event>, ss: seq<State>, n: nat)
    requires Run(es, ss) && n <= |es|
    ensures Ordered(ss[n]) && Awaited(ss[n])
  {
    if n > 0 {
      RunKeepsObservation(es, ss, n - 1);
      RunKeeps(es, ss, n - 1);
      StepKeepsObservation(ss[n - 1], es[n - 1]);
    }
  }

  lemma ObservationStepHandlers(s: State, e: Event)
    requires OfHandlers(e) && Enabled(s, e) && s.observed.Some?
    ensures Step(s, e).observed == if e == TakeObservation && Consumes(s) then None else s.observed
  {
    match e
    case Apply(_) =>
    case ApplyNB =>
    case SignalDebounced =>
    case SignalNB =>
    case LoadCounter =>
    case Stamp =>
    case SignalImmediate =>
    case _ =>
  }

  lemma ObservationStepSignals(s: State, e: Event)
    requires OfSignals(e) && Enabled(s, e) && s.observed.Some?
    ensures Step(s, e).observed == if e == TakeObservation && Consumes(s) then None else s.observed
  {
    match e
    case TakeDebounce =>
    case FireDebounce =>
    case TakeImmediate =>
    case FireReconcile =>
    case _ =>
  }

  lemma ObservationStepPasses(s: State, e: Event)
    requires OfPasses(e) && Enabled(s, e) && s.observed.Some?
    ensures Step(s, e).observed == if e == TakeObservation && Consumes(s) then None else s.observed
  {
    match e
    case Begin =>
    case Publish =>
    case Fail =>
    case ArmReconcile =>
    case NotifyReconcile =>
    case _ =>
  }

  lemma ObservationStepReconciler(s: State, e: Event)
    requires OfReconciler(e) && Enabled(s, e) && s.observed.Some?
    ensures Step(s, e).observed == if e == TakeObservation && Consumes(s) then None else s.observed
  {
    match e
    case TakeReconcile =>
    case Tick =>
    case Snapshot =>
    case TakeObservation =>
    case _ =>
  }

  lemma ObservationStep(s: State, e: Event)
    requires Ordered(s) && Enabled(s, e) && s.observed.Some?
    ensures Step(s, e).observed == if e == TakeObservation && Consumes(s) then None else s.observed
    ensures Consumes(s) ==> s.reconciler.seen.sb > s.observed.value.change
  {
    hide Enabled, Step;
    if OfHandlers(e) { ObservationStepHandlers(s, e); }
    else if OfSignals(e) { ObservationStepSignals(s, e); }
    else if OfPasses(e) { ObservationStepPasses(s, e); }
    else { ObservationStepReconciler(s, e); }
  }

  /**
   An observation is taken by a reconcile exactly when the reconcile's snapshot is newer, and
   that snapshot then reflects the observed change.
   */
  lemma ConsumedOnlyByItsSnapshot(es: seq<Event>, ss: seq<State>, n: nat)
    requires Run(es, ss) && n < |es| && ss[n].observed.Some?
    ensures ss[n + 1].observed.None? <==> es[n] == TakeObservation && ss[n].reconciler.gen > ss[n].observed.value.gen
    ensures ss[n + 1].observed.None? ==> ss[n].reconciler.seen.sb > ss[n].observed.value.change
    ensures ss[n + 1].observed.Some? ==> ss[n + 1].observed == ss[n].observed
  {
    RunKeepsObservation(es, ss, n);
    hide Step, Ordered, Awaited;
    ObservationStep(ss[n], es[n]);
  }

  // ---------------------------------------------------------------------------
  // The code of the steps
  // ---------------------------------------------------------------------------

  /** The client's channels, timers, counters and state holder, with the two loops' positions as ghost state. */
  class OVNClient {
    var debounceCh: bool
    var immediateCh: bool
    var reconcileCh: bool
    var debounceTimer: bool
    var reconcileTimer: bool
    var refreshSeq: nat
    var gen: nat
    var observed: Option<Observation>
    ghost var sb: seq<Kind>
    ghost var nb: nat
    ghost var handled: Seen
    ghost var handler: Handler
    ghost var published: Seen
    ghost var loop: Loop
    ghost var reconciler: Reconciler
    ghost var snapshot: Seen
    ghost var lastFailed: bool

    ghost function Now(): State
      reads this
    {
      State(sb, nb, handled, handler, debounceCh, immediateCh, reconcileCh, debounceTimer, reconcileTimer, loop,
            refreshSeq, gen, published, reconciler, snapshot, observed, lastFailed)
    }

    constructor ()
      ensures Now() == START
    {
      debounceCh, immediateCh, reconcileCh, debounceTimer, reconcileTimer := false, false, false, false, false;
      refreshSeq, gen, observed := 0, 0, None;
      sb, nb, handled, handler, published := [], 0, Seen(0, 0), Waiting, Seen(0, 0);
      loop, reconciler, snapshot, lastFailed := Selecting, Idle, Seen(0, 0), false;
    }

    /** A send to a channel of capacity 1 never blocks: when it is full, the signal is already queued. */
    method DebounceStateRefresh(ghost client: Client)
      requires Enabled(Now(), if client.SB? then SignalDebounced else SignalNB)
      modifies this
      ensures Now() == Step(old(Now()), if client.SB? then SignalDebounced else SignalNB)
    {
      if !debounceCh {
        debounceCh := true;
      }
      handled := if client.SB? then Seen(handled.sb + 1, handled.nb) else Seen(handled.sb, handled.nb + 1);
    }

    /** The first half of the compare-and-swap's arguments. */
    method LoadRefreshSeq() returns (seqNo: nat)
      requires Enabled(Now(), LoadCounter)
      modifies this
      ensures Now() == Step(old(Now()), LoadCounter)
      ensures seqNo == old(refreshSeq)
    {
      seqNo := refreshSeq;
      handler := Loaded(refreshSeq);
    }

    /** Keeps the earliest observation. */
    method CompareAndSwapObserved(change: nat, seqNo: nat)
      requires Enabled(Now(), Stamp) && change == handled.sb && seqNo == handler.gen
      modifies this
      ensures Now() == Step(old(Now()), Stamp)
    {
      if observed.None? {
        observed := Some(Observation(change, seqNo));
      }
      handler := Stamped;
    }

    /** The send that ends immediateStateRefresh. */
    method SignalImmediateRefresh()
      requires Enabled(Now(), SignalImmediate)
      modifies this
      ensures Now() == Step(old(Now()), SignalImmediate)
    {
      if !immediateCh {
        immediateCh := true;
      }
      handled, handler := Seen(handled.sb + 1, handled.nb), Waiting;
    }

    /** The debounce signal arms the timer once per window. */
    method OnDebounceSignal()
      requires Enabled(Now(), TakeDebounce)
      modifies this
      ensures Now() == Step(old(Now()), TakeDebounce)
    {
      debounceCh := false;
      if !debounceTimer {
        debounceTimer := true;
      }
    }

    /** The window ended: a refresh starts. */
    method OnDebounceFire()
      requires Enabled(Now(), FireDebounce)
      modifies this
      ensures Now() == Step(old(Now()), FireDebounce)
    {
      debounceTimer := false;
      loop := Starting(Debounced);
    }

    /** Immediate supersedes a pending debounce. */
    method OnImmediateSignal()
      requires Enabled(Now(), TakeImmediate)
      modifies this
      ensures Now() == Step(old(Now()), TakeImmediate)
    {
      immediateCh := false;
      if debounceTimer {
        debounceTimer := false;
      }
      loop := Starting(Immediate);
    }

    /** A pass is numbered before its first read. */
    method BeginRefresh() returns (pass: nat)
      requires Enabled(Now(), Begin)
      modifies this
      ensures Now() == Step(old(Now()), Begin)
      ensures pass == refreshSeq
    {
      refreshSeq := refreshSeq + 1;
      pass := refreshSeq;
      loop, lastFailed := Refreshing(loop.kind, refreshSeq, Seen(|sb|, nb)), false;
    }

    /** Replaces the state by what the pass read. */
    method Replace(pass: nat)
      requires Enabled(Now(), Publish) && pass == loop.pass
      modifies this
      ensures Now() == Step(old(Now()), Publish)
    {
      gen := pass;
      published := loop.sees;
      loop := Refreshed(loop.kind);
    }

    /** After a debounced refresh the reconcile is debounced too. */
    method ArmReconcileTimer()
      requires Enabled(Now(), ArmReconcile)
      modifies this
      ensures Now() == Step(old(Now()), ArmReconcile)
    {
      if !reconcileTimer {
        reconcileTimer := true;
      }
      loop := Selecting;
    }

    /** triggerReconcile after an immediate refresh. */
    method TriggerAfterImmediate()
      requires Enabled(Now(), NotifyReconcile)
      modifies this
      ensures Now() == Step(old(Now()), NotifyReconcile)
    {
      if !reconcileCh {
        reconcileCh := true;
      }
      loop := Selecting;
    }

    /** The debounced reconcile is due. */
    method OnReconcileFire()
      requires Enabled(Now(), FireReconcile)
      modifies this
      ensures Now() == Step(old(Now()), FireReconcile)
    {
      reconcileTimer := false;
      if !reconcileCh {
        reconcileCh := true;
      }
    }

    /** The reconcile loop takes the signal. */
    method OnReconcileSignal()
      requires Enabled(Now(), TakeReconcile)
      modifies this
      ensures Now() == Step(old(Now()), TakeReconcile)
    {
      reconcileCh := false;
      reconciler := Taken;
    }

    /** The reconcile's own snapshot. */
    method GetState() returns (snapGen: nat)
      requires Enabled(Now(), Snapshot)
      modifies this
      ensures Now() == Step(old(Now()), Snapshot)
      ensures snapGen == old(gen)
    {
      snapGen := gen;
      reconciler, snapshot := Snapped(gen, published), published;
    }

    /** An observation is consumed only by a snapshot that already reflects it. */
    method TakeFailoverObservedAt(snapGen: nat) returns (change: Option<nat>)
      requires Enabled(Now(), TakeObservation) && snapGen == reconciler.gen
      modifies this
      ensures Now() == Step(old(Now()), TakeObservation)
      ensures change == if Consumes(old(Now())) then Some(old(observed).value.change) else None
    {
      reconciler := Idle;
      if observed.None? || snapGen <= observed.value.gen {
        return None;
      }
      change := Some(observed.value.change);
      observed := None;
    }
  }
}
