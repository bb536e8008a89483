/**
 The make-before-break reconcile of one OpenFlow plane: dump, diff, add what is missing, then
 delete what is stale. Entries are identified by priority and match; a plane is the entries
 under one cookie. Every command may fail; what a failed add left behind is arbitrary within
 what it asked for. Methods return the commands they ran, each with the entries it left.
 */
module FlowPlane {
  import opened Common
  import opened Text
  import opened FlowMatch

  datatype Flow = Flow(cookie: string, actions: string)

  datatype Command =
    | Dump
    | Probe
    | AddBatch(bundle: bool, adds: seq<DesiredFlow>)
    | AddOne(add: DesiredFlow)
    | StrictDelete(key: FlowKey)

  /** A command, its outcome and the bridge's entries after it. */
  datatype Entry = Entry(cmd: Command, ok: bool, flows: map<FlowKey, Flow>)

  predicate Writes(cmd: Command) {
    cmd.AddBatch? || cmd.AddOne? || cmd.StrictDelete?
  }

  predicate Adds(cmd: Command) {
    cmd.AddBatch? || cmd.AddOne?
  }

  function Plane(flows: map<FlowKey, Flow>, cookie: string): map<FlowKey, string> {
    map k | k in flows && flows[k].cookie == cookie :: flows[k].actions
  }

  ghost predicate Wants(desired: seq<DesiredFlow>, k: FlowKey) {
    exists d :: d in desired && d.key == k
  }

  /** No key is wanted with two different action lists. */
  ghost predicate Functional(desired: seq<DesiredFlow>) {
    forall d1, d2 :: d1 in desired && d2 in desired && d1.key == d2.key ==> d1.actions == d2.actions
  }

  ghost predicate AllOk(es: seq<Entry>) {
    forall e :: e in es ==> e.ok
  }

  ghost predicate Wrote(es: seq<Entry>) {
    exists e :: e in es && Writes(e.cmd)
  }

  ghost predicate Dumped(es: seq<Entry>) {
    exists e :: e in es && e.cmd == Dump && e.ok
  }

  // ---------------------------------------------------------------------------
  // What the phases do to the table
  // ---------------------------------------------------------------------------

  /** `f` is the entry some wanted flow of `adds` installs at `k`. */
  ghost predicate Installs(adds: seq<DesiredFlow>, cookie: string, k: FlowKey, f: Flow) {
    exists d :: d in adds && d.key == k && f == Flow(cookie, d.actions)
  }

  /** Nothing disappeared, and what changed was asked for. */
  ghost predicate Grown(before: map<FlowKey, Flow>, after: map<FlowKey, Flow>, adds: seq<DesiredFlow>, cookie: string) {
    && before.Keys <= after.Keys
    && forall k :: k in after ==> (k in before && after[k] == before[k]) || Installs(adds, cookie, k, after[k])
  }

  ghost predicate Installed(after: map<FlowKey, Flow>, adds: seq<DesiredFlow>, all: seq<DesiredFlow>, cookie: string) {
    forall d :: d in adds ==> d.key in after && Installs(all, cookie, d.key, after[d.key])
  }

  /** Only entries of this plane disappeared, all of them in `dels`. */
  ghost predicate Shrunk(before: map<FlowKey, Flow>, after: map<FlowKey, Flow>, dels: seq<FlowKey>, cookie: string) {
    && (forall k :: k in after ==> k in before && after[k] == before[k])
    && (forall k :: k in before && (k !in dels || before[k].cookie != cookie) ==> k in after)
  }

  function Apply(flows: map<FlowKey, Flow>, adds: seq<DesiredFlow>, cookie: string): map<FlowKey, Flow> {
    if adds == [] then flows
    else Apply(flows, adds[..|adds| - 1], cookie)[adds[|adds| - 1].key := Flow(cookie, adds[|adds| - 1].actions)]
  }

  lemma {:induction false} ApplyGrows(flows: map<FlowKey, Flow>, adds: seq<DesiredFlow>, cookie: string)
    ensures Grown(flows, Apply(flows, adds, cookie), adds, cookie)
    ensures Installed(Apply(flows, adds, cookie), adds, adds, cookie)
  {
    if adds != [] {
      var init, last := adds[..|adds| - 1], adds[|adds| - 1];
      ApplyGrows(flows, init, cookie);
      assert adds == init + [last];
      var before, after := Apply(flows, init, cookie), Apply(flows, adds, cookie);
      forall k | k in after
        ensures (k in flows && after[k] == flows[k]) || Installs(adds, cookie, k, after[k])
      {
        if k == last.key {
          assert last in adds;
        } else if Installs(init, cookie, k, before[k]) {
          var d :| d in init && d.key == k && before[k] == Flow(cookie, d.actions);
          assert d in adds;
        }
      }
      forall d | d in adds
        ensures d.key in after && Installs(adds, cookie, d.key, after[d.key])
      {
        if d.key == last.key {
          assert last in adds;
        } else {
          assert d in init;
          var d' :| d' in init && d'.key == d.key && before[d.key] == Flow(cookie, d'.actions);
          assert d' in adds;
        }
      }
    }
  }

  lemma GrownTransitive(a: map<FlowKey, Flow>, b: map<FlowKey, Flow>, c: map<FlowKey, Flow>, adds: seq<DesiredFlow>, cookie: string)
    requires Grown(a, b, adds, cookie) && Grown(b, c, adds, cookie)
    ensures Grown(a, c, adds, cookie)
  {
  }

  lemma GrownMore(a: map<FlowKey, Flow>, b: map<FlowKey, Flow>, some: seq<DesiredFlow>, adds: seq<DesiredFlow>, cookie: string)
    requires Grown(a, b, some, cookie) && forall d :: d in some ==> d in adds
    ensures Grown(a, b, adds, cookie)
  {
    forall k | k in b && Installs(some, cookie, k, b[k])
      ensures Installs(adds, cookie, k, b[k])
    {
      var d :| d in some && d.key == k && b[k] == Flow(cookie, d.actions);
      assert d in adds;
    }
  }

  lemma StaysInstalled(b: map<FlowKey, Flow>, c: map<FlowKey, Flow>, some: seq<DesiredFlow>, adds: seq<DesiredFlow>, cookie: string)
    requires Grown(b, c, adds, cookie) && Installed(b, some, adds, cookie)
    ensures Installed(c, some, adds, cookie)
  {
  }

  /** sort.Slice by spec: only the order changes. */
  function InsertFlow(d: DesiredFlow, ds: seq<DesiredFlow>): (r: seq<DesiredFlow>)
    ensures forall x :: x in r <==> x == d || x in ds
  {
    if ds == [] || LexLE(d.spec, ds[0].spec) then [d] + ds else [ds[0]] + InsertFlow(d, ds[1..])
  }

  function SortFlows(ds: seq<DesiredFlow>): (r: seq<DesiredFlow>)
    ensures forall x :: x in r <==> x in ds
  {
    if ds == [] then [] else InsertFlow(ds[0], SortFlows(ds[1..]))
  }

  function InsertKey(k: FlowKey, ks: seq<FlowKey>, cookie: string): (r: seq<FlowKey>)
    ensures forall x :: x in r <==> x == k || x in ks
  {
    if ks == [] || LexLE(DeleteMatch(k, cookie), DeleteMatch(ks[0], cookie)) then [k] + ks else [ks[0]] + InsertKey(k, ks[1..], cookie)
  }

  function SortDeletes(ks: seq<FlowKey>, cookie: string): (r: seq<FlowKey>)
    ensures forall x :: x in r <==> x in ks
  {
    if ks == [] then [] else InsertKey(ks[0], SortDeletes(ks[1..], cookie), cookie)
  }

  class RouteManager {
    /** A wrapper command is configured in front of the OVS tools. */
    const wrapped: bool
    var flows: map<FlowKey, Flow>
    var wrapperStdinOK: Option<bool>
    var ofctlBundleOK: Option<bool>

    constructor (wrapped: bool)
      ensures this.wrapped == wrapped && flows == map[] && wrapperStdinOK == None && ofctlBundleOK == None
    {
      this.wrapped, flows, wrapperStdinOK, ofctlBundleOK := wrapped, map[], None, None;
    }

    // -------------------------------------------------------------------------
    // Commands
    // -------------------------------------------------------------------------

    /** One exec that adds a list: a bundle lands whole or not at all, a failed plain batch in any part. */
    method AddFlows(cookie: string, adds: seq<DesiredFlow>, bundle: bool) returns (ok: bool, ghost e: Entry)
      modifies this`flows
      ensures e == Entry(AddBatch(bundle, adds), ok, flows)
      ensures Grown(old(flows), flows, adds, cookie)
      ensures ok ==> Installed(flows, adds, adds, cookie)
      ensures bundle && !ok ==> flows == old(flows) || Installed(flows, adds, adds, cookie)
    {
      ok := *;
      var landed: bool := *;
      if ok || (bundle && landed) {
        ApplyGrows(flows, adds, cookie);
        flows := Apply(flows, adds, cookie);
      } else if !bundle {
        var n: nat :| n <= |adds|;
        ApplyGrows(flows, adds[..n], cookie);
        GrownMore(flows, Apply(flows, adds[..n], cookie), adds[..n], adds, cookie);
        flows := Apply(flows, adds[..n], cookie);
      }
      e := Entry(AddBatch(bundle, adds), ok, flows);
    }

    method AddOVSFlow(cookie: string, d: DesiredFlow) returns (ok: bool, ghost e: Entry)
      modifies this`flows
      ensures e == Entry(AddOne(d), ok, flows)
      ensures flows == old(flows) || flows == old(flows)[d.key := Flow(cookie, d.actions)]
      ensures ok ==> flows == old(flows)[d.key := Flow(cookie, d.actions)]
    {
      ok := *;
      var landed: bool := *;
      if ok || landed {
        flows := flows[d.key := Flow(cookie, d.actions)];
      }
      e := Entry(AddOne(d), ok, flows);
    }

    method DelFlow(cookie: string, k: FlowKey) returns (ok: bool, ghost e: Entry)
      modifies this`flows
      ensures e == Entry(StrictDelete(k), ok, flows)
      ensures Shrunk(old(flows), flows, [k], cookie)
      ensures ok ==> k !in flows || flows[k].cookie != cookie
    {
      ok := *;
      var landed: bool := *;
      if (ok || landed) && k in flows && flows[k].cookie == cookie {
        flows := flows - {k};
      }
      e := Entry(StrictDelete(k), ok, flows);
    }

    /** Whether stdin reaches the tools. A probe that could not run is not remembered. */
    method StdinForwardingOK() returns (r: bool, ghost es: seq<Entry>)
      modifies this`wrapperStdinOK
      ensures !wrapped ==> r
      ensures wrapped && old(wrapperStdinOK).Some? ==> r == old(wrapperStdinOK).value && es == []
      ensures wrapperStdinOK.Some? && wrapped ==> r == wrapperStdinOK.value
      ensures forall e :: e in es ==> e.cmd == Probe && e.flows == flows
    {
      es := [];
      if !wrapped {
        return true, es;
      }
      if wrapperStdinOK.Some? {
        return wrapperStdinOK.value, es;
      }
      var ran: bool := *;
      es := [Entry(Probe, ran, flows)];
      if !ran {
        return false, es;
      }
      r := *;
      wrapperStdinOK := Some(r);
    }

    /** Whether ovs-ofctl has bundles. Only a positive verdict is remembered. */
    method BundleSupported() returns (r: bool, ghost es: seq<Entry>)
      requires ofctlBundleOK != Some(false)
      modifies this`ofctlBundleOK
      ensures r <==> ofctlBundleOK == Some(true)
      ensures ofctlBundleOK != Some(false)
      ensures forall e :: e in es ==> e.cmd == Probe && e.flows == flows
    {
      es := [];
      if ofctlBundleOK.Some? {
        return ofctlBundleOK.value, es;
      }
      r := *;
      es := [Entry(Probe, r, flows)];
      if r {
        ofctlBundleOK := Some(true);
      }
    }

    // -------------------------------------------------------------------------
    // The reconcile
    // -------------------------------------------------------------------------

    /** One exec per flow; every flow is attempted. */
    method AddOneByOne(cookie: string, adds: seq<DesiredFlow>) returns (ok: bool, ghost es: seq<Entry>)
      modifies this`flows
      ensures forall e :: e in es ==> e.cmd.AddOne? && Grown(old(flows), e.flows, adds, cookie)
      ensures Grown(old(flows), flows, adds, cookie)
      ensures ok <==> AllOk(es)
      ensures ok ==> Installed(flows, adds, adds, cookie)
      ensures |es| == |adds|
    {
      ok, es := true, [];
      for n := 0 to |adds|
        invariant |es| == n
        invariant forall e :: e in es ==> e.cmd.AddOne? && Grown(old(flows), e.flows, adds, cookie)
        invariant Grown(old(flows), flows, adds, cookie)
        invariant ok <==> AllOk(es)
        invariant ok ==> Installed(flows, adds[..n], adds, cookie)
      {
        var a := adds[n];
        ghost var before := flows;
        var addOK, e := AddOVSFlow(cookie, a);
        assert Installs(adds, cookie, a.key, Flow(cookie, a.actions));
        assert Grown(before, flows, adds, cookie);
        GrownTransitive(old(flows), before, flows, adds, cookie);
        if ok {
          StaysInstalled(before, flows, adds[..n], adds, cookie);
        }
        assert adds[..n + 1] == adds[..n] + [a];
        ok := ok && addOK;
        es := es + [e];
      }
      assert adds[..|adds|] == adds;
    }

    /** Adds in one exec where stdin reaches ovs-ofctl. A failed bundle drops the remembered verdict. */
    method ApplyFlowAdds(cookie: string, adds: seq<DesiredFlow>) returns (ok: bool, ghost es: seq<Entry>)
      requires ofctlBundleOK != Some(false)
      modifies this`flows, this`wrapperStdinOK, this`ofctlBundleOK
      ensures ofctlBundleOK != Some(false)
      ensures forall e :: e in es ==> (Adds(e.cmd) || e.cmd == Probe) && Grown(old(flows), e.flows, adds, cookie)
      ensures Grown(old(flows), flows, adds, cookie)
      ensures ok <==> forall e :: e in es && Adds(e.cmd) ==> e.ok
      ensures ok ==> Installed(flows, adds, adds, cookie)
      ensures adds == [] ==> es == []
      ensures adds != [] ==> exists e :: e in es && Adds(e.cmd)
      ensures (exists e :: e in es && e.cmd.AddBatch? && e.cmd.bundle && !e.ok) ==> ofctlBundleOK == None
    {
      ok, es := true, [];
      if |adds| == 0 {
        return;
      }
      var stdinOK, probes := StdinForwardingOK();
      if !stdinOK {
        ghost var added;
        ok, added := AddOneByOne(cookie, adds);
        assert added[0] in added;
        es := probes + added;
        return;
      }
      var bundle, more := BundleSupported();
      var addOK, e := AddFlows(cookie, adds, bundle);
      ok, es := addOK, probes + more + [e];
      assert e in es;
      if !addOK && bundle {
        ofctlBundleOK := None;
      }
    }

    /** The stale entries are deleted one by one; a failed delete does not stop the next. */
    method DeleteStale(cookie: string, dels: seq<FlowKey>) returns (ok: bool, ghost es: seq<Entry>)
      modifies this`flows
      ensures forall e :: e in es ==> e.cmd.StrictDelete? && e.cmd.key in dels && Shrunk(old(flows), e.flows, dels, cookie)
      ensures Shrunk(old(flows), flows, dels, cookie)
      ensures ok <==> AllOk(es)
      ensures ok ==> forall k :: k in dels ==> k !in flows || flows[k].cookie != cookie
      ensures |es| == |dels|
    {
      ok, es := true, [];
      for n := 0 to |dels|
        invariant |es| == n
        invariant forall e :: e in es ==> e.cmd.StrictDelete? && e.cmd.key in dels && Shrunk(old(flows), e.flows, dels, cookie)
        invariant Shrunk(old(flows), flows, dels, cookie)
        invariant ok <==> AllOk(es)
        invariant ok ==> forall i :: 0 <= i < n ==> dels[i] !in flows || flows[dels[i]].cookie != cookie
      {
        var delOK, e := DelFlow(cookie, dels[n]);
        ok := ok && delOK;
        es := es + [e];
      }
    }

    method Diff(current: map<FlowKey, string>, desired: seq<DesiredFlow>) returns (adds: seq<DesiredFlow>, dels: seq<FlowKey>)
      ensures forall d :: d in adds <==> d in desired && !(d.key in current && current[d.key] == d.actions)
      ensures forall k :: k in dels <==> k in current && !Wants(desired, k)
    {
      var wanted := {};
      adds, dels := [], [];
      for n := 0 to |desired|
        invariant forall k :: k in wanted <==> Wants(desired[..n], k)
        invariant forall d :: d in adds <==> d in desired[..n] && !(d.key in current && current[d.key] == d.actions)
      {
        var d := desired[n];
        assert desired[..n + 1] == desired[..n] + [d];
        WantsSnoc(desired[..n], d);
        wanted := wanted + {d.key};
        if !(d.key in current && current[d.key] == d.actions) {
          adds := adds + [d];
        }
      }
      assert desired[..|desired|] == desired;
      var todo := current.Keys;
      while todo != {}
        invariant todo <= current.Keys
        invariant forall k :: k in dels <==> k in current.Keys - todo && k !in wanted
        decreases |todo|
      {
        var k :| k in todo;
        todo := todo - {k};
        if k !in wanted {
          dels := dels + [k];
        }
      }
    }

    /** The dump, and what differs from the desired set. */
    method DumpAndDiff(cookie: string, desired: seq<DesiredFlow>) returns (dumpOK: bool, adds: seq<DesiredFlow>, dels: seq<FlowKey>, ghost dump: Entry)
      ensures Diffed(cookie, desired, flows, adds, dels, dump) && dumpOK == dump.ok
    {
      dumpOK := *;
      dump := Entry(Dump, dumpOK, flows);
      adds, dels := [], [];
      if dumpOK {
        var current := Plane(flows, cookie);
        adds, dels := Diff(current, desired);
        adds, dels := SortFlows(adds), SortDeletes(dels, cookie);
      }
    }

    /** Adds first; the deletes only run once every add succeeded. */
    method ApplyDiff(cookie: string, adds: seq<DesiredFlow>, dels: seq<FlowKey>)
      returns (ok: bool, ghost f1: map<FlowKey, Flow>, ghost added: seq<Entry>, ghost deleted: seq<Entry>)
      requires ofctlBundleOK != Some(false)
      modifies this`flows, this`wrapperStdinOK, this`ofctlBundleOK
      ensures ofctlBundleOK != Some(false)
      ensures Added(cookie, old(flows), f1, adds, added) && Deleted(cookie, f1, flows, dels, added, deleted)
      ensures ok <==> AddsOk(added) && AllOk(deleted)
    {
      hide Grown, Installed;
      ok, added := ApplyFlowAdds(cookie, adds);
      f1 := flows;
      deleted := [];
      if ok {
        ok, deleted := DeleteStale(cookie, dels);
      }
    }

    method RunPass(cookie: string, desired: seq<DesiredFlow>) returns (ok: bool, ghost p: Pass)
      requires ofctlBundleOK != Some(false)
      modifies this`flows, this`wrapperStdinOK, this`ofctlBundleOK
      ensures ofctlBundleOK != Some(false)
      ensures p.cookie == cookie && p.desired == desired && p.f0 == old(flows) && p.f2 == flows
      ensures p.Facts() && ok == p.Ok()
    {
      hide Diffed, Added, Deleted;
      ghost var f0 := flows;
      var dumpOK, adds, dels, dump := DumpAndDiff(cookie, desired);
      if !dumpOK || (|adds| == 0 && |dels| == 0) {
        NothingToApply(cookie, desired, f0, adds, dels, dump);
        return dumpOK, Pass(cookie, desired, f0, f0, f0, adds, dels, dump, [], []);
      }
      var applied, f1, added, deleted := ApplyDiff(cookie, adds, dels);
      return applied, Pass(cookie, desired, f0, f1, flows, adds, dels, dump, added, deleted);
    }

    /**
     One plane, brought to its desired set. Whatever fails, no desired entry that was installed
     disappears at any point, entries of other planes stay, and a failed add deletes nothing.
     */
    method ReconcileFlowPlane(cookie: string, desired: seq<DesiredFlow>) returns (ok: bool, ghost es: seq<Entry>)
      requires ofctlBundleOK != Some(false)
      modifies this`flows, this`wrapperStdinOK, this`ofctlBundleOK
      ensures ofctlBundleOK != Some(false)
      ensures NeverBlanks(cookie, desired, old(flows), es) && NeverBlanksFinal(cookie, desired, old(flows), flows)
      ensures LeavesOthers(cookie, desired, old(flows), es) && LeavesOthersFinal(cookie, desired, old(flows), flows)
      ensures FailedAddDeletesNothing(old(flows), es)
      ensures ok <==> forall e :: e in es && e.cmd != Probe ==> e.ok
      ensures ok ==> forall k :: k in Plane(flows, cookie) <==> Wants(desired, k)
      ensures ok ==> forall k :: k in Plane(flows, cookie) ==> Installs(desired, cookie, k, flows[k])
      ensures ok ==> (Functional(desired) <==> InSync(cookie, desired, flows))
      ensures Wrote(es) <==> Dumped(es) && !InSync(cookie, desired, old(flows))
      ensures ok ==> Dumped(es)
    {
      ghost var p;
      ok, p := RunPass(cookie, desired);
      es := p.Trace();
      hide NeverBlanks, LeavesOthers, FailedAddDeletesNothing, Plane, Installs, InSync, Functional, Wants, Wrote, Dumped;
      PassNeverBlanks(p);
      PassLeavesOthers(p);
      PassOutcome(p);
      PassFailedAdd(p);
      if ok { PassExact(p); }
      PassWrites(p);
    }

    /** After a successful run the next one issues no write, exactly when no key is wanted with two action lists. */
    method ReconcileTwice(cookie: string, desired: seq<DesiredFlow>) returns (ok: bool, ok2: bool, ghost es: seq<Entry>)
      requires ofctlBundleOK != Some(false)
      modifies this`flows, this`wrapperStdinOK, this`ofctlBundleOK
      ensures ok && ok2 ==> (!Wrote(es) <==> Functional(desired))
    {
      ghost var first;
      ok, first := ReconcileFlowPlane(cookie, desired);
      hide NeverBlanks, LeavesOthers, FailedAddDeletesNothing, Plane, Installs, InSync, Functional, Wants, NeverBlanksFinal, LeavesOthersFinal, Wrote, Dumped;
      ghost var synced := InSync(cookie, desired, flows);
      ok2, es := ReconcileFlowPlane(cookie, desired);
      assert ok && ok2 ==> (synced <==> Functional(desired));
    }
  }

  lemma WantsSnoc(ds: seq<DesiredFlow>, d: DesiredFlow)
    ensures forall k :: Wants(ds + [d], k) <==> Wants(ds, k) || d.key == k
  {
    forall k ensures Wants(ds + [d], k) <==> Wants(ds, k) || d.key == k {
      assert d in ds + [d];
      if Wants(ds, k) {
        var x :| x in ds && x.key == k;
        assert x in ds + [d];
      }
    }
  }

  lemma NothingToApply(cookie: string, desired: seq<DesiredFlow>, f0: map<FlowKey, Flow>, adds: seq<DesiredFlow>, dels: seq<FlowKey>, dump: Entry)
    requires Diffed(cookie, desired, f0, adds, dels, dump) && (dump.ok ==> adds == [] && dels == [])
    ensures Added(cookie, f0, f0, adds, []) && Deleted(cookie, f0, f0, dels, [], [])
  {
  }

  // ---------------------------------------------------------------------------
  // What a reconcile promises
  // ---------------------------------------------------------------------------

  ghost predicate NeverBlanksFinal(cookie: string, desired: seq<DesiredFlow>, f0: map<FlowKey, Flow>, f: map<FlowKey, Flow>) {
    forall d :: d in desired && d.key in f0 ==>
      d.key in f && (f[d.key] == f0[d.key] || Installs(desired, cookie, d.key, f[d.key]))
  }

  /** Each desired key that was installed stays installed in every state on the way, as it was or as desired. */
  ghost predicate NeverBlanks(cookie: string, desired: seq<DesiredFlow>, f0: map<FlowKey, Flow>, es: seq<Entry>) {
    forall e :: e in es ==> NeverBlanksFinal(cookie, desired, f0, e.flows)
  }

  ghost predicate LeavesOthersFinal(cookie: string, desired: seq<DesiredFlow>, f0: map<FlowKey, Flow>, f: map<FlowKey, Flow>) {
    && (forall k :: !Wants(desired, k) && !(k in f0 && f0[k].cookie == cookie) ==> (k in f <==> k in f0) && (k in f ==> f[k] == f0[k]))
    && (forall k :: k in f && f[k].cookie != cookie ==> k in f0 && f[k] == f0[k])
  }

  /** Entries under another cookie, at keys this plane does not want, are never touched. */
  ghost predicate LeavesOthers(cookie: string, desired: seq<DesiredFlow>, f0: map<FlowKey, Flow>, es: seq<Entry>) {
    forall e :: e in es ==> LeavesOthersFinal(cookie, desired, f0, e.flows)
  }

  ghost predicate FailedAddDeletesNothing(f0: map<FlowKey, Flow>, es: seq<Entry>) {
    (exists e :: e in es && Adds(e.cmd) && !e.ok) ==> forall e :: e in es ==> !e.cmd.StrictDelete? && f0.Keys <= e.flows.Keys
  }

  /** The plane holds exactly what is desired. */
  ghost predicate InSync(cookie: string, desired: seq<DesiredFlow>, flows: map<FlowKey, Flow>) {
    && (forall k :: k in Plane(flows, cookie) ==> Wants(desired, k))
    && (forall d :: d in desired ==> d.key in Plane(flows, cookie) && Plane(flows, cookie)[d.key] == d.actions)
  }

  datatype Pass = Pass(cookie: string, desired: seq<DesiredFlow>, f0: map<FlowKey, Flow>, f1: map<FlowKey, Flow>, f2: map<FlowKey, Flow>,
                       adds: seq<DesiredFlow>, dels: seq<FlowKey>, dump: Entry, added: seq<Entry>, deleted: seq<Entry>)
  {
    function Trace(): seq<Entry> {
      [dump] + added + deleted
    }

    ghost predicate Ok() {
      dump.ok && AddsOk(added) && AllOk(deleted)
    }

    ghost predicate Facts() {
      && Diffed(cookie, desired, f0, adds, dels, dump)
      && Added(cookie, f0, f1, adds, added)
      && Deleted(cookie, f1, f2, dels, added, deleted)
    }
  }

  ghost predicate AddsOk(added: seq<Entry>) {
    forall e :: e in added && Adds(e.cmd) ==> e.ok
  }

  ghost predicate Diffed(cookie: string, desired: seq<DesiredFlow>, f0: map<FlowKey, Flow>, adds: seq<DesiredFlow>, dels: seq<FlowKey>, dump: Entry) {
    && dump.cmd == Dump && dump.flows == f0
    && (!dump.ok ==> adds == [] && dels == [])
    && (dump.ok ==> forall d :: d in adds <==> d in desired && !(d.key in Plane(f0, cookie) && Plane(f0, cookie)[d.key] == d.actions))
    && (dump.ok ==> forall k :: k in dels <==> k in Plane(f0, cookie) && !Wants(desired, k))
  }

  ghost predicate Added(cookie: string, f0: map<FlowKey, Flow>, f1: map<FlowKey, Flow>, adds: seq<DesiredFlow>, added: seq<Entry>) {
    && (forall e :: e in added ==> (Adds(e.cmd) || e.cmd == Probe) && Grown(f0, e.flows, adds, cookie))
    && Grown(f0, f1, adds, cookie)
    && (AddsOk(added) ==> Installed(f1, adds, adds, cookie))
    && (adds == [] ==> added == []) && (adds != [] ==> exists e :: e in added && Adds(e.cmd))
  }

  ghost predicate Deleted(cookie: string, f1: map<FlowKey, Flow>, f2: map<FlowKey, Flow>, dels: seq<FlowKey>, added: seq<Entry>, deleted: seq<Entry>) {
    && (forall e :: e in deleted ==> e.cmd.StrictDelete? && e.cmd.key in dels && Shrunk(f1, e.flows, dels, cookie))
    && Shrunk(f1, f2, dels, cookie)
    && (!AddsOk(added) ==> deleted == [])
    && (dels == [] ==> deleted == []) && (dels != [] && AddsOk(added) ==> deleted != [])
    && (AllOk(deleted) && AddsOk(added) ==> forall k :: k in dels ==> k !in f2 || f2[k].cookie != cookie)
  }

  lemma InTrace(p: Pass, e: Entry)
    ensures e in p.Trace() <==> e == p.dump || e in p.added || e in p.deleted
  {
  }

  lemma InstallsMore(adds: seq<DesiredFlow>, desired: seq<DesiredFlow>, cookie: string, k: FlowKey, f: Flow)
    requires Installs(adds, cookie, k, f) && forall d :: d in adds ==> d in desired
    ensures Installs(desired, cookie, k, f) && Wants(desired, k)
  {
  }

  /** In every state of a pass each key is as it was, as desired, or gone as stale. */
  ghost predicate StateOf(p: Pass, f: map<FlowKey, Flow>) {
    && (forall k :: k in f ==> (k in p.f0 && f[k] == p.f0[k]) || (Installs(p.desired, p.cookie, k, f[k]) && Wants(p.desired, k)))
    && (forall k :: k in p.f0 && k !in f ==> p.f0[k].cookie == p.cookie && !Wants(p.desired, k))
  }

  lemma GrownIsState(p: Pass, f: map<FlowKey, Flow>)
    requires p.Facts() && Grown(p.f0, f, p.adds, p.cookie)
    ensures StateOf(p, f)
  {
    forall k | k in f && Installs(p.adds, p.cookie, k, f[k])
      ensures Installs(p.desired, p.cookie, k, f[k]) && Wants(p.desired, k)
    {
      InstallsMore(p.adds, p.desired, p.cookie, k, f[k]);
    }
  }

  lemma ShrunkIsState(p: Pass, f: map<FlowKey, Flow>)
    requires p.Facts() && Shrunk(p.f1, f, p.dels, p.cookie)
    ensures StateOf(p, f)
  {
    GrownIsState(p, p.f1);
    forall k | k in p.f0 && k !in f
      ensures p.f0[k].cookie == p.cookie && !Wants(p.desired, k)
    {
      assert k in p.f1 && k in p.dels;
    }
  }

  lemma AllStates(p: Pass)
    requires p.Facts()
    ensures StateOf(p, p.f2) && forall e :: e in p.Trace() ==> StateOf(p, e.flows)
  {
    ShrunkIsState(p, p.f2);
    forall e | e in p.Trace() ensures StateOf(p, e.flows) {
      InTrace(p, e);
      if e in p.added { GrownIsState(p, e.flows); }
      else if e in p.deleted { ShrunkIsState(p, e.flows); }
    }
  }

  lemma StateMeans(p: Pass, f: map<FlowKey, Flow>)
    requires StateOf(p, f)
    ensures NeverBlanksFinal(p.cookie, p.desired, p.f0, f) && LeavesOthersFinal(p.cookie, p.desired, p.f0, f)
  {
  }

  lemma PassNeverBlanks(p: Pass)
    requires p.Facts()
    ensures NeverBlanks(p.cookie, p.desired, p.f0, p.Trace()) && NeverBlanksFinal(p.cookie, p.desired, p.f0, p.f2)
  {
    AllStates(p);
    StateMeans(p, p.f2);
    forall e | e in p.Trace() ensures NeverBlanksFinal(p.cookie, p.desired, p.f0, e.flows) { StateMeans(p, e.flows); }
  }

  lemma PassLeavesOthers(p: Pass)
    requires p.Facts()
    ensures LeavesOthers(p.cookie, p.desired, p.f0, p.Trace()) && LeavesOthersFinal(p.cookie, p.desired, p.f0, p.f2)
  {
    AllStates(p);
    StateMeans(p, p.f2);
    forall e | e in p.Trace() ensures LeavesOthersFinal(p.cookie, p.desired, p.f0, e.flows) { StateMeans(p, e.flows); }
  }

  lemma PassOutcome(p: Pass)
    requires p.Facts()
    ensures p.Ok() <==> forall e :: e in p.Trace() && e.cmd != Probe ==> e.ok
    ensures p.Ok() ==> Dumped(p.Trace())
  {
    forall e ensures e in p.Trace() <==> e == p.dump || e in p.added || e in p.deleted { InTrace(p, e); }
  }

  lemma PassFailedAdd(p: Pass)
    requires p.Facts()
    ensures FailedAddDeletesNothing(p.f0, p.Trace())
  {
    forall e ensures e in p.Trace() <==> e == p.dump || e in p.added || e in p.deleted { InTrace(p, e); }
  }

  /** A plane with the desired keys, each as some desired flow has it, is in sync exactly when keys are wanted in one way only. */
  lemma SyncIsFunctional(cookie: string, desired: seq<DesiredFlow>, flows: map<FlowKey, Flow>)
    requires forall k :: k in Plane(flows, cookie) <==> Wants(desired, k)
    requires forall k :: k in Plane(flows, cookie) ==> Installs(desired, cookie, k, flows[k])
    ensures Functional(desired) <==> InSync(cookie, desired, flows)
  {
    forall d | d in desired
      ensures Wants(desired, d.key) && d.key in Plane(flows, cookie)
    {
    }
  }

  /** A successful pass leaves exactly the desired keys, each as some desired flow has it. */
  lemma PassExact(p: Pass)
    requires p.Facts() && p.Ok()
    ensures forall k :: k in Plane(p.f2, p.cookie) <==> Wants(p.desired, k)
    ensures forall k :: k in Plane(p.f2, p.cookie) ==> Installs(p.desired, p.cookie, k, p.f2[k])
    ensures Functional(p.desired) <==> InSync(p.cookie, p.desired, p.f2)
  {
    forall k | Wants(p.desired, k)
      ensures k in p.f2 && Installs(p.desired, p.cookie, k, p.f2[k])
    {
      var d :| d in p.desired && d.key == k;
      PassInstalled(p, d);
    }
    forall k | k in Plane(p.f2, p.cookie)
      ensures Wants(p.desired, k)
    {
      PassOnlyWanted(p, k);
    }
    SyncIsFunctional(p.cookie, p.desired, p.f2);
  }

  lemma PassOnlyWanted(p: Pass, k: FlowKey)
    requires p.Facts() && p.Ok() && k in Plane(p.f2, p.cookie)
    ensures Wants(p.desired, k)
  {
    ShrunkIsState(p, p.f2);
    assert k in Plane(p.f0, p.cookie) && !Wants(p.desired, k) ==> k in p.dels;
  }

  lemma PassInstalled(p: Pass, d: DesiredFlow)
    requires p.Facts() && p.Ok() && d in p.desired
    ensures d.key in p.f2 && Installs(p.desired, p.cookie, d.key, p.f2[d.key])
  {
    assert d.key !in p.dels;
    if d in p.adds {
      InstallsMore(p.adds, p.desired, p.cookie, d.key, p.f1[d.key]);
    } else {
      assert p.f0[d.key] == Flow(p.cookie, d.actions);
      if Installs(p.adds, p.cookie, d.key, p.f1[d.key]) {
        InstallsMore(p.adds, p.desired, p.cookie, d.key, p.f1[d.key]);
      }
    }
  }

  /** A pass writes exactly when its dump showed a difference. */
  lemma PassWrites(p: Pass)
    requires p.Facts()
    ensures Wrote(p.Trace()) <==> Dumped(p.Trace()) && !InSync(p.cookie, p.desired, p.f0)
  {
    forall e ensures e in p.Trace() <==> e == p.dump || e in p.added || e in p.deleted { InTrace(p, e); }
    EmptyIff(p.adds);
    EmptyIff(p.dels);
    if p.dump.ok {
      assert InSync(p.cookie, p.desired, p.f0) <==> p.adds == [] && p.dels == [];
    }
    if p.deleted != [] { assert p.deleted[0] in p.deleted; }
  }

  /** The planes do not disturb each other: their flows are installed at different priorities. */
  lemma OtherPlaneUntouched(cookie: string, other: string, priority: int, desired: seq<DesiredFlow>, f0: map<FlowKey, Flow>, f: map<FlowKey, Flow>)
    requires cookie != other && LeavesOthersFinal(cookie, desired, f0, f)
    requires forall d :: d in desired ==> d.key.priority == priority
    requires forall k :: k in Plane(f0, other) ==> k.priority != priority
    ensures Plane(f, other) == Plane(f0, other)
  {
    forall k | k in Plane(f0, other)
      ensures k in f && f[k] == f0[k]
    {
      assert !Wants(desired, k);
    }
  }
}
