/**
 The route plane of one node: the agent's kernel /32 routes and its FRR statics, kept
 equal to a desired state by list-diff-apply passes. Every external command may fail and
 a failed FRR chunk may have been delivered in part. Each method also returns, as a ghost
 trace, the commands it ran with the state each of them left behind, so that properties
 of the order of commands can be stated.
 */
module RouteSync {
  import opened Common
  import NexthopRepair

  /** The maximum number of route operations per vtysh call. */
  const FRR_BATCH_SIZE := 500

  datatype Command =
    | ListKernel
    | ShowStatic
    | AddKernel(ip: string, dev: string, rolledBack: bool)
    | DelKernel(ip: string, dev: string)
    | AddFRR(chunk: seq<string>)
    | DelFRR(chunk: seq<string>)
    | RefreshBGP

  /** A command, its outcome, and the kernel routes (IP to device) and FRR statics after it. */
  datatype Entry = Entry(cmd: Command, ok: bool, kernel: map<string, string>, frr: set<string>)

  datatype RouteSyncResult = RouteSyncResult(changed: bool, announced: bool, ready: bool)

  predicate Mutating(cmd: Command) {
    cmd.AddKernel? || cmd.DelKernel? || cmd.AddFRR? || cmd.DelFRR?
  }

  /** The desired state of one cycle: kernel plane, FRR plane, devices, and the IPs whose kernel route is left alone. */
  datatype Desired = Desired(ips: seq<string>, frrStatic: seq<string>, ipDev: map<string, string>, skip: set<string>, bridgeDev: string) {
    function Dev(ip: string): string {
      if ip in ipDev && ipDev[ip] != "" then ipDev[ip] else bridgeDev
    }

    /** The FRR plane is a part of the kernel plane (see DesiredState). */
    predicate Nested() {
      forall ip :: ip in frrStatic ==> ip in ips
    }

    /** Every unskipped desired IP has its kernel route on its device. */
    ghost predicate KernelServed(kernel: map<string, string>) {
      forall ip :: ip in ips && ip !in skip ==> ip in kernel && kernel[ip] == Dev(ip)
    }

    /** The kernel table after a pass without failures: each desired IP on its device, skipped ones as found. */
    function SyncedKernel(kernel: map<string, string>): map<string, string> {
      map ip | ip in Elems(ips) && (ip !in skip || ip in kernel) :: if ip in skip then kernel[ip] else Dev(ip)
    }

    ghost predicate InSync(kernel: map<string, string>, frr: set<string>) {
      frr == Elems(frrStatic) && kernel.Keys <= Elems(ips) && KernelServed(kernel)
    }
  }

  /** Nothing is announced that the kernel cannot deliver. */
  predicate Deliverable(kernel: map<string, string>, frr: set<string>) {
    frr <= kernel.Keys
  }

  ghost predicate AllOk(es: seq<Entry>) {
    forall e :: e in es ==> e.ok
  }

  ghost predicate KernelAddsOk(es: seq<Entry>) {
    forall e :: e in es && e.cmd.AddKernel? ==> e.ok
  }

  ghost predicate WithdrawalsOk(es: seq<Entry>) {
    forall e :: e in es && e.cmd.DelFRR? ==> e.ok
  }

  /** What one pass may do: it adds only desired routes and removes only undesired ones. */
  ghost predicate Permitted(cmd: Command, d: Desired) {
    match cmd
    case AddKernel(ip, dev, _) => ip in d.ips && ip !in d.skip && dev == d.Dev(ip)
    case DelKernel(ip, dev) => ip !in d.ips
    case AddFRR(chunk) => 0 < |chunk| <= FRR_BATCH_SIZE && forall ip :: ip in chunk ==> ip in d.frrStatic
    case DelFRR(chunk) => 0 < |chunk| <= FRR_BATCH_SIZE && forall ip :: ip in chunk ==> ip !in d.frrStatic
    case _ => true
  }

  // ---------------------------------------------------------------------------
  // Shapes of single entries
  // ---------------------------------------------------------------------------

  ghost predicate AddChunk(e: Entry, kernel: map<string, string>, base: set<string>, ips: set<string>) {
    && e.cmd.AddFRR? && 0 < |e.cmd.chunk| <= FRR_BATCH_SIZE && Elems(e.cmd.chunk) <= ips
    && e.kernel == kernel && base <= e.frr <= base + ips
  }

  ghost predicate DelChunk(e: Entry, kernel: map<string, string>, base: set<string>, ips: set<string>) {
    && e.cmd.DelFRR? && 0 < |e.cmd.chunk| <= FRR_BATCH_SIZE && Elems(e.cmd.chunk) <= ips
    && e.kernel == kernel && base - ips <= e.frr <= base
  }

  ghost predicate AddRoute(e: Entry, d: Desired, listed: set<(string, string)>, frr: set<string>) {
    e.cmd.AddKernel? && Permitted(e.cmd, d) && (e.cmd.ip, e.cmd.dev) !in listed && e.frr == frr
  }

  ghost predicate DelRoute(e: Entry, stale: seq<(string, string)>, frr: set<string>, base: map<string, string>) {
    && e.cmd.DelKernel? && (e.cmd.ip, e.cmd.dev) in stale && e.frr == frr
    && forall ip :: ip in base && (forall r :: r in stale ==> r.0 != ip) ==> ip in e.kernel && e.kernel[ip] == base[ip]
  }

  /** Nothing but the desired IPs moved, and only to their devices if no add failed. */
  ghost predicate KernelAfterAdds(d: Desired, done: seq<string>, was: map<string, string>, now: map<string, string>, ok: bool) {
    && (forall ip :: ip !in d.ips ==> (ip in now <==> ip in was) && (ip in now ==> now[ip] == was[ip]))
    && (ok ==> was.Keys <= now.Keys)
    && (ok ==> forall ip :: ip in now && (ip !in done || ip in d.skip) ==> ip in was && now[ip] == was[ip])
    && (ok ==> forall ip :: ip in done && ip !in d.skip ==> ip in now && now[ip] == d.Dev(ip))
  }

  lemma KernelAddStep(d: Desired, done: seq<string>, ip: string, was: map<string, string>, before: map<string, string>, now: map<string, string>,
                      allOk: bool, ok: bool)
    requires KernelAfterAdds(d, done, was, before, allOk) && ip in d.ips && ip !in d.skip
    requires ok ==> now == before[ip := d.Dev(ip)]
    requires forall x :: x != ip ==> (x in now <==> x in before) && (x in before ==> now[x] == before[x])
    ensures KernelAfterAdds(d, done + [ip], was, now, allOk && ok)
  {
    hide Desired.Dev;
  }

  lemma KernelKeepStep(d: Desired, done: seq<string>, ip: string, was: map<string, string>, now: map<string, string>, allOk: bool)
    requires KernelAfterAdds(d, done, was, now, allOk) && (ip in d.skip || (ip in was && was[ip] == d.Dev(ip)))
    ensures KernelAfterAdds(d, done + [ip], was, now, allOk)
  {
    hide Desired.Dev;
  }

  /** Only stale IPs lost routes, and without a failure none of the listed ones among `done` is left. */
  ghost predicate KernelAfterDels(stale: seq<(string, string)>, done: seq<(string, string)>, was: map<string, string>, now: map<string, string>, ok: bool) {
    && (forall ip :: ip in now ==> ip in was && now[ip] == was[ip])
    && (forall ip :: ip in was && (forall r :: r in stale ==> r.0 != ip) ==> ip in now)
    && (ok ==> forall r :: r in done ==> !(r.0 in now && now[r.0] == r.1))
  }

  lemma KernelDelStep(stale: seq<(string, string)>, done: seq<(string, string)>, r: (string, string), was: map<string, string>,
                      before: map<string, string>, e: Entry, frr: set<string>, allOk: bool)
    requires KernelAfterDels(stale, done, was, before, allOk) && r in stale && e.cmd == DelKernel(r.0, r.1) && e.frr == frr
    requires e.kernel == if e.ok && r.0 in before && before[r.0] == r.1 then before - {r.0} else before
    ensures KernelAfterDels(stale, done + [r], was, e.kernel, allOk && e.ok)
    ensures DelRoute(e, stale, frr, was) && e.kernel.Keys <= was.Keys
  {
  }

  lemma AllOkSnoc(es: seq<Entry>, e: Entry)
    ensures AllOk(es + [e]) <==> AllOk(es) && e.ok
  {
    assert forall x :: x in es + [e] <==> x in es || x == e;
  }

  /** Chunks that cover the first IPs in order, each with its part of the statics added; only a failed one may leave some out. */
  ghost predicate FRRAdds(ips: seq<string>, covered: nat, kernel: map<string, string>, base: set<string>, frr: set<string>, es: seq<Entry>, ok: bool)
    requires covered <= |ips|
  {
    && Chunks(es) == ips[..covered]
    && (forall e :: e in es ==> AddChunk(e, kernel, base, Elems(ips)))
    && (ok <==> AllOk(es)) && (ok ==> frr == base + Elems(ips[..covered]))
    && base <= frr <= base + Elems(ips)
  }

  lemma FRRAddsStep(ips: seq<string>, start: nat, end: nat, kernel: map<string, string>, base: set<string>, frr: set<string>, es: seq<Entry>,
                    ok: bool, e: Entry)
    requires start < end <= |ips| && end <= start + FRR_BATCH_SIZE && FRRAdds(ips, start, kernel, base, frr, es, ok)
    requires e.cmd == AddFRR(ips[start..end]) && e.kernel == kernel && frr <= e.frr <= frr + Elems(ips[start..end])
    requires e.ok ==> e.frr == frr + Elems(ips[start..end])
    ensures FRRAdds(ips, end, kernel, base, e.frr, es + [e], ok && e.ok)
  {
    ChunkStep(ips, start, end, es, e);
    AllOkSnoc(es, e);
    hide AllOk, Chunks, Elems;
  }

  function Chunks(es: seq<Entry>): seq<string> {
    if es == [] then []
    else Chunks(es[..|es| - 1]) + (var c := es[|es| - 1].cmd; if c.AddFRR? || c.DelFRR? then c.chunk else [])
  }

  function Filter(ips: seq<string>, p: string -> bool): (out: seq<string>)
    ensures forall ip :: ip in out <==> ip in ips && p(ip)
  {
    if ips == [] then []
    else
      var rest := Filter(ips[..|ips| - 1], p);
      var last := ips[|ips| - 1];
      assert ips == ips[..|ips| - 1] + [last];
      if p(last) then rest + [last] else rest
  }

  lemma FilterStep(ips: seq<string>, n: nat, p: string -> bool)
    requires n < |ips|
    ensures Filter(ips[..n + 1], p) == if p(ips[n]) then Filter(ips[..n], p) + [ips[n]] else Filter(ips[..n], p)
  {
    assert ips[..n + 1][..n] == ips[..n];
  }

  lemma ChunkStep(ips: seq<string>, start: nat, end: nat, es: seq<Entry>, e: Entry)
    requires start <= end <= |ips|
    requires Chunks(es) == ips[..start] && (e.cmd.AddFRR? || e.cmd.DelFRR?) && e.cmd.chunk == ips[start..end]
    ensures Chunks(es + [e]) == ips[..end]
    ensures Elems(ips[..end]) == Elems(ips[..start]) + Elems(ips[start..end])
    ensures Elems(ips[start..end]) <= Elems(ips) && Elems(ips[..start]) <= Elems(ips)
  {
    assert (es + [e])[..|es|] == es;
    assert ips[..end] == ips[..start] + ips[start..end];
  }

  class RouteManager {
    const isV4: string -> bool
    const portForwardOnly: bool
    const vethLeak: bool
    var kernel: map<string, string>
    var frr: set<string>
    /** The memo of FRR's static-route document. */
    var frrRouteCache: Option<set<string>>
    var consecutiveReAdds: nat
    /** When the veth address was last flapped. */
    var lastNexthopRepair: Option<int>

    /** The memo is coherent, and both planes hold IPv4 routes only. */
    ghost predicate Valid()
      reads this
    {
      && (frrRouteCache.Some? ==> frrRouteCache.value == frr)
      && (forall ip :: ip in frr ==> isV4(ip))
      && (forall ip :: ip in kernel ==> isV4(ip))
    }

    /** What the checks of earlier cycles left behind. */
    ghost function Memory(): NexthopRepair.Memory
      reads this
    {
      NexthopRepair.Memory(consecutiveReAdds, lastNexthopRepair)
    }

    constructor (isV4: string -> bool, portForwardOnly: bool, vethLeak: bool)
      ensures Valid() && this.isV4 == isV4 && this.portForwardOnly == portForwardOnly && this.vethLeak == vethLeak
      ensures kernel == map[] && frr == {} && Memory() == NexthopRepair.After([], vethLeak)
    {
      this.isV4, this.portForwardOnly, this.vethLeak := isV4, portForwardOnly, vethLeak;
      kernel, frr, frrRouteCache, consecutiveReAdds, lastNexthopRepair := map[], {}, None, 0, None;
    }

    // -------------------------------------------------------------------------
    // External commands
    // -------------------------------------------------------------------------

    /**
     Route replace, then the ip rule. When the rule fails the route is taken out again; that
     may fail too, and then the route stays although the add reports an error.
     */
    method AddKernelRoute(ip: string, dev: string) returns (ok: bool, ghost e: Entry)
      requires Valid() && isV4(ip)
      modifies this`kernel
      ensures Valid() && e.cmd.AddKernel? && e == Entry(AddKernel(ip, dev, e.cmd.rolledBack), ok, kernel, frr)
      ensures ok ==> kernel == old(kernel)[ip := dev] && !e.cmd.rolledBack
      ensures !ok ==> kernel == if e.cmd.rolledBack then old(kernel) - {ip} else if ip in kernel then old(kernel)[ip := kernel[ip]] else old(kernel)
      ensures ip in kernel ==> kernel[ip] == dev || (ip in old(kernel) && kernel[ip] == old(kernel)[ip])
    {
      var replaced: bool, ruled: bool, deleted: bool := *, *, *;
      ok := replaced && ruled;
      if replaced {
        kernel := kernel[ip := dev];
      }
      if replaced && !ruled && deleted {
        kernel := kernel - {ip};
      }
      e := Entry(AddKernel(ip, dev, replaced && !ruled && deleted), ok, kernel, frr);
    }

    method DelKernelRoute(ip: string, dev: string) returns (ok: bool, ghost e: Entry)
      requires Valid()
      modifies this`kernel
      ensures Valid() && e == Entry(DelKernel(ip, dev), ok, kernel, frr)
      ensures ok ==> kernel == if ip in old(kernel) && old(kernel)[ip] == dev then old(kernel) - {ip} else old(kernel)
      ensures !ok ==> kernel == old(kernel)
    {
      ok := *;
      if ok && ip in kernel && kernel[ip] == dev {
        kernel := kernel - {ip};
      }
      e := Entry(DelKernel(ip, dev), ok, kernel, frr);
    }

    method ListKernelRoutes() returns (ok: bool, routes: seq<(string, string)>, ghost e: Entry)
      requires Valid()
      ensures e == Entry(ListKernel, ok, kernel, frr)
      ensures ok ==> forall r :: r in routes <==> r in kernel.Items
      ensures !ok ==> routes == []
    {
      ok, routes := *, [];
      e := Entry(ListKernel, ok, kernel, frr);
      if ok {
        var todo := kernel.Items;
        while todo != {}
          invariant todo <= kernel.Items
          invariant forall r :: r in routes <==> r in kernel.Items - todo
          decreases |todo|
        {
          var r :| r in todo;
          routes, todo := routes + [r], todo - {r};
        }
      }
    }

    /** One vtysh call that configures a chunk; a failed one may have applied any part of it. */
    method VtyshAdd(chunk: seq<string>) returns (ok: bool, ghost e: Entry)
      requires frrRouteCache == None && Valid() && forall ip :: ip in chunk ==> isV4(ip)
      modifies this`frr
      ensures Valid() && e == Entry(AddFRR(chunk), ok, kernel, frr)
      ensures ok ==> frr == old(frr) + Elems(chunk)
      ensures old(frr) <= frr <= old(frr) + Elems(chunk)
    {
      ok := *;
      var applied := Elems(chunk);
      if !ok {
        applied :| applied <= Elems(chunk);
      }
      frr := frr + applied;
      e := Entry(AddFRR(chunk), ok, kernel, frr);
    }

    method VtyshDel(chunk: seq<string>) returns (ok: bool, ghost e: Entry)
      requires frrRouteCache == None && Valid()
      modifies this`frr
      ensures Valid() && e == Entry(DelFRR(chunk), ok, kernel, frr)
      ensures ok ==> frr == old(frr) - Elems(chunk)
      ensures old(frr) - Elems(chunk) <= frr <= old(frr)
    {
      ok := *;
      var applied := Elems(chunk);
      if !ok {
        applied :| applied <= Elems(chunk);
      }
      frr := frr - applied;
      e := Entry(DelFRR(chunk), ok, kernel, frr);
    }

    // -------------------------------------------------------------------------
    // FRR routes
    // -------------------------------------------------------------------------

    method ResetFRRRouteCache()
      requires Valid()
      modifies this`frrRouteCache
      ensures Valid() && frrRouteCache == None
    {
      frrRouteCache := None;
    }

    /** The memoized read: FRR is queried only when nothing was read since the last mutation. */
    method ListFRRRoutes() returns (ok: bool, ips: set<string>, ghost es: seq<Entry>)
      requires Valid()
      modifies this`frrRouteCache
      ensures Valid()
      ensures ips == if ok then frr else {}
      ensures old(frrRouteCache).Some? ==> ok && es == [] && frrRouteCache == old(frrRouteCache)
      ensures old(frrRouteCache).None? ==> es == [Entry(ShowStatic, ok, kernel, frr)]
      ensures ok && frr != {} ==> frrRouteCache == Some(frr)
    {
      es := [];
      if frrRouteCache.Some? {
        return true, frrRouteCache.value, [];
      }
      ok := *;
      es := [Entry(ShowStatic, ok, kernel, frr)];
      if !ok {
        return false, {}, es;
      }
      // An empty reply is not memoized.
      if frr != {} {
        frrRouteCache := Some(frr);
      }
      ips := frr;
    }

    method ValidIPs(ips: seq<string>) returns (valid: seq<string>)
      ensures valid == Filter(ips, isV4)
    {
      valid := [];
      for n := 0 to |ips|
        invariant valid == Filter(ips[..n], isV4)
      {
        FilterStep(ips, n, isV4);
        if isV4(ips[n]) {
          valid := valid + [ips[n]];
        }
      }
      assert ips[..|ips|] == ips;
    }

    /**
     Adds in chunks; invalid IPs are skipped, a failed chunk does not stop the next. The
     issued chunks cover the valid IPs exactly and in order, each at most one batch long.
     */
    method AddFRRRoutes(ips: seq<string>) returns (ok: bool, ghost es: seq<Entry>)
      requires Valid()
      modifies this`frr, this`frrRouteCache
      ensures Valid()
      ensures FRRAdds(Filter(ips, isV4), |Filter(ips, isV4)|, kernel, old(frr), frr, es, ok)
      ensures es == [] ==> frrRouteCache == old(frrRouteCache)
    {
      ok, es := true, [];
      var valid := ValidIPs(ips);
      if |valid| == 0 {
        return;
      }
      frrRouteCache := None;
      var start := 0;
      while start < |valid|
        invariant 0 <= start <= |valid| && frrRouteCache == None && Valid()
        invariant FRRAdds(valid, start, kernel, old(frr), frr, es, ok) && (start > 0 ==> es != [])
      {
        hide FRRAdds;
        var end := start + FRR_BATCH_SIZE;
        if end > |valid| {
          end := |valid|;
        }
        var chunk := valid[start..end];
        ghost var before := frr;
        var chunkOK, e := VtyshAdd(chunk);
        FRRAddsStep(valid, start, end, kernel, old(frr), before, es, ok, e);
        ok := ok && chunkOK;
        es := es + [e];
        start := end;
      }
    }

    /** Removes in chunks; one invalid IP rejects the whole call, the first failed chunk ends it. */
    method DelFRRRoutes(ips: seq<string>) returns (ok: bool, ghost es: seq<Entry>)
      requires Valid()
      modifies this`frr, this`frrRouteCache
      ensures Valid()
      ensures forall e :: e in es ==> DelChunk(e, kernel, old(frr), Elems(ips))
      ensures ok ==> frr == old(frr) - Elems(ips) && Chunks(es) == ips && AllOk(es)
      ensures old(frr) - Elems(ips) <= frr <= old(frr)
      ensures !ok ==> (es != [] && !es[|es| - 1].ok) || (es == [] && exists ip :: ip in ips && !isV4(ip))
      ensures es == [] ==> frrRouteCache == old(frrRouteCache) && frr == old(frr)
    {
      ok, es := true, [];
      if |ips| == 0 {
        return;
      }
      for n := 0 to |ips|
        invariant forall ip :: ip in ips[..n] ==> isV4(ip)
      {
        if !isV4(ips[n]) {
          return false, [];
        }
      }
      frrRouteCache := None;
      var start := 0;
      ghost var all := Elems(ips);
      while start < |ips|
        invariant 0 <= start <= |ips| && frrRouteCache == None && Valid()
        invariant Chunks(es) == ips[..start] && (es == [] ==> start == 0)
        invariant forall e :: e in es ==> DelChunk(e, kernel, old(frr), all)
        invariant AllOk(es)
        invariant frr == old(frr) - Elems(ips[..start])
      {
        var end := start + FRR_BATCH_SIZE;
        if end > |ips| {
          end := |ips|;
        }
        var chunk := ips[start..end];
        var chunkOK, e := VtyshDel(chunk);
        ChunkStep(ips, start, end, es, e);
        assert DelChunk(e, kernel, old(frr), all);
        es := es + [e];
        if !chunkOK {
          return false, es;
        }
        start := end;
      }
      assert ips[..|ips|] == ips;
    }

    // -------------------------------------------------------------------------
    // The pass
    // -------------------------------------------------------------------------

    /** Adds the missing kernel routes and collects the missing FRR statics. */
    method AddMissing(d: Desired, listed: set<(string, string)>, currentFRR: set<string>)
      returns (kernelOK: bool, addFRR: seq<string>, ghost es: seq<Entry>)
      requires Valid() && forall ip :: ip in d.ips ==> isV4(ip)
      requires listed <= kernel.Items
      modifies this`kernel
      ensures Valid()
      ensures kernelOK <==> AllOk(es)
      ensures forall e :: e in es ==> AddRoute(e, d, listed, frr) && (kernelOK ==> old(kernel).Keys <= e.kernel.Keys)
      ensures portForwardOnly ==> kernel == old(kernel) && es == []
      ensures !portForwardOnly ==> KernelAfterAdds(d, d.ips, old(kernel), kernel, kernelOK)
      ensures forall ip :: ip in addFRR <==> ip in d.ips && ip in d.frrStatic && ip !in currentFRR
    {
      kernelOK, addFRR, es := true, [], [];
      for n := 0 to |d.ips|
        invariant Valid()
        invariant kernelOK <==> AllOk(es)
        invariant forall e :: e in es ==> AddRoute(e, d, listed, frr) && (kernelOK ==> old(kernel).Keys <= e.kernel.Keys)
        invariant portForwardOnly ==> kernel == old(kernel) && es == []
        invariant !portForwardOnly ==> KernelAfterAdds(d, d.ips[..n], old(kernel), kernel, kernelOK)
        invariant forall ip :: ip in addFRR <==> ip in d.ips[..n] && ip in d.frrStatic && ip !in currentFRR
      {
        var ip := d.ips[n];
        var dev := d.Dev(ip);
        assert d.ips[..n + 1] == d.ips[..n] + [ip];
        if !portForwardOnly && ip !in d.skip && (ip, dev) !in listed {
          ghost var before := kernel;
          var ok, e := AddKernelRoute(ip, dev);
          kernelOK := kernelOK && ok;
          KernelAddStep(d, d.ips[..n], ip, old(kernel), before, kernel, AllOk(es), ok);
          AllOkSnoc(es, e);
          es := es + [e];
        } else if !portForwardOnly {
          KernelKeepStep(d, d.ips[..n], ip, old(kernel), kernel, kernelOK);
        }
        if ip in d.frrStatic && ip !in currentFRR {
          addFRR := addFRR + [ip];
        }
      }
      assert d.ips[..|d.ips|] == d.ips;
    }

    /** The listed kernel routes nobody wants, and the FRR statics to withdraw: theirs and the orphaned ones. */
    method CollectStale(d: Desired, currentKernel: seq<(string, string)>, currentFRR: set<string>)
      returns (delFRR: seq<string>, stale: seq<(string, string)>)
      ensures forall r :: r in stale <==> r in currentKernel && r.0 !in d.ips
      ensures forall ip :: ip in delFRR <==> StaleIP(d, currentKernel, ip) || (ip in currentFRR && ip !in d.frrStatic)
    {
      delFRR, stale := [], [];
      var removedSet := {};
      for n := 0 to |currentKernel|
        invariant forall r :: r in stale <==> r in currentKernel[..n] && r.0 !in d.ips
        invariant forall ip :: ip in delFRR <==> StaleIP(d, currentKernel[..n], ip)
        invariant removedSet == Elems(delFRR)
      {
        var r := currentKernel[n];
        assert currentKernel[..n + 1] == currentKernel[..n] + [r];
        if r.0 !in d.ips {
          if r.0 !in removedSet {
            delFRR := delFRR + [r.0];
            removedSet := removedSet + {r.0};
          }
          assert StaleIP(d, currentKernel[..n + 1], r.0);
          stale := stale + [r];
        }
      }
      assert currentKernel[..|currentKernel|] == currentKernel;
      var todo := currentFRR;
      while todo != {}
        invariant todo <= currentFRR
        invariant forall ip :: ip in delFRR <==> StaleIP(d, currentKernel, ip) || (ip in currentFRR - todo && ip !in d.frrStatic)
        invariant forall ip :: ip in removedSet <==> StaleIP(d, currentKernel, ip)
        decreases |todo|
      {
        var ip :| ip in todo;
        if ip !in d.frrStatic && ip !in removedSet {
          delFRR := delFRR + [ip];
        }
        todo := todo - {ip};
      }
    }

    /** Tears the stale kernel routes down, whatever the withdrawal before it achieved. */
    method DelStaleKernel(stale: seq<(string, string)>) returns (ghost es: seq<Entry>)
      requires Valid()
      modifies this`kernel
      ensures Valid()
      ensures forall e :: e in es ==> DelRoute(e, stale, frr, old(kernel)) && e.kernel.Keys <= old(kernel).Keys
      ensures KernelAfterDels(stale, stale, old(kernel), kernel, AllOk(es))
      ensures stale == [] ==> es == []
    {
      es := [];
      for n := 0 to |stale|
        invariant Valid() && (n == 0 ==> es == [])
        invariant forall e :: e in es ==> DelRoute(e, stale, frr, old(kernel)) && e.kernel.Keys <= old(kernel).Keys
        invariant KernelAfterDels(stale, stale[..n], old(kernel), kernel, AllOk(es))
      {
        hide AllOk, KernelAfterDels, DelRoute;
        var r := stale[n];
        assert stale[..n + 1] == stale[..n] + [r];
        ghost var before := kernel;
        var ok, e := DelKernelRoute(r.0, r.1);
        KernelDelStep(stale, stale[..n], r, old(kernel), before, e, frr, AllOk(es));
        AllOkSnoc(es, e);
        es := es + [e];
      }
      assert stale[..|stale|] == stale;
    }

    /** What a pass reads first. A failed listing reads as an empty one. */
    method ListPhase() returns (listed: seq<(string, string)>, listedFRR: set<string>, ghost lists: seq<Entry>)
      requires Valid()
      modifies this`frrRouteCache
      ensures Valid()
      ensures Listed(portForwardOnly, kernel, frr, listed, listedFRR, lists)
    {
      listed, lists := [], [];
      if !portForwardOnly {
        var ok, routes, e := ListKernelRoutes();
        listed, lists := routes, [e];
      }
      var ok, currentFRR, es := ListFRRRoutes();
      listedFRR, lists := currentFRR, lists + es;
    }

    method AddPhase(d: Desired, listed: seq<(string, string)>, listedFRR: set<string>)
      returns (kernelOK: bool, addOK: bool, addFRR: seq<string>, ghost k1: map<string, string>, ghost adds: seq<Entry>, ghost frrAdds: seq<Entry>)
      requires Valid() && d.Nested() && forall ip :: ip in d.ips ==> isV4(ip)
      requires forall r :: r in listed ==> r in kernel.Items
      modifies this`kernel, this`frr, this`frrRouteCache
      ensures Valid() && k1 == kernel
      ensures Added(d, portForwardOnly, old(kernel), kernel, old(frr), frr, listed, listedFRR, addFRR, adds, frrAdds)
      ensures (kernelOK <==> AllOk(adds)) && (addOK <==> AllOk(frrAdds))
    {
      kernelOK, addFRR, adds := AddMissing(d, Elems(listed), listedFRR);
      k1 := kernel;
      FilterAll(addFRR, isV4);
      addOK, frrAdds := AddFRRRoutes(addFRR);
    }

    method RemovePhase(d: Desired, listed: seq<(string, string)>, listedFRR: set<string>)
      returns (delFRR: seq<string>, ghost stale: seq<(string, string)>, ghost frrDels: seq<Entry>, ghost dels: seq<Entry>)
      requires Valid() && (forall r :: r in listed ==> isV4(r.0)) && (forall ip :: ip in listedFRR ==> isV4(ip))
      modifies this`kernel, this`frr, this`frrRouteCache
      ensures Valid()
      ensures Removed(d, old(kernel), kernel, old(frr), frr, listed, listedFRR, delFRR, stale, frrDels, dels)
    {
      var collected;
      delFRR, collected := CollectStale(d, listed, listedFRR);
      stale := collected;
      var delOK;
      delOK, frrDels := DelFRRRoutes(delFRR);
      dels := DelStaleKernel(collected);
    }

    /** The body of a pass: list, add to the kernel, add to FRR, withdraw from FRR, remove from the kernel, refresh BGP. */
    method RunPass(d: Desired) returns (res: RouteSyncResult, ghost p: Pass)
      requires Valid() && d.Nested() && forall ip :: ip in d.ips ==> isV4(ip)
      modifies this`kernel, this`frr, this`frrRouteCache
      ensures Valid()
      ensures p.k0 == old(kernel) && p.f0 == old(frr) && p.k2 == kernel && p.f2 == frr && p.pfOnly == portForwardOnly
      ensures p.Facts(d) && res == p.Result()
    {
      hide Listed, Added, Removed, AllOk, Chunks;
      var listed, listedFRR, lists := ListPhase();
      ghost var k0, f0 := kernel, frr;
      ListedIsV4(listed, listedFRR, lists);
      var kernelOK, addOK, addFRR, k1, adds, frrAdds := AddPhase(d, listed, listedFRR);
      ghost var f1 := frr;
      var delFRR, stale, frrDels, dels := RemovePhase(d, listed, listedFRR);
      var refreshOK, refresh := Refresh(|addFRR| > 0 || |delFRR| > 0);
      res := RouteSyncResult(|addFRR| > 0 || |delFRR| > 0, |addFRR| > 0 && addOK && refreshOK, kernelOK && addOK && refreshOK);
      p := Pass(portForwardOnly, k0, k1, kernel, f0, f1, frr, listed, listedFRR, addFRR, delFRR, stale,
                lists, adds, frrAdds, frrDels, dels, refresh);
    }

    /** A valid listing holds IPv4 routes only. */
    lemma ListedIsV4(listed: seq<(string, string)>, listedFRR: set<string>, lists: seq<Entry>)
      requires Valid() && Listed(portForwardOnly, kernel, frr, listed, listedFRR, lists)
      ensures (forall r :: r in listed ==> r in kernel.Items && isV4(r.0)) && (forall ip :: ip in listedFRR ==> isV4(ip))
    {
    }

    /** The BGP refresh, only after a change. */
    method Refresh(changed: bool) returns (ok: bool, ghost es: seq<Entry>)
      ensures (ok <==> AllOk(es)) && (es == [] <==> !changed)
      ensures forall e :: e in es ==> e.cmd == RefreshBGP && e.kernel == kernel && e.frr == frr
    {
      ok, es := true, [];
      if changed {
        ok := *;
        es := [Entry(RefreshBGP, ok, kernel, frr)];
      }
    }

    /**
     One reconcile pass over both planes. The trace of its commands may hold any pattern of
     failures.
     */
    method EnsureRoutes(d: Desired) returns (res: RouteSyncResult, ghost es: seq<Entry>)
      requires Valid() && d.Nested() && forall ip :: ip in d.ips ==> isV4(ip)
      modifies this`kernel, this`frr, this`frrRouteCache
      ensures Valid()
      ensures OnlyPermitted(d, es) && ReportsOutcomes(res, es)
      ensures res.ready ==> Elems(d.frrStatic) <= frr && (!portForwardOnly ==> d.KernelServed(kernel))
      ensures AllOk(es) ==> res.ready && frr == Elems(d.frrStatic) && (!portForwardOnly ==> kernel == d.SyncedKernel(old(kernel)))
      ensures portForwardOnly ==> kernel == old(kernel)
      ensures NeverWithdrawsDesired(d, es, old(kernel), old(frr))
      ensures !portForwardOnly ==> StaysDeliverable(d, es, old(kernel), old(frr))
      ensures QuietWhenInSync(d, res, es, portForwardOnly, old(kernel), old(frr))
    {
      ghost var p;
      res, p := RunPass(d);
      es := p.Trace();
      hide OnlyPermitted, ReportsOutcomes, NeverWithdrawsDesired, StaysDeliverable, QuietWhenInSync, Listed, Added, Removed, AllOk;
      PassReports(p, d);
      if res.ready { PassReadySound(p, d); }
      if AllOk(es) { PassConverges(p, d); }
      PassKeepsDesired(p, d);
      if portForwardOnly { PassLeavesKernel(p, d); } else { PassDeliverable(p, d); }
      PassQuiet(p, d);
    }

    /** Appends the desired IPs whose kernel route was not listed on its device, re-adding each of them. */
    method ReAddKernel(d: Desired, listed: set<(string, string)>) returns (n: nat, ghost es: seq<Entry>)
      requires Valid() && (forall ip :: ip in d.ips ==> isV4(ip)) && listed <= kernel.Items
      modifies this`kernel
      ensures Valid() && n == |es|
      ensures forall e :: e in es ==> AddRoute(e, d, listed, frr)
      ensures KernelAfterAdds(d, d.ips, old(kernel), kernel, AllOk(es))
      ensures es == [] ==> kernel == old(kernel)
    {
      n, es := 0, [];
      for i := 0 to |d.ips|
        invariant Valid() && n == |es| && (es == [] ==> kernel == old(kernel))
        invariant forall e :: e in es ==> AddRoute(e, d, listed, frr)
        invariant KernelAfterAdds(d, d.ips[..i], old(kernel), kernel, AllOk(es))
      {
        var ip := d.ips[i];
        assert d.ips[..i + 1] == d.ips[..i] + [ip];
        if ip !in d.skip && (ip, d.Dev(ip)) !in listed {
          ghost var before := kernel;
          var ok, e := AddKernelRoute(ip, d.Dev(ip));
          KernelAddStep(d, d.ips[..i], ip, old(kernel), before, kernel, AllOk(es), ok);
          AllOkSnoc(es, e);
          n, es := n + 1, es + [e];
        } else {
          KernelKeepStep(d, d.ips[..i], ip, old(kernel), kernel, AllOk(es));
        }
      }
      assert d.ips[..|d.ips|] == d.ips;
    }

    method MissingStatics(d: Desired, currentFRR: set<string>) returns (reAdd: seq<string>)
      ensures forall ip :: ip in reAdd <==> ip in d.ips && ip in d.frrStatic && ip !in currentFRR
    {
      reAdd := [];
      for i := 0 to |d.ips|
        invariant forall ip :: ip in reAdd <==> ip in d.ips[..i] && ip in d.frrStatic && ip !in currentFRR
      {
        if d.ips[i] in d.frrStatic && d.ips[i] !in currentFRR {
          reAdd := reAdd + [d.ips[i]];
        }
      }
    }

    /** The listings of a verification; it gives up when one of them fails. */
    method VerifyLists() returns (ok: bool, listed: set<(string, string)>, currentFRR: set<string>, ghost lists: seq<Entry>)
      requires Valid()
      modifies this`frrRouteCache
      ensures Valid()
      ensures forall e :: e in lists ==> e.cmd.ShowStatic? || e.cmd.ListKernel?
      ensures ok <==> AllOk(lists)
      ensures ok ==> currentFRR == frr && listed == if portForwardOnly then {} else kernel.Items
    {
      listed := {};
      ok, currentFRR, lists := ListFRRRoutes();
      if ok && !portForwardOnly {
        var okK, routes, e := ListKernelRoutes();
        ok, listed, lists := okK, Elems(routes), lists + [e];
      }
    }

    method ReAddPhase(d: Desired, listed: set<(string, string)>, currentFRR: set<string>)
      returns (n: nat, ghost adds: seq<Entry>, ghost frrAdds: seq<Entry>)
      requires Valid() && d.Nested() && (forall ip :: ip in d.ips ==> isV4(ip))
      requires currentFRR == frr && listed == if portForwardOnly then {} else kernel.Items
      modifies this`kernel, this`frr, this`frrRouteCache
      ensures Valid()
      ensures ReAdded(d, portForwardOnly, old(kernel), kernel, old(frr), frr, n, adds, frrAdds)
    {
      hide ReAdded, KernelAfterAdds, AddRoute, AddChunk, Chunks, AllOk;
      adds, frrAdds := [], [];
      ghost var k0, f0 := kernel, frr;
      var reAddFRR := MissingStatics(d, currentFRR);
      var reAddKernel := 0;
      if !portForwardOnly {
        reAddKernel, adds := ReAddKernel(d, listed);
      }
      NothingFailed();
      if |reAddFRR| > 0 {
        FilterAll(reAddFRR, isV4);
        var _, es := AddFRRRoutes(reAddFRR);
        frrAdds := es;
      }
      n := |reAddFRR| + reAddKernel;
      MakeReAdded(d, portForwardOnly, k0, kernel, f0, frr, reAddFRR, reAddKernel, adds, frrAdds);
    }

    /**
     The check after a pass that changed FRR: re-adds what is missing and keeps the streak of
     cycles that had to. A failed listing neither confirms nor clears the streak. A long streak
     with a next hop that does not resolve (`resolvable`, None when that could not be read) flaps
     the veth address.
     */
    method VerifyRoutes(d: Desired, resolvable: Option<bool>, now: int)
      returns (n: nat, repaired: bool, ghost es: seq<Entry>, ghost c: NexthopRepair.Check)
      requires Valid() && d.Nested() && forall ip :: ip in d.ips ==> isV4(ip)
      modifies this`kernel, this`frr, this`frrRouteCache, this`consecutiveReAdds, this`lastNexthopRepair
      ensures Valid()
      ensures OnlyPermitted(d, es) && forall e :: e in es ==> !e.cmd.DelFRR? && !e.cmd.DelKernel?
      ensures AllOk(es) ==> Elems(d.frrStatic) <= frr && (!portForwardOnly ==> d.KernelServed(kernel))
      ensures AllOk(es) && Elems(d.frrStatic) <= old(frr) && (portForwardOnly || d.KernelServed(old(kernel))) ==>
        n == 0 && kernel == old(kernel) && frr == old(frr)
      ensures c == NexthopRepair.Verified(n, resolvable, now) || (c.ListingFailed? && n == 0 && !AllOk(es))
      ensures AllOk(es) ==> c.Verified?
      ensures Memory() == NexthopRepair.Next(old(Memory()), c, vethLeak) && repaired == NexthopRepair.Repairs(old(Memory()), c, vethLeak)
      ensures n == 0 && AllOk(es) ==> forall e :: e in es ==> !Mutating(e.cmd)
    {
      repaired := false;
      var ok, listed, currentFRR, lists := VerifyLists();
      es, c := lists, NexthopRepair.ListingFailed;
      if !ok {
        n := 0;
        return;
      }
      ghost var k0, f0 := kernel, frr;
      var reAdds, adds, frrAdds := ReAddPhase(d, listed, currentFRR);
      n, es, c := reAdds, lists + adds + frrAdds, NexthopRepair.Verified(reAdds, resolvable, now);
      hide ReAdded, AllOk, OnlyPermitted;
      repaired := CountReAdds(n, resolvable, now);
      ReAddedMeans(d, portForwardOnly, k0, kernel, f0, frr, n, lists, adds, frrAdds);
    }

    method CountReAdds(n: nat, resolvable: Option<bool>, now: int) returns (repaired: bool)
      modifies this`consecutiveReAdds, this`lastNexthopRepair
      ensures var c := NexthopRepair.Verified(n, resolvable, now);
        Memory() == NexthopRepair.Next(old(Memory()), c, vethLeak) && repaired == NexthopRepair.Repairs(old(Memory()), c, vethLeak)
    {
      repaired := false;
      if n > 0 {
        SetReAddStreak(consecutiveReAdds + 1);
        if consecutiveReAdds >= NexthopRepair.THRESHOLD {
          repaired := RepairUnresolvableNexthop(resolvable, now);
        }
      } else {
        SetReAddStreak(0);
      }
    }

    method RepairUnresolvableNexthop(resolvable: Option<bool>, now: int) returns (repaired: bool)
      modifies this`lastNexthopRepair
      ensures repaired <==> vethLeak && resolvable == Some(false)
                            && (old(lastNexthopRepair).Some? ==> now - old(lastNexthopRepair).value >= NexthopRepair.COOLDOWN)
      ensures lastNexthopRepair == if repaired then Some(now) else old(lastNexthopRepair)
    {
      if !vethLeak {
        return false;
      }
      if resolvable.None? || resolvable.value {
        return false;
      }
      if lastNexthopRepair.Some? && now - lastNexthopRepair.value < NexthopRepair.COOLDOWN {
        return false;
      }
      lastNexthopRepair := Some(now);
      return true;
    }

    /** The end of a cycle: a pass that changed an FRR static is verified, any other one ends the streak. */
    method CheckAfterSync(changed: bool, d: Desired, resolvable: Option<bool>, now: int, ghost h: seq<NexthopRepair.Check>)
      returns (repaired: bool, ghost es: seq<Entry>, ghost c: NexthopRepair.Check)
      requires Valid() && d.Nested() && forall ip :: ip in d.ips ==> isV4(ip)
      requires Memory() == NexthopRepair.After(h, vethLeak)
      modifies this`kernel, this`frr, this`frrRouteCache, this`consecutiveReAdds, this`lastNexthopRepair
      ensures Valid() && Memory() == NexthopRepair.After(h + [c], vethLeak)
      ensures repaired == NexthopRepair.RepairsAt(h + [c], |h|, vethLeak)
      ensures c.NothingChanged? <==> !changed
      ensures !changed ==> es == [] && kernel == old(kernel) && frr == old(frr)
      ensures OnlyPermitted(d, es) && forall e :: e in es ==> !e.cmd.DelFRR? && !e.cmd.DelKernel?
    {
      repaired, es := false, [];
      if changed {
        var n;
        n, repaired, es, c := VerifyRoutes(d, resolvable, now);
      } else {
        c := NexthopRepair.NothingChanged;
        SetReAddStreak(0);
      }
      assert (h + [c])[..|h|] == h;
      NexthopRepair.AfterSnoc(h, c, vethLeak);
    }

    method SetReAddStreak(n: nat)
      modifies this`consecutiveReAdds
      ensures consecutiveReAdds == n
    {
      consecutiveReAdds := n;
    }

    /** Withdraws every listed static, one vtysh batch at a time. */
    method RemoveAllFRR() returns (n: nat, ghost es: seq<Entry>)
      requires Valid()
      modifies this`frr, this`frrRouteCache
      ensures Valid() && frr <= old(frr)
      ensures forall e :: e in es ==> (e.cmd.ShowStatic? || e.cmd.DelFRR?) && e.kernel == kernel && e.frr <= old(frr)
      ensures AllOk(es) ==> frr == {}
    {
      var ok, currentFRR, shown := ListFRRRoutes();
      es := shown;
      assert AllOk(es) ==> currentFRR == frr;
      var delFRR := Listing(currentFRR);
      n := |delFRR|;
      if |delFRR| > 0 {
        hide AllOk, Chunks;
        var delOK, dels := DelFRRRoutes(delFRR);
        AllRemoved(shown, dels, delFRR, delOK);
        assert Elems(delFRR) == currentFRR;
        es := shown + dels;
      }
    }

    method Listing(ips: set<string>) returns (out: seq<string>)
      ensures Elems(out) == ips && (out == [] <==> ips == {})
    {
      out := [];
      var todo := ips;
      while todo != {}
        invariant todo <= ips && Elems(out) == ips - todo
        decreases |todo|
      {
        var ip :| ip in todo;
        assert Elems(out + [ip]) == Elems(out) + {ip};
        out, todo := out + [ip], todo - {ip};
      }
      EmptyIff(out);
      assert forall ip :: ip in out <==> ip in Elems(out);
    }

    /** A withdrawal of listed statics that did not fail as a command did not fail at all. */
    lemma AllRemoved(shown: seq<Entry>, dels: seq<Entry>, ips: seq<string>, ok: bool)
      requires forall ip :: ip in ips ==> isV4(ip)
      requires !ok ==> (dels != [] && !dels[|dels| - 1].ok) || (dels == [] && exists ip :: ip in ips && !isV4(ip))
      ensures AllOk(shown + dels) ==> AllOk(shown) && AllOk(dels) && ok
    {
      if AllOk(shown + dels) {
        forall e | e in shown || e in dels ensures e.ok { assert e in shown + dels; }
        assert dels != [] ==> dels[|dels| - 1] in dels;
      }
    }

    method RemoveAllKernel() returns (ghost es: seq<Entry>)
      requires Valid()
      modifies this`kernel
      ensures Valid()
      ensures forall e :: e in es ==> (e.cmd.ListKernel? || e.cmd.DelKernel?) && e.frr == frr
      ensures AllOk(es) ==> kernel == map[]
    {
      var ok, currentKernel, e := ListKernelRoutes();
      ghost var k1 := kernel;
      var dels := DelStaleKernel(currentKernel);
      es := [e] + dels;
      assert AllOk(es) ==> ok && AllOk(dels) by { assert e in es; }
      if AllOk(es) {
        assert forall ip :: ip in k1 ==> (ip, k1[ip]) in currentKernel;
      }
    }

    /** The standby path and the shutdown: FRR first, so nothing is announced that is being torn down. */
    method RemoveAllRoutes() returns (ghost frrPart: seq<Entry>, ghost rest: seq<Entry>)
      requires Valid()
      modifies this`kernel, this`frr, this`frrRouteCache
      ensures Valid()
      ensures forall e :: e in frrPart ==> e.cmd.ShowStatic? || e.cmd.DelFRR?
      ensures forall e :: e in rest ==> e.cmd.ListKernel? || e.cmd.DelKernel? || e.cmd.RefreshBGP?
      ensures AllOk(frrPart) ==> frr == {} && forall e :: e in rest ==> e.frr == {}
      ensures AllOk(frrPart) && Deliverable(old(kernel), old(frr)) ==>
        forall e :: e in frrPart || e in rest ==> Deliverable(e.kernel, e.frr)
      ensures AllOk(rest) && !portForwardOnly ==> kernel == map[]
      ensures portForwardOnly ==> kernel == old(kernel)
    {
      var n;
      n, frrPart := RemoveAllFRR();
      rest := [];
      if !portForwardOnly {
        rest := RemoveAllKernel();
      }
      ghost var kernelPart := rest;
      if n > 0 {
        var ok: bool := *;
        rest := rest + [Entry(RefreshBGP, ok, kernel, frr)];
      }
      assert AllOk(rest) ==> AllOk(kernelPart);
    }

    /** A pass, its verification and the next pass: when nothing fails, only the first one writes. */
    method SyncVerifySync(d: Desired, resolvable: Option<bool>, now: int) returns (ghost first: seq<Entry>, ghost verify: seq<Entry>, ghost second: seq<Entry>)
      requires Valid() && d.Nested() && forall ip :: ip in d.ips ==> isV4(ip)
      modifies this`kernel, this`frr, this`frrRouteCache, this`consecutiveReAdds, this`lastNexthopRepair
      ensures AllOk(first) && AllOk(verify) && AllOk(second) ==>
        && (forall e :: e in verify || e in second ==> !Mutating(e.cmd))
        && frr == Elems(d.frrStatic) && (!portForwardOnly ==> kernel == d.SyncedKernel(old(kernel)))
        && consecutiveReAdds == 0
    {
      var res, n, repaired;
      ghost var c;
      res, first := EnsureRoutes(d);
      ghost var k1 := kernel;
      SyncedIsInSync(d, old(kernel));
      n, repaired, verify, c := VerifyRoutes(d, resolvable, now);
      assert AllOk(first) && AllOk(verify) ==> n == 0 && kernel == k1;
      res, second := EnsureRoutes(d);
      SyncedIsInSync(d, k1);
    }
  }

  lemma NothingFailed()
    ensures AllOk([])
  {
  }

  /** A synced kernel is in sync, and syncing it again changes nothing. */
  lemma SyncedIsInSync(d: Desired, k0: map<string, string>)
    ensures d.InSync(d.SyncedKernel(k0), Elems(d.frrStatic))
    ensures d.SyncedKernel(d.SyncedKernel(k0)) == d.SyncedKernel(k0)
  {
  }

  ghost predicate ReAdded(d: Desired, pfOnly: bool, k0: map<string, string>, k1: map<string, string>, f0: set<string>, f1: set<string>,
                          n: nat, adds: seq<Entry>, frrAdds: seq<Entry>) {
    && (forall e :: e in adds ==> AddRoute(e, d, k0.Items, f0))
    && (forall e :: e in frrAdds ==> e.cmd.AddFRR? && 0 < |e.cmd.chunk| <= FRR_BATCH_SIZE)
    && (forall e, ip :: e in frrAdds && ip in e.cmd.chunk ==> ip in d.frrStatic && ip !in f0)
    && (pfOnly ==> k1 == k0 && adds == [])
    && (!pfOnly ==> KernelAfterAdds(d, d.ips, k0, k1, AllOk(adds)))
    && f0 <= f1 <= f0 + Elems(d.frrStatic)
    && (AllOk(frrAdds) ==> Elems(d.frrStatic) <= f1)
    && (n == 0 <==> adds == [] && Elems(d.frrStatic) <= f0)
    && (n == 0 ==> frrAdds == []) && (adds == [] ==> k1 == k0)
  }

  lemma MakeReAdded(d: Desired, pfOnly: bool, k0: map<string, string>, k1: map<string, string>, f0: set<string>, f1: set<string>,
                    reAddFRR: seq<string>, reAddKernel: nat, adds: seq<Entry>, frrAdds: seq<Entry>)
    requires d.Nested() && forall ip :: ip in reAddFRR <==> ip in d.ips && ip in d.frrStatic && ip !in f0
    requires (forall e :: e in adds ==> AddRoute(e, d, k0.Items, f0)) && (adds == [] ==> k1 == k0)
    requires if pfOnly then k1 == k0 && adds == [] && reAddKernel == 0
             else KernelAfterAdds(d, d.ips, k0, k1, AllOk(adds)) && reAddKernel == |adds|
    requires forall e :: e in frrAdds ==> AddChunk(e, k1, f0, Elems(reAddFRR))
    requires f0 <= f1 <= f0 + Elems(reAddFRR) && (AllOk(frrAdds) ==> f1 == f0 + Elems(reAddFRR))
    ensures ReAdded(d, pfOnly, k0, k1, f0, f1, |reAddFRR| + reAddKernel, adds, frrAdds)
  {
    EmptyIff(reAddFRR);
    EmptyIff(frrAdds);
    forall e | e in frrAdds ensures exists ip :: ip in reAddFRR { assert e.cmd.chunk[0] in Elems(e.cmd.chunk); }
    assert Elems(d.frrStatic) <= f0 + Elems(reAddFRR);
    forall e, ip | e in frrAdds && ip in e.cmd.chunk
      ensures ip in d.frrStatic && ip !in f0
    {
      assert ip in Elems(e.cmd.chunk);
    }
  }

  lemma ReAddedMeans(d: Desired, pfOnly: bool, k0: map<string, string>, k1: map<string, string>, f0: set<string>, f1: set<string>,
                     n: nat, lists: seq<Entry>, adds: seq<Entry>, frrAdds: seq<Entry>)
    requires d.Nested() && ReAdded(d, pfOnly, k0, k1, f0, f1, n, adds, frrAdds)
    requires forall e :: e in lists ==> e.cmd.ShowStatic? || e.cmd.ListKernel?
    ensures var es := lists + adds + frrAdds;
      && OnlyPermitted(d, es) && (forall e :: e in es ==> !e.cmd.DelFRR? && !e.cmd.DelKernel?)
      && (AllOk(es) ==> Elems(d.frrStatic) <= f1 && (!pfOnly ==> d.KernelServed(k1)))
    ensures n == 0 ==> forall e :: e in lists + adds + frrAdds ==> !Mutating(e.cmd)
    ensures Elems(d.frrStatic) <= f0 && (pfOnly || d.KernelServed(k0)) ==> n == 0 && k1 == k0 && f1 == f0
  {
    var es := lists + adds + frrAdds;
    assert AllOk(es) ==> AllOk(adds) && AllOk(frrAdds);
    if Elems(d.frrStatic) <= f0 && !pfOnly && d.KernelServed(k0) {
      assert forall ip :: ip in d.ips && ip !in d.skip ==> (ip, d.Dev(ip)) in k0.Items;
      EmptyIff(adds);
    }
  }

  // ---------------------------------------------------------------------------
  // What a pass promises about its commands
  // ---------------------------------------------------------------------------

  /** A pass adds only desired routes and removes only undesired ones, in batches. */
  ghost predicate OnlyPermitted(d: Desired, es: seq<Entry>) {
    forall e :: e in es ==> Permitted(e.cmd, d)
  }

  /** The result flags say exactly how the commands they stand for ended. */
  ghost predicate ReportsOutcomes(res: RouteSyncResult, es: seq<Entry>) {
    && (res.ready <==> forall e :: e in es && (e.cmd.AddKernel? || e.cmd.AddFRR? || e.cmd.RefreshBGP?) ==> e.ok)
    && (res.changed <==> exists e :: e in es && (e.cmd.AddFRR? || e.cmd.DelFRR?))
    && (res.announced <==>
        (exists e :: e in es && e.cmd.AddFRR?) && (forall e :: e in es && (e.cmd.AddFRR? || e.cmd.RefreshBGP?) ==> e.ok))
  }

  /** No state on the way lacks a desired FRR static that was there, nor, while kernel adds succeed, a desired kernel route. */
  ghost predicate NeverWithdrawsDesired(d: Desired, es: seq<Entry>, k0: map<string, string>, f0: set<string>) {
    && (forall e, ip :: e in es && ip in d.frrStatic && ip in f0 ==> ip in e.frr)
    && (KernelAddsOk(es) ==> forall e, ip :: e in es && ip in d.ips && ip in k0 ==> ip in e.kernel)
  }

  /** Announced implies deliverable in every state on the way, if kernel adds and FRR withdrawals succeed. */
  ghost predicate StaysDeliverable(d: Desired, es: seq<Entry>, k0: map<string, string>, f0: set<string>) {
    (&& Deliverable(k0, f0) && KernelAddsOk(es) && WithdrawalsOk(es)
     && forall ip :: ip in d.frrStatic && ip in d.skip ==> ip in k0) ==>
    (forall e :: e in es ==> Deliverable(e.kernel, e.frr))
  }

  /** A pass over a state in sync issues no write, and is ready. */
  ghost predicate QuietWhenInSync(d: Desired, res: RouteSyncResult, es: seq<Entry>, pfOnly: bool, k0: map<string, string>, f0: set<string>) {
    (&& AllOk(es) && f0 == Elems(d.frrStatic) && (pfOnly || d.InSync(k0, f0))) ==>
    (res == RouteSyncResult(false, false, true) && forall e :: e in es ==> !Mutating(e.cmd))
  }

  // ---------------------------------------------------------------------------
  // What one pass did, and what follows from it
  // ---------------------------------------------------------------------------

  /** The states between the phases of one pass (kernel k0, k1, k2; FRR f0, f1, f2), its lists and its commands. */
  datatype Pass = Pass(pfOnly: bool, k0: map<string, string>, k1: map<string, string>, k2: map<string, string>,
                       f0: set<string>, f1: set<string>, f2: set<string>,
                       listed: seq<(string, string)>, listedFRR: set<string>,
                       addFRR: seq<string>, delFRR: seq<string>, stale: seq<(string, string)>,
                       lists: seq<Entry>, adds: seq<Entry>, frrAdds: seq<Entry>, frrDels: seq<Entry>, dels: seq<Entry>, refresh: seq<Entry>)
  {
    function Trace(): seq<Entry> {
      lists + adds + frrAdds + frrDels + dels + refresh
    }

    ghost function Result(): RouteSyncResult {
      RouteSyncResult(addFRR != [] || delFRR != [], addFRR != [] && AllOk(frrAdds) && AllOk(refresh),
                      AllOk(adds) && AllOk(frrAdds) && AllOk(refresh))
    }

    ghost predicate Facts(d: Desired) {
      && Listed(pfOnly, k0, f0, listed, listedFRR, lists)
      && Added(d, pfOnly, k0, k1, f0, f1, listed, listedFRR, addFRR, adds, frrAdds)
      && Removed(d, k1, k2, f1, f2, listed, listedFRR, delFRR, stale, frrDels, dels)
      && (refresh == [] <==> addFRR == [] && delFRR == [])
      && (forall e :: e in refresh ==> e.cmd == RefreshBGP && e.kernel == k2 && e.frr == f2)
    }
  }

  ghost predicate Listed(pfOnly: bool, k0: map<string, string>, f0: set<string>,
                         listed: seq<(string, string)>, listedFRR: set<string>, lists: seq<Entry>) {
    && (forall e :: e in lists ==> (e.cmd.ListKernel? || e.cmd.ShowStatic?) && e.kernel == k0 && e.frr == f0)
    && (forall r :: r in listed ==> !pfOnly && r in k0.Items)
    && (AllOk(lists) && !pfOnly ==> forall r :: r in k0.Items ==> r in listed)
    && listedFRR <= f0 && (AllOk(lists) ==> listedFRR == f0)
  }

  ghost predicate Added(d: Desired, pfOnly: bool, k0: map<string, string>, k1: map<string, string>, f0: set<string>, f1: set<string>,
                        listed: seq<(string, string)>, listedFRR: set<string>, addFRR: seq<string>, adds: seq<Entry>, frrAdds: seq<Entry>) {
    && (forall ip :: ip in addFRR <==> ip in d.frrStatic && ip !in listedFRR)
    && (forall e :: e in adds ==> AddRoute(e, d, Elems(listed), f0) && (AllOk(adds) ==> k0.Keys <= e.kernel.Keys))
    && (pfOnly ==> k1 == k0 && adds == [])
    && (!pfOnly ==> KernelAfterAdds(d, d.ips, k0, k1, AllOk(adds)))
    && (forall e :: e in frrAdds ==> AddChunk(e, k1, f0, Elems(addFRR)))
    && Chunks(frrAdds) == addFRR
    && (AllOk(frrAdds) ==> f1 == f0 + Elems(addFRR))
    && f0 <= f1 <= f0 + Elems(addFRR)
  }

  ghost predicate Removed(d: Desired, k1: map<string, string>, k2: map<string, string>, f1: set<string>, f2: set<string>,
                          listed: seq<(string, string)>, listedFRR: set<string>, delFRR: seq<string>, stale: seq<(string, string)>,
                          frrDels: seq<Entry>, dels: seq<Entry>) {
    && (forall r :: r in stale <==> r in listed && r.0 !in d.ips)
    && (forall ip :: ip in delFRR <==> StaleIP(d, listed, ip) || (ip in listedFRR && ip !in d.frrStatic))
    && (forall e :: e in frrDels ==> DelChunk(e, k1, f1, Elems(delFRR)))
    && (AllOk(frrDels) ==> f2 == f1 - Elems(delFRR) && Chunks(frrDels) == delFRR)
    && f1 - Elems(delFRR) <= f2 <= f1
    && (delFRR != [] ==> frrDels != [])
    && (forall e :: e in dels ==> DelRoute(e, stale, f2, k1) && e.kernel.Keys <= k1.Keys)
    && KernelAfterDels(stale, stale, k1, k2, AllOk(dels))
    && (stale == [] ==> dels == [])
  }

  lemma FilterAll(ips: seq<string>, p: string -> bool)
    requires forall ip :: ip in ips ==> p(ip)
    ensures Filter(ips, p) == ips
  {
    if ips != [] {
      FilterAll(ips[..|ips| - 1], p);
      assert ips == ips[..|ips| - 1] + [ips[|ips| - 1]];
    }
  }

  lemma ChunksEmpty(es: seq<Entry>)
    requires forall e :: e in es ==> (e.cmd.AddFRR? || e.cmd.DelFRR?) && e.cmd.chunk != []
    ensures Chunks(es) == [] <==> es == []
  {
    if es != [] { assert es[|es| - 1] in es; }
  }

  lemma InTrace(p: Pass, e: Entry)
    ensures e in p.Trace() <==> e in p.lists || e in p.adds || e in p.frrAdds || e in p.frrDels || e in p.dels || e in p.refresh
  {
  }

  /** Which command can be in which phase. */
  lemma TraceEntry(p: Pass, d: Desired, e: Entry)
    requires p.Facts(d) && d.Nested() && e in p.Trace()
    ensures Permitted(e.cmd, d)
    ensures e.cmd.AddKernel? <==> e in p.adds
    ensures e.cmd.AddFRR? <==> e in p.frrAdds
    ensures e.cmd.DelFRR? <==> e in p.frrDels
    ensures e.cmd.DelKernel? <==> e in p.dels
    ensures e.cmd.RefreshBGP? <==> e in p.refresh
  {
    InTrace(p, e);
    if e in p.frrDels {
      forall ip | ip in e.cmd.chunk ensures ip !in d.frrStatic { assert ip in Elems(p.delFRR); }
    }
    if e in p.frrAdds {
      forall ip | ip in e.cmd.chunk ensures ip in d.frrStatic { assert ip in Elems(p.addFRR); }
    }
  }

  /** Some chunk was issued for an FRR list exactly when the list is not empty. */
  lemma IssuedIff(p: Pass, d: Desired)
    requires p.Facts(d)
    ensures p.addFRR != [] <==> p.frrAdds != []
    ensures p.delFRR != [] <==> p.frrDels != []
  {
    ChunksEmpty(p.frrAdds);
    if p.frrDels != [] {
      assert p.frrDels[0] in p.frrDels && Elems(p.frrDels[0].cmd.chunk) <= Elems(p.delFRR);
      assert p.frrDels[0].cmd.chunk[0] in Elems(p.delFRR);
    }
  }

  /** The result flags say how the commands ended, and every command was permitted. */
  lemma PassReports(p: Pass, d: Desired)
    requires p.Facts(d) && d.Nested()
    ensures OnlyPermitted(d, p.Trace()) && ReportsOutcomes(p.Result(), p.Trace())
  {
    hide Pass.Facts, Pass.Trace, Desired.Nested, Permitted;
    forall e | e in p.Trace()
      ensures Permitted(e.cmd, d)
      ensures e.cmd.AddKernel? <==> e in p.adds
      ensures e.cmd.AddFRR? <==> e in p.frrAdds
      ensures e.cmd.DelFRR? <==> e in p.frrDels
      ensures e.cmd.RefreshBGP? <==> e in p.refresh
    {
      TraceEntry(p, d, e);
    }
    forall e ensures e in p.adds || e in p.frrAdds || e in p.frrDels || e in p.refresh ==> e in p.Trace() { InTrace(p, e); }
    IssuedIff(p, d);
    assert p.frrAdds != [] ==> p.frrAdds[0] in p.frrAdds;
    assert p.frrDels != [] ==> p.frrDels[0] in p.frrDels;
  }

  /** Ready: every FRR static is configured and every unskipped desired IP has its kernel route. */
  lemma PassReadySound(p: Pass, d: Desired)
    requires p.Facts(d) && d.Nested() && p.Result().ready
    ensures Elems(d.frrStatic) <= p.f2
    ensures !p.pfOnly ==> d.KernelServed(p.k2)
  {
    forall ip | ip in d.frrStatic
      ensures ip in p.f2
    {
      assert ip in p.listedFRR || ip in Elems(p.addFRR);
      assert ip !in p.delFRR || StaleIP(d, p.listed, ip);
    }
  }

  lemma AllOkParts(p: Pass)
    requires AllOk(p.Trace())
    ensures AllOk(p.lists) && AllOk(p.adds) && AllOk(p.frrAdds) && AllOk(p.frrDels) && AllOk(p.dels) && AllOk(p.refresh)
  {
    forall e ensures e in p.lists || e in p.adds || e in p.frrAdds || e in p.frrDels || e in p.dels || e in p.refresh ==> e in p.Trace() {
      InTrace(p, e);
    }
  }

  lemma KernelConverges(p: Pass, d: Desired)
    requires p.Facts(d) && !p.pfOnly && AllOk(p.lists) && AllOk(p.adds) && AllOk(p.dels)
    ensures p.k2 == d.SyncedKernel(p.k0)
  {
    hide AllOk, Desired.Dev, Chunks;
    var want := d.SyncedKernel(p.k0);
    forall ip | ip in p.k1 && ip !in d.ips
      ensures ip !in p.k2
    {
      assert (ip, p.k0[ip]) in p.k0.Items;
      assert (ip, p.k0[ip]) in p.stale;
    }
    forall ip | ip in d.ips && ip in p.k1
      ensures ip in p.k2
    {
      assert forall r :: r in p.stale ==> r.0 != ip;
    }
    assert p.k2.Keys == want.Keys;
    assert forall ip :: ip in want ==> p.k2[ip] == want[ip];
  }

  /** Without a failure the pass ends with exactly the desired routes. */
  lemma PassConverges(p: Pass, d: Desired)
    requires p.Facts(d) && d.Nested() && AllOk(p.Trace())
    ensures p.Result().ready && p.f2 == Elems(d.frrStatic)
    ensures !p.pfOnly ==> p.k2 == d.SyncedKernel(p.k0)
  {
    AllOkParts(p);
    PassReadySound(p, d);
    assert p.f2 <= Elems(d.frrStatic) by {
      forall ip | ip in p.f2 ensures ip in d.frrStatic {
        if ip in p.addFRR {} else { assert ip in p.f0; assert ip !in Elems(p.delFRR); }
      }
    }
    if !p.pfOnly { KernelConverges(p, d); }
  }

  lemma PassLeavesKernel(p: Pass, d: Desired)
    requires p.Facts(d) && p.pfOnly
    ensures p.k2 == p.k0
  {
    EmptyIff(p.stale);
    assert p.k2.Keys == p.k1.Keys;
  }

  lemma PassKeepsDesired(p: Pass, d: Desired)
    requires p.Facts(d) && d.Nested()
    ensures NeverWithdrawsDesired(d, p.Trace(), p.k0, p.f0)
  {
    forall e, ip | e in p.Trace() && ip in d.frrStatic && ip in p.f0
      ensures ip in e.frr
    {
      InTrace(p, e);
      assert ip !in Elems(p.delFRR);
    }
    if KernelAddsOk(p.Trace()) {
      assert AllOk(p.adds) by { forall e | e in p.adds ensures e.ok { InTrace(p, e); } }
      forall e, ip | e in p.Trace() && ip in d.ips && ip in p.k0
        ensures ip in e.kernel
      {
        InTrace(p, e);
        assert ip in p.k1;
        assert forall r :: r in p.stale ==> r.0 != ip;
      }
    }
  }

  /** Kernel adds come before FRR adds and FRR withdrawals before kernel removals, so no announced IP is ever without its kernel route. */
  lemma PassDeliverable(p: Pass, d: Desired)
    requires p.Facts(d) && d.Nested() && !p.pfOnly
    ensures StaysDeliverable(d, p.Trace(), p.k0, p.f0)
  {
    if Deliverable(p.k0, p.f0) && KernelAddsOk(p.Trace()) && WithdrawalsOk(p.Trace())
       && forall ip :: ip in d.frrStatic && ip in d.skip ==> ip in p.k0
    {
      assert AllOk(p.adds) by { forall e | e in p.adds ensures e.ok { InTrace(p, e); } }
      assert AllOk(p.frrDels) by { forall e | e in p.frrDels ensures e.ok { InTrace(p, e); } }
      assert p.f0 + Elems(p.addFRR) <= p.k1.Keys by {
        forall ip | ip in p.addFRR ensures ip in p.k1 { assert ip in d.ips; }
      }
      forall e | e in p.Trace() ensures Deliverable(e.kernel, e.frr) {
        InTrace(p, e);
        forall ip | ip in e.frr ensures ip in e.kernel {
          if e in p.dels || e in p.refresh {
            assert ip in p.f2 && ip !in Elems(p.delFRR) && ip in p.k1;
            assert forall r :: r in p.stale ==> StaleIP(d, p.listed, r.0);
          }
        }
      }
    }
  }

  lemma PassQuiet(p: Pass, d: Desired)
    requires p.Facts(d) && d.Nested()
    ensures QuietWhenInSync(d, p.Result(), p.Trace(), p.pfOnly, p.k0, p.f0)
  {
    if AllOk(p.Trace()) && p.f0 == Elems(d.frrStatic) && (p.pfOnly || d.InSync(p.k0, p.f0)) {
      AllOkParts(p);
      EmptyIff(p.addFRR);
      EmptyIff(p.stale);
      EmptyIff(p.delFRR);
      ChunksEmpty(p.frrAdds);
      ChunksEmpty(p.frrDels);
      EmptyIff(p.adds);
      assert forall r :: r in p.k0.Items <==> r.0 in p.k0 && p.k0[r.0] == r.1;
      assert !p.pfOnly ==> forall ip :: ip in d.ips && ip !in d.skip ==> (ip, d.Dev(ip)) in p.k0.Items;
    }
  }

  /** The kernel half of the IP: listed, and wanted by nobody. */
  ghost predicate StaleIP(d: Desired, listed: seq<(string, string)>, ip: string) {
    ip !in d.ips && exists r :: r in listed && r.0 == ip
  }
}
