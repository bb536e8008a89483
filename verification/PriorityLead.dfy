/**
 The three writers of Gateway_Chassis.priority: the boost of the active chassis,
 the drain of a leaving chassis and the restore at the next start. Each method
 follows the loops of the code and is tied, row by row, to a function of the rows
 it read.
 */
module PriorityLead {
  import opened Common

  /** Drained rows restore to 1, so the active chassis keeps at least 2. */
  const MIN_ACTIVE_PRIORITY := 2

  /** The largest value the OVN_Northbound schema admits for a priority. */
  const MAX_PRIORITY := 32767

  datatype GatewayChassis = GatewayChassis(uuid: string, name: string, chassisName: string, priority: int)

  datatype LocalRouter = LocalRouter(lrpName: string, crPort: string, gatewayChassisUUIDs: seq<string>)

  /** An HA group while it is collected: the index of the local row, if any, and the highest peer priority or -1. */
  datatype HAGroup = HAGroup(local: Option<nat>, maxPeer: int)

  // ---------------------------------------------------------------------------
  // Which router port a row belongs to
  // ---------------------------------------------------------------------------

  /** The router port whose gateway_chassis column names the row; the last router read wins. */
  function OwnerByUUID(routers: seq<LocalRouter>, uuid: string): Option<string> {
    if routers == [] then None
    else
      var last := routers[|routers| - 1];
      if uuid in last.gatewayChassisUUIDs then Some(last.lrpName)
      else OwnerByUUID(routers[..|routers| - 1], uuid)
  }

  lemma OwnerSnoc(routers: seq<LocalRouter>, lr: LocalRouter)
    ensures forall u :: OwnerByUUID(routers + [lr], u) == if u in lr.gatewayChassisUUIDs then Some(lr.lrpName) else OwnerByUUID(routers, u)
  {
    assert (routers + [lr])[..|routers|] == routers;
  }

  /** `byUUID` answers who owns a row by the reference columns of these routers. */
  ghost predicate IndexesOwners(byUUID: map<string, string>, routers: seq<LocalRouter>) {
    forall u :: OwnerByUUID(routers, u) == if u in byUUID then Some(byUUID[u]) else None
  }

  /** `after` is `before` with the value at every key of the list. */
  ghost predicate Overlaid(before: map<string, string>, keys: seq<string>, value: string, after: map<string, string>) {
    && (forall u :: u in after <==> u in before || u in keys)
    && (forall u :: u in after ==> after[u] == if u in keys then value else before[u])
  }

  lemma OwnersStep(routers: seq<LocalRouter>, lr: LocalRouter, before: map<string, string>, after: map<string, string>)
    requires IndexesOwners(before, routers) && Overlaid(before, lr.gatewayChassisUUIDs, lr.lrpName, after)
    ensures IndexesOwners(after, routers + [lr])
  {
    OwnerSnoc(routers, lr);
    hide OwnerByUUID;
  }

  function ActiveLRPs(routers: seq<LocalRouter>): set<string> {
    set r | r in routers :: r.lrpName
  }

  function TrimSuffix(s: string, suffix: string): string {
    if |suffix| <= |s| && s[|s| - |suffix|..] == suffix then s[..|s| - |suffix|] else s
  }

  /** The owner through the reference column, else through the name convention, else "". */
  function LRPName(row: GatewayChassis, routers: seq<LocalRouter>): string {
    match OwnerByUUID(routers, row.uuid)
    case Some(lrp) => lrp
    case None =>
      var parsed := TrimSuffix(row.name, "_" + row.chassisName);
      if parsed in ActiveLRPs(routers) then parsed else ""
  }

  function CRPort(routers: seq<LocalRouter>, lrp: string): string {
    if routers == [] then ""
    else
      var last := routers[|routers| - 1];
      if last.lrpName == lrp then last.crPort else CRPort(routers[..|routers| - 1], lrp)
  }

  // ---------------------------------------------------------------------------
  // What a boost writes, row by row
  // ---------------------------------------------------------------------------

  predicate IsPeer(rows: seq<GatewayChassis>, j: nat, routers: seq<LocalRouter>, lrp: string, local: string)
    requires j < |rows|
  {
    LRPName(rows[j], routers) == lrp && rows[j].chassisName != local
  }

  /** The row the boost of `lrp` would write: the last local row of that group. */
  predicate IsLocalRow(rows: seq<GatewayChassis>, i: nat, routers: seq<LocalRouter>, lrp: string, local: string)
    requires i < |rows|
  {
    && LRPName(rows[i], routers) == lrp && rows[i].chassisName == local
    && forall k :: i < k < |rows| && LRPName(rows[k], routers) == lrp ==> rows[k].chassisName != local
  }

  /** The group of `lrp` among the first n rows. */
  function GroupUpTo(rows: seq<GatewayChassis>, n: nat, routers: seq<LocalRouter>, lrp: string, local: string): (g: HAGroup)
    requires n <= |rows|
    ensures g.local.Some? ==> g.local.value < n && LRPName(rows[g.local.value], routers) == lrp
  {
    if n == 0 then HAGroup(None, -1)
    else
      var g := GroupUpTo(rows, n - 1, routers, lrp, local);
      var row := rows[n - 1];
      if LRPName(row, routers) != lrp then g
      else if row.chassisName == local then g.(local := Some(n - 1))
      else if row.priority > g.maxPeer then g.(maxPeer := row.priority)
      else g
  }

  /** What the fold collects: the last local row of the group and the maximum over its peers. */
  lemma {:induction false} GroupMeaning(rows: seq<GatewayChassis>, n: nat, routers: seq<LocalRouter>, lrp: string, local: string)
    requires n <= |rows|
    ensures var g := GroupUpTo(rows, n, routers, lrp, local);
      && (g.local.Some? ==> IsLocalRow(rows[..n], g.local.value, routers, lrp, local))
      && (g.local.None? ==> forall k :: 0 <= k < n && LRPName(rows[k], routers) == lrp ==> rows[k].chassisName != local)
      && (forall j :: 0 <= j < n && IsPeer(rows, j, routers, lrp, local) ==> rows[j].priority <= g.maxPeer)
      && (g.maxPeer == -1 || exists j :: 0 <= j < n && IsPeer(rows, j, routers, lrp, local) && rows[j].priority == g.maxPeer)
  {
    if n > 0 {
      GroupMeaning(rows, n - 1, routers, lrp, local);
      var g := GroupUpTo(rows, n - 1, routers, lrp, local);
      if LRPName(rows[n - 1], routers) == lrp && rows[n - 1].chassisName != local {
        assert IsPeer(rows, n - 1, routers, lrp, local);
      }
    }
  }

  function Group(rows: seq<GatewayChassis>, routers: seq<LocalRouter>, lrp: string, local: string): HAGroup {
    GroupUpTo(rows, |rows|, routers, lrp, local)
  }

  // ---------------------------------------------------------------------------
  // Listings
  // ---------------------------------------------------------------------------

  /** Rows are listed by position. */
  function Upto(n: nat): seq<nat> {
    seq(n, (i: nat) => i)
  }

  /** Of the first n rows, those of this chassis, or those of all others. */
  function Picked(rows: seq<GatewayChassis>, n: nat, local: string, mine: bool): (picked: seq<nat>)
    requires n <= |rows|
    ensures forall i: nat :: i in picked <==> i < n && (rows[i].chassisName == local <==> mine)
  {
    if n == 0 then []
    else if (rows[n - 1].chassisName == local) == mine then Picked(rows, n - 1, local, mine) + [n - 1]
    else Picked(rows, n - 1, local, mine)
  }

  predicate Listable(rows: seq<GatewayChassis>, listing: seq<nat>) {
    forall j :: 0 <= j < |listing| ==> listing[j] < |rows|
  }

  /** The group of `lrp` among the listed rows, in the order of the listing. */
  function GroupOf(rows: seq<GatewayChassis>, listing: seq<nat>, routers: seq<LocalRouter>, lrp: string, local: string): HAGroup
    requires Listable(rows, listing)
  {
    if listing == [] then HAGroup(None, -1)
    else
      var g, n := GroupOf(rows, listing[..|listing| - 1], routers, lrp, local), listing[|listing| - 1];
      if LRPName(rows[n], routers) != lrp then g
      else if rows[n].chassisName == local then g.(local := Some(n))
      else if rows[n].priority > g.maxPeer then g.(maxPeer := rows[n].priority)
      else g
  }

  /** The groups of the listed rows, by router port; one that is not there has no row. */
  ghost predicate Collected(rows: seq<GatewayChassis>, listing: seq<nat>, routers: seq<LocalRouter>, local: string, groups: map<string, HAGroup>)
    requires Listable(rows, listing)
  {
    "" !in groups && forall lrp :: lrp != "" ==> GroupOf(rows, listing, routers, lrp, local) == GroupAt(groups, lrp)
  }

  function GroupAt(groups: map<string, HAGroup>, lrp: string): HAGroup {
    if lrp in groups then groups[lrp] else HAGroup(None, -1)
  }

  lemma CollectedStep(rows: seq<GatewayChassis>, listing: seq<nat>, n: nat, routers: seq<LocalRouter>, local: string,
                      before: map<string, HAGroup>, after: map<string, HAGroup>)
    requires Listable(rows, listing) && n < |rows| && Collected(rows, listing, routers, local, before)
    requires var lrp := LRPName(rows[n], routers);
      var g := GroupAt(before, lrp);
      after == if lrp == "" then before
               else if rows[n].chassisName == local then before[lrp := g.(local := Some(n))]
               else if rows[n].priority > g.maxPeer then before[lrp := g.(maxPeer := rows[n].priority)]
               else before[lrp := g]
    ensures Listable(rows, listing + [n]) && Collected(rows, listing + [n], routers, local, after)
  {
    hide LRPName, GroupOf;
    var listed := listing + [n];
    assert Listable(rows, listed);
    forall lrp | lrp != "" ensures GroupOf(rows, listed, routers, lrp, local) == GroupAt(after, lrp) {
      GroupOfSnoc(rows, listing, n, routers, lrp, local);
    }
  }

  lemma GroupOfSnoc(rows: seq<GatewayChassis>, listing: seq<nat>, n: nat, routers: seq<LocalRouter>, lrp: string, local: string)
    requires Listable(rows, listing) && n < |rows|
    ensures Listable(rows, listing + [n])
    ensures var g := GroupOf(rows, listing, routers, lrp, local);
      GroupOf(rows, listing + [n], routers, lrp, local)
      == if LRPName(rows[n], routers) != lrp then g
         else if rows[n].chassisName == local then g.(local := Some(n))
         else if rows[n].priority > g.maxPeer then g.(maxPeer := rows[n].priority)
         else g
  {
    assert (listing + [n])[..|listing|] == listing;
  }

  lemma {:induction false} GroupOfAll(rows: seq<GatewayChassis>, n: nat, routers: seq<LocalRouter>, lrp: string, local: string)
    requires n <= |rows|
    ensures GroupOf(rows, Upto(n), routers, lrp, local) == GroupUpTo(rows, n, routers, lrp, local)
  {
    if n > 0 {
      assert Upto(n)[..n - 1] == Upto(n - 1);
      GroupOfAll(rows, n - 1, routers, lrp, local);
    }
  }

  lemma PickedListable(rows: seq<GatewayChassis>, n: nat, local: string, mine: bool)
    requires n <= |rows|
    ensures Listable(rows, Picked(rows, n, local, mine))
  {
    var picked := Picked(rows, n, local, mine);
    forall j | 0 <= j < |picked| ensures picked[j] < |rows| { assert picked[j] in picked; }
  }

  /** One more row. */
  lemma RowStep(rows: seq<GatewayChassis>, n: nat, routers: seq<LocalRouter>, lrp: string, local: string)
    requires n < |rows|
    ensures Picked(rows, n + 1, local, true) == if rows[n].chassisName == local then Picked(rows, n, local, true) + [n] else Picked(rows, n, local, true)
    ensures Picked(rows, n + 1, local, false) == if rows[n].chassisName == local then Picked(rows, n, local, false) else Picked(rows, n, local, false) + [n]
    ensures var g, more := GroupUpTo(rows, n, routers, lrp, local), GroupUpTo(rows, n + 1, routers, lrp, local);
      && more.local == (if LRPName(rows[n], routers) == lrp && rows[n].chassisName == local then Some(n) else g.local)
      && more.maxPeer == (if LRPName(rows[n], routers) == lrp && rows[n].chassisName != local then Max(rows[n].priority, g.maxPeer) else g.maxPeer)
  {
  }

  lemma NoRow(rows: seq<GatewayChassis>, routers: seq<LocalRouter>, lrp: string, local: string)
    ensures Picked(rows, 0, local, true) == [] && Picked(rows, 0, local, false) == [] && Listable(rows, [])
    ensures GroupUpTo(rows, 0, routers, lrp, local) == HAGroup(None, -1) == GroupOf(rows, [], routers, lrp, local)
  {
  }

  lemma PeersStep(rows: seq<GatewayChassis>, n: nat, listing: seq<nat>, routers: seq<LocalRouter>, lrp: string, local: string)
    requires n < |rows| && Listable(rows, listing) && rows[n].chassisName != local && GroupOf(rows, listing, routers, lrp, local).local.None?
    ensures Listable(rows, listing + [n])
    ensures var g := GroupOf(rows, listing, routers, lrp, local);
      GroupOf(rows, listing + [n], routers, lrp, local) == HAGroup(None, if LRPName(rows[n], routers) == lrp then Max(rows[n].priority, g.maxPeer) else g.maxPeer)
  {
    GroupOfSnoc(rows, listing, n, routers, lrp, local);
    hide LRPName, GroupOf;
  }

  /** The peers alone decide the maximum. */
  lemma {:induction false} GroupOfPeers(rows: seq<GatewayChassis>, n: nat, routers: seq<LocalRouter>, lrp: string, local: string) returns (peers: seq<nat>)
    requires n <= |rows|
    ensures peers == Picked(rows, n, local, false) && Listable(rows, peers)
    ensures GroupOf(rows, peers, routers, lrp, local) == HAGroup(None, GroupUpTo(rows, n, routers, lrp, local).maxPeer)
  {
    hide LRPName, GroupOf, GroupUpTo, Picked, Listable;
    peers := [];
    if n == 0 {
      NoRow(rows, routers, lrp, local);
    } else {
      peers := GroupOfPeers(rows, n - 1, routers, lrp, local);
      RowStep(rows, n - 1, routers, lrp, local);
      if rows[n - 1].chassisName != local {
        PeersStep(rows, n - 1, peers, routers, lrp, local);
        peers := peers + [n - 1];
      }
    }
  }

  lemma MergedStep(rows: seq<GatewayChassis>, n: nat, listing: seq<nat>, routers: seq<LocalRouter>, lrp: string, local: string)
    requires n < |rows| && Listable(rows, listing) && rows[n].chassisName == local
    ensures Listable(rows, listing + [n])
    ensures var g := GroupOf(rows, listing, routers, lrp, local);
      GroupOf(rows, listing + [n], routers, lrp, local) == if LRPName(rows[n], routers) == lrp then HAGroup(Some(n), g.maxPeer) else g
  {
    GroupOfSnoc(rows, listing, n, routers, lrp, local);
    hide LRPName, GroupOf;
  }

  /** Rows of this chassis that are listed after the peers decide the local row. */
  lemma {:induction false} GroupOfMerged(rows: seq<GatewayChassis>, n: nat, peers: seq<nat>, routers: seq<LocalRouter>, lrp: string, local: string) returns (all: seq<nat>)
    requires n <= |rows| && Listable(rows, peers) && GroupOf(rows, peers, routers, lrp, local).local.None?
    ensures all == peers + Picked(rows, n, local, true) && Listable(rows, all)
    ensures GroupOf(rows, all, routers, lrp, local)
         == HAGroup(GroupUpTo(rows, n, routers, lrp, local).local, GroupOf(rows, peers, routers, lrp, local).maxPeer)
  {
    hide LRPName, GroupOf, GroupUpTo, Picked, Listable;
    all := peers;
    if n == 0 {
      NoRow(rows, routers, lrp, local);
      assert peers + [] == peers;
    } else {
      all := GroupOfMerged(rows, n - 1, peers, routers, lrp, local);
      RowStep(rows, n - 1, routers, lrp, local);
      if rows[n - 1].chassisName == local {
        MergedStep(rows, n - 1, all, routers, lrp, local);
        assert peers + (Picked(rows, n - 1, local, true) + [n - 1]) == all + [n - 1];
        all := all + [n - 1];
      }
    }
  }

  /** What the cache may show: every row, or every row but those of this chassis. */
  predicate Cached(rows: seq<GatewayChassis>, listing: seq<nat>, local: string) {
    listing == Upto(|rows|) || listing == Picked(rows, |rows|, local, false)
  }

  lemma {:induction false} NobodyPicked(rows: seq<GatewayChassis>, n: nat, local: string)
    requires n <= |rows|
    ensures (forall i :: 0 <= i < n ==> rows[i].chassisName != local) ==> Picked(rows, n, local, true) == []
  {
    if n > 0 { NobodyPicked(rows, n - 1, local); }
  }

  /** The listed rows make up every group. */
  ghost predicate GivesGroups(rows: seq<GatewayChassis>, listing: seq<nat>, routers: seq<LocalRouter>, local: string)
    requires Listable(rows, listing)
  {
    forall lrp :: GroupOf(rows, listing, routers, lrp, local) == Group(rows, routers, lrp, local)
  }

  /** With the rows of this chassis selected from the server when the cache shows none, the listing gives the group. */
  lemma GatheredGroup(rows: seq<GatewayChassis>, listing: seq<nat>, gathered: seq<nat>, routers: seq<LocalRouter>, lrp: string, local: string)
    requires Cached(rows, listing, local) && Listable(rows, gathered)
    requires gathered == if exists i :: i in listing && i < |rows| && rows[i].chassisName == local then listing
                         else listing + Picked(rows, |rows|, local, true)
    ensures GroupOf(rows, gathered, routers, lrp, local) == Group(rows, routers, lrp, local)
  {
    var mine := Picked(rows, |rows|, local, true);
    GroupOfAll(rows, |rows|, routers, lrp, local);
    if listing == Upto(|rows|) {
      forall i: nat | i < |rows| ensures i in listing { assert Upto(|rows|)[i] == i; }
      NobodyPicked(rows, |rows|, local);
      assert listing + [] == listing;
    } else {
      var peers := GroupOfPeers(rows, |rows|, routers, lrp, local);
      var all := GroupOfMerged(rows, |rows|, listing, routers, lrp, local);
    }
  }

  /** SB positively shows the port bound to another chassis; a failed read blocks nothing. */
  predicate BoundElsewhere(binding: Option<map<string, string>>, crPort: string, local: string) {
    binding.Some? && crPort in binding.value && binding.value[crPort] != local
  }

  predicate HoldsLead(priority: int, maxPeer: int) {
    priority > maxPeer && priority >= MIN_ACTIVE_PRIORITY
  }

  function LeadOver(maxPeer: int): int {
    Max(maxPeer + 1, MIN_ACTIVE_PRIORITY)
  }

  /** The row index the boost writes for `lrp`, if it writes one. */
  function BoostTarget(rows: seq<GatewayChassis>, routers: seq<LocalRouter>, binding: Option<map<string, string>>,
                       lrp: string, local: string): (t: Option<nat>)
    ensures t.Some? ==> t.value < |rows| && LRPName(rows[t.value], routers) == lrp
  {
    var g := Group(rows, routers, lrp, local);
    if lrp == "" || g.local.None? || g.maxPeer < 0 then None
    else if HoldsLead(rows[g.local.value].priority, g.maxPeer) then None
    else if BoundElsewhere(binding, CRPort(routers, lrp), local) then None
    else g.local
  }

  /** The priority row i has after a boost that was committed. */
  function BoostedPriority(rows: seq<GatewayChassis>, i: nat, routers: seq<LocalRouter>,
                           binding: Option<map<string, string>>, local: string): int
    requires i < |rows|
  {
    var lrp := LRPName(rows[i], routers);
    if BoostTarget(rows, routers, binding, lrp, local) == Some(i)
    then LeadOver(Group(rows, routers, lrp, local).maxPeer)
    else rows[i].priority
  }

  /** The updates for the groups of these router ports. */
  ghost predicate Updates(rows: seq<GatewayChassis>, routers: seq<LocalRouter>, binding: Option<map<string, string>>, local: string,
                          done: set<string>, ops: map<nat, int>) {
    && (forall i :: i in ops ==>
          && i < |rows| && LRPName(rows[i], routers) in done
          && BoostTarget(rows, routers, binding, LRPName(rows[i], routers), local) == Some(i)
          && ops[i] == LeadOver(Group(rows, routers, LRPName(rows[i], routers), local).maxPeer))
    && (forall lrp :: lrp in done ==> var t := BoostTarget(rows, routers, binding, lrp, local); t.Some? ==> t.value in ops)
  }

  lemma CollectedGroup(rows: seq<GatewayChassis>, listing: seq<nat>, routers: seq<LocalRouter>, local: string,
                       groups: map<string, HAGroup>, lrp: string)
    requires Listable(rows, listing) && GivesGroups(rows, listing, routers, local) && Collected(rows, listing, routers, local, groups)
    requires lrp in groups
    ensures lrp != "" && Group(rows, routers, lrp, local) == groups[lrp]
    ensures groups[lrp].local.Some? ==> groups[lrp].local.value < |rows|
  {
    hide LRPName, GroupOf, GroupUpTo, Listable;
    assert GroupOf(rows, listing, routers, lrp, local) == GroupAt(groups, lrp);
  }

  lemma NoUpdates(rows: seq<GatewayChassis>, routers: seq<LocalRouter>, binding: Option<map<string, string>>, local: string)
    ensures Updates(rows, routers, binding, local, {}, map[])
  {
  }

  lemma UpdatesStep(rows: seq<GatewayChassis>, routers: seq<LocalRouter>, binding: Option<map<string, string>>, local: string,
                    done: set<string>, lrp: string, ops: map<nat, int>, priority: Option<int>)
    requires Updates(rows, routers, binding, local, done, ops) && lrp !in done
    requires var t := BoostTarget(rows, routers, binding, lrp, local);
      priority == if t.Some? then Some(LeadOver(Group(rows, routers, lrp, local).maxPeer)) else None
    ensures var g := Group(rows, routers, lrp, local);
      && (priority.Some? ==> g.local.Some?)
      && Updates(rows, routers, binding, local, done + {lrp}, if priority.Some? then ops[g.local.value := priority.value] else ops)
  {
    var t := BoostTarget(rows, routers, binding, lrp, local);
    assert t.Some? ==> t == Group(rows, routers, lrp, local).local;
    hide LRPName, BoostTarget, Group, LeadOver;
  }

  lemma Moved<T>(keys: set<T>, todo: set<T>, x: T)
    requires todo <= keys && x in todo
    ensures keys - (todo - {x}) == keys - todo + {x}
  {
  }

  /** A router port without an entry among the collected groups has no row to boost. */
  lemma UpdatesDone(rows: seq<GatewayChassis>, listing: seq<nat>, routers: seq<LocalRouter>, binding: Option<map<string, string>>, local: string,
                    groups: map<string, HAGroup>, ops: map<nat, int>)
    requires Listable(rows, listing) && GivesGroups(rows, listing, routers, local) && Collected(rows, listing, routers, local, groups)
    requires Updates(rows, routers, binding, local, groups.Keys, ops)
    ensures forall i :: i in ops ==> i < |rows|
    ensures forall i: nat :: i < |rows| ==>
      BoostedPriority(rows, i, routers, binding, local) == if i in ops then ops[i] else rows[i].priority
  {
    hide LRPName, GroupOf, GroupUpTo, Listable;
    forall i: nat | i < |rows|
      ensures BoostedPriority(rows, i, routers, binding, local) == if i in ops then ops[i] else rows[i].priority
    {
      var lrp := LRPName(rows[i], routers);
      assert lrp !in groups && lrp != "" ==> Group(rows, routers, lrp, local) == HAGroup(None, -1);
    }
  }

  function Boosted(rows: seq<GatewayChassis>, routers: seq<LocalRouter>,
                   binding: Option<map<string, string>>, local: string): (after: seq<GatewayChassis>)
  {
    seq(|rows|, (i: nat) requires i < |rows| => rows[i].(priority := BoostedPriority(rows, i, routers, binding, local)))
  }

  predicate Lowered(row: GatewayChassis, local: string, sole: set<string>) {
    row.chassisName == local && row.priority > 0 && row.uuid !in sole
  }

  function Drained(rows: seq<GatewayChassis>, local: string, sole: set<string>): (after: seq<GatewayChassis>) {
    seq(|rows|, (i: nat) requires i < |rows| => if Lowered(rows[i], local, sole) then rows[i].(priority := 0) else rows[i])
  }

  function Restored(rows: seq<GatewayChassis>, local: string): (after: seq<GatewayChassis>) {
    seq(|rows|, (i: nat) requires i < |rows| =>
      if rows[i].chassisName == local && rows[i].priority == 0 then rows[i].(priority := 1) else rows[i])
  }

  /** A gateway port without a standby: its router port references one Gateway_Chassis row. */
  ghost predicate IsSole(routers: seq<LocalRouter>, uuid: string) {
    exists r :: r in routers && r.gatewayChassisUUIDs == [uuid]
  }

  ghost predicate IsSolePort(routers: seq<LocalRouter>, crPort: string) {
    crPort != "" && exists r :: r in routers && |r.gatewayChassisUUIDs| == 1 && r.crPort == crPort
  }

  ghost predicate IsSoleLRP(routers: seq<LocalRouter>, lrp: string) {
    lrp != "" && exists r :: r in routers && |r.gatewayChassisUUIDs| == 1 && r.lrpName == lrp
  }

  // ---------------------------------------------------------------------------
  // The methods
  // ---------------------------------------------------------------------------

  class NorthboundDB {
    var rows: seq<GatewayChassis>

    constructor (rows: seq<GatewayChassis>)
      ensures this.rows == rows
    {
      this.rows := rows;
    }

    /** One OVSDB transaction of priority updates: committed whole or not at all, and never past the schema bound. */
    method Transact(ops: map<nat, int>) returns (ok: bool)
      requires forall i :: i in ops ==> i < |rows|
      modifies this
      ensures ok ==> |rows| == |old(rows)| && forall i: nat :: i < |rows| ==>
        rows[i] == if i in ops then old(rows)[i].(priority := ops[i]) else old(rows)[i]
      ensures !ok ==> rows == old(rows)
      ensures ok ==> forall i :: i in ops ==> 0 <= ops[i] <= MAX_PRIORITY
    {
      ok := *;
      if ok && forall i :: i in ops ==> 0 <= ops[i] <= MAX_PRIORITY {
        var was := rows;
        rows := seq(|was|, (i: nat) requires i < |was| => if i in ops then was[i].(priority := ops[i]) else was[i]);
      } else {
        ok := false;
      }
    }

    /** The reference-column join of the locally active routers. */
    method IndexRouters(routers: seq<LocalRouter>) returns (active: set<string>, byUUID: map<string, string>)
      ensures active == ActiveLRPs(routers)
      ensures IndexesOwners(byUUID, routers)
    {
      active, byUUID := {}, map[];
      for n := 0 to |routers|
        invariant active == ActiveLRPs(routers[..n])
        invariant IndexesOwners(byUUID, routers[..n])
      {
        hide IndexesOwners, Overlaid;
        var lr := routers[n];
        assert routers[..n + 1] == routers[..n] + [lr];
        active := active + {lr.lrpName};
        ghost var before := byUUID;
        byUUID := AddOwner(byUUID, lr);
        OwnersStep(routers[..n], lr, before, byUUID);
      }
      assert routers[..|routers|] == routers;
    }

    method AddOwner(before: map<string, string>, lr: LocalRouter) returns (byUUID: map<string, string>)
      ensures Overlaid(before, lr.gatewayChassisUUIDs, lr.lrpName, byUUID)
    {
      byUUID := before;
      for k := 0 to |lr.gatewayChassisUUIDs|
        invariant Overlaid(before, lr.gatewayChassisUUIDs[..k], lr.lrpName, byUUID)
      {
        assert lr.gatewayChassisUUIDs[..k + 1] == lr.gatewayChassisUUIDs[..k] + [lr.gatewayChassisUUIDs[k]];
        byUUID := byUUID[lr.gatewayChassisUUIDs[k] := lr.lrpName];
      }
      assert lr.gatewayChassisUUIDs[..|lr.gatewayChassisUUIDs|] == lr.gatewayChassisUUIDs;
    }

    /** The cache's listing; it may fail, and may lack the rows of this chassis. */
    method List(local: string) returns (ok: bool, listing: seq<nat>)
      ensures Cached(rows, listing, local) && Listable(rows, listing)
    {
      var hidden: bool := *;
      ok, listing := *, if hidden then Picked(rows, |rows|, local, false) else Upto(|rows|);
      PickedListable(rows, |rows|, local, false);
    }

    /** A select of the rows of this chassis from the server itself. */
    method SelectLocal(local: string) returns (ok: bool, listing: seq<nat>)
      ensures listing == Picked(rows, |rows|, local, true) && Listable(rows, listing)
    {
      ok, listing := *, Picked(rows, |rows|, local, true);
      PickedListable(rows, |rows|, local, true);
    }

    method HasLocalRow(listing: seq<nat>, local: string) returns (found: bool)
      requires Listable(rows, listing)
      ensures found <==> exists i :: i in listing && i < |rows| && rows[i].chassisName == local
    {
      for n := 0 to |listing|
        invariant forall i :: i in listing[..n] && i < |rows| ==> rows[i].chassisName != local
      {
        assert listing[n] in listing;
        if rows[listing[n]].chassisName == local {
          return true;
        }
      }
      return false;
    }

    /** The loop over the listed rows. */
    method CollectGroups(listing: seq<nat>, routers: seq<LocalRouter>, local: string) returns (groups: map<string, HAGroup>)
      requires Listable(rows, listing)
      ensures Collected(rows, listing, routers, local, groups)
    {
      var active, byUUID := IndexRouters(routers);
      groups := map[];
      for at := 0 to |listing|
        invariant Listable(rows, listing[..at]) && Collected(rows, listing[..at], routers, local, groups)
      {
        hide Collected, GroupOf, OwnerByUUID;
        var n := listing[at];
        assert n in listing && listing[..at + 1] == listing[..at] + [n];
        var row := rows[n];
        ghost var before := groups;
        var parsed := TrimSuffix(row.name, "_" + row.chassisName);
        var lrp := if row.uuid in byUUID then byUUID[row.uuid] else if parsed in active then parsed else "";
        assert lrp == LRPName(row, routers);
        if lrp != "" {
          var g := GroupAt(groups, lrp);
          if row.chassisName == local {
            g := g.(local := Some(n));
          } else if row.priority > g.maxPeer {
            g := g.(maxPeer := row.priority);
          }
          groups := groups[lrp := g];
        }
        CollectedStep(rows, listing[..at], n, routers, local, before, groups);
      }
      assert listing[..|listing|] == listing;
    }

    method IndexCRPorts(routers: seq<LocalRouter>) returns (crPorts: map<string, string>)
      ensures forall lrp :: CRPort(routers, lrp) == if lrp in crPorts then crPorts[lrp] else ""
    {
      crPorts := map[];
      for n := 0 to |routers|
        invariant forall lrp :: CRPort(routers[..n], lrp) == if lrp in crPorts then crPorts[lrp] else ""
      {
        assert routers[..n + 1][..n] == routers[..n];
        crPorts := crPorts[routers[n].lrpName := routers[n].crPort];
      }
      assert routers[..|routers|] == routers;
    }

    /** The updates of one boost pass, keyed by row, from a listing that gives the groups. */
    method BoostOps(listing: seq<nat>, routers: seq<LocalRouter>, local: string, binding: Option<map<string, string>>)
      returns (ops: map<nat, int>)
      requires Listable(rows, listing)
      requires GivesGroups(rows, listing, routers, local)
      ensures forall i :: i in ops ==> i < |rows|
      ensures forall i: nat :: i < |rows| ==>
        BoostedPriority(rows, i, routers, binding, local) == if i in ops then ops[i] else rows[i].priority
    {
      var groups := CollectGroups(listing, routers, local);
      var crPorts := IndexCRPorts(routers);
      hide LRPName, GroupOf, Group, Listable, CRPort, Updates, Collected, GivesGroups, BoostedPriority, BoostTarget;
      ops := map[];
      var todo := groups.Keys;
      ghost var done := {};
      NoUpdates(rows, routers, binding, local);
      while todo != {}
        invariant todo <= groups.Keys && done == groups.Keys - todo
        invariant Updates(rows, routers, binding, local, done, ops)
        decreases |todo|
      {
        var lrp :| lrp in todo;
        CollectedGroup(rows, listing, routers, local, groups, lrp);
        var port := if lrp in crPorts then crPorts[lrp] else "";
        var newPriority := NewPriority(groups[lrp], port, lrp, routers, local, binding);
        UpdatesStep(rows, routers, binding, local, done, lrp, ops, newPriority);
        if newPriority.Some? {
          ops := ops[groups[lrp].local.value := newPriority.value];
        }
        Moved(groups.Keys, todo, lrp);
        todo, done := todo - {lrp}, done + {lrp};
      }
      assert done == groups.Keys;
      UpdatesDone(rows, listing, routers, binding, local, groups, ops);
    }

    /** The priority the boost gives the local row of a group, if it writes one. */
    method NewPriority(g: HAGroup, port: string, ghost lrp: string, ghost routers: seq<LocalRouter>, local: string,
                       binding: Option<map<string, string>>)
      returns (priority: Option<int>)
      requires lrp != "" && g == Group(rows, routers, lrp, local) && port == CRPort(routers, lrp)
      ensures priority == if BoostTarget(rows, routers, binding, lrp, local).Some? then Some(LeadOver(g.maxPeer)) else None
    {
      hide LRPName, GroupUpTo, CRPort;
      if g.local.None? || g.maxPeer < 0 {
        return None;
      }
      var p := rows[g.local.value].priority;
      if p > g.maxPeer && p >= MIN_ACTIVE_PRIORITY {
        return None;
      }
      if binding.Some? && port in binding.value && binding.value[port] != local {
        return None;
      }
      var newPriority := g.maxPeer + 1;
      if newPriority < MIN_ACTIVE_PRIORITY {
        newPriority := MIN_ACTIVE_PRIORITY;
      }
      return Some(newPriority);
    }

    /** The cache's rows, with those of this chassis selected from the server when the cache shows none of them. */
    method Gather(ghost routers: seq<LocalRouter>, local: string) returns (ok: bool, listing: seq<nat>)
      ensures ok ==> Listable(rows, listing) && GivesGroups(rows, listing, routers, local)
    {
      ok, listing := List(local);
      if !ok {
        return;
      }
      ghost var cached := listing;
      var hasLocalRow := HasLocalRow(listing, local);
      if !hasLocalRow {
        var mine;
        ok, mine := SelectLocal(local);
        listing := listing + mine;
      }
      forall lrp ensures GroupOf(rows, listing, routers, lrp, local) == Group(rows, routers, lrp, local) {
        GatheredGroup(rows, cached, listing, routers, lrp, local);
      }
    }

    /** The boost. `binding` is the SB read made just before the write, None when that read failed. */
    method EnsureActivePriorityLead(routers: seq<LocalRouter>, local: string, binding: Option<map<string, string>>)
      returns (ok: bool)
      modifies this
      ensures ok ==> rows == Boosted(old(rows), routers, binding, local)
      ensures !ok ==> rows == old(rows)
      ensures forall i: nat :: i < |rows| == |old(rows)| && rows[i] != old(rows)[i] ==> rows[i].priority <= MAX_PRIORITY
    {
      if |routers| == 0 {
        return true;
      }
      hide GivesGroups, Listable, GroupUpTo, LRPName;
      var listed, listing := Gather(routers, local);
      if !listed {
        return false;
      }
      var ops := BoostOps(listing, routers, local, binding);
      if ops == map[] {
        return true;
      }
      ok := Transact(ops);
    }

    /** The listed rows a drain lowers and whether the chassis has any row at all. */
    method FilterDrainCandidates(listing: seq<nat>, local: string) returns (toDrain: set<nat>, hasLocalRow: bool)
      requires Listable(rows, listing)
      ensures forall i: nat :: i in toDrain <==> i in listing && i < |rows| && rows[i].chassisName == local && rows[i].priority > 0
      ensures hasLocalRow <==> exists i :: i in listing && i < |rows| && rows[i].chassisName == local
    {
      toDrain, hasLocalRow := {}, false;
      for n := 0 to |listing|
        invariant forall i: nat :: i in toDrain <==> i in listing[..n] && i < |rows| && rows[i].chassisName == local && rows[i].priority > 0
        invariant hasLocalRow <==> exists i :: i in listing[..n] && i < |rows| && rows[i].chassisName == local
      {
        assert listing[n] in listing && listing[..n + 1] == listing[..n] + [listing[n]];
        if rows[listing[n]].chassisName == local {
          hasLocalRow := true;
          if rows[listing[n]].priority > 0 {
            toDrain := toDrain + {listing[n]};
          }
        }
      }
      assert listing[..|listing|] == listing;
    }

    /** The gateway ports without a standby, by row reference, chassisredirect port and router port. */
    static method SoleCandidates(routers: seq<LocalRouter>) returns (gcUUIDs: set<string>, crPorts: set<string>, lrpNames: set<string>)
      ensures forall u :: u in gcUUIDs <==> IsSole(routers, u)
      ensures forall c :: c in crPorts <==> IsSolePort(routers, c)
      ensures forall l :: l in lrpNames <==> IsSoleLRP(routers, l)
    {
      gcUUIDs, crPorts, lrpNames := {}, {}, {};
      for n := 0 to |routers|
        invariant forall u :: u in gcUUIDs <==> IsSole(routers[..n], u)
        invariant forall c :: c in crPorts <==> IsSolePort(routers[..n], c)
        invariant forall l :: l in lrpNames <==> IsSoleLRP(routers[..n], l)
      {
        var lr := routers[n];
        assert forall r :: r in routers[..n + 1] <==> r in routers[..n] || r == lr;
        if |lr.gatewayChassisUUIDs| == 1 {
          var u := lr.gatewayChassisUUIDs[0];
          assert lr.gatewayChassisUUIDs == [u];
          gcUUIDs := gcUUIDs + {u};
          if lr.crPort != "" {
            crPorts := crPorts + {lr.crPort};
          }
          if lr.lrpName != "" {
            lrpNames := lrpNames + {lr.lrpName};
          }
        }
      }
      assert routers[..|routers|] == routers;
    }

    /** The rows of this chassis: from the cache, or from the server when the cache shows none. */
    method LocalRows(local: string) returns (ok: bool, listing: seq<nat>)
      ensures Listable(rows, listing)
      ensures ok ==> forall i: nat :: i < |rows| && rows[i].chassisName == local ==> i in listing
    {
      ok, listing := List(local);
      if !ok {
        return;
      }
      var hasLocalRow := HasLocalRow(listing, local);
      if hasLocalRow {
        forall i: nat | i < |rows| ensures i in Upto(|rows|) { assert Upto(|rows|)[i] == i; }
      } else {
        ok, listing := SelectLocal(local);
      }
    }

    /** What a drain lowers: the positive rows of this chassis that have a standby. */
    method DrainTargets(routers: seq<LocalRouter>, local: string) returns (ok: bool, kept: set<nat>, soleLRPs: set<string>, ghost sole: set<string>)
      ensures forall u :: u in sole <==> IsSole(routers, u)
      ensures forall l :: l in soleLRPs <==> IsSoleLRP(routers, l)
      ensures forall i: nat :: i in kept ==> i < |rows|
      ensures ok ==> forall i: nat :: i < |rows| ==> (i in kept <==> Lowered(rows[i], local, sole))
    {
      var gcUUIDs, _, lrpNames := SoleCandidates(routers);
      sole, soleLRPs, kept := gcUUIDs, lrpNames, {};
      var listing;
      ok, listing := LocalRows(local);
      if !ok {
        return;
      }
      hide IsSole, IsSoleLRP, Listable, Picked;
      var toDrain, _ := FilterDrainCandidates(listing, local);
      kept := set i | i in toDrain && rows[i].uuid !in gcUUIDs;
    }

    /**
     The priority step of a drain: whether its read found rows to lower, None for a failed read,
     whether its transaction lowered them, and the router ports without a standby.
     */
    method DrainPriorities(routers: seq<LocalRouter>, local: string)
      returns (found: Option<bool>, lowered: bool, soleLRPs: set<string>, ghost sole: set<string>)
      modifies this
      ensures forall u :: u in sole <==> IsSole(routers, u)
      ensures forall l :: l in soleLRPs <==> IsSoleLRP(routers, l)
      ensures found.Some? ==> (found.value <==> exists row :: row in old(rows) && Lowered(row, local, sole))
      ensures lowered ==> found == Some(true)
      ensures lowered <==> rows != old(rows)
      ensures rows == if lowered then Drained(old(rows), local, sole) else old(rows)
    {
      hide IsSole, IsSoleLRP;
      var listed, kept;
      listed, kept, soleLRPs, sole := DrainTargets(routers, local);
      if !listed {
        return None, false, soleLRPs, sole;
      }
      if kept == {} {
        return Some(false), false, soleLRPs, sole;
      }
      var i :| i in kept;
      assert rows[i] in rows && Lowered(rows[i], local, sole);
      found := Some(true);
      lowered := Transact(map i | i in kept :: 0);
      if lowered {
        assert rows == Drained(old(rows), local, sole);
        assert rows[i].priority == 0 < old(rows)[i].priority;
      }
    }

    /** The restore at start-up: drained rows go back to standby level. */
    method RestoreDrainedGateways(local: string) returns (ok: bool)
      modifies this
      ensures ok ==> rows == Restored(old(rows), local)
      ensures !ok ==> rows == old(rows)
    {
      var ops: map<nat, int> := map[];
      var listed, listing := LocalRows(local);
      if !listed {
        return false;
      }
      for n := 0 to |listing|
        invariant unchanged(this)
        invariant forall i: nat :: i in ops <==> i in listing[..n] && i < |rows| && rows[i].chassisName == local && rows[i].priority == 0
        invariant forall i :: i in ops ==> ops[i] == 1
      {
        assert listing[n] in listing && listing[..n + 1] == listing[..n] + [listing[n]];
        if rows[listing[n]].chassisName == local && rows[listing[n]].priority == 0 {
          ops := ops[listing[n] := 1];
        }
      }
      assert listing[..|listing|] == listing;
      if ops == map[] {
        return true;
      }
      ok := Transact(ops);
    }
  }

  /** A row a boost rewrites always gets a strictly higher priority, above every peer and at least 2. */
  lemma BoostRaises(rows: seq<GatewayChassis>, i: nat, routers: seq<LocalRouter>, binding: Option<map<string, string>>, local: string)
    requires i < |rows|
    requires BoostedPriority(rows, i, routers, binding, local) != rows[i].priority
    ensures rows[i].chassisName == local
    ensures BoostedPriority(rows, i, routers, binding, local) > rows[i].priority
    ensures BoostedPriority(rows, i, routers, binding, local) >= MIN_ACTIVE_PRIORITY
    ensures forall j :: 0 <= j < |rows| && IsPeer(rows, j, routers, LRPName(rows[i], routers), local) ==>
      BoostedPriority(rows, i, routers, binding, local) > rows[j].priority
  {
    var g := Group(rows, routers, LRPName(rows[i], routers), local);
    GroupMeaning(rows, |rows|, routers, LRPName(rows[i], routers), local);
    assert rows[..|rows|] == rows;
    assert IsLocalRow(rows, g.local.value, routers, LRPName(rows[i], routers), local);
  }
}
