/**
 One HA group shared by any number of chassis: every chassis runs the priority
 writers of PriorityLead against the same rows while OVN re-elects the holder of
 the gateway port. The main result is that the failover is never reversed.
 */
module Failover {
  import opened Common
  import opened PriorityLead

  /** `bound` is the chassis the southbound database shows the chassisredirect port on. */
  datatype State = State(prio: map<string, int>, live: set<string>, bound: Option<string>)

  datatype Step =
    | Boost(c: string)      // EnsureActivePriorityLead with a successful binding read
    | BlindBoost(c: string) // the same with a failed one, which trusts the reconcile snapshot
    | Drain(c: string)
    | Restore(c: string)
    | Elect(winner: Option<string>)
    | Crash(c: string)
    | Start(c: string)

  ghost function MaxOver(prio: map<string, int>, chassis: set<string>): (m: int)
    requires chassis <= prio.Keys
    ensures forall d :: d in chassis ==> prio[d] <= m
    ensures m == -1 || exists d :: d in chassis && prio[d] == m
  {
    if chassis == {} then -1
    else
      var d :| d in chassis;
      Max(prio[d], MaxOver(prio, chassis - {d}))
  }

  ghost function MaxPeer(prio: map<string, int>, c: string): int {
    MaxOver(prio, prio.Keys - {c})
  }

  /** The group's priorities after chassis c ran its boost and the transaction was committed. */
  ghost function BoostedGroup(prio: map<string, int>, c: string, blocked: bool): map<string, int> {
    if c !in prio || MaxPeer(prio, c) < 0 || HoldsLead(prio[c], MaxPeer(prio, c)) || blocked then prio
    else prio[c := LeadOver(MaxPeer(prio, c))]
  }

  ghost predicate Blocked(s: State, c: string) {
    s.bound.Some? && s.bound.value != c
  }

  /** What the step writes if its transaction is committed. */
  ghost function Written(s: State, step: Step): map<string, int> {
    match step
    case Boost(c) => BoostedGroup(s.prio, c, Blocked(s, c))
    case BlindBoost(c) => BoostedGroup(s.prio, c, false)
    case Drain(c) => if c in s.prio && s.prio[c] > 0 then s.prio[c := 0] else s.prio
    case Restore(c) => if c in s.prio && s.prio[c] == 0 then s.prio[c := 1] else s.prio
    case _ => s.prio
  }

  ghost predicate CanWin(s: State, c: string) {
    && c in s.prio && c in s.live
    && forall d :: d in s.prio && d in s.live ==> s.prio[d] <= s.prio[c]
  }

  ghost predicate WithinSchema(prio: map<string, int>) {
    forall c :: c in prio ==> 0 <= prio[c] <= MAX_PRIORITY
  }

  ghost predicate Next(s: State, step: Step, t: State) {
    match step
    case Elect(winner) =>
      && t == s.(bound := winner)
      && (winner.Some? ==> CanWin(s, winner.value))
      && (winner.None? ==> s.live !! s.prio.Keys)
    case Crash(c) => t == s.(live := s.live - {c})
    case Start(c) => t == s.(live := s.live + {c})
    case _ => t == s || (t == s.(prio := Written(s, step)) && WithinSchema(t.prio) && step.c in s.live)
  }

  ghost predicate Run(states: seq<State>, steps: seq<Step>) {
    && |states| == |steps| + 1
    && forall i :: 0 <= i < |steps| ==> Next(states[i], steps[i], states[i + 1])
  }

  /** c is live, holds the port and leads every other row of the group, dead chassis included. */
  ghost predicate Leads(s: State, c: string) {
    && c in s.live && c in s.prio && s.bound == Some(c)
    && s.prio[c] >= MIN_ACTIVE_PRIORITY
    && forall d :: d in s.prio && d != c ==> s.prio[d] < s.prio[c]
  }

  /** The steps that may take the lead away from c: its own drain, its death, and a peer's unchecked boost. */
  predicate MayUnseat(step: Step, c: string) {
    step == Drain(c) || step == Crash(c) || (step.BlindBoost? && step.c != c)
  }

  lemma LeadKept(s: State, step: Step, t: State, c: string)
    requires Leads(s, c) && Next(s, step, t) && !MayUnseat(step, c)
    ensures Leads(t, c) && t.prio[c] == s.prio[c]
    ensures step.Boost? || step.BlindBoost? ==> t == s
    ensures step.Elect? ==> step.winner == Some(c)
  {
    match step {
      case Boost(d) =>
        if d == c {
          assert MaxPeer(s.prio, c) < s.prio[c];
        }
      case BlindBoost(d) => assert MaxPeer(s.prio, c) < s.prio[c];
      case Elect(winner) => assert c in s.prio && c in s.live;
      case _ =>
    }
  }

  /**
   No reverse failover: once the live holder of the port leads, it leads in every
   later state, it keeps its priority, every election confirms it and nobody's boost
   writes anything, until it drains, dies or a peer boosts without the binding check.
   */
  lemma {:induction false} NoReverseFailover(states: seq<State>, steps: seq<Step>, c: string)
    requires Run(states, steps) && Leads(states[0], c)
    requires forall i :: 0 <= i < |steps| ==> !MayUnseat(steps[i], c)
    ensures forall i :: 0 <= i < |states| ==> Leads(states[i], c) && states[i].prio[c] == states[0].prio[c]
    ensures forall i :: 0 <= i < |steps| && steps[i].Elect? ==> steps[i].winner == Some(c)
    ensures forall i :: 0 <= i < |steps| && steps[i].Boost? ==> states[i + 1] == states[i]
    decreases |steps|
  {
    hide Next, Leads;
    if |steps| > 0 {
      var n := |steps| - 1;
      var states', steps' := states[..n + 1], steps[..n];
      NoReverseFailover(states', steps', c);
      LeadKept(states[n], steps[n], states[n + 1], c);
      assert forall i :: 0 <= i <= n ==> states'[i] == states[i];
      assert forall i :: 0 <= i < n ==> steps'[i] == steps[i];
    }
  }

  /** The committed boost of the live holder establishes the lead, unless the schema has no priority left above the peers. */
  lemma BoostTakesLead(s: State, c: string)
    requires c in s.live && c in s.prio && s.bound == Some(c) && WithinSchema(s.prio)
    requires exists d :: d in s.prio && d != c
    ensures var t := s.(prio := Written(s, Boost(c)));
      (WithinSchema(t.prio) && Leads(t, c)) <==> (HoldsLead(s.prio[c], MaxPeer(s.prio, c)) || MaxPeer(s.prio, c) < MAX_PRIORITY)
  {
    var d :| d in s.prio && d != c;
    assert d in s.prio.Keys - {c};
    assert 0 <= s.prio[d] <= MaxPeer(s.prio, c);
    var t := s.(prio := Written(s, Boost(c)));
    if !HoldsLead(s.prio[c], MaxPeer(s.prio, c)) {
      assert t.prio == s.prio[c := LeadOver(MaxPeer(s.prio, c))];
      assert t.prio[c] <= MAX_PRIORITY <==> MaxPeer(s.prio, c) < MAX_PRIORITY;
    }
  }

  /** A boost never lowers a row, and the row it changes is the booster's own. */
  lemma BoostRaisesOwnRow(s: State, step: Step)
    requires step.Boost? || step.BlindBoost?
    ensures Written(s, step).Keys == s.prio.Keys
    ensures forall d :: d in s.prio && Written(s, step)[d] != s.prio[d] ==>
      d == step.c && Written(s, step)[d] > s.prio[d] && Written(s, step)[d] > MaxPeer(s.prio, d)
  {
  }

  /** A boost without the binding check unseats the leader in every case but the one where no priority is left above it. */
  lemma BlindBoostUnseats(s: State, c: string, d: string)
    requires Leads(s, c) && WithinSchema(s.prio) && d in s.prio && d != c && d in s.live
    ensures var t := s.(prio := Written(s, BlindBoost(d)));
      WithinSchema(t.prio) <==> s.prio[c] < MAX_PRIORITY
    ensures var t := s.(prio := Written(s, BlindBoost(d)));
      !Leads(t, c) && CanWin(t, d) && Next(t, Elect(Some(d)), t.(bound := Some(d)))
  {
    assert c in s.prio.Keys - {d};
    assert MaxPeer(s.prio, d) == s.prio[c];
    var t := s.(prio := Written(s, BlindBoost(d)));
    assert t.prio == s.prio[d := s.prio[c] + 1];
    assert t.prio[d] <= MAX_PRIORITY <==> s.prio[c] < MAX_PRIORITY;
  }

  /** The smallest run that reverses a failover: b's binding read fails while a leads. */
  lemma ReverseFailoverWithoutCheck()
    ensures exists states: seq<State>, steps: seq<Step> ::
      (Run(states, steps) && Leads(states[0], "a") && states[|steps|].bound == Some("b")
       && Drain("a") !in steps && Crash("a") !in steps)
  {
    var s := State(map["a" := 2, "b" := 1], {"a", "b"}, Some("a"));
    BlindBoostUnseats(s, "a", "b");
    assert s.prio.Keys - {"b"} == {"a"};
    var t := s.(prio := Written(s, BlindBoost("b")));
    var u := t.(bound := Some("b"));
    assert Next(s, BlindBoost("b"), t);
    assert Run([s, t, u], [BlindBoost("b"), Elect(Some("b"))]);
    assert Leads([s, t, u][0], "a");
  }

  /** After its drain a chassis can win the port back exactly when no other live chassis is above 0. */
  lemma DrainHandsOver(s: State, c: string)
    requires c in s.prio && c in s.live && WithinSchema(s.prio)
    ensures var t := s.(prio := Written(s, Drain(c)));
      CanWin(t, c) <==> forall d :: d in s.prio && d in s.live && d != c ==> s.prio[d] == 0
  {
    var t := s.(prio := Written(s, Drain(c)));
    assert t.prio[c] == 0;
    forall d | d in s.prio && d in s.live && d != c && CanWin(t, c)
      ensures s.prio[d] == 0
    {
      assert d in t.prio && t.prio[d] == s.prio[d];
    }
  }

  // ---------------------------------------------------------------------------
  // The rows refine the group
  // ---------------------------------------------------------------------------

  ghost predicate Member(rows: seq<GatewayChassis>, i: int, routers: seq<LocalRouter>, lrp: string) {
    0 <= i < |rows| && LRPName(rows[i], routers) == lrp
  }

  /** At most one row of the group per chassis. */
  ghost predicate OneRowPerChassis(rows: seq<GatewayChassis>, routers: seq<LocalRouter>, lrp: string) {
    forall i, j :: Member(rows, i, routers, lrp) && Member(rows, j, routers, lrp) && i != j ==>
      rows[i].chassisName != rows[j].chassisName
  }

  ghost function Priorities(rows: seq<GatewayChassis>, routers: seq<LocalRouter>, lrp: string): map<string, int>
    requires OneRowPerChassis(rows, routers, lrp)
  {
    map i: int | 0 <= i < |rows| && Member(rows, i, routers, lrp) :: rows[i].chassisName := rows[i].priority
  }

  lemma PrioritiesAt(rows: seq<GatewayChassis>, routers: seq<LocalRouter>, lrp: string, i: int)
    requires OneRowPerChassis(rows, routers, lrp) && Member(rows, i, routers, lrp)
    ensures rows[i].chassisName in Priorities(rows, routers, lrp)
    ensures Priorities(rows, routers, lrp)[rows[i].chassisName] == rows[i].priority
  {
  }

  lemma PeersAreBelow(rows: seq<GatewayChassis>, routers: seq<LocalRouter>, lrp: string, c: string, d: string)
    requires OneRowPerChassis(rows, routers, lrp) && d in Priorities(rows, routers, lrp) && d != c
    ensures Priorities(rows, routers, lrp)[d] <= Group(rows, routers, lrp, c).maxPeer
  {
    GroupMeaning(rows, |rows|, routers, lrp, c);
    hide LRPName, GroupUpTo, IsLocalRow;
    var i := RowOf(rows, routers, lrp, d);
    assert IsPeer(rows, i, routers, lrp, c);
  }

  lemma SomePeerIsMax(rows: seq<GatewayChassis>, routers: seq<LocalRouter>, lrp: string, c: string) returns (d: string)
    requires OneRowPerChassis(rows, routers, lrp) && Group(rows, routers, lrp, c).maxPeer != -1
    ensures d in Priorities(rows, routers, lrp) && d != c && Priorities(rows, routers, lrp)[d] == Group(rows, routers, lrp, c).maxPeer
  {
    GroupMeaning(rows, |rows|, routers, lrp, c);
    hide LRPName, GroupUpTo, IsLocalRow;
    var g := Group(rows, routers, lrp, c);
    var j :| 0 <= j < |rows| && IsPeer(rows, j, routers, lrp, c) && rows[j].priority == g.maxPeer;
    PrioritiesAt(rows, routers, lrp, j);
    d := rows[j].chassisName;
  }

  /** The joined rows and the group agree on the highest peer. */
  lemma MaxPeerAgrees(rows: seq<GatewayChassis>, routers: seq<LocalRouter>, lrp: string, c: string)
    requires OneRowPerChassis(rows, routers, lrp)
    requires forall i :: 0 <= i < |rows| ==> rows[i].priority >= 0
    ensures Group(rows, routers, lrp, c).maxPeer == MaxPeer(Priorities(rows, routers, lrp), c)
  {
    var g, prio := Group(rows, routers, lrp, c), Priorities(rows, routers, lrp);
    forall d | d in prio && d != c ensures 0 <= prio[d] <= g.maxPeer {
      var i := RowOf(rows, routers, lrp, d);
      PrioritiesAt(rows, routers, lrp, i);
      PeersAreBelow(rows, routers, lrp, c, d);
    }
    hide Priorities, Group, LRPName, OneRowPerChassis;
    if g.maxPeer != -1 {
      var d := SomePeerIsMax(rows, routers, lrp, c);
      assert d in prio.Keys - {c};
    }
  }

  /** Rewriting priorities alone moves no row between groups. */
  lemma SameMembers(rows: seq<GatewayChassis>, after: seq<GatewayChassis>, routers: seq<LocalRouter>, lrp: string)
    requires OneRowPerChassis(rows, routers, lrp)
    requires |after| == |rows| && forall i: nat :: i < |rows| ==> after[i] == rows[i].(priority := after[i].priority)
    ensures OneRowPerChassis(after, routers, lrp)
    ensures Priorities(after, routers, lrp).Keys == Priorities(rows, routers, lrp).Keys
    ensures forall i :: Member(rows, i, routers, lrp) ==>
      && rows[i].chassisName in Priorities(after, routers, lrp)
      && Priorities(after, routers, lrp)[rows[i].chassisName] == after[i].priority
      && Priorities(rows, routers, lrp)[rows[i].chassisName] == rows[i].priority
  {
    assert forall i :: Member(after, i, routers, lrp) <==> Member(rows, i, routers, lrp);
    hide Priorities, LRPName, OneRowPerChassis;
    forall i | Member(rows, i, routers, lrp)
      ensures && rows[i].chassisName in Priorities(after, routers, lrp)
              && Priorities(after, routers, lrp)[rows[i].chassisName] == after[i].priority
              && Priorities(rows, routers, lrp)[rows[i].chassisName] == rows[i].priority
    {
      PrioritiesAt(rows, routers, lrp, i);
      PrioritiesAt(after, routers, lrp, i);
    }
    forall d ensures d in Priorities(after, routers, lrp) <==> d in Priorities(rows, routers, lrp) {
      if d in Priorities(after, routers, lrp) {
        var i := RowOf(after, routers, lrp, d);
        PrioritiesAt(rows, routers, lrp, i);
      }
      if d in Priorities(rows, routers, lrp) {
        var i := RowOf(rows, routers, lrp, d);
        PrioritiesAt(after, routers, lrp, i);
      }
    }
  }

  /** What the boost writes into one row of the group, in terms of the group. */
  lemma BoostRefinesRow(rows: seq<GatewayChassis>, routers: seq<LocalRouter>, binding: Option<map<string, string>>,
                        lrp: string, c: string, i: nat)
    requires lrp != "" && OneRowPerChassis(rows, routers, lrp) && Member(rows, i, routers, lrp)
    requires forall k :: 0 <= k < |rows| ==> rows[k].priority >= 0
    ensures var prio := Priorities(rows, routers, lrp);
      && rows[i].chassisName in prio
      && BoostedPriority(rows, i, routers, binding, c)
         == BoostedGroup(prio, c, BoundElsewhere(binding, CRPort(routers, lrp), c))[rows[i].chassisName]
  {
    PrioritiesAt(rows, routers, lrp, i);
    MaxPeerAgrees(rows, routers, lrp, c);
    LocalRowOfGroup(rows, routers, lrp, c, i);
    hide Group, GroupUpTo, MaxPeer, Priorities, OneRowPerChassis, LRPName, CRPort;
    assert LRPName(rows[i], routers) == lrp by { MemberOf(rows, routers, lrp, i); }
    var g := Group(rows, routers, lrp, c);
    assert g.local.Some? <==> c in Priorities(rows, routers, lrp) by { LocalInGroup(rows, routers, lrp, c); }
    if rows[i].chassisName != c {
      assert g.local != Some(i);
    }
  }

  lemma MemberOf(rows: seq<GatewayChassis>, routers: seq<LocalRouter>, lrp: string, i: nat)
    requires Member(rows, i, routers, lrp)
    ensures LRPName(rows[i], routers) == lrp
  {
  }

  /** The local row of a group is the row of the chassis. */
  lemma LocalRowOfGroup(rows: seq<GatewayChassis>, routers: seq<LocalRouter>, lrp: string, c: string, i: nat)
    requires OneRowPerChassis(rows, routers, lrp) && Member(rows, i, routers, lrp)
    ensures Group(rows, routers, lrp, c).local == Some(i) <==> rows[i].chassisName == c
  {
    var g := Group(rows, routers, lrp, c);
    GroupMeaning(rows, |rows|, routers, lrp, c);
    assert rows[..|rows|] == rows;
    if g.local.Some? {
      assert Member(rows, g.local.value, routers, lrp) && rows[g.local.value].chassisName == c;
    }
  }

  lemma LocalInGroup(rows: seq<GatewayChassis>, routers: seq<LocalRouter>, lrp: string, c: string)
    requires OneRowPerChassis(rows, routers, lrp)
    ensures Group(rows, routers, lrp, c).local.Some? <==> c in Priorities(rows, routers, lrp)
  {
    var g := Group(rows, routers, lrp, c);
    GroupMeaning(rows, |rows|, routers, lrp, c);
    assert rows[..|rows|] == rows;
    if g.local.Some? {
      PrioritiesAt(rows, routers, lrp, g.local.value);
    }
    if c in Priorities(rows, routers, lrp) {
      var i := RowOf(rows, routers, lrp, c);
      LocalRowOfGroup(rows, routers, lrp, c, i);
    }
  }

  lemma RowOf(rows: seq<GatewayChassis>, routers: seq<LocalRouter>, lrp: string, d: string) returns (i: nat)
    requires OneRowPerChassis(rows, routers, lrp) && d in Priorities(rows, routers, lrp)
    ensures Member(rows, i, routers, lrp) && rows[i].chassisName == d
  {
    i :| Member(rows, i, routers, lrp) && rows[i].chassisName == d;
  }

  /** The committed boost of the code is the boost step of the group, whichever other groups it writes as well. */
  lemma BoostRefines(rows: seq<GatewayChassis>, routers: seq<LocalRouter>, binding: Option<map<string, string>>,
                     lrp: string, c: string)
    requires lrp != "" && OneRowPerChassis(rows, routers, lrp)
    requires forall i :: 0 <= i < |rows| ==> rows[i].priority >= 0
    ensures OneRowPerChassis(Boosted(rows, routers, binding, c), routers, lrp)
    ensures Priorities(Boosted(rows, routers, binding, c), routers, lrp)
         == BoostedGroup(Priorities(rows, routers, lrp), c, BoundElsewhere(binding, CRPort(routers, lrp), c))
  {
    var after := Boosted(rows, routers, binding, c);
    SameMembers(rows, after, routers, lrp);
    hide Priorities, OneRowPerChassis, LRPName, BoostedPriority, CRPort, MaxPeer, Member;
    var prio := Priorities(rows, routers, lrp);
    var want := BoostedGroup(prio, c, BoundElsewhere(binding, CRPort(routers, lrp), c));
    assert want.Keys == prio.Keys;
    forall d | d in prio
      ensures Priorities(after, routers, lrp)[d] == want[d]
    {
      var i := RowOf(rows, routers, lrp, d);
      BoostRefinesRow(rows, routers, binding, lrp, c, i);
    }
  }

  /** The committed drain of the code is the drain step of every group whose local row has a standby. */
  lemma DrainRefines(rows: seq<GatewayChassis>, routers: seq<LocalRouter>, sole: set<string>, lrp: string, s: State, c: string)
    requires OneRowPerChassis(rows, routers, lrp) && s.prio == Priorities(rows, routers, lrp)
    requires forall i :: Member(rows, i, routers, lrp) ==> rows[i].uuid !in sole
    ensures OneRowPerChassis(Drained(rows, c, sole), routers, lrp)
    ensures Priorities(Drained(rows, c, sole), routers, lrp) == Written(s, Drain(c))
  {
    SameMembers(rows, Drained(rows, c, sole), routers, lrp);
    hide Priorities, OneRowPerChassis, LRPName;
    forall d | d in s.prio
      ensures Priorities(Drained(rows, c, sole), routers, lrp)[d] == Written(s, Drain(c))[d]
    {
      var i := RowOf(rows, routers, lrp, d);
    }
  }

  /** The committed restore of the code is the restore step of every group. */
  lemma RestoreRefines(rows: seq<GatewayChassis>, routers: seq<LocalRouter>, lrp: string, s: State, c: string)
    requires OneRowPerChassis(rows, routers, lrp) && s.prio == Priorities(rows, routers, lrp)
    ensures OneRowPerChassis(Restored(rows, c), routers, lrp)
    ensures Priorities(Restored(rows, c), routers, lrp) == Written(s, Restore(c))
  {
    SameMembers(rows, Restored(rows, c), routers, lrp);
    hide Priorities, OneRowPerChassis, LRPName;
    forall d | d in s.prio
      ensures Priorities(Restored(rows, c), routers, lrp)[d] == Written(s, Restore(c))[d]
    {
      var i := RowOf(rows, routers, lrp, d);
    }
  }
}
