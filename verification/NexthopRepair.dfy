/**
 The streak of reconcile cycles that had to re-add routes, and the repair of the veth next hop it
 leads to: what the agent remembers from cycle to cycle, against the history of the cycles.
 */
module NexthopRepair {
  import opened Common

  /** Cycles in a row that re-added routes before the next hop is checked. */
  const THRESHOLD := 3

  /** The least time between two repairs, in seconds. */
  const COOLDOWN := 60

  /** How the check after a route sync ended; `resolvable` is None when the next hop could not be checked. */
  datatype Check =
    | NothingChanged
    | ListingFailed
    | Verified(reAdds: nat, resolvable: Option<bool>, now: int)

  datatype Memory = Memory(streak: nat, lastRepair: Option<int>)

  predicate ReAdds(c: Check) {
    c.Verified? && c.reAdds > 0
  }

  /** A cycle that changed no FRR static or found nothing missing ends the streak; a failed listing says nothing. */
  predicate Ends(c: Check) {
    c.NothingChanged? || (c.Verified? && c.reAdds == 0)
  }

  function Streak(streak: nat, c: Check): nat {
    if Ends(c) then 0 else if ReAdds(c) then streak + 1 else streak
  }

  /** The check repairs: the streak is long enough, the next hop is known not to resolve and the last repair is long past. */
  predicate Repairs(m: Memory, c: Check, leak: bool) {
    && leak && ReAdds(c) && m.streak + 1 >= THRESHOLD && c.resolvable == Some(false)
    && (m.lastRepair.Some? ==> c.now - m.lastRepair.value >= COOLDOWN)
  }

  function Next(m: Memory, c: Check, leak: bool): Memory {
    Memory(Streak(m.streak, c), if Repairs(m, c, leak) then Some(c.now) else m.lastRepair)
  }

  // ---------------------------------------------------------------------------
  // What the memory says of the history
  // ---------------------------------------------------------------------------

  function After(h: seq<Check>, leak: bool): Memory {
    if h == [] then Memory(0, None) else Next(After(h[..|h| - 1], leak), h[|h| - 1], leak)
  }

  lemma AfterSnoc(h: seq<Check>, c: Check, leak: bool)
    ensures After(h + [c], leak) == Next(After(h, leak), c, leak)
  {
    assert (h + [c])[..|h|] == h;
  }

  /** The n-th check of the history repairs. */
  predicate RepairsAt(h: seq<Check>, n: int, leak: bool) {
    0 <= n < |h| && Repairs(After(h[..n], leak), h[n], leak)
  }

  /** Since `from` no check ended a streak, and these ones, in order, re-added something. */
  ghost predicate ReAddedAt(h: seq<Check>, from: nat, at: seq<nat>) {
    && from <= |h| && (forall i :: from <= i < |h| ==> !Ends(h[i]))
    && (forall i :: 0 <= i < |at| ==> from <= at[i] < |h| && ReAdds(h[at[i]]))
    && forall i, j :: 0 <= i < j < |at| ==> at[i] < at[j]
  }

  lemma {:induction false} StreakReached(h: seq<Check>, leak: bool) returns (from: nat, at: seq<nat>)
    ensures ReAddedAt(h, from, at) && |at| == After(h, leak).streak
  {
    from, at := 0, [];
    if h != [] {
      var n := |h| - 1;
      var before, c := h[..n], h[n];
      from, at := StreakReached(before, leak);
      if Ends(c) {
        from, at := |h|, [];
      } else if ReAdds(c) {
        at := at + [n];
      }
    }
  }

  lemma {:induction false} StreakBounds(h: seq<Check>, leak: bool, from: nat, at: seq<nat>)
    requires ReAddedAt(h, from, at)
    ensures |at| <= After(h, leak).streak
  {
    if from < |h| {
      var n := |h| - 1;
      if at != [] && at[|at| - 1] == n {
        StreakBounds(h[..n], leak, from, at[..|at| - 1]);
      } else {
        assert forall i :: 0 <= i < |at| ==> at[i] <= at[|at| - 1] < n;
        StreakBounds(h[..n], leak, from, at);
      }
    }
  }

  /** The streak is at least k exactly when k checks re-added routes and none since the first of them ended the streak. */
  lemma StreakIff(h: seq<Check>, leak: bool, k: nat)
    ensures After(h, leak).streak >= k <==> exists from: nat, at: seq<nat> :: |at| == k && ReAddedAt(h, from, at)
  {
    hide After;
    if After(h, leak).streak >= k {
      var from, at := StreakReached(h, leak);
      assert ReAddedAt(h, from, at[..k]);
    }
    if from: nat, at: seq<nat> :| |at| == k && ReAddedAt(h, from, at) {
      StreakBounds(h, leak, from, at);
    }
  }

  /** The last repair before check n. */
  ghost predicate LastRepair(h: seq<Check>, n: nat, leak: bool, r: nat) {
    r < n <= |h| && RepairsAt(h, r, leak) && forall i :: r < i < n ==> !RepairsAt(h, i, leak)
  }

  ghost predicate NoRepair(h: seq<Check>, n: nat, leak: bool) {
    forall i :: 0 <= i < n ==> !RepairsAt(h, i, leak)
  }

  lemma {:induction false} LastRepairMeans(h: seq<Check>, n: nat, leak: bool)
    requires n <= |h|
    ensures NoRepair(h, n, leak) ==> After(h[..n], leak).lastRepair == None
    ensures !NoRepair(h, n, leak) ==> exists r: nat :: LastRepair(h, n, leak, r) && After(h[..n], leak).lastRepair == Some(h[r].now)
  {
    if n > 0 {
      var m: nat := n - 1;
      LastRepairMeans(h, m, leak);
      AfterNext(h, m, leak);
      hide After;
      if RepairsAt(h, m, leak) {
        assert LastRepair(h, n, leak, m);
      } else if !NoRepair(h, m, leak) {
        var r: nat :| LastRepair(h, m, leak, r) && After(h[..m], leak).lastRepair == Some(h[r].now);
        assert LastRepair(h, n, leak, r);
      }
    }
  }

  lemma AfterNext(h: seq<Check>, m: nat, leak: bool)
    requires m < |h|
    ensures After(h[..m + 1], leak) == Next(After(h[..m], leak), h[m], leak)
  {
    assert h[..m + 1][..m] == h[..m];
  }

  /**
   A check repairs the next hop exactly when it and two checks before it re-added routes, none in
   between ended the streak, the next hop is known not to resolve, and the last repair is a
   cooldown past.
   */
  lemma RepairIff(h: seq<Check>, n: nat, leak: bool)
    requires n < |h|
    ensures RepairsAt(h, n, leak) <==>
      && leak && ReAdds(h[n]) && h[n].resolvable == Some(false)
      && (exists from: nat, at: seq<nat> :: |at| == THRESHOLD - 1 && ReAddedAt(h[..n], from, at))
      && forall r: nat :: LastRepair(h, n, leak, r) ==> h[n].now - h[r].now >= COOLDOWN
  {
    StreakIff(h[..n], leak, THRESHOLD - 1);
    LastRepairMeans(h, n, leak);
    hide ReAddedAt, After;
    forall r: nat | LastRepair(h, n, leak, r) ensures After(h[..n], leak).lastRepair == Some(h[r].now) {
      var q: nat :| LastRepair(h, n, leak, q) && After(h[..n], leak).lastRepair == Some(h[q].now);
      assert q == r;
    }
  }

  /** Any two repairs are a cooldown apart. */
  lemma {:induction false} RepairsAreApart(h: seq<Check>, leak: bool, i: nat, j: nat)
    requires i < j && RepairsAt(h, i, leak) && RepairsAt(h, j, leak)
    ensures h[j].now - h[i].now >= COOLDOWN
  {
    LastRepairMeans(h, j, leak);
    hide After;
    var r: nat :| LastRepair(h, j, leak, r) && After(h[..j], leak).lastRepair == Some(h[r].now);
    if r != i {
      RepairsAreApart(h, leak, i, r);
    }
  }
}
