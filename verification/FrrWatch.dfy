/**
 The decision logic of the FRR watch: which polls of the daemons' process IDs mean a restart.
 The state machine is proved against predicates over the whole history of polls.
 */
module FrrWatch {
  import opened Common
  import opened Text

  /** The name of every daemon that answered a poll, with its process ID. */
  type Incarnation = map<string, int>

  /** What parseFRRModules returns: at least one daemon, positive process IDs. */
  ghost predicate WellFormed(inc: Incarnation) {
    inc != map[] && forall name :: name in inc ==> inc[name] > 0
  }

  /** One poll: its answer, None when it failed, and when it was taken. */
  datatype Poll = Poll(answer: Option<Incarnation>, now: int)

  /** The poll before the startup reconcile. */
  datatype Prime = NotPrimed | PrimeFailed | Primed(inc: Incarnation)

  datatype FrrStep = FrrStep(restart: seq<string>, followUp: bool, warn: bool, back: bool)

  // ---------------------------------------------------------------------------
  // The parser
  // ---------------------------------------------------------------------------

  const HEADER := "Module information for "
  const PID := "pid:"

  /** The daemon a header line names; "" for a header without its colon. */
  function HeaderOf(line: string): Option<string> {
    var l := TrimSpace(line);
    if !HasPrefix(l, HEADER) then None
    else
      var rest := l[|HEADER|..];
      if HasSuffix(rest, ":") then Some(rest[..|rest| - 1]) else Some("")
  }

  function PidLine(line: string): Option<string> {
    var l := TrimSpace(line);
    if HeaderOf(line).None? && HasPrefix(l, PID) then Some(l[|PID|..]) else None
  }

  predicate Silent(line: string) {
    HeaderOf(line).None? && PidLine(line).None?
  }

  /** The header at line i names the daemon, and the first header or pid line after it is a pid line at j with a positive number. */
  ghost predicate Gives(lines: seq<string>, i: nat, j: nat, name: string, pid: int) {
    && i < j < |lines| && name != "" && HeaderOf(lines[i]) == Some(name)
    && PidLine(lines[j]).Some? && Atoi(TrimSpace(PidLine(lines[j]).value)) == Some(pid) && pid > 0
    && forall k :: i < k < j ==> Silent(lines[k])
  }

  /** Some section among the first n lines shows it. */
  ghost predicate Shown(lines: seq<string>, n: nat, name: string, pid: int) {
    exists i: nat, j: nat :: j < n && Gives(lines, i, j, name, pid)
  }

  /** The section of `daemon` is open after the first n lines. */
  ghost predicate Open(lines: seq<string>, n: nat, daemon: string) {
    exists i: nat :: i < n <= |lines| && HeaderOf(lines[i]) == Some(daemon) && forall k :: i < k < n ==> Silent(lines[k])
  }

  lemma ShownNext(lines: seq<string>, n: nat, name: string, pid: int)
    requires n < |lines|
    ensures Shown(lines, n + 1, name, pid) <==>
      || Shown(lines, n, name, pid)
      || (name != "" && Open(lines, n, name) && PidLine(lines[n]).Some?
          && Atoi(TrimSpace(PidLine(lines[n]).value)) == Some(pid) && pid > 0)
  {
    hide HeaderOf, PidLine, Silent, Atoi;
    if Shown(lines, n + 1, name, pid) {
      var i: nat, j: nat :| j < n + 1 && Gives(lines, i, j, name, pid);
      assert j < n ==> Shown(lines, n, name, pid);
    }
    if name != "" && Open(lines, n, name) && PidLine(lines[n]).Some? && Atoi(TrimSpace(PidLine(lines[n]).value)) == Some(pid) && pid > 0 {
      var i: nat :| i < n && HeaderOf(lines[i]) == Some(name) && forall k :: i < k < n ==> Silent(lines[k]);
      assert Gives(lines, i, n, name, pid);
    }
  }

  lemma OpenNext(lines: seq<string>, n: nat, d: string)
    requires n < |lines|
    ensures Open(lines, n + 1, d) <==> HeaderOf(lines[n]) == Some(d) || (Open(lines, n, d) && Silent(lines[n]))
  {
    hide HeaderOf, PidLine;
    if Open(lines, n, d) && Silent(lines[n]) {
      var i: nat :| i < n && HeaderOf(lines[i]) == Some(d) && forall k :: i < k < n ==> Silent(lines[k]);
      assert forall k :: i < k < n + 1 ==> Silent(lines[k]);
    }
  }

  /** `daemon` is the daemon whose section is open, "" for none. */
  ghost predicate Current(lines: seq<string>, n: nat, daemon: string) {
    forall d: string :: d != "" ==> (Open(lines, n, d) <==> d == daemon)
  }

  lemma CurrentNext(lines: seq<string>, n: nat, daemon: string, next: string)
    requires n < |lines| && Current(lines, n, daemon)
    requires next == if HeaderOf(lines[n]).Some? then HeaderOf(lines[n]).value else if PidLine(lines[n]).Some? then "" else daemon
    ensures Current(lines, n + 1, next)
  {
    var m := n + 1;
    forall d: string | d != "" ensures Open(lines, m, d) <==> d == next {
      OpenNext(lines, n, d);
    }
  }

  ghost predicate Collected(lines: seq<string>, n: nat, found: Incarnation) {
    && (forall name :: name in found ==> found[name] > 0 && Shown(lines, n, name, found[name]))
    && (forall name, pid :: Shown(lines, n, name, pid) ==> name in found)
  }

  lemma CollectedNext(lines: seq<string>, n: nat, daemon: string, found: Incarnation, next: Incarnation)
    requires n < |lines| && Current(lines, n, daemon) && Collected(lines, n, found)
    requires var pid := if PidLine(lines[n]).Some? && daemon != "" then Atoi(TrimSpace(PidLine(lines[n]).value)) else None;
      next == if pid.Some? && pid.value > 0 then found[daemon := pid.value] else found
    ensures Collected(lines, n + 1, next)
  {
    hide HeaderOf, PidLine, Silent, Atoi, Open, Shown;
    forall name | name in next ensures next[name] > 0 && Shown(lines, n + 1, name, next[name]) {
      ShownNext(lines, n, name, next[name]);
    }
    var m := n + 1;
    forall name, pid | Shown(lines, m, name, pid) ensures name in next {
      ShownNext(lines, n, name, pid);
    }
  }

  lemma NothingRead(lines: seq<string>)
    ensures Current(lines, 0, "") && Collected(lines, 0, map[])
  {
  }

  lemma HeaderIsNoPidLine(line: string)
    requires HeaderOf(line).Some?
    ensures PidLine(line).None?
  {
  }

  /** Exactly the daemons with a section that shows a positive number, each with one that is shown. */
  ghost predicate Parsed(lines: seq<string>, inc: Option<Incarnation>) {
    && (inc.Some? ==> forall name :: name in inc.value ==> Shown(lines, |lines|, name, inc.value[name]))
    && forall name, pid :: Shown(lines, |lines|, name, pid) ==> inc.Some? && name in inc.value
  }

  lemma CollectedIsParsed(lines: seq<string>, found: Incarnation)
    requires Collected(lines, |lines|, found)
    ensures var inc := if found == map[] then None else Some(found);
            (inc.Some? ==> WellFormed(inc.value)) && Parsed(lines, inc)
  {
    hide Shown;
  }

  /** The positive process ID of every daemon section; an answer without one is an error. */
  method ParseFRRModules(text: string) returns (inc: Option<Incarnation>)
    ensures inc.Some? ==> WellFormed(inc.value)
    ensures Parsed(Split(text, '\n'), inc)
  {
    hide Current, Collected, HeaderOf, PidLine, Atoi, TrimSpace, Split, Parsed, WellFormed;
    var lines := Split(text, '\n');
    var found: Incarnation := map[];
    var daemon := "";
    NothingRead(lines);
    for n := 0 to |lines|
      invariant Current(lines, n, daemon) && Collected(lines, n, found)
    {
      var line := lines[n];
      ghost var before, daemonBefore := found, daemon;
      if HeaderOf(line).Some? {
        HeaderIsNoPidLine(line);
        daemon := HeaderOf(line).value;
      } else if PidLine(line).Some? {
        if daemon != "" {
          var pid := Atoi(TrimSpace(PidLine(line).value));
          if pid.Some? && pid.value > 0 {
            found := found[daemon := pid.value];
          }
        }
        daemon := "";
      }
      CurrentNext(lines, n, daemonBefore, daemon);
      CollectedNext(lines, n, daemonBefore, before, found);
    }
    inc := if found == map[] then None else Some(found);
    CollectedIsParsed(lines, found);
  }

  // ---------------------------------------------------------------------------
  // Changed daemons
  // ---------------------------------------------------------------------------

  /** The daemon's process ID changed, or it appeared or disappeared. */
  ghost predicate Changed(old_: Incarnation, cur: Incarnation, name: string) {
    (name in old_ || name in cur) && !(name in old_ && name in cur && old_[name] == cur[name])
  }

  /** The daemons of `cur` whose process ID is another than a map read of `old_` gives. */
  method Appeared(old_: Incarnation, cur: Incarnation) returns (names: seq<string>)
    ensures Distinct(names) && forall name :: name in names <==> name in cur && PidOr0(old_, name) != cur[name]
  {
    names := [];
    var todo := cur.Keys;
    while todo != {}
      invariant todo <= cur.Keys && Distinct(names)
      invariant forall name :: name in names <==> name in cur.Keys - todo && PidOr0(old_, name) != cur[name]
      decreases |todo|
    {
      var name :| name in todo;
      todo := todo - {name};
      if PidOr0(old_, name) != cur[name] {
        assert name !in names;
        names := names + [name];
      }
    }
  }

  method Disappeared(old_: Incarnation, cur: Incarnation, before: seq<string>) returns (names: seq<string>)
    requires Distinct(before) && forall name :: name in before ==> name in cur
    ensures Distinct(names) && forall name :: name in names <==> name in before || (name in old_ && name !in cur)
  {
    names := before;
    var todo := old_.Keys;
    while todo != {}
      invariant todo <= old_.Keys && Distinct(names)
      invariant forall name :: name in names <==> name in before || (name in old_.Keys - todo && name !in cur)
      decreases |todo|
    {
      var name :| name in todo;
      todo := todo - {name};
      if name !in cur {
        assert name !in names;
        names := names + [name];
      }
    }
  }

  lemma NoneChanged(old_: Incarnation, cur: Incarnation)
    ensures (forall name :: !Changed(old_, cur, name)) <==> old_ == cur
  {
    if forall name :: !Changed(old_, cur, name) {
      forall name ensures name in old_ <==> name in cur { assert !Changed(old_, cur, name); }
      assert forall name :: name in old_ ==> !Changed(old_, cur, name);
    }
  }

  /** Exactly the changed daemons, but for one that appears with process ID 0; with positive ones the list is empty only for equal incarnations. */
  method ChangedDaemons(old_: Incarnation, cur: Incarnation) returns (names: seq<string>)
    ensures Sorted(names) && Distinct(names)
    ensures forall name :: name in names <==> Changed(old_, cur, name) && !(name !in old_ && name in cur && cur[name] == 0)
    ensures (forall name :: name in cur ==> cur[name] > 0) ==> (names == [] <==> old_ == cur)
  {
    names := Appeared(old_, cur);
    names := Disappeared(old_, cur, names);
    SortDistinct(names);
    names := SortStrings(names);
    hide Sorted, Distinct, SortStrings;
    EmptyIff(names);
    assert forall name :: name in names <==> Changed(old_, cur, name) && !(name !in old_ && name in cur && cur[name] == 0);
    hide Changed;
    NoneChanged(old_, cur);
  }

  /** A map read of a missing key. */
  function PidOr0(inc: Incarnation, name: string): int {
    if name in inc then inc[name] else 0
  }

  // ---------------------------------------------------------------------------
  // The history
  // ---------------------------------------------------------------------------

  /** The timing and the poll before the history. */
  datatype Setup = Setup(prime: Prime, followUpDelay: int, outageWarnAfter: int)

  /** Poll i is settled: it answered, and as the poll before it. */
  predicate Settled(h: seq<Poll>, i: int) {
    0 < i < |h| && h[i].answer.Some? && h[i - 1].answer == h[i].answer
  }

  predicate Failed(h: seq<Poll>, i: int) {
    0 <= i < |h| && h[i].answer.None?
  }

  // What follows is about the first n polls; poll n - 1 is the one just taken.

  /** The incarnation the last trigger stood for: the last settled answer, or the primed one. */
  function Known(h: seq<Poll>, s: Setup, n: nat): Option<Incarnation>
    requires n <= |h|
  {
    if n == 0 then if s.prime.Primed? then Some(s.prime.inc) else None
    else if Settled(h, n - 1) then h[n - 1].answer
    else Known(h, s, n - 1)
  }

  /** A poll failed while no incarnation was known. */
  predicate SawFailure(h: seq<Poll>, s: Setup, n: nat)
    requires n <= |h|
  {
    if n == 0 then s.prime.PrimeFailed?
    else SawFailure(h, s, n - 1) || (Failed(h, n - 1) && Known(h, s, n - 1).None?)
  }

  /** The poll just taken reports a restart. */
  predicate Restarts(h: seq<Poll>, s: Setup, n: nat)
    requires n <= |h|
  {
    && n > 0 && Settled(h, n - 1)
    && var known := Known(h, s, n - 1);
       if known.None? then SawFailure(h, s, n - 1) else h[n - 1].answer != known
  }

  /** The start of the run of failed polls that ends in the poll just taken. */
  function FailingSince(h: seq<Poll>, n: nat): Option<int>
    requires n <= |h|
  {
    if n == 0 || !Failed(h, n - 1) then None
    else if FailingSince(h, n - 1).Some? then FailingSince(h, n - 1)
    else Some(h[n - 1].now)
  }

  predicate Warned(h: seq<Poll>, s: Setup, n: nat)
    requires n <= |h|
  {
    && n > 0 && Failed(h, n - 1)
    && (Warned(h, s, n - 1) || h[n - 1].now - FailingSince(h, n).value >= s.outageWarnAfter)
  }

  predicate Warns(h: seq<Poll>, s: Setup, n: nat)
    requires n <= |h|
  {
    n > 0 && !Warned(h, s, n - 1) && Warned(h, s, n)
  }

  predicate Backs(h: seq<Poll>, s: Setup, n: nat)
    requires n <= |h|
  {
    n > 0 && Warned(h, s, n - 1) && !Warned(h, s, n)
  }

  /** When the follow-up would be due, with the restart of the poll just taken counted in. */
  function DueAt(h: seq<Poll>, s: Setup, n: nat): Option<int>
    requires n <= |h|
  {
    if n == 0 then None
    else if Restarts(h, s, n) then Some(h[n - 1].now + s.followUpDelay)
    else if DueAt(h, s, n - 1).Some? && n > 1 && h[n - 2].now >= DueAt(h, s, n - 1).value then None
    else DueAt(h, s, n - 1)
  }

  predicate FollowsUp(h: seq<Poll>, s: Setup, n: nat)
    requires n <= |h|
  {
    n > 0 && DueAt(h, s, n).Some? && h[n - 1].now >= DueAt(h, s, n).value
  }

  function Pending(h: seq<Poll>, s: Setup, n: nat): Option<int>
    requires n <= |h|
  {
    if FollowsUp(h, s, n) then None else DueAt(h, s, n)
  }

  /** What is said about the first n polls does not depend on later ones. */
  lemma {:induction false} Extends(h: seq<Poll>, p: Poll, s: Setup, n: nat)
    requires n <= |h|
    ensures Known(h + [p], s, n) == Known(h, s, n) && SawFailure(h + [p], s, n) == SawFailure(h, s, n)
    ensures FailingSince(h + [p], n) == FailingSince(h, n) && Warned(h + [p], s, n) == Warned(h, s, n)
    ensures DueAt(h + [p], s, n) == DueAt(h, s, n) && FollowsUp(h + [p], s, n) == FollowsUp(h, s, n)
  {
    if n > 0 {
      Extends(h, p, s, n - 1);
      assert Settled(h + [p], n - 1) == Settled(h, n - 1) && Failed(h + [p], n - 1) == Failed(h, n - 1);
    }
  }

  /** The poll after the history settles: it repeats the answer of the poll before it. */
  predicate Settles(h: seq<Poll>, p: Poll) {
    p.answer.Some? && h != [] && h[|h| - 1].answer == p.answer
  }

  lemma SettlesIsSettled(h: seq<Poll>, p: Poll)
    ensures Settled(h + [p], |h|) == Settles(h, p) && Failed(h + [p], |h|) == p.answer.None?
  {
    if h != [] { assert (h + [p])[|h| - 1] == h[|h| - 1]; }
  }

  lemma KnownNext(h: seq<Poll>, p: Poll, s: Setup)
    ensures Known(h + [p], s, |h| + 1) == if Settles(h, p) then p.answer else Known(h, s, |h|)
    ensures SawFailure(h + [p], s, |h| + 1) == (SawFailure(h, s, |h|) || (p.answer.None? && Known(h, s, |h|).None?))
    ensures Restarts(h + [p], s, |h| + 1) <==>
              Settles(h, p) && if Known(h, s, |h|).None? then SawFailure(h, s, |h|) else p.answer != Known(h, s, |h|)
  {
    Extends(h, p, s, |h|);
    SettlesIsSettled(h, p);
    hide Settled, Failed, Settles;
  }

  lemma WarnedNext(h: seq<Poll>, p: Poll, s: Setup)
    ensures FailingSince(h + [p], |h| + 1) ==
            if p.answer.Some? then None else if FailingSince(h, |h|).Some? then FailingSince(h, |h|) else Some(p.now)
    ensures Warned(h + [p], s, |h| + 1) ==
            (p.answer.None? && (Warned(h, s, |h|) || p.now - FailingSince(h + [p], |h| + 1).value >= s.outageWarnAfter))
    ensures Warns(h + [p], s, |h| + 1) <==> !Warned(h, s, |h|) && Warned(h + [p], s, |h| + 1)
    ensures Backs(h + [p], s, |h| + 1) <==> Warned(h, s, |h|) && !Warned(h + [p], s, |h| + 1)
  {
    Extends(h, p, s, |h|);
    SettlesIsSettled(h, p);
    hide Settled, Failed, Settles;
  }

  lemma DueNext(h: seq<Poll>, p: Poll, s: Setup)
    ensures DueAt(h + [p], s, |h| + 1) ==
            if Restarts(h + [p], s, |h| + 1) then Some(p.now + s.followUpDelay) else Pending(h, s, |h|)
    ensures FollowsUp(h + [p], s, |h| + 1) <==>
              DueAt(h + [p], s, |h| + 1).Some? && p.now >= DueAt(h + [p], s, |h| + 1).value
    ensures Pending(h + [p], s, |h| + 1) == if FollowsUp(h + [p], s, |h| + 1) then None else DueAt(h + [p], s, |h| + 1)
  {
    var h', n := h + [p], |h|;
    Extends(h, p, s, n);
    hide Restarts;
    assert n > 0 ==> h'[n - 1] == h[n - 1];
    assert FollowsUp(h', s, n) == FollowsUp(h, s, n);
    assert Pending(h', s, n) == Pending(h, s, n);
    assert DueAt(h', s, n + 1) == if Restarts(h', s, n + 1) then Some(p.now + s.followUpDelay) else Pending(h', s, n);
  }

  class FrrWatchState {
    var known: Option<Incarnation>
    var prev: Option<Incarnation>
    var sawFailure: bool
    var failingSince: Option<int>
    var warned: bool
    var followUpAt: Option<int>
    const followUpDelay: int
    const outageWarnAfter: int

    /** The fields are what the history says they are. */
    ghost predicate After(h: seq<Poll>, s: Setup)
      reads this
    {
      && followUpDelay == s.followUpDelay && outageWarnAfter == s.outageWarnAfter
      && known == Known(h, s, |h|) && sawFailure == SawFailure(h, s, |h|)
      && prev == (if h == [] then None else h[|h| - 1].answer)
      && failingSince == FailingSince(h, |h|) && warned == Warned(h, s, |h|) && followUpAt == Pending(h, s, |h|)
    }

    constructor (followUpDelay: int, outageWarnAfter: int)
      ensures After([], Setup(NotPrimed, followUpDelay, outageWarnAfter))
    {
      this.followUpDelay, this.outageWarnAfter := followUpDelay, outageWarnAfter;
      known, prev, sawFailure, failingSince, warned, followUpAt := None, None, false, None, false, None;
    }

    method PrimeWith(answer: Option<Incarnation>)
      requires After([], Setup(NotPrimed, followUpDelay, outageWarnAfter))
      modifies this
      ensures After([], Setup(if answer.None? then PrimeFailed else Primed(answer.value), followUpDelay, outageWarnAfter))
    {
      if answer.None? {
        sawFailure := true;
        return;
      }
      known := answer;
    }

    /** A failed poll: it starts an outage or prolongs it, and warns once when the outage is long enough. */
    method Miss(now: int) returns (warn: bool)
      modifies `prev, `sawFailure, `failingSince, `warned
      ensures prev == None && sawFailure == (old(sawFailure) || known.None?)
      ensures failingSince == if old(failingSince).Some? then old(failingSince) else Some(now)
      ensures warned == (old(warned) || now - failingSince.value >= outageWarnAfter) && warn == (!old(warned) && warned)
    {
      warn := false;
      prev := None;
      if known.None? {
        sawFailure := true;
      }
      if failingSince.None? {
        failingSince := Some(now);
      }
      if !warned && now - failingSince.value >= outageWarnAfter {
        warned := true;
        warn := true;
      }
    }

    /** An answer: only one that repeats the answer before it counts, and it is compared with what is known. */
    method Observe(answer: Incarnation) returns (restart: seq<string>)
      requires WellFormed(answer)
      modifies `prev, `known
      ensures prev == Some(answer) && known == if old(prev) == Some(answer) then Some(answer) else old(known)
      ensures restart != [] <==>
                old(prev) == Some(answer) && if old(known).None? then old(sawFailure) else Some(answer) != old(known)
      ensures restart != [] ==> forall name :: name in restart <==>
                Changed(if old(known).Some? then old(known).value else map[], answer, name)
    {
      hide Changed;
      restart := [];
      var settled := prev == Some(answer);
      prev := Some(answer);
      if !settled {
      } else if known.None? {
        if sawFailure {
          restart := ChangedDaemons(map[], answer);
        }
        known := Some(answer);
      } else if Some(answer) != known {
        restart := ChangedDaemons(known.value, answer);
        known := Some(answer);
      }
    }

    /** The decision on one poll is what the history with that poll says. */
    method Step(answer: Option<Incarnation>, now: int, ghost h: seq<Poll>, ghost s: Setup) returns (st: FrrStep)
      requires After(h, s) && (answer.Some? ==> WellFormed(answer.value))
      modifies this
      ensures After(h + [Poll(answer, now)], s)
      ensures st.restart != [] <==> Restarts(h + [Poll(answer, now)], s, |h| + 1)
      ensures st.restart != [] ==> forall name :: name in st.restart <==>
                Changed(if old(known).Some? then old(known).value else map[], answer.value, name)
      ensures st.warn == Warns(h + [Poll(answer, now)], s, |h| + 1) && st.back == Backs(h + [Poll(answer, now)], s, |h| + 1)
      ensures st.followUp == FollowsUp(h + [Poll(answer, now)], s, |h| + 1)
    {
      ghost var p := Poll(answer, now);
      KnownNext(h, p, s);
      WarnedNext(h, p, s);
      DueNext(h, p, s);
      assert Settles(h, p) <==> answer.Some? && prev == answer;
      assert (h + [p])[|h|] == p;
      hide Known, SawFailure, Restarts, FailingSince, Warned, Warns, Backs, DueAt, FollowsUp, Pending, Changed, WellFormed, Settles;
      st := FrrStep([], false, false, false);
      if answer.None? {
        var warn := Miss(now);
        st := st.(warn := warn);
      } else {
        st := st.(back := warned);
        warned := false;
        failingSince := None;
        var restart := Observe(answer.value);
        st := st.(restart := restart);
        if st.restart != [] {
          followUpAt := Some(now + followUpDelay);
        }
      }
      if followUpAt.Some? && now >= followUpAt.value {
        st := st.(followUp := true);
        followUpAt := None;
      }
    }
  }

  // ---------------------------------------------------------------------------
  // What the history functions mean
  // ---------------------------------------------------------------------------

  /** i is the last settled one of the first n polls. */
  ghost predicate LastSettled(h: seq<Poll>, n: nat, i: int) {
    i < n && Settled(h, i) && forall j :: i < j < n ==> !Settled(h, j)
  }

  ghost predicate NoneSettled(h: seq<Poll>, n: nat) {
    forall j :: 0 <= j < n ==> !Settled(h, j)
  }

  lemma {:induction false} KnownMeans(h: seq<Poll>, s: Setup, n: nat)
    requires n <= |h|
    ensures if NoneSettled(h, n) then Known(h, s, n) == (if s.prime.Primed? then Some(s.prime.inc) else None)
            else exists i :: LastSettled(h, n, i) && Known(h, s, n) == h[i].answer
  {
    if n > 0 {
      var m := n - 1;
      KnownMeans(h, s, m);
      if Settled(h, m) {
        assert LastSettled(h, n, m);
      } else if !NoneSettled(h, m) {
        var i :| LastSettled(h, m, i) && Known(h, s, m) == h[i].answer;
        assert LastSettled(h, n, i);
      }
    }
  }

  /** A failure was seen before the first settled answer, the poll before the startup reconcile included. */
  ghost predicate FailedBefore(h: seq<Poll>, s: Setup, n: nat) {
    s.prime.PrimeFailed? || (!s.prime.Primed? && exists i :: i < n && Failed(h, i) && NoneSettled(h, i))
  }

  lemma {:induction false} SawFailureMeans(h: seq<Poll>, s: Setup, n: nat)
    requires n <= |h|
    ensures SawFailure(h, s, n) == FailedBefore(h, s, n)
  {
    if n > 0 {
      SawFailureMeans(h, s, n - 1);
      KnownMeans(h, s, n - 1);
      assert Known(h, s, n - 1).None? <==> !s.prime.Primed? && NoneSettled(h, n - 1);
    }
  }

  /**
   Restart detection: a poll reports a restart exactly when it settles (two consecutive equal
   answers) on an incarnation other than the last settled one, or, as the first settled one,
   other than the primed one, or after a failure when none was primed.
   */
  lemma RestartIff(h: seq<Poll>, s: Setup, n: nat)
    requires 0 < n <= |h|
    ensures Restarts(h, s, n) <==>
      && Settled(h, n - 1)
      && ((exists i :: LastSettled(h, n - 1, i) && h[i].answer != h[n - 1].answer)
          || (NoneSettled(h, n - 1)
              && (if s.prime.Primed? then Some(s.prime.inc) != h[n - 1].answer else FailedBefore(h, s, n - 1))))
  {
    KnownMeans(h, s, n - 1);
    SawFailureMeans(h, s, n - 1);
  }

  /** Poll i starts the run of failed polls that ends in poll n - 1. */
  ghost predicate RunStart(h: seq<Poll>, n: nat, i: nat) {
    i < n <= |h| && (forall k :: i <= k < n ==> Failed(h, k)) && !Failed(h, i - 1)
  }

  lemma {:induction false} FailingSinceMeans(h: seq<Poll>, n: nat, i: nat)
    requires RunStart(h, n, i)
    ensures FailingSince(h, n) == Some(h[i].now)
  {
    assert Failed(h, n - 1);
    if i < n - 1 {
      FailingSinceMeans(h, n - 1, i);
    }
  }

  /** Some poll of the run is late enough for the warning. */
  ghost predicate Overdue(h: seq<Poll>, s: Setup, n: nat, i: nat)
    requires i < n <= |h|
  {
    exists k :: i <= k < n && h[k].now - h[i].now >= s.outageWarnAfter
  }

  lemma {:induction false} WarnedMeans(h: seq<Poll>, s: Setup, n: nat, i: nat)
    requires RunStart(h, n, i)
    ensures Warned(h, s, n) == Overdue(h, s, n, i)
  {
    FailingSinceMeans(h, n, i);
    assert Failed(h, n - 1);
    if i < n - 1 {
      WarnedMeans(h, s, n - 1, i);
    }
  }

  /** The warning comes once per run of failures, at its first poll that is late enough. */
  lemma WarnIff(h: seq<Poll>, s: Setup, n: nat, i: nat)
    requires RunStart(h, n, i)
    ensures Warns(h, s, n) <==>
      h[n - 1].now - h[i].now >= s.outageWarnAfter && forall k :: i <= k < n - 1 ==> h[k].now - h[i].now < s.outageWarnAfter
  {
    WarnedMeans(h, s, n, i);
    if i < n - 1 {
      WarnedMeans(h, s, n - 1, i);
    }
  }

  /** Where the warned state differs between two moments, a poll in between reported the change. */
  lemma {:induction false} WarnedChanges(h: seq<Poll>, s: Setup, a: nat, b: nat) returns (j: nat)
    requires a <= b <= |h| && Warned(h, s, a) != Warned(h, s, b)
    ensures a < j <= b
    ensures if Warned(h, s, a) then Backs(h, s, j) else Warns(h, s, j)
  {
    if Warned(h, s, b - 1) == Warned(h, s, a) {
      j := b;
    } else {
      j := WarnedChanges(h, s, a, b - 1);
    }
  }

  /** Warnings and recoveries strictly alternate, and a warning comes first. */
  lemma WarnAndBackAlternate(h: seq<Poll>, s: Setup, a: nat, b: nat) returns (j: nat)
    requires a < b <= |h|
    ensures Warns(h, s, a) && Warns(h, s, b) ==> a < j < b && Backs(h, s, j)
    ensures Backs(h, s, a) && Backs(h, s, b) ==> a < j < b && Warns(h, s, j)
    ensures a == 0 && Backs(h, s, b) ==> 0 < j < b && Warns(h, s, j)
  {
    j := 0;
    if (Warns(h, s, a) && Warns(h, s, b)) || ((Backs(h, s, a) || a == 0) && Backs(h, s, b)) {
      j := WarnedChanges(h, s, a, b - 1);
    }
  }

  /** Poll i - 1 is the latest restart among the first n polls, and no poll before the n-th followed it up. */
  ghost predicate Unanswered(h: seq<Poll>, s: Setup, i: nat, n: nat) {
    && 0 < i <= n <= |h| && Restarts(h, s, i)
    && (forall k :: i < k <= n ==> !Restarts(h, s, k))
    && (forall k :: i <= k < n ==> !FollowsUp(h, s, k))
  }

  lemma {:induction false} DueMeans(h: seq<Poll>, s: Setup, n: nat)
    requires 0 < n <= |h|
    ensures forall i :: Unanswered(h, s, i, n) ==> DueAt(h, s, n) == Some(h[i - 1].now + s.followUpDelay)
    ensures DueAt(h, s, n).Some? ==> exists i :: Unanswered(h, s, i, n)
  {
    if Restarts(h, s, n) {
      assert Unanswered(h, s, n, n);
    } else if n > 1 {
      DueMeans(h, s, n - 1);
      hide Restarts;
      forall i | Unanswered(h, s, i, n) ensures DueAt(h, s, n) == Some(h[i - 1].now + s.followUpDelay) {
        assert Unanswered(h, s, i, n - 1);
        assert !FollowsUp(h, s, n - 1);
      }
      if DueAt(h, s, n).Some? {
        assert DueAt(h, s, n - 1).Some? && !FollowsUp(h, s, n - 1);
        var i: nat :| Unanswered(h, s, i, n - 1);
        assert Unanswered(h, s, i, n);
      }
    } else {
      assert DueAt(h, s, 0) == None;
    }
  }

  /** A follow-up answers the latest restart, at least the delay after it, and no restart is answered twice. */
  lemma FollowUpIff(h: seq<Poll>, s: Setup, n: nat)
    requires 0 < n <= |h|
    ensures FollowsUp(h, s, n) <==> exists i :: Unanswered(h, s, i, n) && h[n - 1].now >= h[i - 1].now + s.followUpDelay
  {
    DueMeans(h, s, n);
  }
}
