/**
 The port-forward configuration compiled to an nftables ruleset, as a list of chains of rules,
 with an interpreter that says what a chain does to a packet. The source hash and the
 containment of an address in a network are parameters of the interpreter.
 */
module NftRules {
  import opened Common
  import opened Text

  const DNAT_FWMARK := 0x100
  const DNAT_REPLY_FWMARK := 0x200
  const VETH_DEFAULT := "veth-default"

  // ---------------------------------------------------------------------------
  // Configuration
  // ---------------------------------------------------------------------------

  datatype Rule = Rule(proto: string, port: int, destAddr: string, destAddrList: seq<string>, destPort: int, masquerade: Option<bool>) {
    function DestPort(): int {
      if destPort == 0 then port else destPort
    }

    function DestAddrs(): seq<string> {
      if |destAddrList| > 0 then destAddrList else if destAddr != "" then [destAddr] else []
    }

    predicate EffectiveMasquerade(vipDefault: bool) {
      if masquerade.Some? then masquerade.value else vipDefault
    }
  }

  datatype VIP = VIP(vip: string, masquerade: bool, hairpinMasquerade: bool, routerMasquerade: bool, rules: seq<Rule>)

  /** What validation guarantees of the port forwards. */
  ghost predicate Validated(forwards: seq<VIP>) {
    && (forall i, j :: 0 <= i < j < |forwards| ==> forwards[i].vip != forwards[j].vip)
    && (forall i :: 0 <= i < |forwards| ==> ValidRules(forwards[i].rules))
  }

  ghost predicate ValidRules(rules: seq<Rule>) {
    && (forall i, j :: 0 <= i < j < |rules| ==> rules[i].proto != rules[j].proto || rules[i].port != rules[j].port)
    && (forall i :: 0 <= i < |rules| ==> rules[i].DestAddrs() != [] && 1 <= rules[i].port <= 65535 && 0 <= rules[i].destPort <= 65535)
  }

  // ---------------------------------------------------------------------------
  // Rules, packets, and what a chain does
  // ---------------------------------------------------------------------------

  datatype Direction = Original | Reply

  /** The connection tracking entry of a packet. */
  datatype Conn = Conn(dir: Direction, dnat: bool, originalDaddr: string)

  datatype Packet = Packet(saddr: string, daddr: string, proto: string, sport: int, dport: int, oif: string,
                           mark: int, zone: int, ct: Option<Conn>)

  datatype Match =
    | DAddr(ip: string)
    | SAddr(ip: string)
    | SAddrIn(ips: set<string>)
    | SAddrInNets(nets: seq<string>)
    | DPort(proto: string, port: int)
    | SPort(proto: string, port: int)
    | CTDirection(dir: Direction)
    | CTStatusDNAT
    | CTOriginalDaddr(vips: set<string>)
    | OIfName(name: string)
    | MetaMark(mark: int)

  datatype Action =
    | SetZone(zone: int)
    | SetMark(mark: int)
    | DNATTo(addr: string, port: int)
    | DNATMap(n: nat, targets: map<nat, (string, int)>)
    | Masquerade
    | Accept
    | Drop

  datatype NftRule = NftRule(matches: seq<Match>, action: Action)

  datatype Outcome = Continue | Accepted | Dropped | DNATed(addr: string, port: int) | Masqueraded

  datatype State = State(p: Packet, out: Outcome)

  /** The source hash and the network containment the kernel uses. */
  datatype Kernel = Kernel(jhash: string -> nat, inside: (string, string) -> bool)

  predicate MatchOne(m: Match, p: Packet, k: Kernel) {
    match m
    case DAddr(ip) => p.daddr == ip
    case SAddr(ip) => p.saddr == ip
    case SAddrIn(ips) => p.saddr in ips
    case SAddrInNets(nets) => exists n :: n in nets && k.inside(n, p.saddr)
    case DPort(proto, port) => p.proto == proto && p.dport == port
    case SPort(proto, port) => p.proto == proto && p.sport == port
    case CTDirection(dir) => p.ct.Some? && p.ct.value.dir == dir
    case CTStatusDNAT => p.ct.Some? && p.ct.value.dnat
    case CTOriginalDaddr(vips) => p.ct.Some? && p.ct.value.originalDaddr in vips
    case OIfName(name) => p.oif == name
    case MetaMark(mark) => p.mark == mark
  }

  predicate Matches(ms: seq<Match>, p: Packet, k: Kernel) {
    forall m :: m in ms ==> MatchOne(m, p, k)
  }

  function Act(a: Action, p: Packet, k: Kernel): State {
    match a
    case SetZone(zone) => State(p.(zone := zone), Continue)
    case SetMark(mark) => State(p.(mark := mark), Continue)
    case DNATTo(addr, port) => State(p, DNATed(addr, port))
    case DNATMap(n, targets) =>
      if n > 0 && k.jhash(p.saddr) % n in targets then
        var t := targets[k.jhash(p.saddr) % n];
        State(p, DNATed(t.0, t.1))
      else State(p, Continue)
    case Masquerade => State(p, Masqueraded)
    case Accept => State(p, Accepted)
    case Drop => State(p, Dropped)
  }

  function StepRule(r: NftRule, s: State, k: Kernel): State {
    if s.out == Continue && Matches(r.matches, s.p, k) then Act(r.action, s.p, k) else s
  }

  /** A chain's rules apply in order until one ends the traversal. */
  function Run(rules: seq<NftRule>, s: State, k: Kernel): State {
    if rules == [] then s else StepRule(rules[|rules| - 1], Run(rules[..|rules| - 1], s, k), k)
  }

  function Eval(rules: seq<NftRule>, p: Packet, k: Kernel): State {
    Run(rules, State(p, Continue), k)
  }

  lemma EvalSnoc(rules: seq<NftRule>, r: NftRule, p: Packet, k: Kernel)
    ensures Eval(rules + [r], p, k) == StepRule(r, Eval(rules, p, k), k)
  {
    assert (rules + [r])[..|rules|] == rules;
  }

  lemma TwoMatches(a: Match, b: Match, p: Packet, k: Kernel)
    ensures Matches([a, b], p, k) <==> MatchOne(a, p, k) && MatchOne(b, p, k)
  {
    assert a in [a, b] && b in [a, b];
  }

  lemma ThreeMatches(a: Match, b: Match, c: Match, p: Packet, k: Kernel)
    ensures Matches([a, b, c], p, k) <==> MatchOne(a, p, k) && MatchOne(b, p, k) && MatchOne(c, p, k)
  {
    assert a in [a, b, c] && b in [a, b, c] && c in [a, b, c];
  }

  // ---------------------------------------------------------------------------
  // Which rules of the configuration a packet concerns
  // ---------------------------------------------------------------------------

  /** A forwarding rule with its VIP. */
  datatype Forward = Forward(v: VIP, r: Rule)

  function ForwardsOf(v: VIP, n: nat): seq<Forward>
    requires n <= |v.rules|
  {
    seq(n, (i: nat) requires i < n => Forward(v, v.rules[i]))
  }

  /** All of them, in the order of the configuration. */
  function AllForwards(forwards: seq<VIP>): seq<Forward> {
    if forwards == [] then []
    else AllForwards(forwards[..|forwards| - 1]) + ForwardsOf(forwards[|forwards| - 1], |forwards[|forwards| - 1].rules|)
  }

  /** The packet is sent to the VIP's port. */
  predicate Requests(f: Forward, p: Packet) {
    p.daddr == f.v.vip && p.proto == f.r.proto && p.dport == f.r.port
  }

  /** The packet comes from a backend of the rule. */
  predicate Replies(f: Forward, p: Packet) {
    p.saddr in f.r.DestAddrs() && p.proto == f.r.proto && p.sport == f.r.DestPort()
  }

  ghost predicate SomeRequest(fs: seq<Forward>, p: Packet) {
    exists f :: f in fs && Requests(f, p)
  }

  ghost predicate SomeReply(fs: seq<Forward>, p: Packet) {
    exists f :: f in fs && Replies(f, p)
  }

  lemma {:induction false} InAllForwards(forwards: seq<VIP>, f: Forward)
    ensures f in AllForwards(forwards) <==> f.v in forwards && f.r in f.v.rules
  {
    if forwards != [] {
      var init, last := forwards[..|forwards| - 1], forwards[|forwards| - 1];
      InAllForwards(init, f);
      assert forwards == init + [last];
      assert f in ForwardsOf(last, |last.rules|) <==> f.v == last && f.r in last.rules by {
        if f.v == last && f.r in last.rules {
          var i :| 0 <= i < |last.rules| && last.rules[i] == f.r;
          assert ForwardsOf(last, |last.rules|)[i] == f;
        }
      }
    }
  }

  /** In a validated configuration a packet requests one rule at most. */
  lemma RequestsOne(forwards: seq<VIP>, f: Forward, g: Forward, p: Packet)
    requires Validated(forwards) && f in AllForwards(forwards) && g in AllForwards(forwards)
    requires Requests(f, p) && Requests(g, p)
    ensures f == g
  {
    InAllForwards(forwards, f);
    InAllForwards(forwards, g);
    var i :| 0 <= i < |forwards| && forwards[i] == f.v;
    var j :| 0 <= j < |forwards| && forwards[j] == g.v;
    assert i == j;
    var a :| 0 <= a < |f.v.rules| && f.v.rules[a] == f.r;
    var b :| 0 <= b < |f.v.rules| && f.v.rules[b] == g.r;
    assert ValidRules(forwards[i].rules);
    assert a == b;
  }

  /** The backend a request goes to, by the hash of its source. */
  function TargetOf(r: Rule, saddr: string, k: Kernel): (string, int)
    requires r.DestAddrs() != []
  {
    var addrs := r.DestAddrs();
    (if |addrs| == 1 then addrs[0] else addrs[k.jhash(saddr) % |addrs|], r.DestPort())
  }

  // ---------------------------------------------------------------------------
  // Conntrack zones
  // ---------------------------------------------------------------------------

  /** The zone of a packet after the chain. */
  ghost predicate ZoneMeaning(rules: seq<NftRule>, fs: seq<Forward>, ctZone: int) {
    forall p, k :: Eval(rules, p, k) == State(if SomeRequest(fs, p) || SomeReply(fs, p) then p.(zone := ctZone) else p, Continue)
  }

  /** The same, part way through the backends of one rule. */
  ghost predicate ZonePart(rules: seq<NftRule>, fs: seq<Forward>, f: Forward, addrs: seq<string>, ctZone: int) {
    forall p, k :: Eval(rules, p, k) ==
      State(if SomeRequest(fs, p) || SomeReply(fs, p) || Requests(f, p) || (p.saddr in addrs && p.proto == f.r.proto && p.sport == f.r.DestPort())
            then p.(zone := ctZone) else p, Continue)
  }

  lemma ZoneRequestRule(rules: seq<NftRule>, fs: seq<Forward>, f: Forward, ctZone: int)
    requires ZoneMeaning(rules, fs, ctZone)
    ensures ZonePart(rules + [NftRule([DAddr(f.v.vip), DPort(f.r.proto, f.r.port)], SetZone(ctZone))], fs, f, [], ctZone)
  {
    hide SomeRequest, SomeReply;
    var rule := NftRule([DAddr(f.v.vip), DPort(f.r.proto, f.r.port)], SetZone(ctZone));
    var all := rules + [rule];
    forall p, k ensures Eval(all, p, k) ==
      State(if SomeRequest(fs, p) || SomeReply(fs, p) || Requests(f, p) then p.(zone := ctZone) else p, Continue)
    {
      EvalSnoc(rules, rule, p, k);
      TwoMatches(DAddr(f.v.vip), DPort(f.r.proto, f.r.port), Eval(rules, p, k).p, k);
    }
  }

  lemma ZoneReplyRule(rules: seq<NftRule>, fs: seq<Forward>, f: Forward, addrs: seq<string>, addr: string, ctZone: int)
    requires ZonePart(rules, fs, f, addrs, ctZone)
    ensures ZonePart(rules + [NftRule([SAddr(addr), SPort(f.r.proto, f.r.DestPort())], SetZone(ctZone))], fs, f, addrs + [addr], ctZone)
  {
    hide SomeRequest, SomeReply;
    var rule := NftRule([SAddr(addr), SPort(f.r.proto, f.r.DestPort())], SetZone(ctZone));
    var all, more := rules + [rule], addrs + [addr];
    forall p, k ensures Eval(all, p, k) ==
      State(if SomeRequest(fs, p) || SomeReply(fs, p) || Requests(f, p) || (p.saddr in more && p.proto == f.r.proto && p.sport == f.r.DestPort())
            then p.(zone := ctZone) else p, Continue)
    {
      EvalSnoc(rules, rule, p, k);
      TwoMatches(SAddr(addr), SPort(f.r.proto, f.r.DestPort()), Eval(rules, p, k).p, k);
    }
  }

  lemma SomeSnoc(fs: seq<Forward>, f: Forward, p: Packet)
    ensures SomeRequest(fs + [f], p) <==> SomeRequest(fs, p) || Requests(f, p)
    ensures SomeReply(fs + [f], p) <==> SomeReply(fs, p) || Replies(f, p)
  {
    hide Requests, Replies;
    assert forall x :: x in fs + [f] <==> x in fs || x == f;
  }

  lemma ZoneRuleDone(rules: seq<NftRule>, fs: seq<Forward>, f: Forward, ctZone: int)
    requires ZonePart(rules, fs, f, f.r.DestAddrs(), ctZone)
    ensures ZoneMeaning(rules, fs + [f], ctZone)
  {
    hide SomeRequest, SomeReply;
    var more := fs + [f];
    forall p, k ensures Eval(rules, p, k) == State(if SomeRequest(more, p) || SomeReply(more, p) then p.(zone := ctZone) else p, Continue) {
      SomeSnoc(fs, f, p);
    }
  }

  lemma ForwardsStep(forwards: seq<VIP>, n: nat, m: nat)
    requires n < |forwards| && m < |forwards[n].rules|
    ensures AllForwards(forwards[..n]) + ForwardsOf(forwards[n], m + 1)
         == AllForwards(forwards[..n]) + ForwardsOf(forwards[n], m) + [Forward(forwards[n], forwards[n].rules[m])]
  {
    assert ForwardsOf(forwards[n], m + 1) == ForwardsOf(forwards[n], m) + [Forward(forwards[n], forwards[n].rules[m])];
  }

  lemma ForwardsNext(forwards: seq<VIP>, n: nat)
    requires n < |forwards|
    ensures AllForwards(forwards[..n + 1]) == AllForwards(forwards[..n]) + ForwardsOf(forwards[n], |forwards[n].rules|)
    ensures AllForwards(forwards[..n]) + ForwardsOf(forwards[n], 0) == AllForwards(forwards[..n])
  {
    assert forwards[..n + 1][..n] == forwards[..n];
  }

  method WriteCTZoneRule(rules0: seq<NftRule>, v: VIP, r: Rule, ctZone: int, ghost fs: seq<Forward>) returns (rules: seq<NftRule>)
    requires ZoneMeaning(rules0, fs, ctZone) && r.DestAddrs() != []
    ensures ZoneMeaning(rules, fs + [Forward(v, r)], ctZone)
  {
    ghost var f := Forward(v, r);
    var addrs := r.DestAddrs();
    rules := rules0 + [NftRule([DAddr(v.vip), DPort(r.proto, r.port)], SetZone(ctZone))];
    ZoneRequestRule(rules0, fs, f, ctZone);
    assert addrs[..0] == [];
    for i := 0 to |addrs|
      invariant ZonePart(rules, fs, f, addrs[..i], ctZone)
    {
      hide ZonePart;
      ZoneReplyRule(rules, fs, f, addrs[..i], addrs[i], ctZone);
      assert addrs[..i + 1] == addrs[..i] + [addrs[i]];
      rules := rules + [NftRule([SAddr(addrs[i]), SPort(r.proto, r.DestPort())], SetZone(ctZone))];
    }
    assert addrs[..|addrs|] == addrs;
    ZoneRuleDone(rules, fs, f, ctZone);
  }

  /** Both directions of every forwarded flow get the zone, and no other packet does. */
  method WriteCTZoneRules(forwards: seq<VIP>, ctZone: int) returns (rules: seq<NftRule>)
    requires Validated(forwards)
    ensures ZoneMeaning(rules, AllForwards(forwards), ctZone)
  {
    rules := [];
    assert ZoneMeaning([], [], ctZone);
    for n := 0 to |forwards|
      invariant ZoneMeaning(rules, AllForwards(forwards[..n]), ctZone)
    {
      hide ZoneMeaning;
      var v := forwards[n];
      ForwardsNext(forwards, n);
      for m := 0 to |v.rules|
        invariant ZoneMeaning(rules, AllForwards(forwards[..n]) + ForwardsOf(v, m), ctZone)
      {
        assert ValidRules(forwards[n].rules);
        if v.rules[m].DestAddrs() != [] {
          rules := WriteCTZoneRule(rules, v, v.rules[m], ctZone, AllForwards(forwards[..n]) + ForwardsOf(v, m));
        }
        ForwardsStep(forwards, n, m);
      }
    }
    assert forwards[..|forwards|] == forwards;
  }

  // ---------------------------------------------------------------------------
  // DNAT
  // ---------------------------------------------------------------------------

  ghost predicate WellFormed(fs: seq<Forward>) {
    forall f :: f in fs ==> f.r.DestAddrs() != []
  }

  /** A request is sent to the backend its source hashes to, any other packet passes unchanged. */
  ghost predicate DNATMeaning(rules: seq<NftRule>, fs: seq<Forward>) {
    && WellFormed(fs)
    && (forall p, k :: !SomeRequest(fs, p) ==> Eval(rules, p, k) == State(p, Continue))
    && (forall p, k, f :: f in fs && Requests(f, p) ==>
          Eval(rules, p, k) == State(p, DNATed(TargetOf(f.r, p.saddr, k).0, TargetOf(f.r, p.saddr, k).1)))
  }

  /** The rule sends a request of `f` to its target. */
  ghost predicate DNATRule(rule: NftRule, f: Forward)
    requires f.r.DestAddrs() != []
  {
    && rule.matches == [DAddr(f.v.vip), DPort(f.r.proto, f.r.port)]
    && forall p, k :: Act(rule.action, p, k) == State(p, DNATed(TargetOf(f.r, p.saddr, k).0, TargetOf(f.r, p.saddr, k).1))
  }

  lemma DNATStep(rules: seq<NftRule>, rule: NftRule, fs: seq<Forward>, f: Forward)
    requires DNATMeaning(rules, fs) && f.r.DestAddrs() != [] && DNATRule(rule, f)
    requires forall g, p :: g in fs && Requests(g, p) ==> !Requests(f, p)
    ensures DNATMeaning(rules + [rule], fs + [f])
  {
    hide SomeRequest;
    var all, more := rules + [rule], fs + [f];
    assert forall x :: x in more <==> x in fs || x == f;
    forall p, k
      ensures !SomeRequest(more, p) ==> Eval(all, p, k) == State(p, Continue)
      ensures forall g :: g in more && Requests(g, p) ==> Eval(all, p, k) == State(p, DNATed(TargetOf(g.r, p.saddr, k).0, TargetOf(g.r, p.saddr, k).1))
    {
      EvalSnoc(rules, rule, p, k);
      SomeSnoc(fs, f, p);
      TwoMatches(DAddr(f.v.vip), DPort(f.r.proto, f.r.port), p, k);
      assert Requests(f, p) ==> !SomeRequest(fs, p) by { NotBoth(fs, f, p); }
      hide TargetOf, Requests;
    }
  }

  lemma NotBoth(fs: seq<Forward>, f: Forward, p: Packet)
    requires forall g, q :: g in fs && Requests(g, q) ==> !Requests(f, q)
    ensures Requests(f, p) ==> !SomeRequest(fs, p)
  {
  }

  /** One backend: direct. Several: a map over the source hash. */
  method DNATRuleFor(v: VIP, r: Rule) returns (rule: NftRule)
    requires r.DestAddrs() != []
    ensures DNATRule(rule, Forward(v, r))
  {
    var addrs := r.DestAddrs();
    var matches := [DAddr(v.vip), DPort(r.proto, r.port)];
    if |addrs| == 1 {
      return NftRule(matches, DNATTo(addrs[0], r.DestPort()));
    }
    var targets: map<nat, (string, int)> := map[];
    for i := 0 to |addrs|
      invariant forall j: nat :: j in targets <==> j < i
      invariant forall j: nat :: j in targets ==> targets[j] == (addrs[j], r.DestPort())
    {
      targets := targets[i := (addrs[i], r.DestPort())];
    }
    rule := NftRule(matches, DNATMap(|addrs|, targets));
  }

  lemma FreshRequest(forwards: seq<VIP>, n: nat, m: nat)
    requires Validated(forwards) && n < |forwards| && m < |forwards[n].rules|
    ensures forall g, p :: g in AllForwards(forwards[..n]) + ForwardsOf(forwards[n], m) && Requests(g, p) ==>
              !Requests(Forward(forwards[n], forwards[n].rules[m]), p)
  {
    forall g, p | g in AllForwards(forwards[..n]) + ForwardsOf(forwards[n], m) && Requests(g, p)
      ensures !Requests(Forward(forwards[n], forwards[n].rules[m]), p)
    {
      if g in AllForwards(forwards[..n]) {
        InAllForwards(forwards[..n], g);
        var i :| 0 <= i < n && forwards[..n][i] == g.v;
        assert forwards[i].vip != forwards[n].vip;
      } else {
        var j :| 0 <= j < m && ForwardsOf(forwards[n], m)[j] == g;
        assert ValidRules(forwards[n].rules);
      }
    }
  }

  method WriteDNATChain(forwards: seq<VIP>) returns (rules: seq<NftRule>)
    requires Validated(forwards)
    ensures DNATMeaning(rules, AllForwards(forwards))
  {
    rules := [];
    assert DNATMeaning([], []);
    for n := 0 to |forwards|
      invariant DNATMeaning(rules, AllForwards(forwards[..n]))
    {
      hide DNATMeaning;
      var v := forwards[n];
      ForwardsNext(forwards, n);
      for m := 0 to |v.rules|
        invariant DNATMeaning(rules, AllForwards(forwards[..n]) + ForwardsOf(v, m))
      {
        assert ValidRules(forwards[n].rules);
        FreshRequest(forwards, n, m);
        ForwardsStep(forwards, n, m);
        hide DNATRule, Requests;
        if v.rules[m].DestAddrs() != [] {
          var rule := DNATRuleFor(v, v.rules[m]);
          DNATStep(rules, rule, AllForwards(forwards[..n]) + ForwardsOf(v, m), Forward(v, v.rules[m]));
          rules := rules + [rule];
        }
      }
    }
    assert forwards[..|forwards|] == forwards;
  }

  // ---------------------------------------------------------------------------
  // SNAT
  // ---------------------------------------------------------------------------

  /** One backend destination whose rule has masquerade in effect. */
  datatype SNATEntry = SNATEntry(addr: string, proto: string, port: int)

  predicate EntryOf(f: Forward, e: SNATEntry) {
    && f.r.EffectiveMasquerade(f.v.masquerade)
    && e.addr in f.r.DestAddrs() && e.proto == f.r.proto && e.port == f.r.DestPort()
  }

  ghost predicate SomeEntry(fs: seq<Forward>, e: SNATEntry) {
    exists f :: f in fs && EntryOf(f, e)
  }

  lemma EntrySnoc(fs: seq<Forward>, f: Forward)
    ensures forall e :: SomeEntry(fs + [f], e) <==> SomeEntry(fs, e) || EntryOf(f, e)
  {
    hide EntryOf;
    assert forall x :: x in fs + [f] <==> x in fs || x == f;
  }

  method AddEntries(entries0: seq<SNATEntry>, v: VIP, r: Rule) returns (entries: seq<SNATEntry>)
    ensures forall e :: e in entries <==> e in entries0 || EntryOf(Forward(v, r), e)
  {
    entries := entries0;
    if !r.EffectiveMasquerade(v.masquerade) {
      return;
    }
    var addrs := r.DestAddrs();
    for i := 0 to |addrs|
      invariant forall e :: e in entries <==> e in entries0 || (e.addr in addrs[..i] && e.proto == r.proto && e.port == r.DestPort())
    {
      assert addrs[..i + 1] == addrs[..i] + [addrs[i]];
      entries := entries + [SNATEntry(addrs[i], r.proto, r.DestPort())];
    }
    assert addrs[..|addrs|] == addrs;
  }

  method CollectSNATEntries(forwards: seq<VIP>) returns (entries: seq<SNATEntry>)
    ensures forall e :: e in entries <==> SomeEntry(AllForwards(forwards), e)
  {
    entries := [];
    for n := 0 to |forwards|
      invariant forall e :: e in entries <==> SomeEntry(AllForwards(forwards[..n]), e)
    {
      var v := forwards[n];
      ForwardsNext(forwards, n);
      ghost var base := AllForwards(forwards[..n]);
      for m := 0 to |v.rules|
        invariant forall e :: e in entries <==> SomeEntry(base + ForwardsOf(v, m), e)
      {
        hide EntryOf, SomeEntry;
        ForwardsStep(forwards, n, m);
        EntrySnoc(base + ForwardsOf(v, m), Forward(v, v.rules[m]));
        entries := AddEntries(entries, v, v.rules[m]);
      }
    }
    assert forwards[..|forwards|] == forwards;
  }

  method CollectVIPs(forwards: seq<VIP>) returns (vips: seq<string>)
    ensures forall x :: x in vips <==> exists v :: v in forwards && v.vip == x
  {
    vips := [];
    for n := 0 to |forwards|
      invariant forall x :: x in vips <==> exists v :: v in forwards[..n] && v.vip == x
    {
      assert forwards[..n + 1] == forwards[..n] + [forwards[n]];
      vips := vips + [forwards[n].vip];
    }
    assert forwards[..|forwards|] == forwards;
  }

  method CollectHairpinVIPs(forwards: seq<VIP>) returns (vips: seq<string>)
    ensures forall x :: x in vips <==> exists v :: v in forwards && v.hairpinMasquerade && v.vip == x
  {
    vips := [];
    for n := 0 to |forwards|
      invariant forall x :: x in vips <==> exists v :: v in forwards[..n] && v.hairpinMasquerade && v.vip == x
    {
      assert forwards[..n + 1] == forwards[..n] + [forwards[n]];
      if forwards[n].hairpinMasquerade {
        vips := vips + [forwards[n].vip];
      }
    }
    assert forwards[..|forwards|] == forwards;
  }

  method CollectRouterMasqVIPs(forwards: seq<VIP>) returns (vips: seq<string>)
    ensures forall x :: x in vips <==> exists v :: v in forwards && v.routerMasquerade && v.vip == x
  {
    vips := [];
    for n := 0 to |forwards|
      invariant forall x :: x in vips <==> exists v :: v in forwards[..n] && v.routerMasquerade && v.vip == x
    {
      assert forwards[..n + 1] == forwards[..n] + [forwards[n]];
      if forwards[n].routerMasquerade {
        vips := vips + [forwards[n].vip];
      }
    }
    assert forwards[..|forwards|] == forwards;
  }

  function EntryRule(e: SNATEntry): NftRule {
    NftRule([DAddr(e.addr), DPort(e.proto, e.port), CTStatusDNAT], Masquerade)
  }

  function HairpinRule(nets: seq<string>, vip: string): NftRule {
    NftRule([SAddrInNets(nets), CTOriginalDaddr({vip}), CTStatusDNAT], Masquerade)
  }

  function RouterRule(snatIPs: seq<string>, vip: string): NftRule {
    NftRule([SAddrIn(Elems(snatIPs)), CTOriginalDaddr({vip}), CTStatusDNAT], Masquerade)
  }

  predicate IsDNATed(p: Packet) {
    p.ct.Some? && p.ct.value.dnat
  }

  /** The post-DNAT destination of the packet is an entry. */
  predicate EntryHit(entries: seq<SNATEntry>, p: Packet) {
    IsDNATed(p) && exists e :: e in entries && e == SNATEntry(p.daddr, p.proto, p.dport)
  }

  predicate HairpinHit(vips: seq<string>, nets: seq<string>, p: Packet, k: Kernel) {
    IsDNATed(p) && p.ct.value.originalDaddr in vips && exists n :: n in nets && k.inside(n, p.saddr)
  }

  predicate RouterHit(vips: seq<string>, snatIPs: seq<string>, p: Packet) {
    IsDNATed(p) && p.ct.value.originalDaddr in vips && p.saddr in snatIPs
  }

  ghost predicate SomeRule(rules: seq<NftRule>, p: Packet, k: Kernel) {
    exists r :: r in rules && Matches(r.matches, p, k)
  }

  /** A chain of masquerade rules masquerades what any of them matches. */
  lemma {:induction false} MasqueradeChain(rules: seq<NftRule>, p: Packet, k: Kernel)
    requires forall r :: r in rules ==> r.action == Masquerade
    ensures Eval(rules, p, k) == State(p, if SomeRule(rules, p, k) then Masqueraded else Continue)
  {
    hide Matches;
    if rules != [] {
      var init, last := rules[..|rules| - 1], rules[|rules| - 1];
      MasqueradeChain(init, p, k);
      assert rules == init + [last];
      assert last in rules && forall r :: r in init ==> r in rules;
      assert SomeRule(rules, p, k) <==> SomeRule(init, p, k) || Matches(last.matches, p, k);
    }
  }

  /** Which rules the SNAT chain consists of. */
  ghost predicate SNATRules(rules: seq<NftRule>, entries: seq<SNATEntry>, hairpinVIPs: seq<string>, routerVIPs: seq<string>,
                            nets: seq<string>, snatIPs: seq<string>) {
    forall r :: r in rules <==>
      || (exists e :: e in entries && r == EntryRule(e))
      || (nets != [] && exists v :: v in hairpinVIPs && r == HairpinRule(nets, v))
      || (snatIPs != [] && exists v :: v in routerVIPs && r == RouterRule(snatIPs, v))
  }

  ghost predicate SNATMeaning(rules: seq<NftRule>, entries: seq<SNATEntry>, hairpinVIPs: seq<string>, routerVIPs: seq<string>,
                              nets: seq<string>, snatIPs: seq<string>) {
    forall p, k :: Eval(rules, p, k) ==
      State(p, if EntryHit(entries, p) || HairpinHit(hairpinVIPs, nets, p, k) || RouterHit(routerVIPs, snatIPs, p) then Masqueraded else Continue)
  }

  lemma SNATRulesMean(rules: seq<NftRule>, entries: seq<SNATEntry>, hairpinVIPs: seq<string>, routerVIPs: seq<string>,
                      nets: seq<string>, snatIPs: seq<string>)
    requires SNATRules(rules, entries, hairpinVIPs, routerVIPs, nets, snatIPs)
    ensures SNATMeaning(rules, entries, hairpinVIPs, routerVIPs, nets, snatIPs)
  {
    forall p, k
      ensures Eval(rules, p, k) ==
        State(p, if EntryHit(entries, p) || HairpinHit(hairpinVIPs, nets, p, k) || RouterHit(routerVIPs, snatIPs, p) then Masqueraded else Continue)
    {
      MasqueradeChain(rules, p, k);
      SNATRulesHit(rules, entries, hairpinVIPs, routerVIPs, nets, snatIPs, p, k);
    }
  }

  lemma RuleHits(e: SNATEntry, nets: seq<string>, snatIPs: seq<string>, vip: string, p: Packet, k: Kernel)
    ensures Matches(EntryRule(e).matches, p, k) <==> IsDNATed(p) && e == SNATEntry(p.daddr, p.proto, p.dport)
    ensures Matches(HairpinRule(nets, vip).matches, p, k) <==>
              IsDNATed(p) && p.ct.value.originalDaddr == vip && exists n :: n in nets && k.inside(n, p.saddr)
    ensures Matches(RouterRule(snatIPs, vip).matches, p, k) <==> IsDNATed(p) && p.ct.value.originalDaddr == vip && p.saddr in snatIPs
  {
    ThreeMatches(DAddr(e.addr), DPort(e.proto, e.port), CTStatusDNAT, p, k);
    ThreeMatches(SAddrInNets(nets), CTOriginalDaddr({vip}), CTStatusDNAT, p, k);
    ThreeMatches(SAddrIn(Elems(snatIPs)), CTOriginalDaddr({vip}), CTStatusDNAT, p, k);
  }

  lemma SNATRulesHit(rules: seq<NftRule>, entries: seq<SNATEntry>, hairpinVIPs: seq<string>, routerVIPs: seq<string>,
                     nets: seq<string>, snatIPs: seq<string>, p: Packet, k: Kernel)
    requires SNATRules(rules, entries, hairpinVIPs, routerVIPs, nets, snatIPs)
    ensures SomeRule(rules, p, k) <==> EntryHit(entries, p) || HairpinHit(hairpinVIPs, nets, p, k) || RouterHit(routerVIPs, snatIPs, p)
  {
    var e0 := SNATEntry(p.daddr, p.proto, p.dport);
    if SomeRule(rules, p, k) {
      var r :| r in rules && Matches(r.matches, p, k);
      if e :| e in entries && r == EntryRule(e) {
        RuleHits(e, nets, snatIPs, "", p, k);
      } else if v :| nets != [] && v in hairpinVIPs && r == HairpinRule(nets, v) {
        RuleHits(e0, nets, snatIPs, v, p, k);
      } else {
        var v :| v in routerVIPs && r == RouterRule(snatIPs, v);
        RuleHits(e0, nets, snatIPs, v, p, k);
      }
    }
    if IsDNATed(p) {
      var v := p.ct.value.originalDaddr;
      RuleHits(e0, nets, snatIPs, v, p, k);
      hide Matches;
      if EntryHit(entries, p) {
        assert EntryRule(e0) in rules;
      }
      if HairpinHit(hairpinVIPs, nets, p, k) {
        assert HairpinRule(nets, v) in rules;
      }
      if RouterHit(routerVIPs, snatIPs, p) {
        assert RouterRule(snatIPs, v) in rules;
      }
    }
  }

  method WriteSNATRules(entries: seq<SNATEntry>, hairpinVIPs: seq<string>, routerVIPs: seq<string>, nets: seq<string>, snatIPs: seq<string>)
    returns (rules: seq<NftRule>)
    ensures SNATRules(rules, entries, hairpinVIPs, routerVIPs, nets, snatIPs)
  {
    rules := [];
    for i := 0 to |entries|
      invariant forall r :: r in rules <==> exists e :: e in entries[..i] && r == EntryRule(e)
    {
      hide EntryRule;
      assert entries[..i + 1] == entries[..i] + [entries[i]];
      rules := rules + [EntryRule(entries[i])];
    }
    assert entries[..|entries|] == entries;
    ghost var first := rules;
    if |nets| > 0 {
      for i := 0 to |hairpinVIPs|
        invariant forall r :: r in rules <==> r in first || exists v :: v in hairpinVIPs[..i] && r == HairpinRule(nets, v)
      {
        hide EntryRule, HairpinRule;
        assert hairpinVIPs[..i + 1] == hairpinVIPs[..i] + [hairpinVIPs[i]];
        rules := rules + [HairpinRule(nets, hairpinVIPs[i])];
      }
      assert hairpinVIPs[..|hairpinVIPs|] == hairpinVIPs;
    }
    ghost var second := rules;
    if |snatIPs| > 0 {
      for i := 0 to |routerVIPs|
        invariant forall r :: r in rules <==> r in second || exists v :: v in routerVIPs[..i] && r == RouterRule(snatIPs, v)
      {
        hide EntryRule, HairpinRule, RouterRule;
        assert routerVIPs[..i + 1] == routerVIPs[..i] + [routerVIPs[i]];
        rules := rules + [RouterRule(snatIPs, routerVIPs[i])];
      }
      assert routerVIPs[..|routerVIPs|] == routerVIPs;
    }
    hide EntryRule, HairpinRule, RouterRule;
  }

  /** The chain is left out when it would have no rule. */
  method WriteSNATChain(entries: seq<SNATEntry>, hairpinVIPs: seq<string>, routerVIPs: seq<string>, nets: seq<string>, snatIPs: seq<string>)
    returns (chain: Option<seq<NftRule>>)
    ensures chain.Some? <==> entries != [] || (hairpinVIPs != [] && nets != []) || (routerVIPs != [] && snatIPs != [])
    ensures SNATMeaning(if chain.Some? then chain.value else [], entries, hairpinVIPs, routerVIPs, nets, snatIPs)
  {
    var hairpinNeeded := |hairpinVIPs| > 0 && |nets| > 0;
    var routerMasqNeeded := |routerVIPs| > 0 && |snatIPs| > 0;
    if |entries| == 0 && !hairpinNeeded && !routerMasqNeeded {
      SNATRulesMean([], entries, hairpinVIPs, routerVIPs, nets, snatIPs);
      return None;
    }
    var rules := WriteSNATRules(entries, hairpinVIPs, routerVIPs, nets, snatIPs);
    SNATRulesMean(rules, entries, hairpinVIPs, routerVIPs, nets, snatIPs);
    chain := Some(rules);
  }

  // ---------------------------------------------------------------------------
  // Marks and the veth guard
  // ---------------------------------------------------------------------------

  predicate Tracked(p: Packet, dir: Direction, vips: set<string>) {
    IsDNATed(p) && p.ct.value.dir == dir && p.ct.value.originalDaddr in vips
  }

  ghost predicate MarkMeaning(pre: seq<NftRule>, output: seq<NftRule>, vips: set<string>) {
    && (forall p, k :: Eval(pre, p, k) == State(
          if Tracked(p, Original, vips) then p.(mark := DNAT_FWMARK)
          else if Tracked(p, Reply, vips) then p.(mark := DNAT_REPLY_FWMARK) else p, Continue))
    && (forall p, k :: Eval(output, p, k) == State(if Tracked(p, Reply, vips) then p.(mark := DNAT_REPLY_FWMARK) else p, Continue))
  }

  function MarkRule(dir: Direction, vips: set<string>, mark: int): NftRule {
    NftRule([CTDirection(dir), CTStatusDNAT, CTOriginalDaddr(vips)], SetMark(mark))
  }

  lemma MarkOne(dir: Direction, vips: set<string>, mark: int, rules: seq<NftRule>, p: Packet, k: Kernel)
    ensures var s := Eval(rules, p, k);
      Eval(rules + [MarkRule(dir, vips, mark)], p, k)
      == if s.out == Continue && Tracked(s.p, dir, vips) then State(s.p.(mark := mark), Continue) else s
  {
    EvalSnoc(rules, MarkRule(dir, vips, mark), p, k);
    ThreeMatches(CTDirection(dir), CTStatusDNAT, CTOriginalDaddr(vips), Eval(rules, p, k).p, k);
    hide Eval, Matches;
  }

  method WriteFwmarkChains(allVIPs: seq<string>) returns (pre: seq<NftRule>, output: seq<NftRule>)
    ensures MarkMeaning(pre, output, Elems(allVIPs))
  {
    ghost var vips := Elems(allVIPs);
    var first, second := MarkRule(Original, Elems(allVIPs), DNAT_FWMARK), MarkRule(Reply, Elems(allVIPs), DNAT_REPLY_FWMARK);
    pre, output := [first, second], [second];
    MarkRulesMean(vips);
  }

  lemma MarkRulesMean(vips: set<string>)
    ensures var first, second := MarkRule(Original, vips, DNAT_FWMARK), MarkRule(Reply, vips, DNAT_REPLY_FWMARK);
      MarkMeaning([first, second], [second], vips)
  {
    var first, second := MarkRule(Original, vips, DNAT_FWMARK), MarkRule(Reply, vips, DNAT_REPLY_FWMARK);
    var pre, output := [first, second], [second];
    forall p, k
      ensures Eval(pre, p, k) == State(
        if Tracked(p, Original, vips) then p.(mark := DNAT_FWMARK)
        else if Tracked(p, Reply, vips) then p.(mark := DNAT_REPLY_FWMARK) else p, Continue)
      ensures Eval(output, p, k) == State(if Tracked(p, Reply, vips) then p.(mark := DNAT_REPLY_FWMARK) else p, Continue)
    {
      MarkOne(Original, vips, DNAT_FWMARK, [], p, k);
      MarkOne(Reply, vips, DNAT_REPLY_FWMARK, [], p, k);
      MarkOne(Reply, vips, DNAT_REPLY_FWMARK, [first], p, k);
      assert [first, second] == [first] + [second] && [] + [first] == [first] && [] + [second] == [second];
      assert Eval([], p, k) == State(p, Continue);
      hide Eval, MarkRule;
    }
  }

  predicate InNets(nets: seq<string>, p: Packet, k: Kernel) {
    exists n :: n in nets && k.inside(n, p.saddr)
  }

  /** Through the veth pair go only packets from the provider networks and DNAT replies. */
  ghost predicate GuardMeaning(rules: seq<NftRule>, nets: seq<string>) {
    forall p, k :: Eval(rules, p, k) == State(p,
      if p.oif != VETH_DEFAULT then Continue
      else if InNets(nets, p, k) || p.mark == DNAT_REPLY_FWMARK then Accepted else Dropped)
  }

  lemma OneMatch(a: Match, p: Packet, k: Kernel)
    ensures Matches([a], p, k) <==> MatchOne(a, p, k)
  {
    assert a in [a];
  }

  const FROM_DNAT := NftRule([OIfName(VETH_DEFAULT), MetaMark(DNAT_REPLY_FWMARK)], Accept)
  const NOTHING_ELSE := NftRule([OIfName(VETH_DEFAULT)], Drop)

  function FromNets(nets: seq<string>): NftRule {
    NftRule([OIfName(VETH_DEFAULT), SAddrInNets(nets)], Accept)
  }

  lemma FromNetsMeans(nets: seq<string>, p: Packet, k: Kernel)
    ensures Eval(if nets == [] then [] else [FromNets(nets)], p, k) ==
            State(p, if p.oif == VETH_DEFAULT && InNets(nets, p, k) then Accepted else Continue)
  {
    EvalSnoc([], FromNets(nets), p, k);
    assert [] + [FromNets(nets)] == [FromNets(nets)];
    TwoMatches(OIfName(VETH_DEFAULT), SAddrInNets(nets), p, k);
  }

  lemma GuardEnds(before: seq<NftRule>, p: Packet, k: Kernel)
    requires Eval(before, p, k) == State(p, Accepted) || Eval(before, p, k) == State(p, Continue)
    ensures Eval(before + [FROM_DNAT] + [NOTHING_ELSE], p, k) ==
            State(p, if Eval(before, p, k).out.Accepted? || (p.oif == VETH_DEFAULT && p.mark == DNAT_REPLY_FWMARK) then Accepted
                     else if p.oif == VETH_DEFAULT then Dropped else Continue)
  {
    EvalSnoc(before, FROM_DNAT, p, k);
    EvalSnoc(before + [FROM_DNAT], NOTHING_ELSE, p, k);
    hide Eval;
    TwoMatches(OIfName(VETH_DEFAULT), MetaMark(DNAT_REPLY_FWMARK), p, k);
    OneMatch(OIfName(VETH_DEFAULT), p, k);
    hide Matches;
  }

  method WriteVethGuardChain(nets: seq<string>) returns (rules: seq<NftRule>)
    ensures GuardMeaning(rules, nets)
  {
    hide Eval, InNets;
    rules := [];
    if |nets| > 0 {
      rules := rules + [FromNets(nets)];
    }
    ghost var allowed := rules;
    assert allowed == if nets == [] then [] else [FromNets(nets)];
    rules := rules + [FROM_DNAT];
    rules := rules + [NOTHING_ELSE];
    forall p, k
      ensures Eval(rules, p, k) == State(p,
        if p.oif != VETH_DEFAULT then Continue
        else if InNets(nets, p, k) || p.mark == DNAT_REPLY_FWMARK then Accepted else Dropped)
    {
      FromNetsMeans(nets, p, k);
      GuardEnds(allowed, p, k);
    }
  }

  ghost predicate ClearMeaning(rules: seq<NftRule>) {
    forall p, k :: Eval(rules, p, k) == State(if p.oif == VETH_DEFAULT && p.mark == DNAT_REPLY_FWMARK then p.(mark := 0) else p, Continue)
  }

  method WriteFwmarkClearChain() returns (rules: seq<NftRule>)
    ensures ClearMeaning(rules)
  {
    var clear := NftRule([OIfName(VETH_DEFAULT), MetaMark(DNAT_REPLY_FWMARK)], SetMark(0));
    rules := [clear];
    forall p, k
      ensures Eval(rules, p, k) == State(if p.oif == VETH_DEFAULT && p.mark == DNAT_REPLY_FWMARK then p.(mark := 0) else p, Continue)
    {
      assert [] + [clear] == [clear];
      EvalSnoc([], clear, p, k);
      TwoMatches(OIfName(VETH_DEFAULT), MetaMark(DNAT_REPLY_FWMARK), p, k);
    }
  }

  // ---------------------------------------------------------------------------
  // The ruleset
  // ---------------------------------------------------------------------------

  datatype Ruleset = Ruleset(preroutingCTZone: seq<NftRule>, outputCTZone: seq<NftRule>, dnat: seq<NftRule>,
                             preroutingFwmark: seq<NftRule>, outputFwmark: seq<NftRule>, vethGuard: seq<NftRule>,
                             fwmarkClear: seq<NftRule>, snat: Option<seq<NftRule>>)
  {
    function SNATChain(): seq<NftRule> {
      if snat.Some? then snat.value else []
    }
  }

  ghost predicate HairpinVIP(forwards: seq<VIP>, x: string) {
    exists v :: v in forwards && v.hairpinMasquerade && v.vip == x
  }

  ghost predicate RouterVIP(forwards: seq<VIP>, x: string) {
    exists v :: v in forwards && v.routerMasquerade && v.vip == x
  }

  /** Some masquerading rule has the packet's post-DNAT address, protocol and port. */
  ghost predicate EntryFor(forwards: seq<VIP>, p: Packet) {
    SomeEntry(AllForwards(forwards), SNATEntry(p.daddr, p.proto, p.dport))
  }

  ghost predicate ToMasquerade(forwards: seq<VIP>, nets: seq<string>, snatIPs: seq<string>, p: Packet, k: Kernel) {
    IsDNATed(p) &&
    (|| EntryFor(forwards, p)
     || (HairpinVIP(forwards, p.ct.value.originalDaddr) && InNets(nets, p, k))
     || (RouterVIP(forwards, p.ct.value.originalDaddr) && p.saddr in snatIPs))
  }

  ghost predicate SNATCompiled(rules: seq<NftRule>, forwards: seq<VIP>, nets: seq<string>, snatIPs: seq<string>) {
    forall p, k :: Eval(rules, p, k) == State(p, if ToMasquerade(forwards, nets, snatIPs, p, k) then Masqueraded else Continue)
  }

  /** Some packet could be masqueraded. */
  ghost predicate NeedsSNAT(forwards: seq<VIP>, nets: seq<string>, snatIPs: seq<string>) {
    || (exists e :: SomeEntry(AllForwards(forwards), e))
    || (nets != [] && exists x :: HairpinVIP(forwards, x))
    || (snatIPs != [] && exists x :: RouterVIP(forwards, x))
  }

  lemma SNATOfConfiguration(rules: seq<NftRule>, forwards: seq<VIP>, nets: seq<string>, snatIPs: seq<string>,
                            entries: seq<SNATEntry>, hairpinVIPs: seq<string>, routerVIPs: seq<string>)
    requires SNATMeaning(rules, entries, hairpinVIPs, routerVIPs, nets, snatIPs)
    requires forall e :: e in entries <==> SomeEntry(AllForwards(forwards), e)
    requires forall x :: x in hairpinVIPs <==> HairpinVIP(forwards, x)
    requires forall x :: x in routerVIPs <==> RouterVIP(forwards, x)
    ensures SNATCompiled(rules, forwards, nets, snatIPs)
    ensures NeedsSNAT(forwards, nets, snatIPs) <==> entries != [] || (hairpinVIPs != [] && nets != []) || (routerVIPs != [] && snatIPs != [])
  {
    hide SomeEntry, HairpinVIP, RouterVIP, Eval;
    EmptyIff(entries);
    EmptyIff(hairpinVIPs);
    EmptyIff(routerVIPs);
    forall p, k
      ensures Eval(rules, p, k) == State(p, if ToMasquerade(forwards, nets, snatIPs, p, k) then Masqueraded else Continue)
    {
      var e := SNATEntry(p.daddr, p.proto, p.dport);
      assert EntryHit(entries, p) <==> IsDNATed(p) && e in entries;
    }
  }

  function VIPsOf(forwards: seq<VIP>): set<string> {
    set v | v in forwards :: v.vip
  }

  /** Every chain means its part of the configuration. */
  ghost predicate Compiled(rs: Ruleset, forwards: seq<VIP>, nets: seq<string>, snatIPs: seq<string>, ctZone: int) {
    && ZoneMeaning(rs.preroutingCTZone, AllForwards(forwards), ctZone) && ZoneMeaning(rs.outputCTZone, AllForwards(forwards), ctZone)
    && DNATMeaning(rs.dnat, AllForwards(forwards))
    && MarkMeaning(rs.preroutingFwmark, rs.outputFwmark, VIPsOf(forwards))
    && GuardMeaning(rs.vethGuard, nets) && ClearMeaning(rs.fwmarkClear)
    && SNATCompiled(rs.SNATChain(), forwards, nets, snatIPs)
    && (rs.snat.Some? <==> NeedsSNAT(forwards, nets, snatIPs))
  }

  method BuildNftRuleset(forwards: seq<VIP>, nets: seq<string>, snatIPs: seq<string>, ctZone: int) returns (rs: Ruleset)
    requires Validated(forwards)
    ensures Compiled(rs, forwards, nets, snatIPs, ctZone)
  {
    hide ZoneMeaning, DNATMeaning, MarkMeaning, GuardMeaning, ClearMeaning, SNATMeaning, SomeEntry, SNATCompiled, NeedsSNAT, Validated;
    var allVIPs := CollectVIPs(forwards);
    var snatEntries := CollectSNATEntries(forwards);
    var hairpin := CollectHairpinVIPs(forwards);
    var routerMasq := CollectRouterMasqVIPs(forwards);
    var preZone := WriteCTZoneRules(forwards, ctZone);
    var outZone := WriteCTZoneRules(forwards, ctZone);
    var dnat := WriteDNATChain(forwards);
    var preMark, outMark := WriteFwmarkChains(allVIPs);
    var guard := WriteVethGuardChain(nets);
    var clear := WriteFwmarkClearChain();
    var snat := WriteSNATChain(snatEntries, hairpin, routerMasq, nets, snatIPs);
    rs := Ruleset(preZone, outZone, dnat, preMark, outMark, guard, clear, snat);
    assert Elems(allVIPs) == VIPsOf(forwards);
    SNATOfConfiguration(rs.SNATChain(), forwards, nets, snatIPs, snatEntries, hairpin, routerMasq);
  }

  // ---------------------------------------------------------------------------
  // What happens to a flow
  // ---------------------------------------------------------------------------

  /** The packet of a request after DNAT to its backend. */
  function Forwarded(f: Forward, p: Packet, k: Kernel): Packet
    requires f.r.DestAddrs() != []
  {
    p.(daddr := TargetOf(f.r, p.saddr, k).0, dport := TargetOf(f.r, p.saddr, k).1, ct := Some(Conn(Original, true, f.v.vip)))
  }

  /** A packet of the backend back to the client. */
  predicate ReplyOf(f: Forward, p: Packet, q: Packet, k: Kernel)
    requires f.r.DestAddrs() != []
  {
    q.saddr == TargetOf(f.r, p.saddr, k).0 && q.proto == p.proto && q.sport == TargetOf(f.r, p.saddr, k).1
  }

  lemma TargetIsBackend(r: Rule, saddr: string, k: Kernel)
    requires r.DestAddrs() != []
    ensures TargetOf(r, saddr, k).0 in r.DestAddrs() && TargetOf(r, saddr, k).1 == if r.destPort == 0 then r.port else r.destPort
  {
  }

  /**
   A request goes to exactly one configured backend at the rule's destination port, chosen by its
   source alone, and the request and that backend's reply get the same zone in both hooks.
   */
  lemma RequestIsForwarded(rs: Ruleset, forwards: seq<VIP>, nets: seq<string>, snatIPs: seq<string>, ctZone: int,
                           f: Forward, p: Packet, q: Packet, k: Kernel)
    requires Compiled(rs, forwards, nets, snatIPs, ctZone)
    requires f in AllForwards(forwards) && Requests(f, p) && f.r.DestAddrs() != []
    ensures Eval(rs.dnat, p, k).out == DNATed(TargetOf(f.r, p.saddr, k).0, TargetOf(f.r, p.saddr, k).1)
    ensures TargetOf(f.r, p.saddr, k).0 in f.r.DestAddrs()
    ensures Eval(rs.preroutingCTZone, p, k).p.zone == ctZone && Eval(rs.outputCTZone, p, k).p.zone == ctZone
    ensures ReplyOf(f, p, q, k) ==> Eval(rs.preroutingCTZone, q, k).p.zone == ctZone && Eval(rs.outputCTZone, q, k).p.zone == ctZone
  {
    TargetIsBackend(f.r, p.saddr, k);
    assert SomeRequest(AllForwards(forwards), p);
    assert ReplyOf(f, p, q, k) ==> Replies(f, q);
    hide Eval, TargetOf, SNATCompiled, MarkMeaning, GuardMeaning, ClearMeaning;
  }

  /** Only requests are redirected, and only packets of forwarded flows change their zone. */
  lemma OthersAreLeftAlone(rs: Ruleset, forwards: seq<VIP>, nets: seq<string>, snatIPs: seq<string>, ctZone: int, p: Packet, k: Kernel)
    requires Compiled(rs, forwards, nets, snatIPs, ctZone)
    ensures Eval(rs.dnat, p, k).out.DNATed? <==> exists f :: f in AllForwards(forwards) && Requests(f, p)
    ensures p.zone != ctZone ==>
              (Eval(rs.preroutingCTZone, p, k).p.zone == ctZone <==> exists f :: f in AllForwards(forwards) && (Requests(f, p) || Replies(f, p)))
  {
    hide Eval, Requests, Replies, TargetOf, SNATCompiled, MarkMeaning, GuardMeaning, ClearMeaning;
  }

  /** A masquerading rule with this backend address, and the protocol and port of `f`. */
  predicate MasqueradesFor(g: Forward, f: Forward, addr: string) {
    && g.r.EffectiveMasquerade(g.v.masquerade) && addr in g.r.DestAddrs()
    && g.r.proto == f.r.proto && g.r.DestPort() == f.r.DestPort()
  }

  lemma EntryForIff(forwards: seq<VIP>, f: Forward, p: Packet, k: Kernel)
    requires Requests(f, p) && f.r.DestAddrs() != []
    ensures EntryFor(forwards, Forwarded(f, p, k)) <==>
              exists g :: g in AllForwards(forwards) && MasqueradesFor(g, f, TargetOf(f.r, p.saddr, k).0)
  {
    TargetIsBackend(f.r, p.saddr, k);
    var e := SNATEntry(TargetOf(f.r, p.saddr, k).0, f.r.proto, f.r.DestPort());
    hide TargetOf;
    assert EntryFor(forwards, Forwarded(f, p, k)) <==> SomeEntry(AllForwards(forwards), e);
    if g :| g in AllForwards(forwards) && EntryOf(g, e) {
      assert MasqueradesFor(g, f, e.addr);
    }
    if g :| g in AllForwards(forwards) && MasqueradesFor(g, f, e.addr) {
      assert EntryOf(g, e);
    }
  }

  /**
   A forwarded flow is masqueraded exactly when some masquerading rule has its backend address,
   protocol and port, or its VIP masquerades its source.
   */
  lemma MasqueradedIff(rs: Ruleset, forwards: seq<VIP>, nets: seq<string>, snatIPs: seq<string>, ctZone: int, f: Forward, p: Packet, k: Kernel)
    requires Compiled(rs, forwards, nets, snatIPs, ctZone)
    requires f in AllForwards(forwards) && Requests(f, p) && f.r.DestAddrs() != []
    ensures Eval(rs.SNATChain(), Forwarded(f, p, k), k).out.Masqueraded? <==>
              || (exists g :: g in AllForwards(forwards) && MasqueradesFor(g, f, TargetOf(f.r, p.saddr, k).0))
              || (HairpinVIP(forwards, f.v.vip) && InNets(nets, p, k))
              || (RouterVIP(forwards, f.v.vip) && p.saddr in snatIPs)
  {
    EntryForIff(forwards, f, p, k);
    hide Eval, TargetOf, EntryFor, HairpinVIP, RouterVIP, ZoneMeaning, DNATMeaning, MarkMeaning, GuardMeaning, ClearMeaning, NeedsSNAT;
  }

  /**
   Masquerade is not per rule: the flow of a rule without masquerade is masqueraded by an entry
   exactly when another, masquerading rule shares the backend address, protocol and port.
   */
  lemma MasqueradeLeaksIff(forwards: seq<VIP>, f: Forward, p: Packet, k: Kernel)
    requires f in AllForwards(forwards) && Requests(f, p) && f.r.DestAddrs() != [] && !f.r.EffectiveMasquerade(f.v.masquerade)
    ensures EntryFor(forwards, Forwarded(f, p, k)) <==>
              exists g :: g in AllForwards(forwards) && g != f && MasqueradesFor(g, f, TargetOf(f.r, p.saddr, k).0)
  {
    EntryForIff(forwards, f, p, k);
    hide TargetOf, EntryFor;
  }

  /** Two VIPs share a backend, protocol and port; only the first masquerades. */
  function SharedBackend(): seq<VIP> {
    [VIP("192.0.2.1", true, false, false, [Rule("tcp", 80, "10.0.0.1", [], 0, None)]),
     VIP("192.0.2.2", false, false, false, [Rule("tcp", 80, "10.0.0.1", [], 0, None)])]
  }

  lemma SharedIsValid()
    ensures Validated(SharedBackend())
  {
    assert SharedBackend()[0].vip[8] != SharedBackend()[1].vip[8];
  }

  /** The forwards of the two rules: the one that masquerades and the one that does not. */
  lemma SharedForwards() returns (g: Forward, f: Forward)
    ensures f in AllForwards(SharedBackend()) && g in AllForwards(SharedBackend()) && g != f
    ensures f.r.DestAddrs() == g.r.DestAddrs() == ["10.0.0.1"] && f.r.proto == g.r.proto == "tcp" && f.r.port == 80
    ensures g.r.DestPort() == f.r.DestPort() && g.r.EffectiveMasquerade(g.v.masquerade) && !f.r.EffectiveMasquerade(f.v.masquerade)
  {
    var first, second := SharedBackend()[0], SharedBackend()[1];
    g, f := Forward(first, first.rules[0]), Forward(second, second.rules[0]);
    InAllForwards(SharedBackend(), f);
    InAllForwards(SharedBackend(), g);
    hide AllForwards;
    assert first.vip[8] != second.vip[8];
  }

  /** In this configuration a request to the second VIP is masqueraded although its rule does not ask for it. */
  lemma MasqueradeLeaks(k: Kernel) returns (f: Forward, p: Packet)
    ensures Validated(SharedBackend()) && f in AllForwards(SharedBackend()) && Requests(f, p) && f.r.DestAddrs() != []
    ensures !f.r.EffectiveMasquerade(f.v.masquerade) && EntryFor(SharedBackend(), Forwarded(f, p, k))
  {
    hide AllForwards, EntryFor, Validated, SharedBackend;
    SharedIsValid();
    var g;
    g, f := SharedForwards();
    p := Packet("198.51.100.7", f.v.vip, "tcp", 40000, 80, "eth0", 0, 0, None);
    TargetIsBackend(f.r, p.saddr, k);
    assert MasqueradesFor(g, f, TargetOf(f.r, p.saddr, k).0);
    MasqueradeLeaksIff(SharedBackend(), f, p, k);
  }

  /** A tracked reply is marked, passes the veth guard, and leaves without its mark; a request is marked the other way. */
  lemma ReplyPassesVeth(rs: Ruleset, forwards: seq<VIP>, nets: seq<string>, snatIPs: seq<string>, ctZone: int, f: Forward, q: Packet, k: Kernel)
    requires Compiled(rs, forwards, nets, snatIPs, ctZone)
    requires f.v in forwards && q.oif == VETH_DEFAULT && q.ct == Some(Conn(Reply, true, f.v.vip))
    ensures var m := Eval(rs.preroutingFwmark, q, k).p;
      && m == Eval(rs.outputFwmark, q, k).p && m.mark == DNAT_REPLY_FWMARK
      && Eval(rs.vethGuard, m, k).out == Accepted
      && Eval(rs.fwmarkClear, m, k).p.mark == 0
    ensures Eval(rs.preroutingFwmark, q.(ct := Some(Conn(Original, true, f.v.vip))), k).p.mark == DNAT_FWMARK
    ensures q.mark != DNAT_REPLY_FWMARK ==> (Eval(rs.vethGuard, q, k).out == Dropped <==> !InNets(nets, q, k))
  {
    hide Eval, SNATCompiled, ZoneMeaning, DNATMeaning;
  }
}
