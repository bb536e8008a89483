/**
 The text form of the agent's OpenFlow entries: the printers of add-flow specs and strict
 deletes, and the parser that keys what ovs-ofctl prints. The rendering of an address by
 net.IP.String is a parameter with its laws.
 */
module FlowMatch {
  import opened Common
  import opened Text

  const OVS_COOKIE_MAC_TWEAK := "0x999"
  const OVS_COOKIE_HAIRPIN := "0x998"
  const MAC_TWEAK_FLOW_PRIORITY := 900
  const HAIRPIN_FLOW_PRIORITY := 910

  /** What OpenFlow uses to tell two entries apart: the priority and the match. */
  datatype FlowKey = FlowKey(priority: int, ipv6: bool, inPort: string, dst: string)

  datatype DesiredFlow = DesiredFlow(key: FlowKey, actions: string, spec: string)

  datatype Binding = Binding(ofport: string, kernelMAC: string)

  /** FieldsFunc's separators. */
  predicate IsFieldSep(c: char) {
    c == ',' || IsSpace(c)
  }

  /** No separator, mask or assignment character. */
  predicate Plain(s: string) {
    forall i :: 0 <= i < |s| ==> !IsFieldSep(s[i]) && s[i] != '/' && s[i] != '='
  }

  /** canonicalIP: "" for what is no address; rendering is idempotent, and addresses are plain texts. */
  ghost predicate CanonLaws(canon: string -> string) {
    forall s :: canon(s) != "" ==> canon(canon(s)) == canon(s) && Plain(canon(s)) && Plain(s) && s != ""
  }

  ghost predicate WellFormed(k: FlowKey, canon: string -> string) {
    && -MAX_INT64 - 1 <= k.priority <= MAX_INT64
    && Atoi(k.inPort).Some?
    && (k.dst != "" ==> canon(k.dst) == k.dst)
  }

  // ---------------------------------------------------------------------------
  // Printers
  // ---------------------------------------------------------------------------

  function Proto(ipv6: bool): string {
    if ipv6 then "ipv6" else "ip"
  }

  const ACTIONS := ",actions="

  function DeleteMatch(k: FlowKey, cookie: string): string {
    "cookie=" + cookie + "/-1,priority=" + PrintInt(k.priority) + "," + Proto(k.ipv6) + ",in_port=" + k.inPort
    + if k.dst != "" then "," + (if k.ipv6 then "ipv6_dst" else "nw_dst") + "=" + k.dst else ""
  }

  function MACTweakFlow(cookie: string, ofport: string, mac: string, ipv6: bool): string {
    "cookie=" + cookie + ",priority=" + PrintInt(MAC_TWEAK_FLOW_PRIORITY) + "," + Proto(ipv6) + ",in_port=" + ofport
    + ",actions=mod_dl_dst:" + mac + ",NORMAL"
  }

  function HairpinDst(ip: string, ipv6: bool): string {
    if ipv6 then "ipv6_dst=" + ip + "/128" else "ip_dst=" + ip + "/32"
  }

  function Comma3(a: string, b: string, c: string): string {
    a + "," + b + "," + c
  }

  function HairpinActions(bridgeMAC: string, routerMAC: string): string {
    Comma3("mod_dl_src:" + bridgeMAC, "mod_dl_dst:" + routerMAC, "output:in_port")
  }

  function HairpinFlow(cookie: string, ofport: string, ip: string, bridgeMAC: string, routerMAC: string, ipv6: bool): string {
    "cookie=" + cookie + ",priority=" + PrintInt(HAIRPIN_FLOW_PRIORITY) + "," + Proto(ipv6) + ",in_port=" + ofport + "," + HairpinDst(ip, ipv6)
    + ",actions=" + HairpinActions(bridgeMAC, routerMAC)
  }

  // ---------------------------------------------------------------------------
  // Parser
  // ---------------------------------------------------------------------------

  datatype Match = Match(key: FlowKey, havePriority: bool, haveProto: bool, haveInPort: bool, malformedPort: bool, malformedDst: bool) {
    predicate Ok() {
      haveProto && haveInPort && !malformedPort && !malformedDst
    }
  }

  const EMPTY_MATCH := Match(FlowKey(0, false, "", ""), false, false, false, false, false)

  predicate IsDst(f: string) {
    HasPrefix(f, "nw_dst=") || HasPrefix(f, "ip_dst=") || HasPrefix(f, "ipv6_dst=")
  }

  /** The address of a destination field, without its mask. */
  function DstAddr(f: string): string {
    match CutAt(f, "=")
    case None => ""
    case Some(p) => Before(p.1, '/')
  }

  function PriorityOf(f: string): Option<int> {
    if HasPrefix(f, "priority=") then Atoi(f[|"priority="|..]) else None
  }

  function PortOf(f: string): Option<string> {
    if HasPrefix(f, "in_port=") then Some(f[|"in_port="|..]) else None
  }

  function Absorb(m: Match, f: string, canon: string -> string): Match {
    if f == "ip" then m.(haveProto := true)
    else if f == "ipv6" then m.(haveProto := true, key := m.key.(ipv6 := true))
    else if HasPrefix(f, "priority=") then
      match PriorityOf(f) {
        case None => m
        case Some(p) => m.(havePriority := true, key := m.key.(priority := p))
      }
    else if PortOf(f).Some? then
      if Atoi(PortOf(f).value).None? then m.(malformedPort := true)
      else m.(haveInPort := true, key := m.key.(inPort := PortOf(f).value))
    else if IsDst(f) then
      var dst := canon(DstAddr(f));
      m.(malformedDst := m.malformedDst || dst == "", key := m.key.(dst := dst))
    else m
  }

  function Scan(fields: seq<string>, m: Match, canon: string -> string): Match {
    if fields == [] then m else Scan(fields[1..], Absorb(m, fields[0], canon), canon)
  }

  function Parsed(text: string, canon: string -> string): Match {
    Scan(Fields(text, IsFieldSep), EMPTY_MATCH, canon)
  }

  lemma {:induction false} ScanSnoc(fields: seq<string>, f: string, m: Match, canon: string -> string)
    ensures Scan(fields + [f], m, canon) == Absorb(Scan(fields, m, canon), f, canon)
  {
    if fields == [] {
      assert ([f])[1..] == [];
      assert fields + [f] == [f];
    } else {
      assert (fields + [f])[1..] == fields[1..] + [f];
      ScanSnoc(fields[1..], f, Absorb(m, fields[0], canon), canon);
    }
  }

  /** Different kinds of field start differently. */
  lemma FieldKinds(f: string)
    ensures HasPrefix(f, "priority=") ==> f != "ip" && f != "ipv6" && PortOf(f).None? && !IsDst(f)
    ensures PortOf(f).Some? ==> f != "ip" && f != "ipv6" && !HasPrefix(f, "priority=") && !IsDst(f)
    ensures IsDst(f) ==> f != "ip" && f != "ipv6" && !HasPrefix(f, "priority=") && PortOf(f).None?
  {
    if |f| >= 3 {
      if f[0] != 'p' { PrefixAt(f, "priority=", 0); }
      if f[0] != 'i' { PrefixAt(f, "in_port=", 0); PrefixAt(f, "ip_dst=", 0); PrefixAt(f, "ipv6_dst=", 0); }
      if f[0] != 'n' { PrefixAt(f, "nw_dst=", 0); }
      if f[1] != 'n' { PrefixAt(f, "in_port=", 1); }
      if f[1] != 'p' { PrefixAt(f, "ip_dst=", 1); PrefixAt(f, "ipv6_dst=", 1); }
    }
  }

  /** What one field adds to what was seen before it. */
  lemma AbsorbEffect(m: Match, f: string, canon: string -> string)
    ensures var a := Absorb(m, f, canon);
      && (a.haveProto <==> m.haveProto || f == "ip" || f == "ipv6")
      && (a.haveInPort || a.malformedPort <==> m.haveInPort || m.malformedPort || PortOf(f).Some?)
      && (a.malformedPort <==> m.malformedPort || (PortOf(f).Some? && Atoi(PortOf(f).value).None?))
      && (a.malformedDst <==> m.malformedDst || (IsDst(f) && canon(DstAddr(f)) == ""))
      && (a.havePriority <==> m.havePriority || PriorityOf(f).Some?)
  {
    hide IsDst, HasPrefix, Atoi, DstAddr;
    FieldKinds(f);
  }

  ghost predicate SomeField(fields: seq<string>, p: string -> bool) {
    exists f :: f in fields && p(f)
  }

  lemma SomeFieldSnoc(fields: seq<string>, f: string, p: string -> bool)
    ensures SomeField(fields + [f], p) <==> SomeField(fields, p) || p(f)
  {
    assert f in fields + [f];
    if SomeField(fields, p) {
      var g :| g in fields && p(g);
      assert g in fields + [f];
    }
  }

  const IS_PROTO := (f: string) => f == "ip" || f == "ipv6"
  const IS_PORT := (f: string) => PortOf(f).Some?
  const IS_BAD_PORT := (f: string) => PortOf(f).Some? && Atoi(PortOf(f).value).None?
  const IS_PRIORITY := (f: string) => PriorityOf(f).Some?

  /** A match is trusted when it names a protocol and a port and no port or address in it is malformed. */
  ghost predicate Meaning(fields: seq<string>, m: Match, canon: string -> string) {
    && (m.haveProto <==> SomeField(fields, IS_PROTO))
    && (m.haveInPort || m.malformedPort <==> SomeField(fields, IS_PORT))
    && (m.malformedPort <==> SomeField(fields, IS_BAD_PORT))
    && (m.malformedDst <==> SomeField(fields, f => IsDst(f) && canon(DstAddr(f)) == ""))
    && (m.havePriority <==> SomeField(fields, IS_PRIORITY))
  }

  lemma MeaningStep(fields: seq<string>, f: string, m: Match, canon: string -> string)
    requires Meaning(fields, m, canon)
    ensures Meaning(fields + [f], Absorb(m, f, canon), canon)
  {
    var badDst := (f: string) => IsDst(f) && canon(DstAddr(f)) == "";
    SomeFieldSnoc(fields, f, IS_PROTO);
    SomeFieldSnoc(fields, f, IS_PORT);
    SomeFieldSnoc(fields, f, IS_BAD_PORT);
    SomeFieldSnoc(fields, f, badDst);
    SomeFieldSnoc(fields, f, IS_PRIORITY);
    AbsorbEffect(m, f, canon);
    hide SomeField, Absorb, IsDst, HasPrefix, Atoi, DstAddr, PortOf, PriorityOf;
    assert forall g :: badDst(g) == (IsDst(g) && canon(DstAddr(g)) == "");
  }

  method ParseFlowMatch(text: string, canon: string -> string) returns (key: FlowKey, havePriority: bool, ok: bool)
    ensures var m := Parsed(text, canon);
      key == m.key && havePriority == m.havePriority && ok == m.Ok() && Meaning(Fields(text, IsFieldSep), m, canon)
  {
    var fields := Fields(text, IsFieldSep);
    var m := EMPTY_MATCH;
    for n := 0 to |fields|
      invariant m == Scan(fields[..n], EMPTY_MATCH, canon)
      invariant Meaning(fields[..n], m, canon)
    {
      hide Meaning, Absorb;
      var f := fields[n];
      assert fields[..n + 1] == fields[..n] + [f];
      ScanSnoc(fields[..n], f, EMPTY_MATCH, canon);
      MeaningStep(fields[..n], f, m, canon);
      m := Absorb(m, f, canon);
    }
    assert fields[..|fields|] == fields;
    return m.key, m.havePriority, m.Ok();
  }

  // ---------------------------------------------------------------------------
  // Round trips
  // ---------------------------------------------------------------------------

  predicate Token(s: string) {
    s != "" && SepFree(s, IsFieldSep)
  }

  function MatchFields(first: string, k: FlowKey, dst: seq<string>): seq<string> {
    [first, "priority=" + PrintInt(k.priority), Proto(k.ipv6), "in_port=" + k.inPort] + dst
  }

  lemma TokenConcat(a: string, b: string)
    requires SepFree(a, IsFieldSep) && SepFree(b, IsFieldSep)
    ensures SepFree(a + b, IsFieldSep)
  {
    hide IsFieldSep;
  }

  lemma TokenFree(s: string)
    requires SepFree(s, IsFieldSep)
    ensures Free(s, ',')
  {
  }

  lemma NumbersAreTokens(s: string)
    requires Atoi(s).Some?
    ensures Token(s) && Free(s, ',')
  {
    NumericChars(s);
    forall i | 0 <= i < |s| ensures !IsFieldSep(s[i]) { assert s[i] in s; }
  }

  lemma PrintIsToken(n: int)
    requires -MAX_INT64 - 1 <= n <= MAX_INT64
    ensures Token(PrintInt(n))
  {
    AtoiOfPrint(n);
    NumbersAreTokens(PrintInt(n));
  }

  /** Every field of a printed match is a token. */
  lemma MatchTokens(first: string, k: FlowKey, dst: seq<string>)
    requires Token(first) && -MAX_INT64 - 1 <= k.priority <= MAX_INT64 && Atoi(k.inPort).Some? && forall d :: d in dst ==> Token(d)
    ensures forall f :: f in MatchFields(first, k, dst) ==> Token(f)
    ensures forall i :: 1 <= i < 4 ==> MatchFields(first, k, dst)[i][0] != 'a'
  {
    PrintIsToken(k.priority);
    NumbersAreTokens(k.inPort);
    TokenConcat("priority=", PrintInt(k.priority));
    TokenConcat("in_port=", k.inPort);
    assert Token(Proto(k.ipv6));
    hide SepFree, Atoi, PrintInt;
    assert forall f :: f in MatchFields(first, k, dst) ==> f in MatchFields(first, k, []) || f in dst;
  }

  lemma DstPrefix(prefix: string, rest: string)
    requires prefix in {"nw_dst", "ip_dst", "ipv6_dst"}
    ensures IsDst(prefix + "=" + rest) && CutAt(prefix + "=" + rest, "=") == Some((prefix, rest))
  {
    var f := prefix + "=" + rest;
    assert f == prefix + ("=" + rest);
    assert ("=" + rest)[1..] == rest && ("=" + rest)[..1] == "=";
    CutSkips(prefix, "=" + rest, "=");
    assert prefix + "" == prefix;
    assert f[..|prefix| + 1] == prefix + "=";
  }

  lemma DstFieldAddr(prefix: string, addr: string, mask: string)
    requires prefix in {"nw_dst", "ip_dst", "ipv6_dst"} && Plain(addr) && (mask == "" || mask[0] == '/')
    ensures IsDst(prefix + "=" + addr + mask) && DstAddr(prefix + "=" + addr + mask) == addr
  {
    assert Free(addr, '/');
    hide IsDst, CutAt, Plain, Free;
    DstPrefix(prefix, addr + mask);
    assert prefix + "=" + addr + mask == prefix + "=" + (addr + mask);
    if mask == "" {
      assert addr + mask == addr;
      BeforeOfCut(addr, '/', "");
    } else {
      assert addr + mask == addr + ['/'] + mask[1..];
      BeforeOfCut(addr, '/', mask[1..]);
    }
  }

  /** Scanning the fields of a printed match gives its key. */
  lemma ScanOfFields(first: string, k: FlowKey, dst: seq<string>, canon: string -> string)
    requires |first| > 0 && first[0] == 'c'
    requires WellFormed(k, canon)
    requires if k.dst == "" then dst == [] else |dst| == 1 && IsDst(dst[0]) && canon(DstAddr(dst[0])) == k.dst
    ensures Scan(MatchFields(first, k, dst), EMPTY_MATCH, canon) == Match(k, true, true, true, false, false)
  {
    var priority, port := "priority=" + PrintInt(k.priority), "in_port=" + k.inPort;
    assert priority[..|"priority="|] == "priority=" && priority[|"priority="|..] == PrintInt(k.priority);
    assert port[..|"in_port="|] == "in_port=" && port[|"in_port="|..] == k.inPort;
    AtoiOfPrint(k.priority);
    PrefixAt(first, "priority=", 0);
    PrefixAt(first, "in_port=", 0);
    PrefixAt(first, "nw_dst=", 0);
    PrefixAt(first, "ip_dst=", 0);
    PrefixAt(first, "ipv6_dst=", 0);
    FieldKinds(priority);
    FieldKinds(port);
    assert Absorb(EMPTY_MATCH, first, canon) == EMPTY_MATCH;
    var m1 := EMPTY_MATCH.(havePriority := true, key := EMPTY_MATCH.key.(priority := k.priority));
    assert Absorb(EMPTY_MATCH, priority, canon) == m1;
    var m2 := m1.(haveProto := true, key := m1.key.(ipv6 := k.ipv6));
    assert Absorb(m1, Proto(k.ipv6), canon) == m2;
    var m3 := m2.(haveInPort := true, key := m2.key.(inPort := k.inPort));
    assert Absorb(m2, port, canon) == m3;
    ScanFour(first, priority, Proto(k.ipv6), port, dst, EMPTY_MATCH, canon);
    if k.dst != "" {
      FieldKinds(dst[0]);
      assert dst == [dst[0]] && dst[1..] == [];
      assert Scan(dst, m3, canon) == Absorb(m3, dst[0], canon);
    }
  }

  lemma ScanFour(a: string, b: string, c: string, d: string, rest: seq<string>, m: Match, canon: string -> string)
    ensures Scan([a, b, c, d] + rest, m, canon)
         == Scan(rest, Absorb(Absorb(Absorb(Absorb(m, a, canon), b, canon), c, canon), d, canon), canon)
  {
    var l0, l1, l2, l3 := [a, b, c, d] + rest, [b, c, d] + rest, [c, d] + rest, [d] + rest;
    assert l0[1..] == l1 && l1[1..] == l2 && l2[1..] == l3 && l3[1..] == rest;
    var m1 := Absorb(m, a, canon);
    var m2 := Absorb(m1, b, canon);
    var m3 := Absorb(m2, c, canon);
    hide Absorb;
    assert Scan(l0, m, canon) == Scan(l1, m1, canon);
    assert Scan(l1, m1, canon) == Scan(l2, m2, canon);
    assert Scan(l2, m2, canon) == Scan(l3, m3, canon);
  }

  lemma JoinCons(a: string, rest: seq<string>)
    requires rest != []
    ensures Join([a] + rest, ',') == a + "," + Join(rest, ',')
  {
    assert ([a] + rest)[1..] == rest;
  }

  lemma Regroup(a: string, b: string, c: string, d: string, tail: string)
    ensures a + "," + (b + "," + (c + "," + (d + tail))) == a + "," + b + "," + c + "," + d + tail
  {
  }

  /** The printed match is its fields joined by commas. */
  lemma JoinFour(a: string, b: string, c: string, d: string, rest: seq<string>)
    ensures Join([a, b, c, d] + rest, ',') == a + "," + b + "," + c + "," + d + (if rest == [] then "" else "," + Join(rest, ','))
  {
    var tail := if rest == [] then "" else "," + Join(rest, ',');
    assert Join([d] + rest, ',') == d + tail by {
      if rest == [] { assert [d] + rest == [d] && d + "" == d; } else { JoinCons(d, rest); assert d + "," + Join(rest, ',') == d + ("," + Join(rest, ',')); }
    }
    hide Join;
    JoinCons(c, [d] + rest);
    JoinCons(b, [c] + ([d] + rest));
    JoinCons(a, [b] + ([c] + ([d] + rest)));
    assert [a, b, c, d] + rest == [a] + ([b] + ([c] + ([d] + rest)));
    Regroup(a, b, c, d, tail);
  }

  /** The four fields every match starts with. */
  lemma PrintedHead(first: string, priority: string, proto: string, port: string)
    ensures first + "," + ("priority=" + priority) + "," + proto + "," + ("in_port=" + port)
         == first + ",priority=" + priority + "," + proto + ",in_port=" + port
  {
    assert first + "," + ("priority=" + priority) == first + ",priority=" + priority;
    var head := first + ",priority=" + priority + "," + proto;
    assert head + "," + ("in_port=" + port) == head + ",in_port=" + port;
  }

  lemma ParsedOfJoin(first: string, k: FlowKey, dst: seq<string>, canon: string -> string)
    requires Token(first) && first[0] == 'c'
    requires WellFormed(k, canon)
    requires if k.dst == "" then dst == [] else |dst| == 1 && Token(dst[0]) && IsDst(dst[0]) && canon(DstAddr(dst[0])) == k.dst
    ensures Parsed(Join(MatchFields(first, k, dst), ','), canon) == Match(k, true, true, true, false, false)
  {
    MatchTokens(first, k, dst);
    ScanOfFields(first, k, dst, canon);
    hide MatchFields, WellFormed, Scan, IsDst, DstAddr, SepFree;
    FieldsOfJoin(MatchFields(first, k, dst), ',', IsFieldSep);
  }

  function DeleteFirst(cookie: string): string {
    "cookie=" + cookie + "/-1"
  }

  function DeleteDst(k: FlowKey): seq<string> {
    if k.dst == "" then [] else [(if k.ipv6 then "ipv6_dst" else "nw_dst") + "=" + k.dst]
  }

  lemma DeletePartsAre(k: FlowKey, cookie: string, canon: string -> string)
    requires CanonLaws(canon) && WellFormed(k, canon) && SepFree(cookie, IsFieldSep)
    ensures Token(DeleteFirst(cookie))
    ensures k.dst != "" ==> Token(DeleteDst(k)[0]) && IsDst(DeleteDst(k)[0]) && DstAddr(DeleteDst(k)[0]) == k.dst
  {
    TokenConcat("cookie=", cookie);
    TokenConcat("cookie=" + cookie, "/-1");
    if k.dst != "" {
      var name := if k.ipv6 then "ipv6_dst" else "nw_dst";
      DstFieldAddr(name, k.dst, "");
      assert SepFree(k.dst, IsFieldSep) && SepFree(name + "=", IsFieldSep);
      hide IsDst, DstAddr, SepFree, CanonLaws, WellFormed;
      TokenConcat(name + "=", k.dst);
      assert name + "=" + k.dst + "" == name + "=" + k.dst;
    }
  }

  lemma DstPart(k: FlowKey)
    ensures (if DeleteDst(k) == [] then "" else "," + Join(DeleteDst(k), ','))
         == if k.dst != "" then "," + (if k.ipv6 then "ipv6_dst" else "nw_dst") + "=" + k.dst else ""
  {
    if k.dst != "" {
      var name := if k.ipv6 then "ipv6_dst" else "nw_dst";
      assert "," + (name + "=" + k.dst) == "," + name + "=" + k.dst;
    }
  }

  lemma DeleteMatchIsJoin(k: FlowKey, cookie: string)
    ensures Join(MatchFields(DeleteFirst(cookie), k, DeleteDst(k)), ',') == DeleteMatch(k, cookie)
  {
    var first, priority, proto := DeleteFirst(cookie), PrintInt(k.priority), Proto(k.ipv6);
    assert first + ",priority=" == "cookie=" + cookie + "/-1,priority=";
    hide PrintInt, Proto, Join, DeleteDst, DeleteFirst;
    JoinFour(first, "priority=" + priority, proto, "in_port=" + k.inPort, DeleteDst(k));
    PrintedHead(first, priority, proto, k.inPort);
    DstPart(k);
  }

  /** Parsing a printed strict delete returns the key it deletes. */
  lemma DeleteMatchRoundTrip(k: FlowKey, cookie: string, canon: string -> string)
    requires CanonLaws(canon) && WellFormed(k, canon) && SepFree(cookie, IsFieldSep)
    ensures var m := Parsed(DeleteMatch(k, cookie), canon); m.Ok() && m.havePriority && m.key == k
  {
    var first, dst := DeleteFirst(cookie), DeleteDst(k);
    DeletePartsAre(k, cookie, canon);
    ParsedOfJoin(first, k, dst, canon);
    DeleteMatchIsJoin(k, cookie);
  }

  /** Strict deletes never collide: distinct keys print distinct matches. */
  lemma DeleteMatchInjective(k1: FlowKey, k2: FlowKey, cookie: string, canon: string -> string)
    requires CanonLaws(canon) && WellFormed(k1, canon) && WellFormed(k2, canon) && SepFree(cookie, IsFieldSep)
    ensures DeleteMatch(k1, cookie) == DeleteMatch(k2, cookie) <==> k1 == k2
  {
    DeleteMatchRoundTrip(k1, cookie, canon);
    DeleteMatchRoundTrip(k2, cookie, canon);
  }

  lemma CutLast(f: string, actions: string)
    requires Free(f, ',')
    ensures CutAt(f + ACTIONS + actions, ACTIONS) == Some((f, actions))
  {
    var rest := ACTIONS + actions;
    assert f + ACTIONS + actions == f + rest && rest[..|ACTIONS|] == ACTIONS && rest[|ACTIONS|..] == actions;
    assert f + "" == f;
    CutSkips(f, rest, ACTIONS);
  }

  lemma CutEarlier(f: string, tail: string, actions: string)
    requires Free(f, ',') && tail != "" && tail[0] != 'a' && CutAt(tail + ACTIONS + actions, ACTIONS) == Some((tail, actions))
    ensures CutAt(f + ("," + tail) + ACTIONS + actions, ACTIONS) == Some((f + ("," + tail), actions))
  {
    var rest := "," + (tail + ACTIONS + actions);
    assert f + ("," + tail) + ACTIONS + actions == f + rest;
    assert rest[1] == tail[0];
    PrefixAt(rest, ACTIONS, 1);
    assert rest[1..] == tail + ACTIONS + actions;
    assert CutAt(rest, ACTIONS) == Some(("," + tail, actions));
    CutSkips(f, rest, ACTIONS);
  }

  /** A spec is cut exactly between its match and its actions. */
  lemma {:induction false} CutActions(fields: seq<string>, actions: string)
    requires fields != [] && (forall f :: f in fields ==> Free(f, ','))
    requires forall i :: 1 <= i < |fields| ==> fields[i] != "" && fields[i][0] != 'a'
    ensures CutAt(Join(fields, ',') + ACTIONS + actions, ACTIONS) == Some((Join(fields, ','), actions))
  {
    hide CutAt, Free;
    assert fields[0] in fields;
    if |fields| == 1 {
      CutLast(fields[0], actions);
    } else {
      var tail := Join(fields[1..], ',');
      CutActions(fields[1..], actions);
      JoinStart(fields[1..]);
      CutEarlier(fields[0], tail, actions);
      assert fields[0] + ("," + tail) == Join(fields, ',');
    }
  }

  lemma JoinStart(fields: seq<string>)
    requires fields != [] && fields[0] != ""
    ensures Join(fields, ',') != "" && Join(fields, ',')[0] == fields[0][0]
  {
  }

  // ---------------------------------------------------------------------------
  // Add-flow specs
  // ---------------------------------------------------------------------------

  function FlowActions(spec: string): string {
    match CutAt(spec, ACTIONS)
    case None => ""
    case Some(p) => p.1
  }

  function MatchPart(spec: string): string {
    match CutAt(spec, ACTIONS)
    case None => spec
    case Some(p) => p.0
  }

  function MACTweakKey(ofport: string, ipv6: bool): FlowKey {
    FlowKey(MAC_TWEAK_FLOW_PRIORITY, ipv6, ofport, "")
  }

  function HairpinKey(ofport: string, ip: string, ipv6: bool, canon: string -> string): FlowKey {
    FlowKey(HAIRPIN_FLOW_PRIORITY, ipv6, ofport, canon(ip))
  }

  lemma SpecFields(first: string, k: FlowKey, dst: seq<string>, actions: string)
    requires Token(first) && -MAX_INT64 - 1 <= k.priority <= MAX_INT64 && Atoi(k.inPort).Some?
    requires |dst| <= 1 && forall d :: d in dst ==> Token(d) && d[0] != 'a'
    ensures CutAt(Join(MatchFields(first, k, dst), ',') + ACTIONS + actions, ACTIONS)
         == Some((Join(MatchFields(first, k, dst), ','), actions))
  {
    MatchTokens(first, k, dst);
    var fields := MatchFields(first, k, dst);
    assert forall i :: 4 <= i < |fields| ==> fields[i] == dst[i - 4] && fields[i] in dst;
    hide MatchFields, SepFree, Free, Atoi;
    forall f | f in fields ensures Free(f, ',') { TokenFree(f); }
    assert forall i :: 0 <= i < |fields| ==> fields[i] in fields;
    CutActions(fields, actions);
  }

  lemma MACTweakIsJoin(cookie: string, ofport: string, mac: string, ipv6: bool)
    ensures MACTweakFlow(cookie, ofport, mac, ipv6)
         == Join(MatchFields("cookie=" + cookie, MACTweakKey(ofport, ipv6), []), ',') + ",actions=" + ("mod_dl_dst:" + mac + ",NORMAL")
  {
    var first, priority, proto := "cookie=" + cookie, PrintInt(MAC_TWEAK_FLOW_PRIORITY), Proto(ipv6);
    hide PrintInt, Proto, Join;
    JoinFour(first, "priority=" + priority, proto, "in_port=" + ofport, []);
    PrintedHead(first, priority, proto, ofport);
    var h := first + ",priority=" + priority + "," + proto + ",in_port=" + ofport;
    assert h + "" == h;
    assert h + ACTIONS + ("mod_dl_dst:" + mac + ",NORMAL") == h + ",actions=mod_dl_dst:" + mac + ",NORMAL";
  }

  lemma HairpinIsJoin(cookie: string, ofport: string, ip: string, bridgeMAC: string, routerMAC: string, ipv6: bool, canon: string -> string)
    ensures HairpinFlow(cookie, ofport, ip, bridgeMAC, routerMAC, ipv6)
         == Join(MatchFields("cookie=" + cookie, HairpinKey(ofport, ip, ipv6, canon), [HairpinDst(ip, ipv6)]), ',')
            + ",actions=" + HairpinActions(bridgeMAC, routerMAC)
  {
    var first, priority, proto, dst := "cookie=" + cookie, PrintInt(HAIRPIN_FLOW_PRIORITY), Proto(ipv6), HairpinDst(ip, ipv6);
    assert Join([dst], ',') == dst;
    hide PrintInt, HairpinDst, HairpinActions, Proto, Join;
    JoinFour(first, "priority=" + priority, proto, "in_port=" + ofport, [dst]);
    PrintedHead(first, priority, proto, ofport);
    var h := first + ",priority=" + priority + "," + proto + ",in_port=" + ofport;
    assert h + ("," + dst) == h + "," + dst;
  }

  /** A MAC-tweak spec parses back to the key the diff uses, and is cut at its actions. */
  lemma MACTweakRoundTrip(cookie: string, ofport: string, mac: string, ipv6: bool, canon: string -> string)
    requires CanonLaws(canon) && Atoi(ofport).Some? && SepFree(cookie, IsFieldSep)
    ensures var spec := MACTweakFlow(cookie, ofport, mac, ipv6);
      && Parsed(MatchPart(spec), canon) == Match(MACTweakKey(ofport, ipv6), true, true, true, false, false)
      && FlowActions(spec) == "mod_dl_dst:" + mac + ",NORMAL"
  {
    var first, k := "cookie=" + cookie, MACTweakKey(ofport, ipv6);
    assert Token(first);
    ParsedOfJoin(first, k, [], canon);
    SpecFields(first, k, [], "mod_dl_dst:" + mac + ",NORMAL");
    MACTweakIsJoin(cookie, ofport, mac, ipv6);
  }

  lemma CanonPlain(ip: string, canon: string -> string)
    requires CanonLaws(canon) && canon(ip) != ""
    ensures Plain(ip)
  {
  }

  lemma HairpinDstIs(ip: string, ipv6: bool, canon: string -> string)
    requires CanonLaws(canon) && canon(ip) != ""
    ensures var d := HairpinDst(ip, ipv6); Token(d) && Free(d, ',') && d[0] != 'a' && IsDst(d) && DstAddr(d) == ip
  {
    CanonPlain(ip, canon);
    hide CanonLaws, IsDst, DstAddr, Plain, Token, Free;
    if ipv6 {
      DstIsToken("ipv6_dst", ip, "/128");
      assert "ipv6_dst" + "=" == "ipv6_dst=";
    } else {
      DstIsToken("ip_dst", ip, "/32");
      assert "ip_dst" + "=" == "ip_dst=";
    }
  }

  lemma DstIsToken(name: string, ip: string, mask: string)
    requires name in {"ip_dst", "ipv6_dst"} && mask in {"/32", "/128"} && Plain(ip)
    ensures var d := name + "=" + ip + mask; Token(d) && Free(d, ',') && d[0] != 'a' && IsDst(d) && DstAddr(d) == ip
  {
    DstFieldAddr(name, ip, mask);
    hide IsDst, DstAddr, HasPrefix;
    TokenConcat(name + "=", ip);
    TokenConcat(name + "=" + ip, mask);
    TokenFree(name + "=" + ip + mask);
    assert (name + "=" + ip + mask)[0] == name[0];
  }

  /** A hairpin spec parses back to the key the diff uses, with the address in its canonical form. */
  lemma HairpinRoundTrip(cookie: string, ofport: string, ip: string, bridgeMAC: string, routerMAC: string, ipv6: bool, canon: string -> string)
    requires CanonLaws(canon) && Atoi(ofport).Some? && SepFree(cookie, IsFieldSep) && canon(ip) != ""
    ensures var spec := HairpinFlow(cookie, ofport, ip, bridgeMAC, routerMAC, ipv6);
      && Parsed(MatchPart(spec), canon) == Match(HairpinKey(ofport, ip, ipv6, canon), true, true, true, false, false)
      && FlowActions(spec) == HairpinActions(bridgeMAC, routerMAC)
  {
    var first, k, dst := "cookie=" + cookie, HairpinKey(ofport, ip, ipv6, canon), [HairpinDst(ip, ipv6)];
    assert Token(first) && Free(first, ',');
    HairpinDstIs(ip, ipv6, canon);
    ParsedOfJoin(first, k, dst, canon);
    SpecFields(first, k, dst, HairpinActions(bridgeMAC, routerMAC));
    HairpinIsJoin(cookie, ofport, ip, bridgeMAC, routerMAC, ipv6, canon);
  }

  // ---------------------------------------------------------------------------
  // One spelling for actions
  // ---------------------------------------------------------------------------

  lemma LowerOfConcat(a: string, b: string)
    ensures Lower(a + b) == Lower(a) + Lower(b)
  {
  }

  lemma LowerTokens(s: string)
    requires SepFree(s, IsFieldSep)
    ensures SepFree(Lower(s), IsFieldSep)
  {
  }

  function NormalPart(part: string): string {
    var p := TrimSpace(part);
    if p == "in_port" then "output:in_port"
    else if HasPrefix(p, "set_field:") && HasSuffix(p, "->eth_src") && |p| >= 19 then "mod_dl_src:" + p[10..|p| - 9]
    else if HasPrefix(p, "set_field:") && HasSuffix(p, "->eth_dst") && |p| >= 19 then "mod_dl_dst:" + p[10..|p| - 9]
    else p
  }

  function NormalParts(parts: seq<string>): (r: seq<string>)
    ensures |r| == |parts| && forall i :: 0 <= i < |r| ==> r[i] == NormalPart(parts[i])
  {
    if parts == [] then [] else [NormalPart(parts[0])] + NormalParts(parts[1..])
  }

  function Normalized(actions: string): string {
    Join(NormalParts(Split(Lower(actions), ',')), ',')
  }

  method NormalizeActions(actions: string) returns (r: string)
    ensures r == Normalized(actions)
  {
    var parts := Split(Lower(actions), ',');
    ghost var was := parts;
    for i := 0 to |parts|
      invariant |parts| == |was|
      invariant forall j :: 0 <= j < i ==> parts[j] == NormalPart(was[j])
      invariant forall j :: i <= j < |was| ==> parts[j] == was[j]
    {
      parts := parts[i := NormalPart(parts[i])];
    }
    assert parts == NormalParts(was);
    r := Join(parts, ',');
  }

  /** The spellings ovs-ofctl may echo a MAC rewrite and the output action in, after lower-casing. */
  predicate SrcSpelling(text: string, mac: string) {
    text == "mod_dl_src:" + mac || text == "set_field:" + mac + "->eth_src"
  }

  predicate DstSpelling(text: string, mac: string) {
    text == "mod_dl_dst:" + mac || text == "set_field:" + mac + "->eth_dst"
  }

  lemma TokenTrims(s: string)
    requires SepFree(s, IsFieldSep)
    ensures TrimSpace(s) == s
  {
  }

  lemma Affixes(p: string, m: string, q: string)
    ensures var t := p + m + q; HasPrefix(t, p) && HasSuffix(t, q) && t[|p|..|t| - |q|] == m
  {
  }

  lemma SuffixAt(s: string, p: string, i: nat)
    requires i < |p| <= |s| && s[|s| - |p| + i] != p[i]
    ensures !HasSuffix(s, p)
  {
    assert s[|s| - |p|..][i] == s[|s| - |p| + i];
  }

  lemma NormalSrc(text: string, mac: string)
    requires SrcSpelling(text, mac) && SepFree(mac, IsFieldSep)
    ensures SepFree(text, IsFieldSep) && NormalPart(text) == "mod_dl_src:" + mac
  {
    hide HasPrefix, HasSuffix, TrimSpace;
    if text == "mod_dl_src:" + mac {
      TokenConcat("mod_dl_src:", mac);
      TokenTrims(text);
      PrefixAt(text, "set_field:", 0);
    } else {
      TokenConcat("set_field:", mac);
      TokenConcat("set_field:" + mac, "->eth_src");
      TokenTrims(text);
      Affixes("set_field:", mac, "->eth_src");
    }
  }

  lemma NormalDst(text: string, mac: string)
    requires DstSpelling(text, mac) && SepFree(mac, IsFieldSep)
    ensures SepFree(text, IsFieldSep) && NormalPart(text) == "mod_dl_dst:" + mac
  {
    hide HasPrefix, HasSuffix, TrimSpace;
    if text == "mod_dl_dst:" + mac {
      TokenConcat("mod_dl_dst:", mac);
      TokenTrims(text);
      PrefixAt(text, "set_field:", 0);
    } else {
      TokenConcat("set_field:", mac);
      TokenConcat("set_field:" + mac, "->eth_dst");
      TokenTrims(text);
      Affixes("set_field:", mac, "->eth_dst");
      SuffixAt(text, "->eth_src", 6);
    }
  }

  lemma NormalOut(text: string)
    requires text == "in_port" || text == "output:in_port"
    ensures SepFree(text, IsFieldSep) && NormalPart(text) == "output:in_port"
  {
    PrefixAt(text, "set_field:", 0);
    assert |text| == 14 ==> text != "in_port";
    OutIsToken(text);
    TokenTrims(text);
    hide SepFree, IsFieldSep, TrimSpace, HasPrefix, HasSuffix;
  }

  lemma OutIsToken(text: string)
    requires text == "in_port" || text == "output:in_port"
    ensures SepFree(text, IsFieldSep)
  {
  }

  lemma JoinThree(a: string, b: string, c: string)
    ensures Join([a, b, c], ',') == Comma3(a, b, c)
  {
    assert [a, b, c][1..] == [b, c] && [b, c][1..] == [c];
    assert Join([c], ',') == c;
    assert Join([b, c], ',') == b + "," + c;
    assert a + "," + (b + "," + c) == a + "," + b + "," + c;
  }

  lemma SplitOfThree(a: string, b: string, c: string)
    requires SepFree(a, IsFieldSep) && SepFree(b, IsFieldSep) && SepFree(c, IsFieldSep)
    ensures Split(Comma3(a, b, c), ',') == [a, b, c]
  {
    TokenFree(a);
    TokenFree(b);
    TokenFree(c);
    JoinThree(a, b, c);
    SplitOfJoin([a, b, c], ',');
  }

  lemma ThreeInjective(a1: string, b1: string, c1: string, a2: string, b2: string, c2: string)
    requires SepFree(a1, IsFieldSep) && SepFree(b1, IsFieldSep) && SepFree(c1, IsFieldSep)
    requires SepFree(a2, IsFieldSep) && SepFree(b2, IsFieldSep) && SepFree(c2, IsFieldSep)
    ensures Comma3(a1, b1, c1) == Comma3(a2, b2, c2) <==> a1 == a2 && b1 == b2 && c1 == c2
  {
    SplitOfThree(a1, b1, c1);
    SplitOfThree(a2, b2, c2);
  }

  predicate NoUpper(s: string) {
    forall i :: 0 <= i < |s| ==> !('A' <= s[i] <= 'Z')
  }

  lemma LowerOfThree(a: string, b: string, c: string)
    requires NoUpper(c)
    ensures Lower(Comma3(a, b, c)) == Comma3(Lower(a), Lower(b), c)
  {
    assert Comma3(a, b, c) == a + ("," + (b + ("," + c)));
    assert Comma3(Lower(a), Lower(b), c) == Lower(a) + ("," + (Lower(b) + ("," + c)));
    LowerOfConcat(a, "," + (b + ("," + c)));
    LowerPrefix(",", b + ("," + c));
    LowerOfConcat(b, "," + c);
    LowerOfLower("," + c);
  }

  lemma LowerOfLower(s: string)
    requires NoUpper(s)
    ensures Lower(s) == s
  {
  }

  lemma LowerPrefix(p: string, s: string)
    requires NoUpper(p)
    ensures Lower(p + s) == p + Lower(s)
  {
    LowerOfConcat(p, s);
    LowerOfLower(p);
  }

  /** A dumped hairpin action list normalises to one text that depends on the two MACs only. */
  lemma EchoNormalizes(echo: string, src: string, dst: string, out: string, bridgeMAC: string, routerMAC: string)
    requires SepFree(bridgeMAC, IsFieldSep) && SepFree(routerMAC, IsFieldSep)
    requires SrcSpelling(src, bridgeMAC) && DstSpelling(dst, routerMAC) && out in {"in_port", "output:in_port"}
    requires Lower(echo) == Comma3(src, dst, out)
    ensures Normalized(echo) == HairpinActions(bridgeMAC, routerMAC)
  {
    NormalSrc(src, bridgeMAC);
    NormalDst(dst, routerMAC);
    NormalOut(out);
    SplitOfThree(src, dst, out);
    var a, b, c := "mod_dl_src:" + bridgeMAC, "mod_dl_dst:" + routerMAC, "output:in_port";
    hide NormalPart, SrcSpelling, DstSpelling, Split, Lower, Comma3;
    assert NormalParts([src, dst, out]) == [a, b, c];
    JoinThree(a, b, c);
  }

  lemma LowerHairpin(bridgeMAC: string, routerMAC: string)
    ensures Lower(HairpinActions(bridgeMAC, routerMAC)) == HairpinActions(Lower(bridgeMAC), Lower(routerMAC))
  {
    LowerOfThree("mod_dl_src:" + bridgeMAC, "mod_dl_dst:" + routerMAC, "output:in_port");
    LowerPrefix("mod_dl_src:", bridgeMAC);
    LowerPrefix("mod_dl_dst:", routerMAC);
  }

  lemma NormalOfSpec(bridgeMAC: string, routerMAC: string)
    requires SepFree(bridgeMAC, IsFieldSep) && SepFree(routerMAC, IsFieldSep)
    ensures Normalized(HairpinActions(bridgeMAC, routerMAC)) == HairpinActions(Lower(bridgeMAC), Lower(routerMAC))
  {
    var b, r := Lower(bridgeMAC), Lower(routerMAC);
    LowerHairpin(bridgeMAC, routerMAC);
    LowerTokens(bridgeMAC);
    LowerTokens(routerMAC);
    hide Comma3, Lower, Normalized;
    EchoNormalizes(HairpinActions(bridgeMAC, routerMAC), "mod_dl_src:" + b, "mod_dl_dst:" + r, "output:in_port", b, r);
  }

  /** The diff sees no change when ovs-ofctl only respells the actions, and sees every change of a MAC. */
  lemma ActionsCompare(echo: string, src: string, dst: string, out: string, mac1: string, mac2: string, bridgeMAC: string, routerMAC: string)
    requires SepFree(mac1, IsFieldSep) && SepFree(mac2, IsFieldSep)
    requires SepFree(bridgeMAC, IsFieldSep) && SepFree(routerMAC, IsFieldSep)
    requires SrcSpelling(src, mac1) && DstSpelling(dst, mac2) && out in {"in_port", "output:in_port"}
    requires Lower(echo) == Comma3(src, dst, out)
    ensures Normalized(echo) == Normalized(HairpinActions(bridgeMAC, routerMAC)) <==> mac1 == Lower(bridgeMAC) && mac2 == Lower(routerMAC)
  {
    EchoNormalizes(echo, src, dst, out, mac1, mac2);
    NormalOfSpec(bridgeMAC, routerMAC);
    LowerTokens(bridgeMAC);
    LowerTokens(routerMAC);
    hide Comma3, Lower, Normalized;
    ActionsInjective(mac1, mac2, Lower(bridgeMAC), Lower(routerMAC));
  }

  lemma ActionsInjective(a1: string, b1: string, a2: string, b2: string)
    requires SepFree(a1, IsFieldSep) && SepFree(a2, IsFieldSep) && SepFree(b1, IsFieldSep) && SepFree(b2, IsFieldSep)
    ensures HairpinActions(a1, b1) == HairpinActions(a2, b2) <==> a1 == a2 && b1 == b2
  {
    var x1, y1, x2, y2 := "mod_dl_src:" + a1, "mod_dl_dst:" + b1, "mod_dl_src:" + a2, "mod_dl_dst:" + b2;
    ThreeInjective(x1, y1, "output:in_port", x2, y2, "output:in_port");
    assert x1[11..] == a1 && x2[11..] == a2 && y1[11..] == b1 && y2[11..] == b2;
  }

  // ---------------------------------------------------------------------------
  // The desired planes
  // ---------------------------------------------------------------------------

  function BindingFor(segments: map<string, Binding>, name: string): Option<Binding> {
    if name in segments then Some(segments[name])
    else if "" in segments then Some(segments[""])
    else None
  }

  function TweakFlow(b: Binding, ipv6: bool): DesiredFlow {
    var spec := MACTweakFlow(OVS_COOKIE_MAC_TWEAK, b.ofport, b.kernelMAC, ipv6);
    DesiredFlow(MACTweakKey(b.ofport, ipv6), Normalized(FlowActions(spec)), spec)
  }

  ghost predicate DistinctKeys(flows: seq<DesiredFlow>) {
    forall i, j :: 0 <= i < j < |flows| ==> flows[i].key != flows[j].key
  }

  ghost predicate TweakOf(segments: map<string, Binding>, f: DesiredFlow) {
    exists name, ipv6 :: name in segments && f == TweakFlow(segments[name], ipv6)
  }

  /** Both flows of every port in `ports`, one per key, and nothing else. */
  ghost predicate TweakPlane(segments: map<string, Binding>, ports: set<string>, flows: seq<DesiredFlow>) {
    && DistinctKeys(flows)
    && (forall f :: f in flows ==> TweakOf(segments, f) && f.key.inPort in ports)
    && (forall port, ipv6 :: port in ports ==> exists f :: f in flows && f.key == MACTweakKey(port, ipv6))
  }

  lemma TweakStep(segments: map<string, Binding>, ports: set<string>, flows: seq<DesiredFlow>, name: string)
    requires TweakPlane(segments, ports, flows) && name in segments && segments[name].ofport !in ports
    ensures TweakPlane(segments, ports + {segments[name].ofport}, flows + [TweakFlow(segments[name], false), TweakFlow(segments[name], true)])
  {
    hide MACTweakFlow, FlowActions, Normalized;
    var b := segments[name];
    var v4, v6 := TweakFlow(b, false), TweakFlow(b, true);
    var more := flows + [v4, v6];
    assert forall f :: f in more <==> f in flows || f == v4 || f == v6;
    assert TweakOf(segments, v4) && TweakOf(segments, v6);
    assert v4.key == MACTweakKey(b.ofport, false) && v6.key == MACTweakKey(b.ofport, true);
    forall port, ipv6 | port in ports + {b.ofport}
      ensures exists f :: f in more && f.key == MACTweakKey(port, ipv6)
    {
      var k := MACTweakKey(port, ipv6);
      if port == b.ofport {
        var f := if ipv6 then v6 else v4;
        assert f in more && f.key == k;
      } else {
        assert port in ports;
        assert exists f :: f in flows && f.key == MACTweakKey(port, ipv6);
      }
    }
  }

  /** An IPv4 and an IPv6 flow per patch port: one key each, however many segments share the port. */
  method DesiredMACTweakFlows(segments: map<string, Binding>) returns (desired: seq<DesiredFlow>)
    ensures TweakPlane(segments, set name | name in segments :: segments[name].ofport, desired)
  {
    desired := [];
    var seenOfports := {};
    var keys := SortedKeys(segments.Keys);
    ghost var ports := set name | name in segments :: segments[name].ofport;
    for n := 0 to |keys|
      invariant TweakPlane(segments, seenOfports, desired) && seenOfports <= ports
      invariant forall i :: 0 <= i < n ==> segments[keys[i]].ofport in seenOfports
    {
      hide TweakPlane, TweakFlow;
      var b := segments[keys[n]];
      if b.ofport !in seenOfports {
        TweakStep(segments, seenOfports, desired, keys[n]);
        seenOfports := seenOfports + {b.ofport};
        desired := desired + [TweakFlow(b, false), TweakFlow(b, true)];
      }
    }
    hide TweakPlane;
    assert seenOfports == ports by {
      forall name | name in segments ensures segments[name].ofport in seenOfports {
        assert name in keys;
      }
    }
  }

  // The hairpin plane. `v6` says of an address text whether it is IPv6, which its canonical form decides.

  ghost predicate FamilyLaw(canon: string -> string, v6: string -> bool) {
    forall a, b :: canon(a) == canon(b) ==> v6(a) == v6(b)
  }

  datatype Target = Target(routerMAC: string, segment: string)

  /** The agent can render a flow for this target. */
  predicate Renderable(ip: string, t: Target, segments: map<string, Binding>, canon: string -> string) {
    canon(ip) != "" && BindingFor(segments, t.segment).Some?
  }

  function HairpinFlowFor(ip: string, t: Target, segments: map<string, Binding>, canon: string -> string, v6: string -> bool): DesiredFlow
    requires Renderable(ip, t, segments, canon)
  {
    var b := BindingFor(segments, t.segment).value;
    var spec := HairpinFlow(OVS_COOKIE_HAIRPIN, b.ofport, ip, b.kernelMAC, t.routerMAC, v6(ip));
    DesiredFlow(HairpinKey(b.ofport, ip, v6(ip), canon), Normalized(FlowActions(spec)), spec)
  }

  ghost predicate HairpinOf(ip: string, f: DesiredFlow, targets: map<string, Target>, segments: map<string, Binding>,
                            canon: string -> string, v6: string -> bool) {
    ip in targets && Renderable(ip, targets[ip], segments, canon) && f == HairpinFlowFor(ip, targets[ip], segments, canon, v6)
  }

  /** Two targets that are the same address reached through the same patch port. */
  ghost predicate SameAddress(targets: map<string, Target>, segments: map<string, Binding>, canon: string -> string, a: string, b: string) {
    && a in targets && b in targets && a != b && canon(a) == canon(b)
    && Renderable(a, targets[a], segments, canon) && Renderable(b, targets[b], segments, canon)
    && BindingFor(segments, targets[a].segment).value.ofport == BindingFor(segments, targets[b].segment).value.ofport
  }

  /**
   One flow per target that can be rendered. The keys are distinct unless two target texts
   spell one address on one port.
   */
  method DesiredHairpinFlows(targets: map<string, Target>, segments: map<string, Binding>, canon: string -> string, v6: string -> bool)
    returns (desired: seq<DesiredFlow>)
    requires FamilyLaw(canon, v6)
    ensures forall f :: f in desired <==> exists ip :: HairpinOf(ip, f, targets, segments, canon, v6)
    ensures DistinctKeys(desired) <==> forall a, b :: !SameAddress(targets, segments, canon, a, b)
  {
    hide Rendered, HairpinFlowFor, Renderable, FamilyLaw, HairpinOf, SameAddress, DistinctKeys;
    desired := [];
    ghost var from, done := [], {};
    assert Rendered(from, desired, done, targets, segments, canon, v6) by { EmptyRendered(targets, segments, canon, v6); }
    var todo := targets.Keys;
    while todo != {}
      invariant todo <= targets.Keys && done == targets.Keys - todo
      invariant Rendered(from, desired, done, targets, segments, canon, v6)
      decreases |todo|
    {
      var ip :| ip in todo;
      RenderStep(from, desired, done, ip, targets, segments, canon, v6);
      todo, done := todo - {ip}, done + {ip};
      if Renderable(ip, targets[ip], segments, canon) {
        desired := desired + [HairpinFlowFor(ip, targets[ip], segments, canon, v6)];
        from := from + [ip];
      }
    }
    assert done == targets.Keys;
    RenderedAll(from, desired, targets, segments, canon, v6);
    HairpinKeysDistinct(from, desired, targets, segments, canon, v6);
  }

  lemma EmptyRendered(targets: map<string, Target>, segments: map<string, Binding>, canon: string -> string, v6: string -> bool)
    ensures Rendered([], [], {}, targets, segments, canon, v6)
  {
  }

  ghost predicate Rendered(from: seq<string>, desired: seq<DesiredFlow>, done: set<string>, targets: map<string, Target>,
                           segments: map<string, Binding>, canon: string -> string, v6: string -> bool) {
    && |from| == |desired|
    && (forall i :: 0 <= i < |from| ==> from[i] in done && HairpinOf(from[i], desired[i], targets, segments, canon, v6))
    && (forall ip :: ip in done && ip in targets && Renderable(ip, targets[ip], segments, canon) ==> ip in from)
    && (forall i, j :: 0 <= i < j < |from| ==> from[i] != from[j])
  }

  lemma RenderStep(from: seq<string>, desired: seq<DesiredFlow>, done: set<string>, ip: string, targets: map<string, Target>,
                   segments: map<string, Binding>, canon: string -> string, v6: string -> bool)
    requires Rendered(from, desired, done, targets, segments, canon, v6) && ip in targets && ip !in done
    ensures if Renderable(ip, targets[ip], segments, canon)
            then Rendered(from + [ip], desired + [HairpinFlowFor(ip, targets[ip], segments, canon, v6)], done + {ip}, targets, segments, canon, v6)
            else Rendered(from, desired, done + {ip}, targets, segments, canon, v6)
  {
    hide HairpinFlowFor;
    if Renderable(ip, targets[ip], segments, canon) {
      var f := HairpinFlowFor(ip, targets[ip], segments, canon, v6);
      assert HairpinOf(ip, f, targets, segments, canon, v6);
      var from', desired' := from + [ip], desired + [f];
      assert forall x :: x in from' <==> x in from || x == ip;
      forall i | 0 <= i < |from'|
        ensures from'[i] in done + {ip} && HairpinOf(from'[i], desired'[i], targets, segments, canon, v6)
      {
        if i < |from| { assert from'[i] == from[i] && desired'[i] == desired[i]; }
      }
    }
  }

  lemma RenderedAll(from: seq<string>, desired: seq<DesiredFlow>, targets: map<string, Target>,
                    segments: map<string, Binding>, canon: string -> string, v6: string -> bool)
    requires Rendered(from, desired, targets.Keys, targets, segments, canon, v6)
    ensures forall f :: f in desired <==> exists ip :: HairpinOf(ip, f, targets, segments, canon, v6)
  {
    hide HairpinFlowFor;
    forall f | exists ip :: HairpinOf(ip, f, targets, segments, canon, v6)
      ensures f in desired
    {
      var ip :| HairpinOf(ip, f, targets, segments, canon, v6);
      var i :| 0 <= i < |from| && from[i] == ip;
      assert HairpinOf(from[i], desired[i], targets, segments, canon, v6);
    }
    forall f | f in desired
      ensures exists ip :: HairpinOf(ip, f, targets, segments, canon, v6)
    {
      var i :| 0 <= i < |desired| && desired[i] == f;
      assert HairpinOf(from[i], desired[i], targets, segments, canon, v6);
    }
  }

  lemma HairpinKeysDistinct(from: seq<string>, desired: seq<DesiredFlow>, targets: map<string, Target>, segments: map<string, Binding>,
                            canon: string -> string, v6: string -> bool)
    requires FamilyLaw(canon, v6) && Rendered(from, desired, targets.Keys, targets, segments, canon, v6)
    ensures DistinctKeys(desired) <==> forall a, b :: !SameAddress(targets, segments, canon, a, b)
  {
    hide HairpinFlow, FlowActions, Normalized;
    forall i: nat, j: nat | i < j < |from|
      ensures desired[i].key == desired[j].key <==> SameAddress(targets, segments, canon, from[i], from[j])
    {
      assert HairpinOf(from[i], desired[i], targets, segments, canon, v6);
    }
    if a, b :| SameAddress(targets, segments, canon, a, b) {
      var i :| 0 <= i < |from| && from[i] == a;
      var j :| 0 <= j < |from| && from[j] == b;
      assert SameAddress(targets, segments, canon, b, a);
      assert desired[i].key == desired[j].key;
    }
  }
}
