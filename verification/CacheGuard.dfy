/**
 The consistency guard over the monitor cache: a snapshot is trusted only if its content keys
 are the server's. A key renders the check columns of a row, so the guard is as good as the
 rendering is injective. Rows from the server carry sets in the encoding of section 5.1 of
 RFC 7047.
 */
module CacheGuard {
  import opened Common
  import opened Text

  /** The unit separator. */
  const US := '\U{1F}'

  // ---------------------------------------------------------------------------
  // Raw rows
  // ---------------------------------------------------------------------------

  datatype Atom = Str(s: string) | Ref(uuid: string) | Num(n: int)

  /** A value on the wire: an atom, a set, or a map. */
  datatype Value = Bare(atom: Atom) | OvsSet(atoms: seq<Atom>) | OvsMap(entries: map<Atom, Atom>)

  type Row = map<string, Value>

  function Strings(atoms: seq<Atom>): seq<string> {
    if atoms == [] then []
    else Strings(atoms[..|atoms| - 1]) + match atoms[|atoms| - 1] { case Str(s) => [s] case Ref(u) => [u] case Num(_) => [] }
  }

  /** A set-valued column as a list; a set of exactly one element is the bare element. */
  function SetOf(row: Row, col: string): seq<string> {
    if col !in row then []
    else match row[col]
      case Bare(Str(s)) => [s]
      case Bare(Ref(u)) => [u]
      case OvsSet(atoms) => Strings(atoms)
      case _ => []
  }

  method OvsSetToStrings(row: Row, col: string) returns (out: seq<string>)
    ensures out == SetOf(row, col)
  {
    if col !in row {
      return [];
    }
    match row[col] {
      case Bare(Str(s)) =>
        return [s];
      case Bare(Ref(u)) =>
        return [u];
      case OvsSet(atoms) =>
        out := [];
        for n := 0 to |atoms|
          invariant out == Strings(atoms[..n])
        {
          assert atoms[..n + 1][..n] == atoms[..n];
          if atoms[n].Str? {
            out := out + [atoms[n].s];
          } else if atoms[n].Ref? {
            out := out + [atoms[n].uuid];
          }
        }
        assert atoms[..|atoms|] == atoms;
      case _ =>
        return [];
    }
  }

  function UUIDOf(row: Row): string {
    if "_uuid" in row && row["_uuid"].Bare? && row["_uuid"].atom.Ref? then row["_uuid"].atom.uuid else ""
  }

  function StringOf(row: Row, col: string): string {
    if col in row && row[col].Bare? && row[col].atom.Str? then row[col].atom.s else ""
  }

  function RefOf(row: Row, col: string): string {
    if col in row && row[col].Bare? && !row[col].atom.Num? then (if row[col].atom.Str? then row[col].atom.s else row[col].atom.uuid) else ""
  }

  function OptStringOf(row: Row, col: string): Option<string> {
    var vals := SetOf(row, col);
    if vals == [] then None else Some(vals[0])
  }

  function OptIntOf(row: Row, col: string): Option<int> {
    if col !in row then None
    else match row[col]
      case Bare(Num(n)) => Some(n)
      case OvsSet(atoms) => if atoms != [] && atoms[0].Num? then Some(atoms[0].n) else None
      case _ => None
  }

  function MapOf(row: Row, col: string): map<string, string> {
    if col in row && row[col].OvsMap? then StringMapOf(row[col].entries) else map[]
  }

  /** The entries whose key and value are strings. */
  function StringMapOf(entries: map<Atom, Atom>): map<string, string> {
    map k | k in (set a | a in entries && a.Str? :: a.s) && entries[Str(k)].Str? :: entries[Str(k)].s
  }

  method RowStringMap(entries: map<Atom, Atom>) returns (out: map<string, string>)
    ensures out == StringMapOf(entries)
  {
    out := map[];
    var todo := entries.Keys;
    while todo != {}
      invariant todo <= entries.Keys
      invariant forall k :: k in out <==> Str(k) in entries.Keys - todo && entries[Str(k)].Str?
      invariant forall k :: k in out ==> out[k] == entries[Str(k)].s
      decreases |todo|
    {
      var a :| a in todo;
      todo := todo - {a};
      if a.Str? && entries[a].Str? {
        out := out[a.s := entries[a].s];
      }
    }
  }

  // What the server sends for a column.

  function EncodeSet(atoms: seq<Atom>): Value {
    if |atoms| == 1 then Bare(atoms[0]) else OvsSet(atoms)
  }

  function EncodeOption(v: Option<Atom>): Value {
    if v.None? then OvsSet([]) else Bare(v.value)
  }

  function EncodeMap(m: map<string, string>): Value {
    OvsMap(map k | k in m :: Str(k) := Str(m[k]))
  }

  /** The text of a string or of a reference. */
  function AtomText(a: Atom): string
    requires !a.Num?
  {
    if a.Str? then a.s else a.uuid
  }

  function Texts(atoms: seq<Atom>): seq<string>
    requires forall a :: a in atoms ==> !a.Num?
  {
    seq(|atoms|, (i: nat) requires i < |atoms| => AtomText(atoms[i]))
  }

  lemma {:induction false} StringsOfTexts(atoms: seq<Atom>)
    requires forall a :: a in atoms ==> !a.Num?
    ensures Strings(atoms) == Texts(atoms)
  {
    if atoms != [] {
      assert atoms[|atoms| - 1] in atoms;
      StringsOfTexts(atoms[..|atoms| - 1]);
      assert Texts(atoms) == Texts(atoms[..|atoms| - 1]) + [AtomText(atoms[|atoms| - 1])];
    }
  }

  /** Decoding a column of strings or references, a map or an optional number gives back what was encoded. */
  lemma ColumnRoundTrip(row: Row, col: string, atoms: seq<Atom>, v: Option<Atom>, m: map<string, string>, n: Option<int>)
    requires col in row && (forall a :: a in atoms ==> !a.Num?) && (v.Some? ==> !v.value.Num?)
    ensures row[col] == EncodeSet(atoms) ==> SetOf(row, col) == Texts(atoms)
    ensures row[col] == EncodeOption(v) ==> OptStringOf(row, col) == (if v.None? then None else Some(AtomText(v.value)))
    ensures row[col] == EncodeMap(m) ==> MapOf(row, col) == m
    ensures row[col] == EncodeOption(if n.None? then None else Some(Num(n.value))) ==> OptIntOf(row, col) == n
  {
    StringsOfTexts(atoms);
    if row[col] == EncodeSet(atoms) && |atoms| == 1 {
      assert atoms[0] in atoms && Texts(atoms) == [AtomText(atoms[0])];
    }
    if row[col] == EncodeMap(m) {
      StringMapOfEncoded(m);
    }
  }

  lemma StringMapOfEncoded(m: map<string, string>)
    ensures StringMapOf(EncodeMap(m).entries) == m
  {
    var entries := EncodeMap(m).entries;
    var got := StringMapOf(entries);
    forall k ensures k in got <==> k in m {
      assert k in m <==> Str(k) in entries;
      if Str(k) in entries { assert Str(k).s in (set a | a in entries && a.Str? :: a.s); }
    }
  }

  // ---------------------------------------------------------------------------
  // Content keys
  // ---------------------------------------------------------------------------

  /** A check column. */
  datatype Column =
    | Scalar(text: string)
    | Members(members: seq<string>)
    | Optional(opt: Option<string>)
    | OptInt(num: Option<int>)
    | Dict(dict: map<string, string>)

  function SortedJoined(values: seq<string>): string {
    Join(SortStrings(values), ',')
  }

  method SortedJoin(values: seq<string>) returns (r: string)
    ensures r == SortedJoined(values)
  {
    var sorted := values;
    sorted := SortStrings(sorted);
    r := Join(sorted, ',');
  }

  function OptText(o: Option<string>): string {
    if o.None? then "" else o.value
  }

  function OptNum(o: Option<int>): string {
    if o.None? then "" else PrintInt(o.value)
  }

  function Render(c: Column): string {
    match c
    case Scalar(s) => s
    case Members(ms) => SortedJoined(ms)
    case Optional(o) => OptText(o)
    case OptInt(n) => OptNum(n)
    case Dict(d) => GoFormat(d)
  }

  function Rendered(cs: seq<Column>): seq<string> {
    seq(|cs|, (i: nat) requires i < |cs| => Render(cs[i]))
  }

  function ContentKey(parts: seq<string>): string {
    Join(parts, US)
  }

  /** Columns with the same content; a set-valued column is compared as a set. */
  ghost predicate SameColumn(a: Column, b: Column) {
    match a
    case Members(ms) => b.Members? && Elems(ms) == Elems(b.members)
    case _ => a == b
  }

  ghost predicate SameColumns(a: seq<Column>, b: seq<Column>) {
    |a| == |b| && forall i :: 0 <= i < |a| ==> SameColumn(a[i], b[i])
  }

  /**
   A set column has non-empty members without commas and without duplicates, a map column keys
   without colons and neither keys nor values with spaces, and nothing contains the unit
   separator.
   */
  ghost predicate Clean(c: Column) {
    match c
    case Scalar(s) => Free(s, US)
    case Members(ms) => Distinct(ms) && forall m :: m in ms ==> m != "" && Free(m, ',') && Free(m, US)
    case Optional(o) => o.Some? ==> o.value != "" && Free(o.value, US)
    case OptInt(n) => n.Some? ==> -MAX_INT64 - 1 <= n.value <= MAX_INT64
    case Dict(d) => PlainMap(d) && forall k :: k in d ==> Free(k, US) && Free(d[k], US)
  }

  ghost predicate AllClean(cs: seq<Column>) {
    cs != [] && forall c :: c in cs ==> Clean(c)
  }

  predicate SameShape(a: Column, b: Column) {
    match a
    case Scalar(_) => b.Scalar?
    case Members(_) => b.Members?
    case Optional(_) => b.Optional?
    case OptInt(_) => b.OptInt?
    case Dict(_) => b.Dict?
  }

  predicate SameShapes(a: seq<Column>, b: seq<Column>) {
    |a| == |b| && forall i :: 0 <= i < |a| ==> SameShape(a[i], b[i])
  }

  // Maps

  function EntryText(m: map<string, string>, k: string): string
    requires k in m
  {
    k + ":" + m[k]
  }

  function EntryTexts(m: map<string, string>, ks: seq<string>): seq<string>
    requires forall k :: k in ks ==> k in m
  {
    seq(|ks|, (i: nat) requires i < |ks| => EntryText(m, ks[i]))
  }

  /** The entries in the order of their keys. */
  function MapBody(m: map<string, string>): string {
    Join(EntryTexts(m, SortedMembers(m.Keys)), ' ')
  }

  /** Go prints a map with %v as "map[k:v k:v]". */
  function GoFormat(m: map<string, string>): string {
    "map[" + MapBody(m) + "]"
  }

  lemma SameBody(a: map<string, string>, b: map<string, string>)
    ensures GoFormat(a) == GoFormat(b) <==> MapBody(a) == MapBody(b)
  {
    assert GoFormat(a)[4..|GoFormat(a)| - 1] == MapBody(a);
    assert GoFormat(b)[4..|GoFormat(b)| - 1] == MapBody(b);
  }

  /** Keys without colons, and no spaces. */
  predicate PlainMap(m: map<string, string>) {
    forall k :: k in m ==> Free(k, ':') && Free(k, ' ') && Free(m[k], ' ')
  }

  lemma SameEntry(a: map<string, string>, b: map<string, string>, k: string, l: string)
    requires k in a && l in b && Free(k, ':') && Free(l, ':') && EntryText(a, k) == EntryText(b, l)
    ensures k == l && a[k] == b[l]
  {
    CutUnique(k, a[k], l, b[l], ':');
  }

  lemma SameTexts(a: map<string, string>, x: seq<string>, b: map<string, string>, y: seq<string>)
    requires PlainMap(a) && PlainMap(b) && (forall k :: k in x <==> k in a) && (forall k :: k in y <==> k in b)
    requires EntryTexts(a, x) == EntryTexts(b, y)
    ensures a == b
  {
    assert |EntryTexts(a, x)| == |x| && |EntryTexts(b, y)| == |y|;
    forall i | 0 <= i < |x| ensures x[i] == y[i] && a[x[i]] == b[y[i]] {
      assert x[i] in a && y[i] in b;
      assert EntryTexts(a, x)[i] == EntryTexts(b, y)[i];
      SameEntry(a, b, x[i], y[i]);
    }
    assert x == y;
    forall k | k in a ensures a[k] == b[k] {
      var i :| 0 <= i < |x| && x[i] == k;
    }
  }

  /** The rendering is injective on plain maps. */
  lemma GoFormatInjective(a: map<string, string>, b: map<string, string>)
    requires PlainMap(a) && PlainMap(b)
    ensures GoFormat(a) == GoFormat(b) <==> a == b
  {
    SameBody(a, b);
    hide GoFormat;
    if MapBody(a) == MapBody(b) {
      var x, y := SortedMembers(a.Keys), SortedMembers(b.Keys);
      hide SortedMembers, PlainMap, EntryTexts, Join;
      EntriesFree(a, x);
      EntriesFree(b, y);
      if x != [] && y != [] {
        TextsCount(a, x);
        TextsCount(b, y);
        JoinInjective(EntryTexts(a, x), EntryTexts(b, y), ' ');
        SameTexts(a, x, b, y);
      } else {
        assert x == [] && y == [];
        assert a.Keys == {} && b.Keys == {};
      }
    }
  }

  lemma TextsCount(m: map<string, string>, ks: seq<string>)
    requires forall k :: k in ks ==> k in m
    ensures |EntryTexts(m, ks)| == |ks|
  {
  }

  lemma EntriesFree(m: map<string, string>, ks: seq<string>)
    requires PlainMap(m) && forall k :: k in ks ==> k in m
    ensures forall t :: t in EntryTexts(m, ks) ==> Free(t, ' ') && t != ""
    ensures Join(EntryTexts(m, ks), ' ') == "" <==> ks == []
  {
    var ts := EntryTexts(m, ks);
    forall t | t in ts ensures Free(t, ' ') && t != "" {
      var i :| 0 <= i < |ts| && ts[i] == t;
      assert ks[i] in m;
    }
    if ks != [] { assert ts[0] in ts; }
  }

  /** At most one entry, and no colon in it. */
  predicate Unambiguous(m: map<string, string>) {
    m == map[] || (|m| == 1 && forall k :: k in m ==> Free(k, ':') && Free(m[k], ':'))
  }

  lemma BodyOfOne(k: string, v: string)
    ensures MapBody(map[k := v]) == k + ":" + v
  {
    var m := map[k := v];
    assert m.Keys == {k};
    assert SortedMembers({k}) == [Least({k})] + SortedMembers({k} - {Least({k})});
    assert EntryTexts(m, [k]) == [k + ":" + v];
  }

  /** The first entry of a body, and what follows its key. */
  lemma BodyStarts(m: map<string, string>) returns (k: string, rest: string)
    requires m != map[]
    ensures k in m && MapBody(m) == k + ":" + rest
    ensures |m| == 1 ==> rest == m[k] && m == map[k := m[k]]
    ensures |m| > 1 ==> !Free(rest, ':')
  {
    var ks := SortedMembers(m.Keys);
    assert |ks| == |m| by { assert |m| == |m.Keys|; }
    assert m.Keys != {};
    k := ks[0];
    assert k in ks;
    var ts := EntryTexts(m, ks);
    if |ks| == 1 {
      rest := m[k];
      assert ts == [EntryText(m, k)];
      forall x | x in m ensures x == k { assert x in ks; }
      assert m == map[k := m[k]];
    } else {
      rest := m[k] + " " + Join(ts[1..], ' ');
      assert ts[0] == k + ":" + m[k];
      assert Join(ts, ' ') == ts[0] + [' '] + Join(ts[1..], ' ');
      assert MapBody(m) == k + ":" + rest;
      assert ks[1] in ks && ts[1] == ks[1] + ":" + m[ks[1]];
      JoinStarts(ts[1..], ' ');
      var at := |m[k]| + 1 + |ks[1]|;
      assert rest[at] == ts[1][|ks[1]|] == ':';
      assert rest[at] in rest;
    }
  }

  lemma JoinStarts(parts: seq<string>, sep: char)
    requires parts != []
    ensures parts[0] <= Join(parts, sep)
  {
  }

  lemma CutAtColon(s: string) returns (x: string, y: string)
    requires !Free(s, ':')
    ensures s == x + ":" + y
  {
    var i :| 0 <= i < |s| && s[i] == ':';
    x, y := s[..i], s[i + 1..];
  }

  lemma ColonInKey(k: string, v: string) returns (d: map<string, string>)
    requires !Free(k, ':')
    ensures k !in d && MapBody(d) == k + ":" + v
  {
    hide MapBody;
    var x, y := CutAtColon(k);
    d := map[x := y + ":" + v];
    BodyOfOne(x, y + ":" + v);
    assert (x + ":" + y) + ":" + v == x + ":" + (y + ":" + v);
    assert |x| < |k|;
  }

  lemma ColonInValue(k: string, v: string) returns (d: map<string, string>)
    requires !Free(v, ':')
    ensures k !in d && MapBody(d) == k + ":" + v
  {
    hide MapBody;
    var p, q := CutAtColon(v);
    d := map[k + ":" + p := q];
    BodyOfOne(k + ":" + p, q);
    assert k + ":" + (p + ":" + q) == (k + ":" + p) + ":" + q;
    assert |k + ":" + p| > |k|;
  }

  /** Another map prints like this one. */
  lemma AmbiguousCollides(m: map<string, string>) returns (d: map<string, string>)
    requires !Unambiguous(m)
    ensures d != m && MapBody(d) == MapBody(m)
  {
    var k, rest := BodyStarts(m);
    hide MapBody;
    if |m| > 1 {
      d := map[k := rest];
      BodyOfOne(k, rest);
      assert |d| == 1;
    } else {
      assert |m| == 1 by { assert |m| != 0; }
      if !Free(k, ':') {
        d := ColonInKey(k, m[k]);
      } else {
        d := ColonInValue(k, m[k]);
      }
    }
  }

  lemma EmptyBody(m: map<string, string>)
    ensures MapBody(m) == "" <==> m == map[]
  {
    if m != map[] {
      var k, rest := BodyStarts(m);
    }
  }

  lemma UnambiguousIsUnique(m: map<string, string>, d: map<string, string>)
    requires Unambiguous(m) && MapBody(d) == MapBody(m)
    ensures d == m
  {
    EmptyBody(m);
    EmptyBody(d);
    if m != map[] {
      var k, v := BodyStarts(m);
      var l, rest := BodyStarts(d);
      assert Free(k, ':') && Free(v, ':');
      OneColon(k, v, l, rest);
      assert |d| != 0;
    }
  }

  lemma OneColon(k: string, v: string, l: string, rest: string)
    requires Free(k, ':') && Free(v, ':') && k + ":" + v == l + ":" + rest
    ensures k == l && v == rest
  {
    var t := k + ":" + v;
    forall i | 0 <= i < |t| && i != |k| ensures t[i] != ':' {
      if i < |k| { assert t[i] == k[i]; } else { assert t[i] == v[i - |k| - 1]; }
    }
    assert t[|l|] == ':' by { assert (l + ":" + rest)[|l|] == ':'; }
    assert t[..|k|] == k && t[..|l|] == l;
    assert t[|k| + 1..] == v && t[|l| + 1..] == rest;
  }

  /** Exactly when no other map prints like `m`: it has at most one entry, and no colon in it. */
  lemma GoFormatUniqueIff(m: map<string, string>)
    ensures (exists d :: d != m && GoFormat(d) == GoFormat(m)) <==> !Unambiguous(m)
  {
    if !Unambiguous(m) {
      var d := AmbiguousCollides(m);
      SameBody(d, m);
    } else {
      forall d | GoFormat(d) == GoFormat(m) ensures d == m {
        SameBody(d, m);
        UnambiguousIsUnique(m, d);
      }
    }
  }

  lemma {:induction false} JoinFree(parts: seq<string>, sep: char, c: char)
    requires c != sep && forall p :: p in parts ==> Free(p, c)
    ensures Free(Join(parts, sep), c)
  {
    if |parts| > 1 {
      assert parts[0] in parts && forall p :: p in parts[1..] ==> p in parts;
      JoinFree(parts[1..], sep, c);
    } else if |parts| == 1 {
      assert parts[0] in parts;
    }
  }

  /** Order-blind, and injective on sets of non-empty members without commas. */
  lemma SortedJoinInjective(a: seq<string>, b: seq<string>)
    requires Distinct(a) && Distinct(b)
    requires forall m :: m in a || m in b ==> m != "" && Free(m, ',')
    ensures SortedJoined(a) == SortedJoined(b) <==> Elems(a) == Elems(b)
  {
    SortDistinct(a);
    SortDistinct(b);
    var x, y := SortStrings(a), SortStrings(b);
    if Elems(a) == Elems(b) {
      assert forall m :: m in a <==> m in Elems(a);
      assert forall m :: m in b <==> m in Elems(b);
      SortedSetUnique(x, y);
    }
    if Join(x, ',') == Join(y, ',') {
      NonEmptyJoin(x);
      NonEmptyJoin(y);
      if x != [] && y != [] {
        JoinInjective(x, y, ',');
      }
      assert x == y;
      assert forall m :: m in a <==> m in b;
    }
  }

  lemma NonEmptyJoin(x: seq<string>)
    requires forall m :: m in x ==> m != ""
    ensures Join(x, ',') == "" <==> x == []
  {
    if x != [] { assert x[0] in x; }
  }

  /** Without commas in the members, two different sets look alike exactly if one is empty and the other holds the empty string only. */
  lemma EmptyMemberCollides(a: seq<string>, b: seq<string>)
    requires Distinct(a) && Distinct(b) && forall m :: m in a || m in b ==> Free(m, ',')
    ensures SortedJoined(a) == SortedJoined(b) && Elems(a) != Elems(b) <==> (a == [] && b == [""]) || (a == [""] && b == [])
  {
    SortDistinct(a);
    SortDistinct(b);
    SameElems(a, SortStrings(a));
    SameElems(b, SortStrings(b));
    var x, y := SortStrings(a), SortStrings(b);
    OnlyEmpty(a);
    OnlyEmpty(b);
    if Join(x, ',') == Join(y, ',') {
      if x != [] && y != [] {
        JoinInjective(x, y, ',');
        assert forall m :: m in a <==> m in b;
      } else if x != [] {
        EmptyJoin(x);
      } else if y != [] {
        EmptyJoin(y);
      }
    }
  }

  lemma OnlyEmpty(a: seq<string>)
    ensures a == [""] ==> SortStrings(a) == [""] && "" in Elems(a)
    ensures SortStrings(a) == [""] ==> a == [""]
    ensures a == [] ==> Elems(a) == {}
  {
    if SortStrings(a) == [""] {
      SameElems(a, [""]);
      assert a[0] in a && "" in [""];
    }
  }

  lemma EmptyJoin(x: seq<string>)
    requires x != [] && Join(x, ',') == ""
    ensures x == [""]
  {
  }

  lemma PrintFree(n: int)
    requires -MAX_INT64 - 1 <= n <= MAX_INT64
    ensures PrintInt(n) != "" && Free(PrintInt(n), US)
  {
    AtoiOfPrint(n);
    NumericChars(PrintInt(n));
  }

  lemma FormatFree(m: map<string, string>)
    requires forall k :: k in m ==> Free(k, US) && Free(m[k], US)
    ensures Free(GoFormat(m), US)
  {
    var ks := SortedMembers(m.Keys);
    var ts := EntryTexts(m, ks);
    forall t | t in ts ensures Free(t, US) {
      var i :| 0 <= i < |ts| && ts[i] == t;
      assert ks[i] in m;
    }
    JoinFree(ts, ' ', US);
  }

  lemma RenderFree(c: Column)
    requires Clean(c)
    ensures Free(Render(c), US)
  {
    if c.Members? {
      SameElems(c.members, SortStrings(c.members));
      JoinFree(SortStrings(c.members), ',', US);
    } else if c.OptInt? && c.num.Some? {
      PrintFree(c.num.value);
    } else if c.Dict? {
      FormatFree(c.dict);
    }
  }

  lemma RenderInjective(a: Column, b: Column)
    requires Clean(a) && Clean(b) && SameShape(a, b)
    ensures SameColumn(a, b) <==> Render(a) == Render(b)
  {
    match a {
      case Members(ms) => SortedJoinInjective(ms, b.members);
      case OptInt(n) =>
        if n.Some? { AtoiOfPrint(n.value); }
        if b.num.Some? { AtoiOfPrint(b.num.value); }
        if n.Some? { PrintFree(n.value); }
        if b.num.Some? { PrintFree(b.num.value); }
      case Dict(d) => GoFormatInjective(d, b.dict);
      case _ =>
    }
  }

  /** Two rows of a table have the same key exactly when their check columns agree. */
  lemma KeyInjective(a: seq<Column>, b: seq<Column>)
    requires AllClean(a) && AllClean(b)
    requires SameShapes(a, b)
    ensures ContentKey(Rendered(a)) == ContentKey(Rendered(b)) <==> SameColumns(a, b)
  {
    var x, y := Rendered(a), Rendered(b);
    forall i | 0 <= i < |a|
      ensures Free(x[i], US) && Free(y[i], US)
      ensures SameColumn(a[i], b[i]) <==> x[i] == y[i]
    {
      assert a[i] in a && b[i] in b;
      RenderFree(a[i]);
      RenderFree(b[i]);
      RenderInjective(a[i], b[i]);
    }
    if Join(x, US) == Join(y, US) {
      JoinInjective(x, y, US);
    }
    if SameColumns(a, b) { assert x == y; }
  }

  // ---------------------------------------------------------------------------
  // When a key is unique
  // ---------------------------------------------------------------------------

  /** A set column lists each member once, and an integer is one of Go's. */
  ghost predicate Proper(c: Column) {
    && (c.Members? ==> Distinct(c.members))
    && (c.OptInt? && c.num.Some? ==> -MAX_INT64 - 1 <= c.num.value <= MAX_INT64)
  }

  /** At one of its commas the text falls into two different parts that are in sorted order. */
  predicate SortedCut(s: string) {
    exists i :: 0 <= i < |s| && s[i] == ',' && s[..i] != s[i + 1..] && LexLE(s[..i], s[i + 1..])
  }

  /** Other content of the column renders alike: read off the column itself. */
  predicate Ambiguous(c: Column) {
    match c
    case Scalar(_) => false
    case OptInt(_) => false
    case Optional(o) => o.None? || o.value == ""
    case Members(ms) => |ms| != 1 || ms[0] == "" || SortedCut(ms[0])
    case Dict(d) => !Unambiguous(d)
  }

  lemma PrefixIsBelow(p: string, q: string)
    ensures LexLE(p, p + q)
  {
    if p != "" {
      PrefixIsBelow(p[1..], q);
      assert (p + q)[1..] == p[1..] + q;
    }
  }

  lemma SortedPair(y: string, z: string)
    requires y != z && LexLE(y, z)
    ensures Distinct([y, z]) && SortedJoined([y, z]) == y + "," + z
  {
    var pair := [y, z];
    assert Sorted(pair) && Distinct(pair) && Join([z], ',') == z && pair[1..] == [z];
    hide LexLE, Sorted, Distinct, SortStrings;
    SortDistinct(pair);
    SameElems(pair, SortStrings(pair));
    SortedSetUnique(pair, SortStrings(pair));
  }

  lemma SortedOne(t: string)
    ensures SortedJoined([t]) == t
  {
    assert SortStrings([]) == [];
  }

  /** Two or more members in order: the first and what follows it. */
  lemma JoinedIsCut(x: seq<string>)
    requires Sorted(x) && Distinct(x) && |x| > 1
    ensures SortedCut(Join(x, ','))
  {
    var y, z, t := x[0], Join(x[1..], ','), Join(x, ',');
    assert t == y + [','] + z;
    assert t[..|y|] == y && t[|y| + 1..] == z && t[|y|] == ',';
    JoinStarts(x[1..], ',');
    assert z == x[1] + z[|x[1]|..];
    PrefixIsBelow(x[1], z[|x[1]|..]);
    LexTransitive(y, x[1], z);
    if y == z { LexTotal(y, x[1]); }
  }

  lemma CutCollides(t: string) returns (other: seq<string>)
    requires SortedCut(t)
    ensures Distinct(other) && t !in other && SortedJoined(other) == t
  {
    var i :| 0 <= i < |t| && t[i] == ',' && t[..i] != t[i + 1..] && LexLE(t[..i], t[i + 1..]);
    var y, z := t[..i], t[i + 1..];
    assert t == y + "," + z && |y| < |t| && |z| < |t|;
    hide LexLE, SortedJoined, Distinct;
    SortedPair(y, z);
    other := [y, z];
  }

  lemma ManyAreNotOne(ms: seq<string>) returns (x: string)
    requires |ms| > 1
    ensures x in ms && x != SortedJoined(ms)
  {
    var ordered := SortStrings(ms);
    SameElems(ms, ordered);
    hide SortStrings;
    x := ordered[0];
    assert Join(ordered, ',') == x + [','] + Join(ordered[1..], ',');
  }

  lemma MembersCollide(ms: seq<string>) returns (other: seq<string>)
    requires Distinct(ms) && Ambiguous(Members(ms))
    ensures Distinct(other) && Elems(other) != Elems(ms) && SortedJoined(other) == SortedJoined(ms)
  {
    hide SortedCut;
    if ms == [] {
      other := [""];
      SortedOne("");
      assert "" in Elems(other) && "" !in Elems(ms);
    } else if |ms| == 1 {
      var t := ms[0];
      assert ms == [t] && t in Elems(ms);
      hide SortedJoined;
      SortedOne(t);
      other := [];
      if t == "" { NoneJoined(); } else { other := CutCollides(t); }
      assert t !in Elems(other);
    } else {
      var t := SortedJoined(ms);
      hide SortedJoined;
      other := [t];
      SortedOne(t);
      var x := ManyAreNotOne(ms);
      assert x in Elems(ms) && x !in Elems(other);
    }
  }

  lemma NoneJoined()
    ensures SortedJoined([]) == ""
  {
  }

  lemma MembersUnique(ms: seq<string>, other: seq<string>)
    requires Distinct(ms) && Distinct(other) && !Ambiguous(Members(ms)) && SortedJoined(other) == SortedJoined(ms)
    ensures Elems(other) == Elems(ms)
  {
    var t, x := ms[0], SortStrings(other);
    assert ms == [t];
    SortedOne(t);
    SortDistinct(other);
    SameElems(other, x);
    if |x| > 1 {
      JoinedIsCut(x);
    } else {
      assert x == [t];
    }
  }

  /** A column has a double exactly when it is ambiguous. */
  lemma ColumnCollides(c: Column) returns (d: Column)
    requires Proper(c) && Ambiguous(c)
    ensures SameShape(c, d) && Proper(d) && Render(d) == Render(c) && !SameColumn(c, d)
  {
    match c {
      case Members(ms) =>
        var other := MembersCollide(ms);
        d := Members(other);
      case Optional(o) => d := Optional(if o.None? then Some("") else None);
      case Dict(m) =>
        var other := AmbiguousCollides(m);
        SameBody(other, m);
        d := Dict(other);
    }
  }

  lemma ColumnUnique(c: Column, d: Column)
    requires Proper(c) && Proper(d) && SameShape(c, d) && !Ambiguous(c) && Render(d) == Render(c)
    ensures SameColumn(c, d)
  {
    match c {
      case Members(ms) => MembersUnique(ms, d.members);
      case OptInt(n) =>
        if n.Some? { AtoiOfPrint(n.value); }
        if d.num.Some? { AtoiOfPrint(d.num.value); }
      case Dict(m) =>
        SameBody(d.dict, m);
        UnambiguousIsUnique(m, d.dict);
      case _ =>
    }
  }

  /** A joined text has a separator between any two parts, and no more exactly when the parts hold none. */
  lemma {:induction false} JoinCounts(parts: seq<string>, sep: char)
    requires parts != []
    ensures multiset(Join(parts, sep))[sep] >= |parts| - 1
    ensures multiset(Join(parts, sep))[sep] == |parts| - 1 <==> forall p :: p in parts ==> Free(p, sep)
  {
    var first := parts[0];
    assert first in parts && (Free(first, sep) <==> multiset(first)[sep] == 0);
    if |parts| > 1 {
      JoinCounts(parts[1..], sep);
      assert parts == [first] + parts[1..];
      assert multiset(Join(parts, sep)) == multiset(first) + multiset([sep]) + multiset(Join(parts[1..], sep));
      assert multiset([sep])[sep] == 1;
    }
  }

  /** As many parts without separators are told apart from any others. */
  lemma JoinSameSize(a: seq<string>, b: seq<string>, sep: char)
    requires |a| == |b| && (forall p :: p in a ==> Free(p, sep)) && Join(a, sep) == Join(b, sep)
    ensures a == b
  {
    if a != [] {
      JoinCounts(a, sep);
      JoinCounts(b, sep);
      JoinInjective(a, b, sep);
    }
  }

  /** Other rows of the table with the same key. */
  ghost predicate LooksLike(ds: seq<Column>, cs: seq<Column>) {
    && SameShapes(cs, ds) && (forall d :: d in ds ==> Proper(d))
    && !SameColumns(cs, ds) && ContentKey(Rendered(ds)) == ContentKey(Rendered(cs))
  }

  lemma RowCollides(cs: seq<Column>, i: nat) returns (ds: seq<Column>)
    requires (forall c :: c in cs ==> Proper(c)) && i < |cs| && Ambiguous(cs[i])
    ensures LooksLike(ds, cs)
  {
    hide Proper, SameColumn, Render, Ambiguous, ContentKey;
    var d := ColumnCollides(cs[i]);
    ds := cs[i := d];
    assert Rendered(ds) == Rendered(cs);
    forall j | 0 <= j < |cs| ensures SameShape(cs[j], ds[j]) {}
  }

  lemma RowUnique(cs: seq<Column>, ds: seq<Column>)
    requires (forall c :: c in cs ==> Proper(c) && Free(Render(c), US) && !Ambiguous(c))
    ensures !LooksLike(ds, cs)
  {
    hide Proper, SameColumn, Render, Ambiguous, Free;
    if LooksLike(ds, cs) {
      var x, y := Rendered(cs), Rendered(ds);
      forall p | p in x ensures Free(p, US) {
        var i :| 0 <= i < |x| && x[i] == p;
        assert cs[i] in cs;
      }
      JoinSameSize(x, y, US);
      forall i | 0 <= i < |cs| ensures SameColumn(cs[i], ds[i]) {
        assert cs[i] in cs && ds[i] in ds && x[i] == y[i];
        ColumnUnique(cs[i], ds[i]);
      }
    }
  }

  /**
   Which rows a key identifies: among rows that render without the unit separator, exactly those
   none of whose columns is ambiguous. An empty or absent optional, a set that is empty, has two
   members or falls into two at a comma, and a map with two entries or a colon each have a
   double.
   */
  lemma KeyUniqueIff(cs: seq<Column>)
    requires forall c :: c in cs ==> Proper(c) && Free(Render(c), US)
    ensures (exists ds :: LooksLike(ds, cs)) <==> exists c :: c in cs && Ambiguous(c)
  {
    hide LooksLike, Proper, Render, Ambiguous, Free;
    if c :| c in cs && Ambiguous(c) {
      var i :| 0 <= i < |cs| && cs[i] == c;
      var ds := RowCollides(cs, i);
    } else {
      forall ds ensures !LooksLike(ds, cs) { RowUnique(cs, ds); }
    }
  }

  // ---------------------------------------------------------------------------
  // Tables
  // ---------------------------------------------------------------------------

  datatype PortBinding = PortBinding(uuid: string, typ: string, logicalPort: string, chassis: Option<string>, datapath: string,
                                     tag: Option<int>, options: map<string, string>, externalIDs: map<string, string>, natAddresses: seq<string>)

  datatype LogicalRouter = LogicalRouter(uuid: string, name: string, ports: seq<string>, nats: seq<string>, staticRoutes: seq<string>)

  datatype RouterPort = RouterPort(uuid: string, name: string, mac: string, gatewayChassis: seq<string>, networks: seq<string>)

  datatype StaticRoute = StaticRoute(uuid: string, ipPrefix: string, nexthop: string, outputPort: Option<string>, externalIDs: map<string, string>)

  datatype NATRow = NATRow(uuid: string, typ: string, externalIP: string)

  datatype ChassisRow = ChassisRow(uuid: string, name: string, hostname: string)

  datatype MACBinding = MACBinding(uuid: string, logicalPort: string, ip: string, mac: string)

  const PB_CHECK_COLUMNS := {"_uuid", "type", "chassis", "nat_addresses", "datapath", "tag", "options", "external_ids"}
  const CH_CHECK_COLUMNS := {"_uuid", "hostname"}
  const LR_CHECK_COLUMNS := {"_uuid", "ports", "nat", "static_routes"}
  const LRP_CHECK_COLUMNS := {"_uuid", "mac", "networks", "gateway_chassis"}
  const NAT_CHECK_COLUMNS := {"_uuid", "type", "external_ip"}
  const LRSR_CHECK_COLUMNS := {"_uuid", "ip_prefix", "nexthop", "output_port", "external_ids"}
  const SMB_CHECK_COLUMNS := {"_uuid", "logical_port", "ip", "mac"}

  function DecodePortBinding(row: Row): PortBinding {
    PortBinding(UUIDOf(row), StringOf(row, "type"), StringOf(row, "logical_port"), OptStringOf(row, "chassis"), RefOf(row, "datapath"),
                OptIntOf(row, "tag"), MapOf(row, "options"), MapOf(row, "external_ids"), SetOf(row, "nat_addresses"))
  }

  function DecodeLogicalRouter(row: Row): LogicalRouter {
    LogicalRouter(UUIDOf(row), StringOf(row, "name"), SetOf(row, "ports"), SetOf(row, "nat"), SetOf(row, "static_routes"))
  }

  function DecodeRouterPort(row: Row): RouterPort {
    RouterPort(UUIDOf(row), StringOf(row, "name"), StringOf(row, "mac"), SetOf(row, "gateway_chassis"), SetOf(row, "networks"))
  }

  function DecodeStaticRoute(row: Row): StaticRoute {
    StaticRoute(UUIDOf(row), StringOf(row, "ip_prefix"), StringOf(row, "nexthop"), OptStringOf(row, "output_port"), MapOf(row, "external_ids"))
  }

  function DecodeNAT(row: Row): NATRow {
    NATRow(UUIDOf(row), StringOf(row, "type"), StringOf(row, "external_ip"))
  }

  function DecodeChassis(row: Row): ChassisRow {
    ChassisRow(UUIDOf(row), StringOf(row, "name"), StringOf(row, "hostname"))
  }

  function DecodeMACBinding(row: Row): MACBinding {
    MACBinding(UUIDOf(row), StringOf(row, "logical_port"), StringOf(row, "ip"), StringOf(row, "mac"))
  }

  function KeyOfPortBinding(p: PortBinding): string {
    ContentKey([p.uuid, p.typ, OptText(p.chassis), SortedJoined(p.natAddresses), p.datapath, OptNum(p.tag), GoFormat(p.options), GoFormat(p.externalIDs)])
  }

  function KeyOfLogicalRouter(r: LogicalRouter): string {
    ContentKey([r.uuid, SortedJoined(r.ports), SortedJoined(r.nats), SortedJoined(r.staticRoutes)])
  }

  function KeyOfRouterPort(p: RouterPort): string {
    ContentKey([p.uuid, p.mac, SortedJoined(p.networks), SortedJoined(p.gatewayChassis)])
  }

  function KeyOfStaticRoute(r: StaticRoute): string {
    ContentKey([r.uuid, r.ipPrefix, r.nexthop, OptText(r.outputPort), GoFormat(r.externalIDs)])
  }

  function KeyOfNAT(n: NATRow): string {
    ContentKey([n.uuid, n.typ, n.externalIP])
  }

  function KeyOfChassis(c: ChassisRow): string {
    ContentKey([c.uuid, c.hostname])
  }

  function KeyOfMACBinding(b: MACBinding): string {
    ContentKey([b.uuid, b.logicalPort, b.ip, b.mac])
  }

  // The check columns of each row, in the order of its key.

  function PortBindingColumns(p: PortBinding): seq<Column> {
    [Scalar(p.uuid), Scalar(p.typ), Optional(p.chassis), Members(p.natAddresses), Scalar(p.datapath), OptInt(p.tag), Dict(p.options), Dict(p.externalIDs)]
  }

  function LogicalRouterColumns(r: LogicalRouter): seq<Column> {
    [Scalar(r.uuid), Members(r.ports), Members(r.nats), Members(r.staticRoutes)]
  }

  function RouterPortColumns(p: RouterPort): seq<Column> {
    [Scalar(p.uuid), Scalar(p.mac), Members(p.networks), Members(p.gatewayChassis)]
  }

  function StaticRouteColumns(r: StaticRoute): seq<Column> {
    [Scalar(r.uuid), Scalar(r.ipPrefix), Scalar(r.nexthop), Optional(r.outputPort), Dict(r.externalIDs)]
  }

  function NATColumns(n: NATRow): seq<Column> {
    [Scalar(n.uuid), Scalar(n.typ), Scalar(n.externalIP)]
  }

  function ChassisColumns(c: ChassisRow): seq<Column> {
    [Scalar(c.uuid), Scalar(c.hostname)]
  }

  function MACBindingColumns(b: MACBinding): seq<Column> {
    [Scalar(b.uuid), Scalar(b.logicalPort), Scalar(b.ip), Scalar(b.mac)]
  }

  // Every key is the content key of its row's check columns.

  lemma PortBindingKey(p: PortBinding)
    ensures KeyOfPortBinding(p) == ContentKey(Rendered(PortBindingColumns(p)))
  {
    hide ContentKey, SortedJoined, OptNum, OptText, GoFormat;
    assert Rendered(PortBindingColumns(p))
        == [p.uuid, p.typ, OptText(p.chassis), SortedJoined(p.natAddresses), p.datapath, OptNum(p.tag), GoFormat(p.options), GoFormat(p.externalIDs)];
  }

  lemma LogicalRouterKey(r: LogicalRouter)
    ensures KeyOfLogicalRouter(r) == ContentKey(Rendered(LogicalRouterColumns(r)))
  {
    hide ContentKey, SortedJoined;
    assert Rendered(LogicalRouterColumns(r)) == [r.uuid, SortedJoined(r.ports), SortedJoined(r.nats), SortedJoined(r.staticRoutes)];
  }

  lemma RouterPortKey(p: RouterPort)
    ensures KeyOfRouterPort(p) == ContentKey(Rendered(RouterPortColumns(p)))
  {
    hide ContentKey, SortedJoined;
    assert Rendered(RouterPortColumns(p)) == [p.uuid, p.mac, SortedJoined(p.networks), SortedJoined(p.gatewayChassis)];
  }

  lemma StaticRouteKey(r: StaticRoute)
    ensures KeyOfStaticRoute(r) == ContentKey(Rendered(StaticRouteColumns(r)))
  {
    hide ContentKey, OptText, GoFormat;
    assert Rendered(StaticRouteColumns(r)) == [r.uuid, r.ipPrefix, r.nexthop, OptText(r.outputPort), GoFormat(r.externalIDs)];
  }

  lemma NATKey(n: NATRow)
    ensures KeyOfNAT(n) == ContentKey(Rendered(NATColumns(n)))
  {
    hide ContentKey;
    assert Rendered(NATColumns(n)) == [n.uuid, n.typ, n.externalIP];
  }

  lemma ChassisKey(c: ChassisRow)
    ensures KeyOfChassis(c) == ContentKey(Rendered(ChassisColumns(c)))
  {
    hide ContentKey;
    assert Rendered(ChassisColumns(c)) == [c.uuid, c.hostname];
  }

  lemma MACBindingKey(b: MACBinding)
    ensures KeyOfMACBinding(b) == ContentKey(Rendered(MACBindingColumns(b)))
  {
    hide ContentKey;
    assert Rendered(MACBindingColumns(b)) == [b.uuid, b.logicalPort, b.ip, b.mac];
  }

  /**
   The keys of static routes tell their external IDs apart exactly as far as Go's rendering does:
   for each route whose external IDs have two entries, or a colon, there are other external IDs
   with the same key.
   */
  lemma StaticRouteKeyUniqueIff(r: StaticRoute)
    ensures (exists d :: d != r.externalIDs && KeyOfStaticRoute(r.(externalIDs := d)) == KeyOfStaticRoute(r)) <==> !Unambiguous(r.externalIDs)
  {
    forall d ensures KeyOfStaticRoute(r.(externalIDs := d)) == KeyOfStaticRoute(r) <==> GoFormat(d) == GoFormat(r.externalIDs) {
      SameStart([r.uuid, r.ipPrefix, r.nexthop, OptText(r.outputPort)], GoFormat(d), GoFormat(r.externalIDs));
      assert [r.uuid, r.ipPrefix, r.nexthop, OptText(r.outputPort)] + [GoFormat(d)] == [r.uuid, r.ipPrefix, r.nexthop, OptText(r.outputPort), GoFormat(d)];
      assert [r.uuid, r.ipPrefix, r.nexthop, OptText(r.outputPort)] + [GoFormat(r.externalIDs)]
          == [r.uuid, r.ipPrefix, r.nexthop, OptText(r.outputPort), GoFormat(r.externalIDs)];
    }
    GoFormatUniqueIff(r.externalIDs);
    hide KeyOfStaticRoute, GoFormat, Unambiguous;
  }

  lemma BodyOfTwo(k: string, v: string, l: string, w: string)
    requires k != l && LexLE(k, l)
    ensures MapBody(map[k := v, l := w]) == k + ":" + v + " " + (l + ":" + w)
  {
    var m, ks := map[k := v, l := w], [k, l];
    assert m.Keys == {k, l};
    MembersAreSorted(m.Keys);
    hide LexLE, SortedMembers;
    SortedSetUnique(ks, SortedMembers(m.Keys));
    hide Sorted, Distinct;
    assert EntryTexts(m, ks) == [k + ":" + v, l + ":" + w];
    assert Join([l + ":" + w], ' ') == l + ":" + w;
  }

  /** A map of two entries prints like the one entry that runs them together. */
  lemma TwoLikeOne(k: string, v: string, l: string, w: string)
    requires k != l && LexLE(k, l)
    ensures GoFormat(map[k := v, l := w]) == GoFormat(map[k := v + " " + (l + ":" + w)])
  {
    hide MapBody, LexLE;
    BodyOfTwo(k, v, l, w);
    BodyOfOne(k, v + " " + (l + ":" + w));
    assert k + ":" + v + " " + (l + ":" + w) == k + ":" + (v + " " + (l + ":" + w));
  }

  lemma OwnerAndZone()
    ensures LexLE("owner", "zone") && "x" + " " + ("zone" + ":" + "y") == "x zone:y"
  {
  }

  /** Two routes that differ in their external IDs alone, with one key. */
  lemma StaticRouteKeysCollide(r: StaticRoute)
    ensures var a, b := map["owner" := "x", "zone" := "y"], map["owner" := "x zone:y"];
      a != b && KeyOfStaticRoute(r.(externalIDs := a)) == KeyOfStaticRoute(r.(externalIDs := b))
  {
    var k, l := "owner", "zone";
    var a, b := map[k := "x", l := "y"], map[k := "x zone:y"];
    assert |k| == 5 && |l| == 4;
    hide GoFormat, ContentKey, OptText, LexLE;
    OwnerAndZone();
    TwoLikeOne(k, "x", l, "y");
    assert l in a && l !in b;
  }

  lemma {:induction false} SameStart(head: seq<string>, a: string, b: string)
    ensures ContentKey(head + [a]) == ContentKey(head + [b]) <==> a == b
  {
    if head != [] {
      SameStart(head[1..], a, b);
      var x, y := head + [a], head + [b];
      assert x[1..] == head[1..] + [a] && y[1..] == head[1..] + [b];
      var p := head[0] + [US];
      assert Join(x, US) == p + Join(x[1..], US) && Join(y, US) == p + Join(y[1..], US);
      assert (p + Join(x[1..], US))[|p|..] == Join(x[1..], US) && (p + Join(y[1..], US))[|p|..] == Join(y[1..], US);
    }
  }

  /** A select of some columns. */
  function Project(row: Row, columns: set<string>): Row {
    map c | c in row && c in columns :: row[c]
  }

  lemma ProjectColumn(row: Row, columns: set<string>, col: string)
    requires col in columns
    ensures StringOf(Project(row, columns), col) == StringOf(row, col) && RefOf(Project(row, columns), col) == RefOf(row, col)
    ensures SetOf(Project(row, columns), col) == SetOf(row, col) && OptStringOf(Project(row, columns), col) == OptStringOf(row, col)
    ensures OptIntOf(Project(row, columns), col) == OptIntOf(row, col) && MapOf(Project(row, columns), col) == MapOf(row, col)
    ensures col == "_uuid" ==> UUIDOf(Project(row, columns)) == UUIDOf(row)
  {
  }

  /** Each key reads no more than its check columns, so the cheap select decides as the full one would. */
  lemma KeysSurviveProjection(row: Row)
    ensures KeyOfPortBinding(DecodePortBinding(Project(row, PB_CHECK_COLUMNS))) == KeyOfPortBinding(DecodePortBinding(row))
    ensures KeyOfLogicalRouter(DecodeLogicalRouter(Project(row, LR_CHECK_COLUMNS))) == KeyOfLogicalRouter(DecodeLogicalRouter(row))
    ensures KeyOfRouterPort(DecodeRouterPort(Project(row, LRP_CHECK_COLUMNS))) == KeyOfRouterPort(DecodeRouterPort(row))
    ensures KeyOfStaticRoute(DecodeStaticRoute(Project(row, LRSR_CHECK_COLUMNS))) == KeyOfStaticRoute(DecodeStaticRoute(row))
    ensures KeyOfNAT(DecodeNAT(Project(row, NAT_CHECK_COLUMNS))) == KeyOfNAT(DecodeNAT(row))
    ensures KeyOfChassis(DecodeChassis(Project(row, CH_CHECK_COLUMNS))) == KeyOfChassis(DecodeChassis(row))
    ensures KeyOfMACBinding(DecodeMACBinding(Project(row, SMB_CHECK_COLUMNS))) == KeyOfMACBinding(DecodeMACBinding(row))
  {
    forall columns: set<string>, col | col in columns
      ensures StringOf(Project(row, columns), col) == StringOf(row, col) && RefOf(Project(row, columns), col) == RefOf(row, col)
      ensures SetOf(Project(row, columns), col) == SetOf(row, col) && OptStringOf(Project(row, columns), col) == OptStringOf(row, col)
      ensures OptIntOf(Project(row, columns), col) == OptIntOf(row, col) && MapOf(Project(row, columns), col) == MapOf(row, col)
      ensures col == "_uuid" ==> UUIDOf(Project(row, columns)) == UUIDOf(row)
    {
      ProjectColumn(row, columns, col);
    }
    hide StringOf, RefOf, SetOf, OptStringOf, OptIntOf, MapOf, UUIDOf, Project, ContentKey, SortedJoined, OptNum, OptText, GoFormat;
    ProjectColumn(row, PB_CHECK_COLUMNS, "_uuid");
    ProjectColumn(row, LR_CHECK_COLUMNS, "_uuid");
    ProjectColumn(row, LRP_CHECK_COLUMNS, "_uuid");
    ProjectColumn(row, LRSR_CHECK_COLUMNS, "_uuid");
    ProjectColumn(row, NAT_CHECK_COLUMNS, "_uuid");
    ProjectColumn(row, CH_CHECK_COLUMNS, "_uuid");
    ProjectColumn(row, SMB_CHECK_COLUMNS, "_uuid");
  }

  // ---------------------------------------------------------------------------
  // The guard
  // ---------------------------------------------------------------------------

  ghost function KeysOf<T>(ts: seq<T>, keyOf: T -> string): set<string> {
    set t | t in ts :: keyOf(t)
  }

  function Decoded<T>(rows: seq<Row>, decode: Row -> T): seq<T> {
    seq(|rows|, (i: nat) requires i < |rows| => decode(rows[i]))
  }

  lemma SameSizeSubset(a: set<string>, b: set<string>)
    requires a <= b && |a| == |b|
    ensures a == b
  {
    assert |b - a| == |b| - |a|;
    assert b - a == {};
  }

  method KeySetsEqual(a: set<string>, b: set<string>) returns (r: bool)
    ensures r <==> a == b
  {
    if |a| != |b| {
      return false;
    }
    var todo := a;
    while todo != {}
      invariant todo <= a && forall k :: k in a - todo ==> k in b
      decreases |todo|
    {
      var k :| k in todo;
      if k !in b {
        return false;
      }
      todo := todo - {k};
    }
    SameSizeSubset(a, b);
    return true;
  }

  /** A select that answers with the projection of every row, or fails. */
  method DirectSelect(server: seq<Row>, columns: set<string>) returns (ok: bool, rows: seq<Row>)
    ensures ok ==> |rows| == |server| && forall i :: 0 <= i < |rows| ==> rows[i] == Project(server[i], columns)
  {
    ok := *;
    rows := seq(|server|, (i: nat) requires i < |server| => Project(server[i], columns));
  }

  method FullSelect(server: seq<Row>) returns (ok: bool, rows: seq<Row>)
    ensures ok ==> rows == server
  {
    ok, rows := *, server;
  }

  method ServerKeySet<T>(server: seq<Row>, columns: set<string>, keyOf: T -> string, decode: Row -> T) returns (ok: bool, keys: set<string>)
    requires forall row :: row in server ==> keyOf(decode(Project(row, columns))) == keyOf(decode(row))
    ensures ok ==> keys == KeysOf(Decoded(server, decode), keyOf)
  {
    var rows;
    ok, rows := DirectSelect(server, columns);
    keys := {};
    if !ok {
      return;
    }
    for n := 0 to |rows|
      invariant forall k :: k in keys <==> exists i :: 0 <= i < n && k == keyOf(decode(server[i]))
    {
      assert server[n] in server;
      keys := keys + {keyOf(decode(rows[n]))};
    }
    DecodedKeys(server, keyOf, decode);
  }

  lemma DecodedKeys<T>(server: seq<Row>, keyOf: T -> string, decode: Row -> T)
    ensures forall k :: k in KeysOf(Decoded(server, decode), keyOf) <==> exists i :: 0 <= i < |server| && k == keyOf(decode(server[i]))
  {
    forall k ensures k in KeysOf(Decoded(server, decode), keyOf) <==> exists i :: 0 <= i < |server| && k == keyOf(decode(server[i])) {
      if i :| 0 <= i < |server| && k == keyOf(decode(server[i])) {
        assert Decoded(server, decode)[i] in Decoded(server, decode);
      }
    }
  }

  /** The same check-column tuples on both sides. */
  ghost predicate Authoritative<T(!new)>(out: seq<T>, server: seq<T>, columnsOf: T -> seq<Column>) {
    && (forall t :: t in out ==> exists u :: u in server && SameColumns(columnsOf(t), columnsOf(u)))
    && (forall u :: u in server ==> exists t :: t in out && SameColumns(columnsOf(u), columnsOf(t)))
  }

  ghost predicate CleanRows<T(!new)>(ts: seq<T>, columnsOf: T -> seq<Column>) {
    forall t :: t in ts ==> AllClean(columnsOf(t))
  }

  /** The keys of a table are the content keys of its check columns, whose kinds are the same in every row. */
  ghost predicate KeyedBy<T(!new)>(keyOf: T -> string, columnsOf: T -> seq<Column>) {
    && (forall t :: keyOf(t) == ContentKey(Rendered(columnsOf(t))))
    && (forall t, u :: SameShapes(columnsOf(t), columnsOf(u)))
  }

  /** The rows of a table against the server's: authoritative when the selects that were needed succeeded, else the cache. */
  ghost predicate Guarded<T(!new)>(server: seq<Row>, decode: Row -> T, cached: seq<T>, columnsOf: T -> seq<Column>, ok: bool, out: seq<T>) {
    && (ok && CleanRows(cached, columnsOf) && CleanRows(Decoded(server, decode), columnsOf) ==> Authoritative(out, Decoded(server, decode), columnsOf))
    && (!ok ==> out == cached)
  }

  /**
   The rows to act on. Against an unchanged server, when the check select succeeds and, if it
   shows a difference, the full select does too, the rows carry exactly the server's check-column
   tuples. The cache is returned exactly when it is in sync or a select failed.
   */
  method AuthoritativeList<T(==, !new)>(server: seq<Row>, columns: set<string>, cached: seq<T>, keyOf: T -> string, decode: Row -> T,
                                        ghost columnsOf: T -> seq<Column>)
    returns (out: seq<T>, checked: bool, inSync: bool, recovered: bool)
    requires forall row :: row in server ==> keyOf(decode(Project(row, columns))) == keyOf(decode(row))
    requires KeyedBy(keyOf, columnsOf)
    ensures Guarded(server, decode, cached, columnsOf, checked && (inSync || recovered), out)
    ensures checked ==> (inSync <==> KeysOf(cached, keyOf) == KeysOf(Decoded(server, decode), keyOf))
    ensures out == if checked && !inSync && recovered then Decoded(server, decode) else cached
  {
    out, inSync, recovered := cached, false, false;
    var serverKeys;
    checked, serverKeys := ServerKeySet(server, columns, keyOf, decode);
    if !checked {
      return;
    }
    var cacheKeys := {};
    for n := 0 to |cached|
      invariant cacheKeys == set i | 0 <= i < n :: keyOf(cached[i])
    {
      cacheKeys := cacheKeys + {keyOf(cached[n])};
    }
    assert cacheKeys == KeysOf(cached, keyOf);
    inSync := KeySetsEqual(cacheKeys, serverKeys);
    if inSync {
      InSyncIsAuthoritative(server, decode, cached, keyOf, columnsOf);
      return;
    }
    var ok, rows := FullSelect(server);
    if !ok {
      return;
    }
    out, recovered := [], true;
    for n := 0 to |rows|
      invariant |out| == n && forall i :: 0 <= i < n ==> out[i] == decode(rows[i])
    {
      out := out + [decode(rows[n])];
    }
    assert out == Decoded(server, decode);
    InSyncIsAuthoritative(server, decode, out, keyOf, columnsOf);
  }

  lemma InSyncIsAuthoritative<T(!new)>(server: seq<Row>, decode: Row -> T, out: seq<T>, keyOf: T -> string, columnsOf: T -> seq<Column>)
    requires KeyedBy(keyOf, columnsOf) && KeysOf(out, keyOf) == KeysOf(Decoded(server, decode), keyOf)
    ensures CleanRows(out, columnsOf) && CleanRows(Decoded(server, decode), columnsOf) ==> Authoritative(out, Decoded(server, decode), columnsOf)
  {
    var there := Decoded(server, decode);
    hide AllClean, SameColumns, ContentKey, KeysOf, SameShapes, Rendered, Decoded;
    if CleanRows(out, columnsOf) && CleanRows(there, columnsOf) {
      forall t | t in out ensures exists u :: u in there && SameColumns(columnsOf(t), columnsOf(u)) {
        var u := KeysDetermineTuples(out, there, keyOf, columnsOf, t);
      }
      forall u | u in there ensures exists t :: t in out && SameColumns(columnsOf(u), columnsOf(t)) {
        var t := KeysDetermineTuples(there, out, keyOf, columnsOf, u);
      }
    }
  }

  /** Equal key sets mean equal sets of check-column tuples. */
  lemma KeysDetermineTuples<T(!new)>(a: seq<T>, b: seq<T>, keyOf: T -> string, columnsOf: T -> seq<Column>, t: T) returns (u: T)
    requires KeysOf(a, keyOf) == KeysOf(b, keyOf) && t in a && KeyedBy(keyOf, columnsOf) && CleanRows(a, columnsOf) && CleanRows(b, columnsOf)
    ensures u in b && SameColumns(columnsOf(t), columnsOf(u))
  {
    assert keyOf(t) in KeysOf(b, keyOf);
    u :| u in b && keyOf(u) == keyOf(t);
    assert SameShapes(columnsOf(t), columnsOf(u));
    KeyInjective(columnsOf(t), columnsOf(u));
  }

  // ---------------------------------------------------------------------------
  // The seven guarded tables
  // ---------------------------------------------------------------------------

  lemma PortBindingsKeyed()
    ensures KeyedBy(KeyOfPortBinding, PortBindingColumns)
  {
    hide KeyOfPortBinding, ContentKey, Rendered;
    forall t ensures KeyOfPortBinding(t) == ContentKey(Rendered(PortBindingColumns(t))) {
      PortBindingKey(t);
    }
  }

  method ListPortBindings(server: seq<Row>, cached: seq<PortBinding>) returns (out: seq<PortBinding>, ok: bool)
    ensures Guarded(server, DecodePortBinding, cached, PortBindingColumns, ok, out)
  {
    hide *;
    forall row | row in server ensures KeyOfPortBinding(DecodePortBinding(Project(row, PB_CHECK_COLUMNS))) == KeyOfPortBinding(DecodePortBinding(row)) {
      KeysSurviveProjection(row);
    }
    PortBindingsKeyed();
    var checked, inSync, recovered;
    out, checked, inSync, recovered := AuthoritativeList(server, PB_CHECK_COLUMNS, cached, KeyOfPortBinding, DecodePortBinding, PortBindingColumns);
    ok := checked && (inSync || recovered);
  }

  lemma ChassisKeyed()
    ensures KeyedBy(KeyOfChassis, ChassisColumns)
  {
    hide KeyOfChassis, ContentKey, Rendered;
    forall t ensures KeyOfChassis(t) == ContentKey(Rendered(ChassisColumns(t))) {
      ChassisKey(t);
    }
  }

  method ListChassis(server: seq<Row>, cached: seq<ChassisRow>) returns (out: seq<ChassisRow>, ok: bool)
    ensures Guarded(server, DecodeChassis, cached, ChassisColumns, ok, out)
  {
    hide *;
    forall row | row in server ensures KeyOfChassis(DecodeChassis(Project(row, CH_CHECK_COLUMNS))) == KeyOfChassis(DecodeChassis(row)) {
      KeysSurviveProjection(row);
    }
    ChassisKeyed();
    var checked, inSync, recovered;
    out, checked, inSync, recovered := AuthoritativeList(server, CH_CHECK_COLUMNS, cached, KeyOfChassis, DecodeChassis, ChassisColumns);
    ok := checked && (inSync || recovered);
  }

  lemma LogicalRoutersKeyed()
    ensures KeyedBy(KeyOfLogicalRouter, LogicalRouterColumns)
  {
    hide KeyOfLogicalRouter, ContentKey, Rendered;
    forall t ensures KeyOfLogicalRouter(t) == ContentKey(Rendered(LogicalRouterColumns(t))) {
      LogicalRouterKey(t);
    }
  }

  method ListLogicalRouters(server: seq<Row>, cached: seq<LogicalRouter>) returns (out: seq<LogicalRouter>, ok: bool)
    ensures Guarded(server, DecodeLogicalRouter, cached, LogicalRouterColumns, ok, out)
  {
    hide *;
    forall row | row in server ensures KeyOfLogicalRouter(DecodeLogicalRouter(Project(row, LR_CHECK_COLUMNS))) == KeyOfLogicalRouter(DecodeLogicalRouter(row)) {
      KeysSurviveProjection(row);
    }
    LogicalRoutersKeyed();
    var checked, inSync, recovered;
    out, checked, inSync, recovered := AuthoritativeList(server, LR_CHECK_COLUMNS, cached, KeyOfLogicalRouter, DecodeLogicalRouter, LogicalRouterColumns);
    ok := checked && (inSync || recovered);
  }

  lemma RouterPortsKeyed()
    ensures KeyedBy(KeyOfRouterPort, RouterPortColumns)
  {
    hide KeyOfRouterPort, ContentKey, Rendered;
    forall t ensures KeyOfRouterPort(t) == ContentKey(Rendered(RouterPortColumns(t))) {
      RouterPortKey(t);
    }
  }

  method ListRouterPorts(server: seq<Row>, cached: seq<RouterPort>) returns (out: seq<RouterPort>, ok: bool)
    ensures Guarded(server, DecodeRouterPort, cached, RouterPortColumns, ok, out)
  {
    hide *;
    forall row | row in server ensures KeyOfRouterPort(DecodeRouterPort(Project(row, LRP_CHECK_COLUMNS))) == KeyOfRouterPort(DecodeRouterPort(row)) {
      KeysSurviveProjection(row);
    }
    RouterPortsKeyed();
    var checked, inSync, recovered;
    out, checked, inSync, recovered := AuthoritativeList(server, LRP_CHECK_COLUMNS, cached, KeyOfRouterPort, DecodeRouterPort, RouterPortColumns);
    ok := checked && (inSync || recovered);
  }

  lemma NATsKeyed()
    ensures KeyedBy(KeyOfNAT, NATColumns)
  {
    hide KeyOfNAT, ContentKey, Rendered;
    forall t ensures KeyOfNAT(t) == ContentKey(Rendered(NATColumns(t))) {
      NATKey(t);
    }
  }

  method ListNATs(server: seq<Row>, cached: seq<NATRow>) returns (out: seq<NATRow>, ok: bool)
    ensures Guarded(server, DecodeNAT, cached, NATColumns, ok, out)
  {
    hide *;
    forall row | row in server ensures KeyOfNAT(DecodeNAT(Project(row, NAT_CHECK_COLUMNS))) == KeyOfNAT(DecodeNAT(row)) {
      KeysSurviveProjection(row);
    }
    NATsKeyed();
    var checked, inSync, recovered;
    out, checked, inSync, recovered := AuthoritativeList(server, NAT_CHECK_COLUMNS, cached, KeyOfNAT, DecodeNAT, NATColumns);
    ok := checked && (inSync || recovered);
  }

  lemma StaticRoutesKeyed()
    ensures KeyedBy(KeyOfStaticRoute, StaticRouteColumns)
  {
    hide KeyOfStaticRoute, ContentKey, Rendered;
    forall t ensures KeyOfStaticRoute(t) == ContentKey(Rendered(StaticRouteColumns(t))) {
      StaticRouteKey(t);
    }
  }

  method ListStaticRoutes(server: seq<Row>, cached: seq<StaticRoute>) returns (out: seq<StaticRoute>, ok: bool)
    ensures Guarded(server, DecodeStaticRoute, cached, StaticRouteColumns, ok, out)
  {
    hide *;
    forall row | row in server ensures KeyOfStaticRoute(DecodeStaticRoute(Project(row, LRSR_CHECK_COLUMNS))) == KeyOfStaticRoute(DecodeStaticRoute(row)) {
      KeysSurviveProjection(row);
    }
    StaticRoutesKeyed();
    var checked, inSync, recovered;
    out, checked, inSync, recovered := AuthoritativeList(server, LRSR_CHECK_COLUMNS, cached, KeyOfStaticRoute, DecodeStaticRoute, StaticRouteColumns);
    ok := checked && (inSync || recovered);
  }

  lemma MACBindingsKeyed()
    ensures KeyedBy(KeyOfMACBinding, MACBindingColumns)
  {
    hide KeyOfMACBinding, ContentKey, Rendered;
    forall t ensures KeyOfMACBinding(t) == ContentKey(Rendered(MACBindingColumns(t))) {
      MACBindingKey(t);
    }
  }

  method ListMACBindings(server: seq<Row>, cached: seq<MACBinding>) returns (out: seq<MACBinding>, ok: bool)
    ensures Guarded(server, DecodeMACBinding, cached, MACBindingColumns, ok, out)
  {
    hide *;
    forall row | row in server ensures KeyOfMACBinding(DecodeMACBinding(Project(row, SMB_CHECK_COLUMNS))) == KeyOfMACBinding(DecodeMACBinding(row)) {
      KeysSurviveProjection(row);
    }
    MACBindingsKeyed();
    var checked, inSync, recovered;
    out, checked, inSync, recovered := AuthoritativeList(server, SMB_CHECK_COLUMNS, cached, KeyOfMACBinding, DecodeMACBinding, MACBindingColumns);
    ok := checked && (inSync || recovered);
  }
}
