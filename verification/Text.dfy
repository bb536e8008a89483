/** The string operations the agent's printers and parsers rely on, with the laws that connect them. */
module Text {
  import opened Common

  predicate Free(s: string, c: char) {
    c !in s
  }

  // ---------------------------------------------------------------------------
  // Joining and splitting
  // ---------------------------------------------------------------------------

  /** strings.Join with a one-character separator. */
  function Join(parts: seq<string>, sep: char): string {
    if parts == [] then ""
    else if |parts| == 1 then parts[0]
    else parts[0] + [sep] + Join(parts[1..], sep)
  }

  /** What precedes the first `c`, and what follows it when there is one. */
  function Before(s: string, c: char): string {
    if s == "" || s[0] == c then "" else [s[0]] + Before(s[1..], c)
  }

  lemma {:induction false} BeforeOfCut(a: string, c: char, rest: string)
    requires Free(a, c)
    ensures Before(a, c) == a && Before(a + [c] + rest, c) == a
  {
    if a != "" {
      BeforeOfCut(a[1..], c, rest);
      assert (a + [c] + rest)[1..] == a[1..] + [c] + rest;
    }
  }

  lemma CutUnique(a: string, x: string, b: string, y: string, sep: char)
    requires Free(a, sep) && Free(b, sep)
    requires a + [sep] + x == b + [sep] + y
    ensures a == b && x == y
  {
    BeforeOfCut(a, sep, x);
    BeforeOfCut(b, sep, y);
    assert (a + [sep] + x)[|a| + 1..] == x && (b + [sep] + y)[|b| + 1..] == y;
  }

  lemma {:induction false} JoinHasNoSep(parts: seq<string>, sep: char)
    requires parts != [] && forall p :: p in parts ==> Free(p, sep)
    ensures Free(Join(parts, sep), sep) <==> |parts| == 1
  {
    if |parts| > 1 { assert Join(parts, sep)[|parts[0]|] == sep; }
  }

  /** Joining is injective on non-empty tuples of separator-free parts, whatever their lengths. */
  lemma {:induction false} JoinInjective(a: seq<string>, b: seq<string>, sep: char)
    requires a != [] && b != []
    requires forall p :: p in a ==> Free(p, sep)
    requires forall p :: p in b ==> Free(p, sep)
    requires Join(a, sep) == Join(b, sep)
    ensures a == b
  {
    JoinHasNoSep(a, sep);
    JoinHasNoSep(b, sep);
    if |a| > 1 {
      CutUnique(a[0], Join(a[1..], sep), b[0], Join(b[1..], sep), sep);
      JoinInjective(a[1..], b[1..], sep);
      assert a == [a[0]] + a[1..] && b == [b[0]] + b[1..];
    }
  }

  /** strings.FieldsFunc: the maximal runs of non-separators; `cur` is the run being read. */
  function FieldsFrom(s: string, cur: string, sep: char -> bool): seq<string> {
    if s == "" then if cur == "" then [] else [cur]
    else if sep(s[0]) then (if cur == "" then [] else [cur]) + FieldsFrom(s[1..], "", sep)
    else FieldsFrom(s[1..], cur + [s[0]], sep)
  }

  function Fields(s: string, sep: char -> bool): seq<string> {
    FieldsFrom(s, "", sep)
  }

  predicate SepFree(s: string, sep: char -> bool) {
    forall i :: 0 <= i < |s| ==> !sep(s[i])
  }

  lemma {:induction false} FieldsRun(s: string, cur: string, rest: string, sep: char -> bool)
    requires SepFree(s, sep)
    ensures FieldsFrom(s + rest, cur, sep) == FieldsFrom(rest, cur + s, sep)
  {
    if s == "" {
      assert s + rest == rest && cur + s == cur;
    } else {
      assert (s + rest)[1..] == s[1..] + rest;
      FieldsRun(s[1..], cur + [s[0]], rest, sep);
      assert cur + [s[0]] + s[1..] == cur + s;
    }
  }

  /** strings.Split at a one-character separator; `cur` is the part being read. */
  function SplitFrom(s: string, cur: string, c: char): seq<string> {
    if s == "" then [cur]
    else if s[0] == c then [cur] + SplitFrom(s[1..], "", c)
    else SplitFrom(s[1..], cur + [s[0]], c)
  }

  function Split(s: string, c: char): seq<string> {
    SplitFrom(s, "", c)
  }

  lemma {:induction false} SplitRun(s: string, cur: string, rest: string, c: char)
    requires Free(s, c)
    ensures SplitFrom(s + rest, cur, c) == SplitFrom(rest, cur + s, c)
  {
    if s == "" {
      assert s + rest == rest && cur + s == cur;
    } else {
      assert s[0] in s;
      assert (s + rest)[1..] == s[1..] + rest;
      SplitRun(s[1..], cur + [s[0]], rest, c);
      assert cur + [s[0]] + s[1..] == cur + s;
    }
  }

  lemma {:induction false} SplitOfJoin(parts: seq<string>, c: char)
    requires parts != [] && forall p :: p in parts ==> Free(p, c)
    ensures Split(Join(parts, c), c) == parts
  {
    assert parts[0] in parts && "" + parts[0] == parts[0];
    if |parts| == 1 {
      SplitRun(parts[0], "", "", c);
      assert parts[0] + "" == parts[0];
      assert SplitFrom("", parts[0], c) == [parts[0]];
    } else {
      var rest := [c] + Join(parts[1..], c);
      assert Join(parts, c) == parts[0] + rest;
      SplitRun(parts[0], "", rest, c);
      assert rest[1..] == Join(parts[1..], c);
      SplitOfJoin(parts[1..], c);
    }
  }

  /** Splitting what was joined gives the parts back. */
  lemma {:induction false} FieldsOfJoin(parts: seq<string>, c: char, sep: char -> bool)
    requires sep(c) && forall p :: p in parts ==> p != "" && SepFree(p, sep)
    ensures Fields(Join(parts, c), sep) == parts
  {
    if parts == [] {
    } else if |parts| == 1 {
      assert parts[0] in parts;
      FieldsRun(parts[0], "", "", sep);
      assert parts[0] + "" == parts[0] && "" + parts[0] == parts[0];
      assert FieldsFrom("", parts[0], sep) == [parts[0]];
    } else {
      assert parts[0] in parts && forall p :: p in parts[1..] ==> p in parts;
      assert "" + parts[0] == parts[0];
      var rest := [c] + Join(parts[1..], c);
      assert Join(parts, c) == parts[0] + rest;
      FieldsRun(parts[0], "", rest, sep);
      assert rest[1..] == Join(parts[1..], c);
      FieldsOfJoin(parts[1..], c, sep);
    }
  }

  predicate HasPrefix(s: string, p: string) {
    |p| <= |s| && s[..|p|] == p
  }

  lemma PrefixAt(s: string, p: string, i: nat)
    requires i < |p| && (i >= |s| || s[i] != p[i])
    ensures !HasPrefix(s, p)
  {
    assert |p| <= |s| ==> s[..|p|][i] == s[i];
  }

  /** strings.Cut at the first occurrence of `sep`. */
  function CutAt(s: string, sep: string): Option<(string, string)> {
    if HasPrefix(s, sep) then Some(("", s[|sep|..]))
    else if s == "" then None
    else match CutAt(s[1..], sep)
      case None => None
      case Some(p) => Some(([s[0]] + p.0, p.1))
  }

  /** Text before a separator whose first character does not occur in it is skipped whole. */
  lemma {:induction false} CutSkips(a: string, rest: string, sep: string)
    requires sep != "" && Free(a, sep[0])
    ensures CutAt(a + rest, sep) == match CutAt(rest, sep) { case None => None case Some(p) => Some((a + p.0, p.1)) }
  {
    if a == "" {
      assert a + rest == rest;
      if CutAt(rest, sep).Some? { assert a + CutAt(rest, sep).value.0 == CutAt(rest, sep).value.0; }
    } else {
      assert a[0] in a;
      PrefixAt(a + rest, sep, 0);
      assert (a + rest)[1..] == a[1..] + rest;
      CutSkips(a[1..], rest, sep);
      if CutAt(rest, sep).Some? { assert [a[0]] + (a[1..] + CutAt(rest, sep).value.0) == a + CutAt(rest, sep).value.0; }
    }
  }

  predicate HasSuffix(s: string, p: string) {
    |p| <= |s| && s[|s| - |p|..] == p
  }

  function LowerChar(c: char): char {
    if 'A' <= c <= 'Z' then c - 'A' + 'a' else c
  }

  /** strings.ToLower on ASCII text. */
  function Lower(s: string): string {
    seq(|s|, (i: nat) requires i < |s| => LowerChar(s[i]))
  }

  // ---------------------------------------------------------------------------
  // Trimming
  // ---------------------------------------------------------------------------

  /** unicode.IsSpace. */
  predicate IsSpace(c: char) {
    || c == ' ' || '\t' <= c <= '\r' || c == '\U{85}' || c == '\U{A0}' || c == '\U{1680}' || '\U{2000}' <= c <= '\U{200A}'
    || c == '\U{2028}' || c == '\U{2029}' || c == '\U{202F}' || c == '\U{205F}' || c == '\U{3000}'
  }

  function TrimLeft(s: string): string {
    if s != "" && IsSpace(s[0]) then TrimLeft(s[1..]) else s
  }

  function TrimRight(s: string): string {
    if s != "" && IsSpace(s[|s| - 1]) then TrimRight(s[..|s| - 1]) else s
  }

  function TrimSpace(s: string): string {
    TrimRight(TrimLeft(s))
  }

  /** A string that neither starts nor ends with a space. */
  predicate Trimmed(s: string) {
    s != "" ==> !IsSpace(s[0]) && !IsSpace(s[|s| - 1])
  }

  // ---------------------------------------------------------------------------
  // Decimal numbers
  // ---------------------------------------------------------------------------

  predicate IsDigit(c: char) {
    '0' <= c <= '9'
  }

  function Digit(n: nat): char
    requires n < 10
  {
    '0' + n as char
  }

  function DigitValue(c: char): nat
    requires IsDigit(c)
  {
    (c - '0') as nat
  }

  function PrintNat(n: nat): (s: string)
    ensures s != "" && forall c :: c in s ==> IsDigit(c)
  {
    if n < 10 then [Digit(n)] else PrintNat(n / 10) + [Digit(n % 10)]
  }

  function PrintInt(n: int): (s: string)
    ensures s != ""
  {
    if n < 0 then "-" + PrintNat(-n) else PrintNat(n)
  }

  predicate AllDigits(s: string) {
    s != "" && forall c :: c in s ==> IsDigit(c)
  }

  function Value(s: string): nat
    requires forall c :: c in s ==> IsDigit(c)
  {
    if s == "" then 0 else 
      var last := s[|s| - 1];
      assert last in s && forall c :: c in s[..|s| - 1] ==> c in s;
      Value(s[..|s| - 1]) * 10 + DigitValue(last)
  }

  const MAX_INT64 := 0x7FFF_FFFF_FFFF_FFFF

  /** strconv.Atoi: an optional sign, decimal digits, within 64 bits. */
  function Atoi(s: string): Option<int> {
    var negative := s != "" && s[0] == '-';
    var digits := if s != "" && (s[0] == '-' || s[0] == '+') then s[1..] else s;
    if !AllDigits(digits) then None
    else
      var value: int := Value(digits);
      var n := if negative then -value else value;
      if -MAX_INT64 - 1 <= n <= MAX_INT64 then Some(n) else None
  }

  lemma {:induction false} ValueOfPrint(n: nat)
    ensures Value(PrintNat(n)) == n
  {
    if n >= 10 {
      ValueOfPrint(n / 10);
      var s := PrintNat(n / 10) + [Digit(n % 10)];
      assert s[..|s| - 1] == PrintNat(n / 10);
    }
  }

  lemma AtoiOfDigits(d: string, negative: bool)
    requires AllDigits(d) && Value(d) <= if negative then MAX_INT64 + 1 else MAX_INT64
    ensures var n: int := Value(d);
      Atoi(if negative then "-" + d else d) == Some(if negative then -n else n)
  {
    assert d[0] != '-' && d[0] != '+' by { assert d[0] in d; }
    hide Value, IsDigit;
    assert negative ==> ("-" + d)[1..] == d;
  }

  lemma AtoiOfPrint(n: int)
    requires -MAX_INT64 - 1 <= n <= MAX_INT64
    ensures Atoi(PrintInt(n)) == Some(n)
  {
    ValueOfPrint(if n < 0 then -n else n);
    hide Value, PrintNat, IsDigit, Atoi;
    AtoiOfDigits(PrintNat(if n < 0 then -n else n), n < 0);
  }

  /** A numeric string holds nothing but digits and one leading sign. */
  lemma NumericChars(s: string)
    requires Atoi(s).Some?
    ensures s != "" && forall c :: c in s ==> IsDigit(c) || c == '-' || c == '+'
  {
    if s[0] == '-' || s[0] == '+' { assert s == [s[0]] + s[1..]; }
  }

  // ---------------------------------------------------------------------------
  // Sorting
  // ---------------------------------------------------------------------------

  predicate LexLE(a: string, b: string) {
    a == "" || (b != "" && (a[0] < b[0] || (a[0] == b[0] && LexLE(a[1..], b[1..]))))
  }

  lemma {:induction false} LexTotal(a: string, b: string)
    ensures LexLE(a, b) || LexLE(b, a)
    ensures LexLE(a, b) && LexLE(b, a) ==> a == b
  {
    if a != "" && b != "" {
      LexTotal(a[1..], b[1..]);
      assert a == [a[0]] + a[1..] && b == [b[0]] + b[1..];
    }
  }

  lemma {:induction false} LexTransitive(a: string, b: string, c: string)
    requires LexLE(a, b) && LexLE(b, c)
    ensures LexLE(a, c)
  {
    if a != "" && a[0] == b[0] && b[0] == c[0] { LexTransitive(a[1..], b[1..], c[1..]); }
  }

  ghost predicate Sorted(xs: seq<string>) {
    forall i, j :: 0 <= i < j < |xs| ==> LexLE(xs[i], xs[j])
  }

  /** Places x before the first element that is not below it. */
  function Insert(x: string, xs: seq<string>): (ys: seq<string>)
    ensures multiset(ys) == multiset(xs) + multiset{x}
  {
    if xs == [] then [x]
    else if LexLE(x, xs[0]) then [x] + xs
    else
      assert xs == [xs[0]] + xs[1..];
      [xs[0]] + Insert(x, xs[1..])
  }

  lemma {:induction false} InsertSorted(x: string, xs: seq<string>)
    requires Sorted(xs)
    ensures Sorted(Insert(x, xs))
  {
    if xs == [] {
    } else if LexLE(x, xs[0]) {
      forall j | 0 <= j < |xs| ensures LexLE(x, xs[j]) {
        if j > 0 { LexTransitive(x, xs[0], xs[j]); }
      }
    } else {
      InsertSorted(x, xs[1..]);
      LexTotal(x, xs[0]);
      var ys := Insert(x, xs[1..]);
      forall j | 0 <= j < |ys| ensures LexLE(xs[0], ys[j]) {
        assert ys[j] in multiset(ys);
        assert ys[j] == x || ys[j] in xs[1..];
      }
    }
  }

  /** sort.Strings. */
  function SortStrings(xs: seq<string>): (ys: seq<string>)
    ensures multiset(ys) == multiset(xs) && Sorted(ys)
  {
    if xs == [] then []
    else
      assert xs == [xs[0]] + xs[1..];
      InsertSorted(xs[0], SortStrings(xs[1..]));
      Insert(xs[0], SortStrings(xs[1..]))
  }

  lemma SameElems(xs: seq<string>, ys: seq<string>)
    requires multiset(xs) == multiset(ys)
    ensures |xs| == |ys| && forall x :: x in xs <==> x in ys
  {
    assert |multiset(xs)| == |xs| && |multiset(ys)| == |ys|;
    forall x ensures x in xs <==> x in ys { assert x in multiset(xs) <==> x in multiset(ys); }
  }

  lemma SortedHead(xs: seq<string>, x: string)
    requires Sorted(xs) && x in xs
    ensures LexLE(xs[0], x)
  {
    var i :| 0 <= i < |xs| && xs[i] == x;
    if i == 0 { LexTotal(x, x); }
  }

  lemma DropHead(xs: seq<string>)
    requires xs != [] && Sorted(xs)
    ensures xs == [xs[0]] + xs[1..] && Sorted(xs[1..])
    ensures multiset(xs[1..]) == multiset(xs) - multiset{xs[0]}
  {
    assert xs == [xs[0]] + xs[1..];
  }

  /** A sorted list is determined by its members and their counts. */
  lemma {:induction false} SortedUnique(xs: seq<string>, ys: seq<string>)
    requires Sorted(xs) && Sorted(ys) && multiset(xs) == multiset(ys)
    ensures xs == ys
  {
    SameElems(xs, ys);
    if xs != [] {
      assert xs[0] in ys && ys[0] in xs;
      SortedHead(xs, ys[0]);
      SortedHead(ys, xs[0]);
      LexTotal(xs[0], ys[0]);
      DropHead(xs);
      DropHead(ys);
      SortedUnique(xs[1..], ys[1..]);
    }
  }

  ghost predicate Distinct<T(!new)>(xs: seq<T>) {
    forall i, j :: 0 <= i < j < |xs| ==> xs[i] != xs[j]
  }

  lemma SortDistinct(xs: seq<string>)
    requires Distinct(xs)
    ensures Distinct(SortStrings(xs)) && forall x :: x in SortStrings(xs) <==> x in xs
  {
    var ys := SortStrings(xs);
    SameElems(xs, ys);
    DistinctCounts(xs);
    forall i, j | 0 <= i < j < |ys|
      ensures ys[i] != ys[j]
    {
      if ys[i] == ys[j] {
        TwiceCounts(ys, i, j);
        assert false;
      }
    }
  }

  lemma {:induction false} DistinctCounts(xs: seq<string>)
    requires Distinct(xs)
    ensures forall x :: multiset(xs)[x] <= 1
  {
    if xs != [] {
      DistinctCounts(xs[1..]);
      assert xs == [xs[0]] + xs[1..];
      assert xs[0] !in xs[1..];
    }
  }

  lemma TwiceCounts(xs: seq<string>, i: nat, j: nat)
    requires i < j < |xs| && xs[i] == xs[j]
    ensures multiset(xs)[xs[i]] >= 2
  {
    assert xs == xs[..j] + [xs[j]] + xs[j + 1..];
    assert xs[i] == xs[..j][i] && xs[i] in xs[..j];
  }

  method SortedKeys(keys: set<string>) returns (names: seq<string>)
    ensures Sorted(names) && Distinct(names) && forall x :: x in names <==> x in keys
  {
    names := [];
    var todo := keys;
    while todo != {}
      invariant todo <= keys && Distinct(names)
      invariant forall x :: x in names <==> x in keys - todo
      decreases |todo|
    {
      var x :| x in todo;
      assert x !in names;
      names, todo := names + [x], todo - {x};
    }
    SortDistinct(names);
    names := SortStrings(names);
  }

  lemma LeastExists(s: set<string>) returns (k: string)
    requires s != {}
    ensures k in s && forall x :: x in s ==> LexLE(k, x)
  {
    k :| k in s;
    LexTotal(k, k);
    var rest := s - {k};
    if rest != {} {
      var l := LeastExists(rest);
      LexTotal(k, l);
      if LexLE(k, l) {
        forall x | x in s ensures LexLE(k, x) {
          if x != k { LexTransitive(k, l, x); }
        }
      } else {
        k := l;
      }
    } else {
      assert forall x :: x in s ==> x == k || x in rest;
    }
  }

  function Least(s: set<string>): (k: string)
    requires s != {}
    ensures k in s && forall x :: x in s ==> LexLE(k, x)
  {
    assert exists k :: k in s && forall x :: x in s ==> LexLE(k, x) by { var k := LeastExists(s); }
    assert forall k, l :: k in s && l in s && LexLE(k, l) && LexLE(l, k) ==> k == l by {
      forall k, l ensures LexLE(k, l) && LexLE(l, k) ==> k == l { LexTotal(k, l); }
    }
    var k :| k in s && forall x :: x in s ==> LexLE(k, x);
    k
  }

  /** The members in sorted order. */
  function SortedMembers(s: set<string>): (ks: seq<string>)
    ensures |ks| == |s| && forall x :: x in ks <==> x in s
  {
    if s == {} then [] else var k := Least(s); [k] + SortedMembers(s - {k})
  }

  lemma LeastFirst(k: string, rest: seq<string>)
    requires Sorted(rest) && Distinct(rest) && forall x :: x in rest ==> k != x && LexLE(k, x)
    ensures Sorted([k] + rest) && Distinct([k] + rest)
  {
    hide LexLE;
    assert forall i :: 0 <= i < |rest| ==> rest[i] in rest;
  }

  lemma {:induction false} MembersAreSorted(s: set<string>)
    ensures Sorted(SortedMembers(s)) && Distinct(SortedMembers(s))
    decreases |s|
  {
    if s != {} {
      var k := Least(s);
      var rest := SortedMembers(s - {k});
      MembersAreSorted(s - {k});
      assert forall x :: x in rest ==> x in s - {k};
      assert SortedMembers(s) == [k] + rest;
      LeastFirst(k, rest);
    }
  }

  /** A sorted list without duplicates is determined by its members. */
  lemma SortedSetUnique(xs: seq<string>, ys: seq<string>)
    requires Sorted(xs) && Sorted(ys) && Distinct(xs) && Distinct(ys)
    requires forall x :: x in xs <==> x in ys
    ensures xs == ys
  {
    DistinctCounts(xs);
    DistinctCounts(ys);
    forall x ensures multiset(xs)[x] == multiset(ys)[x] {
      assert x in xs <==> x in multiset(xs);
      assert x in ys <==> x in multiset(ys);
    }
    assert multiset(xs) == multiset(ys);
    SortedUnique(xs, ys);
  }
}
