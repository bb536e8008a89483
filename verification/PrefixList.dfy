/**
 The managed FRR prefix-list, of which zebra and bgpd each hold a copy. A configuration write
 reaches any subset of the daemons, reports success or failure regardless, a listing is answered
 by any subset of them, and a daemon that restarts loses any part of its copy at any moment
 between two commands.
 */
module PrefixList {
  import opened Common
  import opened Text

  /** An entry without its sequence number: the same prefix in the other shape is another line. */
  datatype Key = Key(network: string, exact: bool)

  /** One entry as the JSON listing shows it; absent lengths decode to 0. */
  datatype RawEntry = RawEntry(seqNo: int, permit: bool, prefix: string, min: int, max: int)

  datatype Copies = Copies(zebra: map<int, Key>, bgpd: map<int, Key>)

  /** Which daemons answer a listing. */
  datatype Answers = Answers(zebra: bool, bgpd: bool)

  const BOTH := Answers(true, true)

  datatype Command =
    | Restart
    | List(answers: Answers)
    | ListBGPD
    | Set(seqNo: int, key: Key)
    | Remove(seqNo: int, key: Key)

  /** A command with the copies before and after it; `clean` when it did all it was asked to. */
  datatype Entry = Entry(cmd: Command, clean: bool, before: Copies, after: Copies)

  ghost predicate Sub(a: map<int, Key>, b: map<int, Key>) {
    forall s :: s in a ==> s in b && b[s] == a[s]
  }

  ghost predicate Injective(m: map<int, Key>) {
    forall s, t :: s in m && t in m && m[s] == m[t] ==> s == t
  }

  ghost predicate AgentShaped(k: Key) {
    k.exact ==> HasSuffix(k.network, "/32")
  }

  ghost predicate Shaped(m: map<int, Key>) {
    forall s :: s in m ==> AgentShaped(m[s])
  }

  function Union(c: Copies): map<int, Key> {
    c.zebra + c.bgpd
  }

  /** The copies agree where both have a sequence number, and no entry has two numbers. */
  ghost predicate OneToOne(c: Copies) {
    && (forall s :: s in c.zebra && s in c.bgpd ==> c.zebra[s] == c.bgpd[s])
    && Injective(Union(c)) && Shaped(Union(c))
  }

  /** Both copies are parts of one assignment of sequence numbers. */
  ghost predicate Under(c: Copies, m: map<int, Key>) {
    Sub(c.zebra, m) && Sub(c.bgpd, m) && Injective(m) && Shaped(m)
  }

  lemma UnderIsOneToOne(c: Copies, m: map<int, Key>)
    requires Under(c, m)
    ensures OneToOne(c)
  {
  }

  lemma OneToOneIsUnder(c: Copies)
    requires OneToOne(c)
    ensures Under(c, Union(c))
  {
  }

  /** What the daemons that answer hold. */
  function Shown(c: Copies, a: Answers): map<int, Key> {
    (if a.zebra then c.zebra else map[]) + (if a.bgpd then c.bgpd else map[])
  }

  function Drop(m: map<int, Key>, s: int, k: Key): map<int, Key> {
    if s in m && m[s] == k then m - {s} else m
  }

  lemma SomeNumber(todo: set<int>)
    requires todo != {}
    ensures exists s :: s in todo
  {
    assert (forall s :: s !in todo) ==> todo == {};
  }

  /** The trace is a run from `start` to `end`. */
  ghost predicate Linked(start: Copies, es: seq<Entry>, end: Copies) {
    && (es == [] ==> start == end)
    && (es != [] ==> es[0].before == start && es[|es| - 1].after == end)
    && forall i :: 0 < i < |es| ==> es[i - 1].after == es[i].before
  }

  lemma LinkedConcat(a: Copies, es: seq<Entry>, b: Copies, fs: seq<Entry>, c: Copies)
    requires Linked(a, es, b) && Linked(b, fs, c)
    ensures Linked(a, es + fs, c)
  {
  }

  ghost predicate Clean(es: seq<Entry>) {
    forall e :: e in es ==> e.clean
  }

  predicate IsWrite(cmd: Command) {
    cmd.Set? || cmd.Remove?
  }

  /** No command takes a desired entry out of bgpd. */
  ghost predicate KeepsBGPD(desired: set<Key>, es: seq<Entry>) {
    forall e, s :: e in es && e.cmd != Restart && s in e.before.bgpd && e.before.bgpd[s] in desired ==>
      s in e.after.bgpd && e.after.bgpd[s] == e.before.bgpd[s]
  }

  /** In every state the assignment is one-to-one, and no command takes a desired entry out of bgpd. */
  ghost predicate Safe(desired: set<Key>, es: seq<Entry>) {
    (forall e :: e in es ==> OneToOne(e.after)) && KeepsBGPD(desired, es)
  }

  ghost predicate Wrote(es: seq<Entry>) {
    exists e :: e in es && IsWrite(e.cmd)
  }

  /** Some number carries the key. */
  ghost predicate Holds(m: map<int, Key>, k: Key) {
    exists s :: s in m && m[s] == k
  }

  // ---------------------------------------------------------------------------
  // Writes
  // ---------------------------------------------------------------------------

  /** Between two commands a daemon may lose any part of its copy. */
  ghost predicate IsLoss(e: Entry) {
    && e.cmd == Restart && Sub(e.after.zebra, e.before.zebra) && Sub(e.after.bgpd, e.before.bgpd)
    && (e.clean <==> e.after == e.before)
  }

  function Done(copy: map<int, Key>, cmd: Command): map<int, Key> {
    match cmd
    case Set(s, k) => copy[s := k]
    case Remove(s, k) => Drop(copy, s, k)
    case _ => copy
  }

  /** The write reaches any subset of the daemons; it is clean only if it reaches both. */
  ghost predicate IsWriteOf(e: Entry, cmd: Command) {
    && e.cmd == cmd && (e.after.zebra == e.before.zebra || e.after.zebra == Done(e.before.zebra, cmd))
    && (e.after.bgpd == e.before.bgpd || e.after.bgpd == Done(e.before.bgpd, cmd))
    && (e.clean ==> e.after == Copies(Done(e.before.zebra, cmd), Done(e.before.bgpd, cmd)))
  }

  /** These writes in this order, each with what happens before it. */
  ghost predicate Writes(a: Copies, cmds: seq<Command>, es: seq<Entry>, b: Copies) {
    && |es| == 2 * |cmds| && Linked(a, es, b)
    && forall j: nat :: j < |cmds| ==> IsLoss(es[2 * j]) && IsWriteOf(es[2 * j + 1], cmds[j])
  }

  lemma WritesSnoc(a: Copies, cmds: seq<Command>, es: seq<Entry>, b: Copies, cmd: Command, fs: seq<Entry>, c: Copies)
    requires Writes(a, cmds, es, b) && Writes(b, [cmd], fs, c)
    ensures Writes(a, cmds + [cmd], es + fs, c)
  {
    LinkedConcat(a, es, b, fs, c);
    var more, gs := cmds + [cmd], es + fs;
    forall j: nat | j < |more| ensures IsLoss(gs[2 * j]) && IsWriteOf(gs[2 * j + 1], more[j]) {
      if j < |cmds| {
        assert gs[2 * j] == es[2 * j] && gs[2 * j + 1] == es[2 * j + 1] && more[j] == cmds[j];
      } else {
        assert gs[2 * j] == fs[0] && gs[2 * j + 1] == fs[1] && more[j] == [cmd][0];
      }
    }
  }

  /** The last write of a sequence. */
  lemma WritesLast(a: Copies, cmds: seq<Command>, es: seq<Entry>, b: Copies) returns (mid: Copies, loss: Entry, write: Entry)
    requires Writes(a, cmds, es, b) && cmds != []
    ensures es == es[..|es| - 2] + [loss, write] && Writes(a, cmds[..|cmds| - 1], es[..|es| - 2], mid)
    ensures IsLoss(loss) && IsWriteOf(write, cmds[|cmds| - 1]) && loss.before == mid && loss.after == write.before && write.after == b
  {
    var n := |cmds| - 1;
    loss, write := es[2 * n], es[2 * n + 1];
    mid := loss.before;
    var head := es[..|es| - 2];
    forall j: nat | j < n ensures IsLoss(head[2 * j]) && IsWriteOf(head[2 * j + 1], cmds[..n][j]) {
      assert cmds[..n][j] == cmds[j];
    }
    assert IsWriteOf(es[2 * n + 1], cmds[n]);
  }

  function Apply(copy: map<int, Key>, cmds: seq<Command>): map<int, Key> {
    if cmds == [] then copy else Done(Apply(copy, cmds[..|cmds| - 1]), cmds[|cmds| - 1])
  }

  /** Writes that are all delivered in full. */
  lemma {:induction false} WritesClean(a: Copies, cmds: seq<Command>, es: seq<Entry>, b: Copies)
    requires Writes(a, cmds, es, b) && Clean(es)
    ensures b == Copies(Apply(a.zebra, cmds), Apply(a.bgpd, cmds))
  {
    if cmds != [] {
      var mid, loss, write := WritesLast(a, cmds, es, b);
      assert loss in es && write in es && forall e :: e in es[..|es| - 2] ==> e in es;
      WritesClean(a, cmds[..|cmds| - 1], es[..|es| - 2], mid);
    }
  }

  /** The write fits the assignment: it sets a number to its key, or removes an undesired one. */
  ghost predicate Fits(cmd: Command, m: map<int, Key>, desired: set<Key>) {
    match cmd
    case Set(s, k) => s in m && m[s] == k
    case Remove(_, k) => k !in desired
    case _ => false
  }

  lemma {:induction false} WritesKeep(a: Copies, cmds: seq<Command>, es: seq<Entry>, b: Copies, m: map<int, Key>, desired: set<Key>)
    requires Writes(a, cmds, es, b) && Under(a, m) && forall cmd :: cmd in cmds ==> Fits(cmd, m, desired)
    ensures Under(b, m) && Safe(desired, es)
  {
    if cmds != [] {
      var mid, loss, write := WritesLast(a, cmds, es, b);
      WritesKeep(a, cmds[..|cmds| - 1], es[..|es| - 2], mid, m, desired);
      assert Fits(cmds[|cmds| - 1], m, desired);
      LossKeeps(loss, m, desired);
      WriteKeeps(write, cmds[|cmds| - 1], m, desired);
      assert Safe(desired, [loss, write]);
      SafeConcat(desired, es[..|es| - 2], [loss, write]);
    }
  }

  lemma LossKeeps(e: Entry, m: map<int, Key>, desired: set<Key>)
    requires IsLoss(e) && Under(e.before, m)
    ensures Under(e.after, m) && Safe(desired, [e])
  {
    UnderIsOneToOne(e.after, m);
  }

  lemma WriteKeeps(e: Entry, cmd: Command, m: map<int, Key>, desired: set<Key>)
    requires IsWriteOf(e, cmd) && Under(e.before, m) && Fits(cmd, m, desired)
    ensures Under(e.after, m) && Safe(desired, [e])
  {
    UnderIsOneToOne(e.after, m);
  }

  lemma SafeConcat(desired: set<Key>, es: seq<Entry>, fs: seq<Entry>)
    requires Safe(desired, es) && Safe(desired, fs)
    ensures Safe(desired, es + fs)
  {
  }

  /** What bgpd holds came from the start or from one of the writes. */
  ghost predicate Origin(start: map<int, Key>, cmds: seq<Command>, now: map<int, Key>) {
    forall s :: s in now ==> (s in start && start[s] == now[s]) || Set(s, now[s]) in cmds
  }

  lemma OriginMore(start: map<int, Key>, cmds: seq<Command>, cmd: Command, now: map<int, Key>)
    requires Origin(start, cmds, now)
    ensures Origin(start, cmds + [cmd], now)
  {
  }

  lemma OriginStep(start: map<int, Key>, cmds: seq<Command>, loss: Entry, write: Entry, cmd: Command)
    requires Origin(start, cmds, loss.before.bgpd) && IsLoss(loss) && IsWriteOf(write, cmd) && write.before == loss.after
    ensures Origin(start, cmds + [cmd], loss.before.bgpd) && Origin(start, cmds + [cmd], write.before.bgpd) && Origin(start, cmds + [cmd], write.after.bgpd)
  {
    OriginMore(start, cmds, cmd, loss.before.bgpd);
    assert cmd in cmds + [cmd];
  }

  lemma {:induction false} WritesOrigin(start: map<int, Key>, before: seq<Command>, a: Copies, cmds: seq<Command>, es: seq<Entry>, b: Copies)
    requires Writes(a, cmds, es, b) && Origin(start, before, a.bgpd)
    ensures Origin(start, before + cmds, b.bgpd)
    ensures forall e :: e in es ==> Origin(start, before + cmds, e.before.bgpd)
  {
    if cmds == [] {
      assert before + cmds == before;
    } else {
      var mid, loss, write := WritesLast(a, cmds, es, b);
      var most, cmd := cmds[..|cmds| - 1], cmds[|cmds| - 1];
      WritesOrigin(start, before, a, most, es[..|es| - 2], mid);
      OriginStep(start, before + most, loss, write, cmd);
      assert before + cmds == (before + most) + [cmd];
      hide Origin, Writes, IsLoss, IsWriteOf;
      forall e | e in es ensures Origin(start, before + cmds, e.before.bgpd) {
        if e in es[..|es| - 2] {
          OriginMore(start, before + most, cmd, e.before.bgpd);
        } else {
          assert e == loss || e == write;
        }
      }
    }
  }

  /** Every entry of the trace is a loss or one of the writes. */
  lemma WrittenBy(a: Copies, cmds: seq<Command>, es: seq<Entry>, b: Copies, e: Entry) returns (j: nat)
    requires Writes(a, cmds, es, b) && e in es && e.cmd != Restart
    ensures j < |cmds| && IsWriteOf(e, cmds[j])
  {
    var i :| 0 <= i < |es| && es[i] == e;
    j := i / 2;
    assert IsLoss(es[2 * j]) && IsWriteOf(es[2 * j + 1], cmds[j]);
    assert i == 2 * j || i == 2 * j + 1;
  }

  // ---------------------------------------------------------------------------
  // The listing
  // ---------------------------------------------------------------------------

  function Render(s: int, k: Key): RawEntry {
    if k.exact then RawEntry(s, true, k.network, 0, 0) else RawEntry(s, true, k.network, 32, 32)
  }

  /** The agent-managed shapes: "permit <network> ge 32 le 32" and the exact "permit <vip>/32". */
  function Shape(e: RawEntry): Option<Key> {
    var exact := e.min == 0 && e.max == 0;
    if !e.permit || (!exact && (e.min != 32 || e.max != 32)) || (exact && !HasSuffix(e.prefix, "/32")) then None
    else Some(Key(e.prefix, exact))
  }

  lemma ShapeOfRender(s: int, k: Key)
    ensures Shape(Render(s, k)) == (if AgentShaped(k) then Some(k) else None)
  {
  }

  ghost predicate DocOf(doc: seq<RawEntry>, m: map<int, Key>) {
    forall e :: e in doc <==> e.seqNo in m && e == Render(e.seqNo, m[e.seqNo])
  }

  /** What the documents show: each agent-shaped entry under a number that no earlier one had. */
  ghost predicate Shows(docs: seq<seq<RawEntry>>, s: int, k: Key) {
    exists i, e :: 0 <= i < |docs| && e in docs[i] && e.seqNo == s && Shape(e) == Some(k)
  }

  /** The union of every answering daemon's document, deduplicated by sequence number. */
  method ParsePrefixListDocs(docs: seq<seq<RawEntry>>) returns (entries: map<int, Key>)
    ensures forall s :: s in entries ==> Shows(docs, s, entries[s])
    ensures forall s, k :: Shows(docs, s, k) ==> s in entries
  {
    entries := map[];
    for i := 0 to |docs|
      invariant forall s :: s in entries ==> Shows(docs[..i], s, entries[s])
      invariant forall s, k :: Shows(docs[..i], s, k) ==> s in entries
    {
      var doc := docs[i];
      ghost var upto := docs[..i + 1];
      assert upto == docs[..i] + [doc];
      ghost var before := entries;
      for j := 0 to |doc|
        invariant forall s :: s in entries ==> Shows(upto, s, entries[s])
        invariant before.Keys <= entries.Keys
        invariant forall e :: e in doc[..j] && Shape(e).Some? ==> e.seqNo in entries
      {
        var e := doc[j];
        assert e in upto[i];
        if Shape(e).Some? && e.seqNo !in entries {
          entries := entries[e.seqNo := Shape(e).value];
        }
      }
      forall s, k | Shows(upto, s, k) ensures s in entries {
        var n: nat, e: RawEntry :| n < |upto| && e in upto[n] && e.seqNo == s && Shape(e) == Some(k);
        if n < i {
          assert e in docs[..i][n];
          assert Shows(docs[..i], s, k);
        } else {
          assert e in doc[..|doc|];
        }
      }
    }
    assert docs[..|docs|] == docs;
  }

  function AnsweredDocs(a: Answers, zebraDoc: seq<RawEntry>, bgpdDoc: seq<RawEntry>): seq<seq<RawEntry>> {
    (if a.zebra then [zebraDoc] else []) + (if a.bgpd then [bgpdDoc] else [])
  }

  lemma DocMeans(doc: seq<RawEntry>, m: map<int, Key>)
    requires DocOf(doc, m) && Shaped(m)
    ensures forall e :: e in doc ==> e.seqNo in m && Shape(e) == Some(m[e.seqNo])
    ensures forall s :: s in m ==> Render(s, m[s]) in doc && Render(s, m[s]).seqNo == s && Shape(Render(s, m[s])) == Some(m[s])
  {
    forall s | s in m ensures Shape(Render(s, m[s])) == Some(m[s]) {
      ShapeOfRender(s, m[s]);
    }
    hide Shape, AgentShaped;
  }

  lemma DocsSound(zebra: map<int, Key>, bgpd: map<int, Key>, a: Answers, zebraDoc: seq<RawEntry>, bgpdDoc: seq<RawEntry>, s: int, k: Key)
    requires DocOf(zebraDoc, zebra) && DocOf(bgpdDoc, bgpd) && Shaped(zebra) && Shaped(bgpd)
    requires Shows(AnsweredDocs(a, zebraDoc, bgpdDoc), s, k)
    ensures (a.zebra && s in zebra && zebra[s] == k) || (a.bgpd && s in bgpd && bgpd[s] == k)
  {
    DocMeans(zebraDoc, zebra);
    DocMeans(bgpdDoc, bgpd);
    var docs := AnsweredDocs(a, zebraDoc, bgpdDoc);
    var i: nat, e: RawEntry :| i < |docs| && e in docs[i] && e.seqNo == s && Shape(e) == Some(k);
    assert (a.zebra && e in zebraDoc) || (a.bgpd && e in bgpdDoc);
    hide Shape, Render, DocOf, Shaped;
  }

  lemma DocsComplete(zebra: map<int, Key>, bgpd: map<int, Key>, a: Answers, zebraDoc: seq<RawEntry>, bgpdDoc: seq<RawEntry>, s: int)
    requires DocOf(zebraDoc, zebra) && DocOf(bgpdDoc, bgpd) && Shaped(zebra) && Shaped(bgpd)
    ensures a.zebra && s in zebra ==> Shows(AnsweredDocs(a, zebraDoc, bgpdDoc), s, zebra[s])
    ensures a.bgpd && s in bgpd ==> Shows(AnsweredDocs(a, zebraDoc, bgpdDoc), s, bgpd[s])
  {
    DocMeans(zebraDoc, zebra);
    DocMeans(bgpdDoc, bgpd);
    var docs := AnsweredDocs(a, zebraDoc, bgpdDoc);
    hide Shape, Render, DocOf, Shaped;
    if a.zebra && s in zebra {
      assert docs[0] == zebraDoc && Render(s, zebra[s]) in docs[0];
    }
    if a.bgpd && s in bgpd {
      assert docs[|docs| - 1] == bgpdDoc && Render(s, bgpd[s]) in docs[|docs| - 1];
    }
  }

  lemma NumberShown(c: Copies, a: Answers, zebraDoc: seq<RawEntry>, bgpdDoc: seq<RawEntry>, s: int, entry: Option<Key>)
    requires DocOf(zebraDoc, c.zebra) && DocOf(bgpdDoc, c.bgpd) && Shaped(c.zebra) && Shaped(c.bgpd)
    requires s in c.zebra && s in c.bgpd ==> c.zebra[s] == c.bgpd[s]
    requires entry.Some? ==> Shows(AnsweredDocs(a, zebraDoc, bgpdDoc), s, entry.value)
    requires entry.None? ==> forall k :: !Shows(AnsweredDocs(a, zebraDoc, bgpdDoc), s, k)
    ensures entry == if s in Shown(c, a) then Some(Shown(c, a)[s]) else None
  {
    DocsComplete(c.zebra, c.bgpd, a, zebraDoc, bgpdDoc, s);
    if entry.Some? {
      DocsSound(c.zebra, c.bgpd, a, zebraDoc, bgpdDoc, s, entry.value);
    }
    hide DocOf, Shaped, Shows, AnsweredDocs;
  }

  /** While the copies agree, the documents show exactly what the daemons that answer hold. */
  lemma AnswersShown(c: Copies, a: Answers, zebraDoc: seq<RawEntry>, bgpdDoc: seq<RawEntry>, entries: map<int, Key>)
    requires OneToOne(c) && DocOf(zebraDoc, c.zebra) && DocOf(bgpdDoc, c.bgpd)
    requires forall s :: s in entries ==> Shows(AnsweredDocs(a, zebraDoc, bgpdDoc), s, entries[s])
    requires forall s, k :: Shows(AnsweredDocs(a, zebraDoc, bgpdDoc), s, k) ==> s in entries
    ensures entries == Shown(c, a)
  {
    ShownParts(c, a);
    forall s: int ensures s in entries <==> s in Shown(c, a)
      ensures s in entries ==> entries[s] == Shown(c, a)[s]
    {
      hide DocOf, Shaped, Shows, AnsweredDocs, Injective, Sub, Shown;
      NumberShown(c, a, zebraDoc, bgpdDoc, s, if s in entries then Some(entries[s]) else None);
    }
  }

  lemma BGPDShown(m: map<int, Key>, doc: seq<RawEntry>, entries: map<int, Key>)
    requires Shaped(m) && DocOf(doc, m)
    requires forall s :: s in entries ==> Shows([doc], s, entries[s])
    requires forall s, k :: Shows([doc], s, k) ==> s in entries
    ensures entries == m
  {
    var a := Answers(false, true);
    assert AnsweredDocs(a, [], doc) == [doc];
    hide DocOf, Shaped, Shows, AnsweredDocs;
    assert DocOf([], map[]) && Shaped(map[]) by { EmptyDoc(); }
    forall s | s in entries ensures s in m && entries[s] == m[s] {
      DocsSound(map[], m, a, [], doc, s, entries[s]);
    }
    forall s | s in m ensures s in entries {
      DocsComplete(map[], m, a, [], doc, s);
    }
  }

  lemma EmptyDoc()
    ensures DocOf([], map[]) && Shaped(map[])
  {
  }

  class Daemons {
    var zebra: map<int, Key>
    var bgpd: map<int, Key>

    constructor ()
      ensures zebra == map[] && bgpd == map[]
    {
      zebra, bgpd := map[], map[];
    }

    ghost function Now(): Copies
      reads this
    {
      Copies(zebra, bgpd)
    }

    method RenderDoc(m: map<int, Key>) returns (doc: seq<RawEntry>)
      ensures DocOf(doc, m)
    {
      doc := [];
      var todo := m.Keys;
      while todo != {}
        invariant todo <= m.Keys
        invariant forall e :: e in doc <==> e.seqNo in m.Keys - todo && e == Render(e.seqNo, m[e.seqNo])
        decreases |todo|
      {
        SomeNumber(todo);
        var s: int :| s in todo;
        doc, todo := doc + [Render(s, m[s])], todo - {s};
      }
    }

    /** What may happen between two commands. */
    method Environment() returns (ghost e: Entry)
      modifies this
      ensures IsLoss(e) && e.before == old(Now()) && e.after == Now()
    {
      ghost var before := Now();
      var lostZebra: set<int> := *;
      var lostBGPD: set<int> := *;
      zebra, bgpd := zebra - lostZebra, bgpd - lostBGPD;
      e := Entry(Restart, Now() == before, before, Now());
    }

    /** The listing over all daemons: any of them answer, or the whole call fails. */
    method ListEntries() returns (ok: bool, entries: map<int, Key>, ghost e: Entry)
      requires OneToOne(Now())
      ensures e.cmd.List? && e == Entry(e.cmd, ok && e.cmd.answers == BOTH, Now(), Now())
      ensures entries == Shown(Now(), e.cmd.answers)
    {
      ok := *;
      var answers: Answers := *;
      e := Entry(List(answers), ok && answers == BOTH, Now(), Now());
      var zebraDoc := RenderDoc(zebra);
      var bgpdDoc := RenderDoc(bgpd);
      entries := ParsePrefixListDocs(AnsweredDocs(answers, zebraDoc, bgpdDoc));
      AnswersShown(Now(), answers, zebraDoc, bgpdDoc, entries);
    }

    method ListBGPDEntries() returns (ok: bool, entries: map<int, Key>, ghost e: Entry)
      requires Shaped(bgpd)
      ensures e == Entry(ListBGPD, ok, Now(), Now())
      ensures ok ==> entries == bgpd
    {
      ok := *;
      e := Entry(ListBGPD, ok, Now(), Now());
      var doc := RenderDoc(bgpd);
      entries := ParsePrefixListDocs([doc]);
      BGPDShown(bgpd, doc, entries);
    }

    /** Configures or removes one line. Success says nothing about which daemons took it. */
    method Vtysh(cmd: Command) returns (ok: bool, ghost e: Entry)
      requires IsWrite(cmd)
      modifies this
      ensures IsWriteOf(e, cmd) && e.before == old(Now()) && e.after == Now() && (e.clean ==> ok)
    {
      ok := *;
      ghost var before := Now();
      var toZebra: bool, toBGPD: bool := *, *;
      zebra, bgpd := if toZebra then Done(zebra, cmd) else zebra, if toBGPD then Done(bgpd, cmd) else bgpd;
      e := Entry(cmd, ok && zebra == Done(before.zebra, cmd) && bgpd == Done(before.bgpd, cmd), before, Now());
    }

    // -------------------------------------------------------------------------
    // The reconcile
    // -------------------------------------------------------------------------

    /** One write, with whatever happens before it. */
    method Configure(cmd: Command) returns (ok: bool, ghost es: seq<Entry>)
      requires IsWrite(cmd) && Shaped(zebra) && Shaped(bgpd) && AgentShaped(cmd.key)
      modifies this
      ensures Writes(old(Now()), [cmd], es, Now()) && (Clean(es) ==> ok)
      ensures Shaped(zebra) && Shaped(bgpd)
    {
      var loss := Environment();
      ghost var write;
      ok, write := Vtysh(cmd);
      es := [loss, write];
      assert Clean(es) ==> write.clean by { assert write in es; }
    }

    /** currentByKey and maxSeq. */
    method IndexEntries(entries: map<int, Key>) returns (byKey: map<Key, int>, maxSeq: int)
      requires Injective(entries)
      ensures Indexes(byKey, entries) && Highest(entries, maxSeq)
    {
      byKey, maxSeq := map[], 0;
      var todo := entries.Keys;
      while todo != {}
        invariant todo <= entries.Keys && maxSeq >= 0
        invariant forall s :: s in entries.Keys - todo ==> s <= maxSeq && entries[s] in byKey
        invariant maxSeq == 0 || maxSeq in entries
        invariant forall k :: k in byKey ==> byKey[k] in entries && entries[byKey[k]] == k
        decreases |todo|
      {
        SomeNumber(todo);
        var s: int :| s in todo;
        byKey := byKey[entries[s] := s];
        if s > maxSeq {
          maxSeq := s;
        }
        todo := todo - {s};
      }
    }

    method KeySet(entries: map<int, Key>) returns (keys: set<Key>)
      ensures forall k :: k in keys <==> Holds(entries, k)
    {
      keys := {};
      var todo := entries.Keys;
      while todo != {}
        invariant todo <= entries.Keys
        invariant forall k :: k in keys ==> Holds(entries, k)
        invariant forall s :: s in entries.Keys - todo ==> entries[s] in keys
        decreases |todo|
      {
        SomeNumber(todo);
        var s: int :| s in todo;
        keys, todo := keys + {entries[s]}, todo - {s};
      }
    }

    /** One line per network and one exact line per VIP. */
    method DesiredKeys(networks: seq<string>, vips: seq<string>) returns (desired: set<Key>)
      ensures desired == WantedKeys(networks, vips)
    {
      desired := {};
      for n := 0 to |networks|
        invariant desired == set x | x in networks[..n] :: Key(x, false)
      {
        assert networks[..n + 1] == networks[..n] + [networks[n]];
        desired := desired + {Key(networks[n], false)};
      }
      assert networks[..|networks|] == networks;
      for n := 0 to |vips|
        invariant desired == (set x | x in networks :: Key(x, false)) + (set x | x in vips[..n] :: Key(x + "/32", true))
      {
        assert vips[..n + 1] == vips[..n] + [vips[n]];
        desired := desired + {Key(vips[n] + "/32", true)};
      }
      assert vips[..|vips|] == vips;
    }

    /** One new entry, under the next number. */
    method AddEntry(s: int, k: Key, ghost maxSeq: int, ghost start: Copies, ghost ks0: seq<Key>, ghost done: set<Key>, ghost es0: seq<Entry>)
      returns (ok: bool, ghost es: seq<Entry>)
      requires Shaped(zebra) && Shaped(bgpd) && AgentShaped(k) && k !in done && s == NumberOf(maxSeq, |ks0|)
      requires PhaseRun(start, AddCommands(maxSeq, ks0), ks0, done, true, es0, Now())
      modifies this
      ensures PhaseRun(start, AddCommands(maxSeq, ks0 + [k]), ks0 + [k], done + {k}, ok, es, Now())
      ensures Shaped(zebra) && Shaped(bgpd)
    {
      hide PhaseRun, Shaped, Writes, AddCommands, AgentShaped, Elems, Clean, NumberOf;
      ghost var before, fs := Now(), [];
      ok, fs := Configure(Set(s, k));
      AddSnoc(maxSeq, ks0, k);
      PhaseStep(start, AddCommands(maxSeq, ks0), ks0, done, es0, before, Set(s, k), k, ok, fs, Now());
      es := es0 + fs;
    }

    /** Missing entries first, under numbers above every listed one. */
    method AddMissing(byKey: map<Key, int>, maxSeq0: int, desired: set<Key>) returns (ok: bool, ghost ks: seq<Key>, ghost es: seq<Entry>)
      requires Shaped(zebra) && Shaped(bgpd) && forall k :: k in desired ==> AgentShaped(k)
      modifies this
      ensures PhaseRun(old(Now()), AddCommands(maxSeq0, ks), ks, Missing(desired, byKey), ok, es, Now())
      ensures Shaped(zebra) && Shaped(bgpd)
    {
      hide PhaseRun, Shaped, Writes, AddCommands, AgentShaped, Elems, Clean, Missing;
      ok, ks, es := true, [], [];
      var maxSeq := maxSeq0;
      ghost var done: set<Key>, added: set<Key>, start := {}, {}, Now();
      var todo := desired;
      NoAdds(start, maxSeq0, byKey);
      while todo != {}
        invariant todo !! done && todo + done == desired && ok && maxSeq == maxSeq0 + 5 * |ks|
        invariant PhaseRun(start, AddCommands(maxSeq0, ks), ks, added, ok, es, Now())
        invariant added == Missing(done, byKey)
        invariant Shaped(zebra) && Shaped(bgpd)
        decreases |todo|
      {
        var k :| k in todo;
        MissingMore(done, byKey, k);
        if k !in byKey {
          maxSeq := maxSeq + 5;
          ok, es := AddEntry(maxSeq, k, maxSeq0, start, ks, added, es);
          ks, added := ks + [k], added + {k};
          if !ok {
            MissingLess(done + {k}, desired, byKey);
            PhaseStops(start, AddCommands(maxSeq0, ks), ks, added, Missing(desired, byKey), es, Now());
            return;
          }
        }
        todo, done := todo - {k}, done + {k};
      }
      assert done == desired;
    }

    /** bgpd's own copy; no answer means it cannot be verified in this cycle. */
    method ProbeBGPD() returns (answered: bool, bgpdKeys: set<Key>, ghost es: seq<Entry>)
      requires Shaped(zebra) && Shaped(bgpd)
      modifies this
      ensures Reads(old(Now()), ListBGPD, answered, es, Now())
      ensures answered ==> forall k :: k in bgpdKeys <==> Holds(bgpd, k)
      ensures Shaped(zebra) && Shaped(bgpd)
    {
      var loss := Environment();
      var ok, entries, e := ListBGPDEntries();
      answered, es := ok, [loss, e];
      bgpdKeys := KeySet(entries);
    }

    /** Re-applies, under its own number, each of these keys that bgpd's copy lacks. */
    method RepairEach(verifyKeys: set<Key>, bgpdKeys: set<Key>, byKey: map<Key, int>) returns (ok: bool, ghost ks: seq<Key>, ghost es: seq<Entry>)
      requires Shaped(zebra) && Shaped(bgpd) && verifyKeys <= byKey.Keys && forall k :: k in verifyKeys ==> AgentShaped(k)
      modifies this
      ensures Elems(ks) <= byKey.Keys
      ensures PhaseRun(old(Now()), SetCommands(byKey, ks), ks, verifyKeys - bgpdKeys, ok, es, Now())
      ensures Shaped(zebra) && Shaped(bgpd)
    {
      ok, ks, es := true, [], [];
      ghost var done := {};
      var todo := verifyKeys;
      while todo != {}
        invariant todo <= verifyKeys && done == verifyKeys - todo && ok && Elems(ks) <= byKey.Keys
        invariant PhaseRun(old(Now()), SetCommands(byKey, ks), ks, done - bgpdKeys, ok, es, Now())
        invariant Shaped(zebra) && Shaped(bgpd)
        decreases |todo|
      {
        hide PhaseRun, Shaped, Writes, AddCommands, SetCommands, RemoveCommands, AgentShaped, Elems, Clean;
        var k :| k in todo;
        if k !in bgpdKeys {
          ghost var before, es0, ks0, fs := Now(), es, ks, [];
          ok, fs := Configure(Set(byKey[k], k));
          es, ks := es + fs, ks + [k];
          ListedSnoc(byKey, ks0, k);
          PhaseStep(old(Now()), SetCommands(byKey, ks0), ks0, done - bgpdKeys, es0, before, Set(byKey[k], k), k, ok, fs, Now());
          LessMore(done, bgpdKeys, k);
          if !ok {
            PhaseStops(old(Now()), SetCommands(byKey, ks), ks, (done + {k}) - bgpdKeys, verifyKeys - bgpdKeys, es, Now());
            return;
          }
        } else {
          LessMore(done, bgpdKeys, k);
        }
        todo, done := todo - {k}, done + {k};
      }
      assert done == verifyKeys;
    }

    /** Listed desired entries that bgpd's own copy lacks. */
    method RepairBGPD(byKey: map<Key, int>, desired: set<Key>)
      returns (ok: bool, ghost probe: seq<Entry>, ghost answered: bool, ghost listed: Copies, ghost ks: seq<Key>, ghost es: seq<Entry>)
      requires Shaped(zebra) && Shaped(bgpd) && forall k :: k in desired ==> AgentShaped(k)
      modifies this
      ensures if Verified(desired, byKey) == {} then probe == [] && listed == old(Now()) && !answered else Reads(old(Now()), ListBGPD, answered, probe, listed)
      ensures Elems(ks) <= byKey.Keys
      ensures PhaseRun(listed, SetCommands(byKey, ks), ks, if answered then Unheld(desired, byKey, listed.bgpd) else {}, ok, es, Now())
      ensures Shaped(zebra) && Shaped(bgpd)
    {
      var verifyKeys := Verified(desired, byKey);
      ok, probe, answered, listed, ks, es := true, [], false, Now(), [], [];
      NoPhase(Now());
      if verifyKeys == {} {
        return;
      }
      var answers, bgpdKeys;
      answers, bgpdKeys, probe := ProbeBGPD();
      answered, listed := answers, Now();
      NoPhase(Now());
      if !answers {
        return;
      }
      ok, ks, es := RepairEach(verifyKeys, bgpdKeys, byKey);
      assert verifyKeys - bgpdKeys == Unheld(desired, byKey, listed.bgpd);
    }

    /** Listed entries nobody desires. */
    method RemoveStale(byKey: map<Key, int>, desired: set<Key>) returns (ok: bool, ghost ks: seq<Key>, ghost es: seq<Entry>)
      requires Shaped(zebra) && Shaped(bgpd) && forall k :: k in byKey ==> AgentShaped(k)
      modifies this
      ensures Elems(ks) <= byKey.Keys
      ensures PhaseRun(old(Now()), RemoveCommands(byKey, ks), ks, byKey.Keys - desired, ok, es, Now())
    {
      ok, ks, es := true, [], [];
      ghost var done := {};
      var todo := byKey.Keys;
      while todo != {}
        invariant todo <= byKey.Keys && done == byKey.Keys - todo && ok && Elems(ks) <= byKey.Keys
        invariant PhaseRun(old(Now()), RemoveCommands(byKey, ks), ks, done - desired, ok, es, Now())
        invariant Shaped(zebra) && Shaped(bgpd)
        decreases |todo|
      {
        hide PhaseRun, Shaped, Writes, AddCommands, SetCommands, RemoveCommands, AgentShaped, Elems, Clean;
        var k :| k in todo;
        if k !in desired {
          ghost var before, es0, ks0, fs := Now(), es, ks, [];
          ok, fs := Configure(Remove(byKey[k], k));
          es, ks := es + fs, ks + [k];
          ListedSnoc(byKey, ks0, k);
          PhaseStep(old(Now()), RemoveCommands(byKey, ks0), ks0, done - desired, es0, before, Remove(byKey[k], k), k, ok, fs, Now());
          LessMore(done, desired, k);
          if !ok {
            PhaseStops(old(Now()), RemoveCommands(byKey, ks), ks, (done + {k}) - desired, byKey.Keys - desired, es, Now());
            return;
          }
        } else {
          LessMore(done, desired, k);
        }
        todo, done := todo - {k}, done + {k};
      }
      assert done == byKey.Keys;
    }

    method ListPhase() returns (ok: bool, current: map<int, Key>, ghost answers: Answers, ghost es: seq<Entry>)
      requires OneToOne(Now())
      modifies this
      ensures OneToOne(Now()) && current == Shown(Now(), answers)
      ensures Reads(old(Now()), List(answers), ok && answers == BOTH, es, Now())
    {
      ghost var start := Now();
      OneToOneIsUnder(start);
      var loss := Environment();
      UnderSub(start, Now(), Union(start));
      UnderIsOneToOne(Now(), Union(start));
      ghost var e;
      ok, current, e := ListEntries();
      answers, es := e.cmd.answers, [loss, e];
    }

    /** Add, repair, remove; each phase runs only if the one before it reported success. */
    method ApplyDiff(current: map<int, Key>, desired: set<Key>, ghost y0: Cycle) returns (ok: bool, ghost y: Cycle)
      requires y0.Heard() && y0.listOK && y0.c1 == Now() && y0.desired == desired && current == Shown(Now(), y0.answers)
      modifies this
      ensures y.Facts() && y.head == y0.head && y.start == y0.start && y.answers == y0.answers && y.desired == desired && y.listOK
      ensures y.end == Now() && ok == y.Ok()
    {
      ShownParts(Now(), y0.answers);
      var byKey, maxSeq := IndexEntries(current);
      IndexShaped(byKey, current);
      y := y0.(byKey := byKey, maxSeq := maxSeq);
      assert y.Listed();
      assert forall k :: k in desired ==> AgentShaped(k);
      hide PhaseRun, Reads, OneToOne, Writes, Shown, Missing, Verified, Unheld, AddCommands, SetCommands, RemoveCommands;
      hide Cycle.Listed, Cycle.Added, Cycle.Probed, Cycle.Repaired, Cycle.Removed, Cycle.Facts;
      var addOK, addKeys, adds := AddMissing(byKey, maxSeq, desired);
      y := WithAdds(y, addKeys, addOK, adds, Now());
      if !addOK {
        return false, y;
      }
      var repairOK, probe, answered, c3, repairKeys, repairs := RepairBGPD(byKey, desired);
      y := WithRepairs(y, probe, answered, c3, repairKeys, repairOK, repairs, Now());
      if !repairOK {
        return false, y;
      }
      var removeOK, removeKeys, removes := RemoveStale(byKey, desired);
      y := WithRemoves(y, removeKeys, removeOK, removes, Now());
      return removeOK, y;
    }

    /** The cycle as it runs. */
    method RunCycle(networks: seq<string>, vips: seq<string>) returns (ok: bool, ghost y: Cycle)
      requires OneToOne(Now())
      modifies this
      ensures y.start == old(Now()) && y.end == Now() && y.desired == WantedKeys(networks, vips)
      ensures y.Facts() && ok == y.Ok()
    {
      ghost var start := Now();
      var listOK, current, answers, head := ListPhase();
      ghost var c1 := Now();
      var desired := DesiredKeys(networks, vips);
      WantedShaped(networks, vips);
      y := Cycle(start, answers, desired, head, listOK, c1, map[], 0, [], false, [], c1, [], false, c1, [], false, [], c1, [], false, [], c1);
      hide WantedKeys, OneToOne, Shown, IsLoss;
      if !listOK {
        return false, y;
      }
      ok, y := ApplyDiff(current, desired, y);
    }

    /**
     One cycle. Unless a new number or key conflicts with an entry that was not listed, and it
     does not when both daemons answer, then, whatever is lost, delivered in part or refused on
     the way, every state keeps the numbers one-to-one and no command takes a desired entry out of
     bgpd's copy. The latter holds unless a new number collides with one that bgpd holds. One cycle in which everything is delivered makes bgpd's
     entries exactly the desired ones.
     */
    method ReconcileFRRPrefixList(networks: seq<string>, vips: seq<string>) returns (ok: bool, ghost y: Cycle)
      requires OneToOne(Now())
      modifies this
      ensures y.start == old(Now()) && y.end == Now() && y.desired == WantedKeys(networks, vips) && y.Facts() && ok == y.Ok()
      ensures y.answers == BOTH ==> y.Calm()
      ensures y.Calm() ==> OneToOne(Now()) && Safe(y.desired, y.Trace())
      ensures y.listOK && !Collides(y.c1, y.answers, y.desired) ==> KeepsBGPD(y.desired, y.Trace())
      ensures Clean(y.Trace()) ==> ok && OneToOne(Now()) && Healed(Now(), y.desired)
      ensures Clean(y.Trace()) && Healed(old(Now()), y.desired) ==> !Wrote(y.Trace())
    {
      ok, y := RunCycle(networks, vips);
      WantedShaped(networks, vips);
      assert OneToOne(y.c1);
      hide Cycle.Facts, Cycle.Ok, Cycle.Trace, Cycle.Calm, OneToOne, Safe, KeepsBGPD, Collides, Clean, Healed, Wrote, WantedKeys;
      if y.answers == BOTH {
        BothIsCalm(y);
      }
      if y.Calm() {
        CycleIsSafe(y);
      }
      if y.listOK && !Collides(y.c1, y.answers, y.desired) {
        CycleKeepsBGPD(y);
      }
      if Clean(y.Trace()) {
        CycleHeals(y);
        if Healed(y.start, y.desired) {
          CycleIsQuiet(y);
        }
      }
    }
  }

  /** Each listed key with its number. */
  ghost predicate Indexes(byKey: map<Key, int>, entries: map<int, Key>) {
    && (forall k :: k in byKey ==> byKey[k] in entries && entries[byKey[k]] == k)
    && (forall s :: s in entries ==> entries[s] in byKey)
  }

  /** The highest listed number, or 0. */
  ghost predicate Highest(entries: map<int, Key>, maxSeq: int) {
    maxSeq >= 0 && (maxSeq == 0 || maxSeq in entries) && forall s :: s in entries ==> s <= maxSeq
  }

  function WantedKeys(networks: seq<string>, vips: seq<string>): set<Key> {
    (set x | x in networks :: Key(x, false)) + (set x | x in vips :: Key(x + "/32", true))
  }

  lemma WantedShaped(networks: seq<string>, vips: seq<string>)
    ensures forall k :: k in WantedKeys(networks, vips) ==> AgentShaped(k)
  {
  }

  // ---------------------------------------------------------------------------
  // One cycle
  // ---------------------------------------------------------------------------

  function Missing(desired: set<Key>, byKey: map<Key, int>): set<Key> {
    desired - byKey.Keys
  }

  function Verified(desired: set<Key>, byKey: map<Key, int>): set<Key> {
    set k | k in desired && k in byKey
  }

  ghost function Unheld(desired: set<Key>, byKey: map<Key, int>, copy: map<int, Key>): set<Key> {
    set k | k in desired && k in byKey && !Holds(copy, k)
  }

  lemma IndexShaped(byKey: map<Key, int>, entries: map<int, Key>)
    requires Indexes(byKey, entries) && Shaped(entries)
    ensures forall k :: k in byKey ==> AgentShaped(k)
  {
    forall k | k in byKey ensures AgentShaped(k) {
      var t: int := byKey[k];
      assert t in entries && entries[t] == k;
    }
  }

  lemma NoAdds(a: Copies, maxSeq: int, byKey: map<Key, int>)
    ensures PhaseRun(a, AddCommands(maxSeq, []), [], Missing({}, byKey), true, [], a) && Missing({}, byKey) == {}
  {
    NoPhase(a);
    assert AddCommands(maxSeq, []) == [] && Missing({}, byKey) == {};
  }

  lemma MissingMore(done: set<Key>, byKey: map<Key, int>, k: Key)
    ensures Missing(done + {k}, byKey) == if k in byKey then Missing(done, byKey) else Missing(done, byKey) + {k}
    ensures Missing(done, byKey) <= done
  {
  }

  lemma MissingLess(a: set<Key>, b: set<Key>, byKey: map<Key, int>)
    requires a <= b
    ensures Missing(a, byKey) <= Missing(b, byKey)
  {
  }

  lemma LessMore(done: set<Key>, out: set<Key>, k: Key)
    ensures (done + {k}) - out == if k in out then done - out else (done - out) + {k}
  {
  }

  lemma ListedSnoc(byKey: map<Key, int>, ks: seq<Key>, k: Key)
    requires Elems(ks) <= byKey.Keys && k in byKey
    ensures Elems(ks + [k]) <= byKey.Keys
    ensures SetCommands(byKey, ks + [k]) == SetCommands(byKey, ks) + [Set(byKey[k], k)]
    ensures RemoveCommands(byKey, ks + [k]) == RemoveCommands(byKey, ks) + [Remove(byKey[k], k)]
  {
  }

  lemma AddSnoc(maxSeq: int, ks: seq<Key>, k: Key)
    ensures AddCommands(maxSeq, ks + [k]) == AddCommands(maxSeq, ks) + [Set(NumberOf(maxSeq, |ks|), k)]
  {
  }

  function AddCommands(maxSeq: int, ks: seq<Key>): seq<Command> {
    seq(|ks|, (j: nat) requires j < |ks| => Set(NumberOf(maxSeq, j), ks[j]))
  }

  function SetCommands(byKey: map<Key, int>, ks: seq<Key>): seq<Command>
    requires Elems(ks) <= byKey.Keys
  {
    seq(|ks|, (j: nat) requires j < |ks| => assert ks[j] in Elems(ks); Set(byKey[ks[j]], ks[j]))
  }

  function RemoveCommands(byKey: map<Key, int>, ks: seq<Key>): seq<Command>
    requires Elems(ks) <= byKey.Keys
  {
    seq(|ks|, (j: nat) requires j < |ks| => assert ks[j] in Elems(ks); Remove(byKey[ks[j]], ks[j]))
  }

  /** A loop that writes one line per key, in any order, and stops at the first write that reports a failure. */
  ghost predicate PhaseRun(a: Copies, cmds: seq<Command>, ks: seq<Key>, wanted: set<Key>, ok: bool, es: seq<Entry>, b: Copies) {
    && Distinct(ks) && Elems(ks) <= wanted && Writes(a, cmds, es, b)
    && (ok ==> Elems(ks) == wanted) && (!ok ==> ks != [] && !Clean(es))
  }

  lemma PhaseStep(a: Copies, cmds: seq<Command>, ks: seq<Key>, done: set<Key>, es: seq<Entry>, b: Copies, cmd: Command, k: Key, ok: bool, fs: seq<Entry>, c: Copies)
    requires PhaseRun(a, cmds, ks, done, true, es, b) && k !in done && Writes(b, [cmd], fs, c) && (Clean(fs) ==> ok)
    ensures PhaseRun(a, cmds + [cmd], ks + [k], done + {k}, ok, es + fs, c)
  {
    WritesSnoc(a, cmds, es, b, cmd, fs, c);
    CleanConcat(es, fs);
    hide Writes, Clean;
    assert forall x :: x in ks ==> x in Elems(ks);
  }

  lemma PhaseStops(a: Copies, cmds: seq<Command>, ks: seq<Key>, done: set<Key>, wanted: set<Key>, es: seq<Entry>, b: Copies)
    requires PhaseRun(a, cmds, ks, done, false, es, b) && done <= wanted
    ensures PhaseRun(a, cmds, ks, wanted, false, es, b)
  {
  }

  lemma NoPhase(a: Copies)
    ensures PhaseRun(a, [], [], {}, true, [], a)
  {
  }

  /** A listing, with whatever happens before it. */
  ghost predicate Reads(a: Copies, cmd: Command, clean: bool, es: seq<Entry>, b: Copies) {
    |es| == 2 && IsLoss(es[0]) && es[0].before == a && es[0].after == b && es[1] == Entry(cmd, clean, b, b)
  }

  /** One cycle: its phases, what each of them did, and the copies in between. */
  datatype Cycle = Cycle(
    start: Copies, answers: Answers, desired: set<Key>,
    head: seq<Entry>, listOK: bool, c1: Copies, byKey: map<Key, int>, maxSeq: int,
    addKeys: seq<Key>, addOK: bool, adds: seq<Entry>, c2: Copies,
    probe: seq<Entry>, answered: bool, c3: Copies,
    repairKeys: seq<Key>, repairOK: bool, repairs: seq<Entry>, c4: Copies,
    removeKeys: seq<Key>, removeOK: bool, removes: seq<Entry>, end: Copies)
  {
    function Ok(): bool {
      listOK && addOK && repairOK && removeOK
    }

    ghost function Trace(): seq<Entry> {
      head + adds + probe + repairs + removes
    }

    ghost predicate Heard() {
      OneToOne(start) && OneToOne(c1) && Asked()
    }

    ghost predicate Asked() {
      && Reads(start, List(answers), listOK && answers == BOTH, head, c1)
      && forall k :: k in desired ==> AgentShaped(k)
    }

    ghost predicate Indexed() {
      listOK ==> Indexes(byKey, Shown(c1, answers)) && Highest(Shown(c1, answers), maxSeq)
    }

    ghost predicate Listed() {
      Heard() && Indexed()
    }

    ghost predicate Added() {
      if !listOK then addKeys == [] && adds == [] && c2 == c1 && !addOK
      else PhaseRun(c1, AddCommands(maxSeq, addKeys), addKeys, Missing(desired, byKey), addOK, adds, c2)
    }

    ghost predicate Probed() {
      if !addOK || Verified(desired, byKey) == {} then probe == [] && c3 == c2 && !answered
      else Reads(c2, ListBGPD, answered, probe, c3)
    }

    ghost predicate Repaired() {
      && Elems(repairKeys) <= byKey.Keys
      && if !addOK then repairKeys == [] && repairs == [] && c4 == c3 && !repairOK
         else PhaseRun(c3, SetCommands(byKey, repairKeys), repairKeys, if answered then Unheld(desired, byKey, c3.bgpd) else {}, repairOK, repairs, c4)
    }

    ghost predicate Removed() {
      && Elems(removeKeys) <= byKey.Keys
      && if !repairOK then removeKeys == [] && removes == [] && end == c4 && !removeOK
         else PhaseRun(c4, RemoveCommands(byKey, removeKeys), removeKeys, byKey.Keys - desired, removeOK, removes, end)
    }

    ghost predicate Facts() {
      Listed() && Added() && Probed() && Repaired() && Removed()
    }

    /** What the cycle did, from whatever copies it started. */
    ghost predicate Ran() {
      Asked() && Indexed() && Added() && Probed() && Repaired() && Removed()
    }

    /** Nothing this cycle can write conflicts with what was not listed. */
    ghost predicate Calm() {
      listOK ==> !Conflicts(c1, answers, desired)
    }
  }

  /** The cycle so far, with its adds. */
  lemma WithAdds(y0: Cycle, addKeys: seq<Key>, addOK: bool, adds: seq<Entry>, c2: Copies) returns (y: Cycle)
    requires y0.Listed() && y0.listOK
    requires PhaseRun(y0.c1, AddCommands(y0.maxSeq, addKeys), addKeys, Missing(y0.desired, y0.byKey), addOK, adds, c2)
    ensures y == y0.(addKeys := addKeys, addOK := addOK, adds := adds, c2 := c2, probe := [], answered := false, c3 := c2, repairKeys := [],
                     repairOK := false, repairs := [], c4 := c2, removeKeys := [], removeOK := false, removes := [], end := c2)
    ensures y.Listed() && y.Added() && (!addOK ==> y.Facts())
  {
    hide PhaseRun, Reads, OneToOne, Shown, Missing, AddCommands, Indexes, Highest;
    y := y0.(addKeys := addKeys, addOK := addOK, adds := adds, c2 := c2, probe := [], answered := false, c3 := c2, repairKeys := [],
             repairOK := false, repairs := [], c4 := c2, removeKeys := [], removeOK := false, removes := [], end := c2);
  }

  lemma WithRepairs(y0: Cycle, probe: seq<Entry>, answered: bool, c3: Copies, repairKeys: seq<Key>, repairOK: bool, repairs: seq<Entry>, c4: Copies)
    returns (y: Cycle)
    requires y0.Listed() && y0.Added() && y0.listOK && y0.addOK && Elems(repairKeys) <= y0.byKey.Keys
    requires if Verified(y0.desired, y0.byKey) == {} then probe == [] && c3 == y0.c2 && !answered else Reads(y0.c2, ListBGPD, answered, probe, c3)
    requires PhaseRun(c3, SetCommands(y0.byKey, repairKeys), repairKeys, if answered then Unheld(y0.desired, y0.byKey, c3.bgpd) else {}, repairOK, repairs, c4)
    ensures y == y0.(probe := probe, answered := answered, c3 := c3, repairKeys := repairKeys, repairOK := repairOK, repairs := repairs, c4 := c4,
                     removeKeys := [], removeOK := false, removes := [], end := c4)
    ensures y.Listed() && y.Added() && y.Probed() && y.Repaired() && (!repairOK ==> y.Facts())
  {
    hide PhaseRun, Reads, OneToOne, Shown, Missing, Verified, Unheld, AddCommands, SetCommands, Indexes, Highest;
    y := y0.(probe := probe, answered := answered, c3 := c3, repairKeys := repairKeys, repairOK := repairOK, repairs := repairs, c4 := c4,
             removeKeys := [], removeOK := false, removes := [], end := c4);
  }

  lemma WithRemoves(y0: Cycle, removeKeys: seq<Key>, removeOK: bool, removes: seq<Entry>, end: Copies) returns (y: Cycle)
    requires y0.Listed() && y0.Added() && y0.Probed() && y0.Repaired() && y0.repairOK && Elems(removeKeys) <= y0.byKey.Keys
    requires PhaseRun(y0.c4, RemoveCommands(y0.byKey, removeKeys), removeKeys, y0.byKey.Keys - y0.desired, removeOK, removes, end)
    ensures y == y0.(removeKeys := removeKeys, removeOK := removeOK, removes := removes, end := end) && y.Facts()
  {
    hide PhaseRun, Reads, OneToOne, Shown, Missing, Verified, Unheld, AddCommands, SetCommands, RemoveCommands, Indexes, Highest;
    y := y0.(removeKeys := removeKeys, removeOK := removeOK, removes := removes, end := end);
  }

  /** What the answering daemons show is a part of the one-to-one assignment. */
  lemma ShownParts(c: Copies, a: Answers)
    requires OneToOne(c)
    ensures Sub(Shown(c, a), Union(c)) && Injective(Shown(c, a)) && Shaped(Shown(c, a)) && Shaped(c.zebra) && Shaped(c.bgpd)
    ensures a.bgpd ==> Sub(c.bgpd, Shown(c, a))
    ensures a == BOTH ==> Shown(c, a) == Union(c)
  {
    assert forall s :: s in c.zebra ==> Union(c)[s] == c.zebra[s];
    assert forall s :: s in c.bgpd ==> Union(c)[s] == c.bgpd[s];
  }

  lemma CleanConcat(es: seq<Entry>, fs: seq<Entry>)
    ensures Clean(es + fs) <==> Clean(es) && Clean(fs)
  {
    if Clean(es + fs) {
      forall e | e in es || e in fs ensures e.clean { assert e in es + fs; }
    }
  }

  lemma TraceClean(y: Cycle)
    ensures Clean(y.Trace()) <==> Clean(y.head) && Clean(y.adds) && Clean(y.probe) && Clean(y.repairs) && Clean(y.removes)
  {
    CleanConcat(y.head, y.adds);
    CleanConcat(y.head + y.adds, y.probe);
    CleanConcat(y.head + y.adds + y.probe, y.repairs);
    CleanConcat(y.head + y.adds + y.probe + y.repairs, y.removes);
  }

  /** The listed assignment, extended by the new numbers. */
  function Extended(current: map<int, Key>, maxSeq: int, ks: seq<Key>): map<int, Key> {
    Apply(current, AddCommands(maxSeq, ks))
  }

  /** `m` is the listed assignment with the new keys under the numbers above `maxSeq`, by steps of 5. */
  ghost predicate Extends(current: map<int, Key>, maxSeq: int, ks: seq<Key>, m: map<int, Key>) {
    && Sub(current, m) && Injective(m) && Shaped(m)
    && (forall s :: s in m && s !in current ==> s <= maxSeq + 5 * |ks| && m[s] in ks)
    && (forall j: nat :: j < |ks| ==> NumberOf(maxSeq, j) in m && m[NumberOf(maxSeq, j)] == ks[j])
  }

  function NumberOf(maxSeq: int, j: nat): int {
    maxSeq + 5 * (j + 1)
  }

  lemma ExtendStep(current: map<int, Key>, maxSeq: int, ks: seq<Key>, m: map<int, Key>, k: Key)
    requires Extends(current, maxSeq, ks, m) && NumberOf(maxSeq, |ks|) !in current
    requires AgentShaped(k) && k !in ks && !Holds(current, k)
    ensures Extends(current, maxSeq, ks + [k], m[NumberOf(maxSeq, |ks|) := k])
  {
    var s', more, all := NumberOf(maxSeq, |ks|), m[NumberOf(maxSeq, |ks|) := k], ks + [k];
    assert s' !in m;
    forall s | s in m ensures m[s] != k {
      if s in current { assert current[s] == m[s]; }
    }
    forall j: nat | j < |all| ensures NumberOf(maxSeq, j) in more && more[NumberOf(maxSeq, j)] == all[j] {
      if j < |ks| { assert NumberOf(maxSeq, j) in m && m[NumberOf(maxSeq, j)] == ks[j] && all[j] == ks[j]; }
    }
  }

  lemma ExtendedSnoc(current: map<int, Key>, maxSeq: int, ks: seq<Key>, k: Key)
    ensures Extended(current, maxSeq, ks + [k]) == Extended(current, maxSeq, ks)[NumberOf(maxSeq, |ks|) := k]
  {
    AddSnoc(maxSeq, ks, k);
    var cmds := AddCommands(maxSeq, ks + [k]);
    assert cmds[..|cmds| - 1] == AddCommands(maxSeq, ks);
  }

  lemma NothingExtended(current: map<int, Key>, maxSeq: int)
    requires Injective(current) && Shaped(current)
    ensures Extends(current, maxSeq, [], Extended(current, maxSeq, []))
  {
    assert AddCommands(maxSeq, []) == [];
  }

  lemma {:induction false} ExtendedIsOneToOne(current: map<int, Key>, maxSeq: int, ks: seq<Key>)
    requires Injective(current) && Shaped(current) && (forall j: nat :: j < |ks| ==> NumberOf(maxSeq, j) !in current)
    requires Distinct(ks) && forall k :: k in ks ==> AgentShaped(k) && !Holds(current, k)
    ensures Extends(current, maxSeq, ks, Extended(current, maxSeq, ks))
  {
    hide Extends, Injective, Shaped, Holds, AgentShaped, NumberOf, Extended;
    if ks == [] {
      NothingExtended(current, maxSeq);
    } else {
      var n := |ks| - 1;
      assert ks[n] in ks && forall k :: k in ks[..n] ==> k in ks && k != ks[n];
      ExtendedIsOneToOne(current, maxSeq, ks[..n]);
      ExtendedSnoc(current, maxSeq, ks[..n], ks[n]);
      assert ks[..n] + [ks[n]] == ks;
      ExtendStep(current, maxSeq, ks[..n], Extended(current, maxSeq, ks[..n]), ks[n]);
    }
  }

  ghost function Assignment(y: Cycle): map<int, Key> {
    if y.listOK then Extended(Union(y.c1), y.maxSeq, y.addKeys) else Union(y.c1)
  }

  /** The desired keys that the answering daemons do not show. */
  ghost function Unlisted(c: Copies, a: Answers, desired: set<Key>): set<Key> {
    set k | k in desired && !Holds(Shown(c, a), k)
  }

  /**
   With a listing that hides something: a number the cycle can hand out carries another key than
   one it can get, or a key the cycle can add has another number.
   */
  ghost predicate Conflicts(c: Copies, a: Answers, desired: set<Key>) {
    exists maxSeq, j: nat :: Highest(Shown(c, a), maxSeq) && j < |Unlisted(c, a, desired)| && ConflictsAt(c, a, desired, NumberOf(maxSeq, j))
  }

  ghost predicate ConflictsAt(c: Copies, a: Answers, desired: set<Key>, s: int) {
    exists k :: k in Unlisted(c, a, desired) && Disagrees(Union(c), s, k)
  }

  /** The number carries another key, or the key another number. */
  ghost predicate Disagrees(m: map<int, Key>, s: int, k: Key) {
    (s in m && m[s] != k) || exists t :: t in m && m[t] == k && t != s
  }

  /** A listing that both daemons answer hides nothing. */
  lemma BothIsCalm(y: Cycle)
    requires OneToOne(y.c1) && y.answers == BOTH
    ensures y.Calm()
  {
    ShownParts(y.c1, y.answers);
  }

  lemma NewAgrees(y: Cycle, j: nat, k: Key)
    requires y.Facts() && y.Calm() && y.listOK && j < |Unlisted(y.c1, y.answers, y.desired)| && k in Unlisted(y.c1, y.answers, y.desired)
    ensures !Disagrees(Union(y.c1), NumberOf(y.maxSeq, j), k)
  {
    assert !ConflictsAt(y.c1, y.answers, y.desired, NumberOf(y.maxSeq, j));
  }

  lemma NewKeys(y: Cycle)
    requires y.Facts() && y.listOK
    ensures Distinct(y.addKeys) && |y.addKeys| <= |Unlisted(y.c1, y.answers, y.desired)|
    ensures forall k :: k in y.addKeys ==> k in Unlisted(y.c1, y.answers, y.desired) && AgentShaped(k)
  {
    MissingIs(y);
    DistinctFit(y.addKeys, Missing(y.desired, y.byKey));
    hide Unlisted, OneToOne, Indexes, Writes;
    forall k | k in y.addKeys ensures k in Missing(y.desired, y.byKey) { assert k in Elems(y.addKeys); }
  }

  /** The one key to add has the one new number already. */
  lemma OneAlreadyThere(current: map<int, Key>, maxSeq: int, k: Key)
    requires Injective(current) && Shaped(current) && NumberOf(maxSeq, 0) in current && current[NumberOf(maxSeq, 0)] == k
    ensures Extends(current, maxSeq, [k], Extended(current, maxSeq, [k]))
  {
    ExtendedSnoc(current, maxSeq, [], k);
    assert [] + [k] == [k] && AddCommands(maxSeq, []) == [];
    assert Extended(current, maxSeq, [k]) == current;
  }

  lemma OnlyNumber(y: Cycle, s: int, k: Key)
    requires y.Facts() && y.Calm() && y.listOK && k in Unlisted(y.c1, y.answers, y.desired) && s in Union(y.c1) && Union(y.c1)[s] == k
    ensures |Unlisted(y.c1, y.answers, y.desired)| == 1 && s == NumberOf(y.maxSeq, 0)
  {
    var keys := Unlisted(y.c1, y.answers, y.desired);
    assert keys != {};
    NewAgrees(y, 0, k);
    if |keys| > 1 { NewAgrees(y, 1, k); }
  }

  lemma CalmExtends(y: Cycle)
    requires y.Facts() && y.Calm() && y.listOK
    ensures Extends(Union(y.c1), y.maxSeq, y.addKeys, Extended(Union(y.c1), y.maxSeq, y.addKeys))
  {
    var current, ks := Union(y.c1), y.addKeys;
    NewKeys(y);
    assert Injective(current) && Shaped(current);
    hide OneToOne, Unlisted, Cycle.Facts, Cycle.Calm, Injective, Shaped, Extends, Extended, Union;
    if ks == [] {
      NothingExtended(current, y.maxSeq);
    } else if k, s :| k in ks && s in current && current[s] == k {
      OnlyNumber(y, s, k);
      assert ks == [k];
      OneAlreadyThere(current, y.maxSeq, k);
    } else {
      forall j: nat | j < |ks| ensures NumberOf(y.maxSeq, j) !in current {
        NewAgrees(y, j, ks[0]);
      }
      ExtendedIsOneToOne(current, y.maxSeq, ks);
    }
  }

  lemma AssignmentExtends(y: Cycle)
    requires y.Facts() && y.Calm()
    ensures Sub(Shown(y.c1, y.answers), Union(y.c1)) && Sub(Union(y.c1), Assignment(y)) && Under(y.c1, Assignment(y))
    ensures y.answers == BOTH ==> Shown(y.c1, y.answers) == Union(y.c1)
    ensures y.listOK ==> Extends(Union(y.c1), y.maxSeq, y.addKeys, Assignment(y))
  {
    ShownParts(y.c1, y.answers);
    OneToOneIsUnder(y.c1);
    if y.listOK {
      CalmExtends(y);
    }
  }

  /** Each listed key has its number in the assignment. */
  lemma IndexedIn(y: Cycle, k: Key)
    requires y.Facts() && y.Calm() && y.listOK && k in y.byKey
    ensures y.byKey[k] in Assignment(y) && Assignment(y)[y.byKey[k]] == k && Union(y.c1)[y.byKey[k]] == k
  {
    AssignmentExtends(y);
    var current := Union(y.c1);
    var t: int := y.byKey[k];
    assert t in current && current[t] == k;
    hide Assignment, Union, Shown, Under, Extends;
  }

  // Without a conflict, every write of the cycle fits one assignment.

  lemma NewNumberIn(y: Cycle, j: nat)
    requires y.Facts() && y.Calm() && y.listOK && j < |y.addKeys|
    ensures NumberOf(y.maxSeq, j) in Assignment(y) && Assignment(y)[NumberOf(y.maxSeq, j)] == y.addKeys[j] && y.addKeys[j] in y.desired
  {
    NewKeys(y);
    AssignmentExtends(y);
    hide Cycle.Facts, Cycle.Calm, Assignment, Union, Under, Sub, Injective, Shaped, NumberOf;
  }

  lemma AddsFit(y: Cycle)
    requires y.Facts() && y.Calm() && y.listOK
    ensures forall cmd :: cmd in AddCommands(y.maxSeq, y.addKeys) ==> cmd.Set? && cmd.key in y.desired && Fits(cmd, Assignment(y), y.desired)
  {
    var cmds := AddCommands(y.maxSeq, y.addKeys);
    hide Cycle.Facts, Cycle.Calm, Assignment, NumberOf;
    forall cmd | cmd in cmds ensures cmd.Set? && cmd.key in y.desired && Fits(cmd, Assignment(y), y.desired) {
      var j: nat :| j < |cmds| && cmds[j] == cmd;
      NewNumberIn(y, j);
    }
  }

  lemma RepairsFit(y: Cycle)
    requires y.Facts() && y.Calm() && y.listOK && y.addOK
    ensures forall cmd :: cmd in SetCommands(y.byKey, y.repairKeys) ==> cmd.Set? && cmd.key in y.desired && Fits(cmd, Assignment(y), y.desired)
  {
    assert Elems(y.repairKeys) <= y.desired;
    hide Cycle.Heard, Cycle.Added, Cycle.Probed, Cycle.Removed, PhaseRun, Under, Shown, Union, Assignment, Indexes;
    forall cmd | cmd in SetCommands(y.byKey, y.repairKeys) ensures cmd.Set? && cmd.key in y.desired && Fits(cmd, Assignment(y), y.desired) {
      assert cmd.key in Elems(y.repairKeys);
      IndexedIn(y, cmd.key);
    }
  }

  lemma RemovesFit(y: Cycle)
    requires y.Facts() && y.repairOK
    ensures forall cmd :: cmd in RemoveCommands(y.byKey, y.removeKeys) ==> cmd.Remove? && cmd.key !in y.desired
  {
    assert Elems(y.removeKeys) !! y.desired;
    hide Cycle.Facts, PhaseRun;
    assert Elems(y.removeKeys) <= y.byKey.Keys;
    forall cmd | cmd in RemoveCommands(y.byKey, y.removeKeys) ensures cmd.Remove? && cmd.key !in y.desired {
      assert cmd.key in Elems(y.removeKeys);
    }
  }

  lemma ReadKeeps(a: Copies, cmd: Command, clean: bool, es: seq<Entry>, b: Copies, m: map<int, Key>, desired: set<Key>)
    requires Reads(a, cmd, clean, es, b) && Under(a, m)
    ensures Under(b, m) && Safe(desired, es)
  {
    UnderIsOneToOne(b, m);
  }

  lemma HeadIsSafe(y: Cycle)
    requires y.Facts() && y.Calm()
    ensures Safe(y.desired, y.head) && Under(y.c1, Assignment(y))
  {
    AssignmentExtends(y);
    OneToOneIsUnder(y.start);
    ReadKeeps(y.start, List(y.answers), y.listOK && y.answers == BOTH, y.head, y.c1, Union(y.start), y.desired);
  }

  lemma AddsAreSafe(y: Cycle)
    requires y.Facts() && y.Calm() && Under(y.c1, Assignment(y))
    ensures Safe(y.desired, y.adds) && Under(y.c2, Assignment(y))
    ensures Safe(y.desired, y.probe) && Under(y.c3, Assignment(y))
  {
    assert Safe(y.desired, []);
    hide Under, Safe, Fits, Assignment, Union, OneToOne, Shown, Writes, Reads, Indexes;
    if y.listOK {
      AddsFit(y);
      WritesKeep(y.c1, AddCommands(y.maxSeq, y.addKeys), y.adds, y.c2, Assignment(y), y.desired);
    }
    if y.probe != [] { ReadKeeps(y.c2, ListBGPD, y.answered, y.probe, y.c3, Assignment(y), y.desired); }
  }

  lemma RestIsSafe(y: Cycle)
    requires y.Facts() && y.Calm() && Under(y.c3, Assignment(y))
    ensures Safe(y.desired, y.repairs) && Under(y.c4, Assignment(y))
    ensures Safe(y.desired, y.removes) && Under(y.end, Assignment(y))
  {
    var m := Assignment(y);
    assert Safe(y.desired, []);
    hide Under, Safe, Assignment, Union, OneToOne, Shown, Writes, Reads, Indexes;
    if y.addOK {
      RepairsFit(y);
      WritesKeep(y.c3, SetCommands(y.byKey, y.repairKeys), y.repairs, y.c4, m, y.desired);
    }
    if y.repairOK {
      RemovesFit(y);
      assert forall cmd :: cmd in RemoveCommands(y.byKey, y.removeKeys) ==> Fits(cmd, m, y.desired);
      WritesKeep(y.c4, RemoveCommands(y.byKey, y.removeKeys), y.removes, y.end, m, y.desired);
    }
  }

  lemma CycleIsSafe(y: Cycle)
    requires y.Facts() && y.Calm()
    ensures OneToOne(y.end) && Safe(y.desired, y.Trace())
  {
    HeadIsSafe(y);
    AddsAreSafe(y);
    RestIsSafe(y);
    UnderIsOneToOne(y.end, Assignment(y));
    hide Safe, Under, Cycle.Facts, Assignment, OneToOne;
    SafeConcat(y.desired, y.head, y.adds);
    SafeConcat(y.desired, y.head + y.adds, y.probe);
    SafeConcat(y.desired, y.head + y.adds + y.probe, y.repairs);
    SafeConcat(y.desired, y.head + y.adds + y.probe + y.repairs, y.removes);
  }

  // Healing

  /** bgpd announces exactly the desired entries, and zebra has no others. */
  ghost predicate Healed(c: Copies, desired: set<Key>) {
    && (forall k :: Holds(c.bgpd, k) <==> k in desired)
    && (forall k :: Holds(c.zebra, k) ==> k in desired)
  }

  /** Lines that are set stay, and nothing else changes. */
  lemma {:induction false} SetsApplied(copy: map<int, Key>, cmds: seq<Command>, m: map<int, Key>)
    requires Sub(copy, m) && forall cmd :: cmd in cmds ==> cmd.Set? && cmd.seqNo in m && m[cmd.seqNo] == cmd.key
    ensures Sub(copy, Apply(copy, cmds)) && Sub(Apply(copy, cmds), m)
    ensures forall cmd :: cmd in cmds ==> cmd.seqNo in Apply(copy, cmds)
    ensures forall s :: s in Apply(copy, cmds) && s !in copy ==> Set(s, m[s]) in cmds
  {
    if cmds != [] {
      var most, last := cmds[..|cmds| - 1], cmds[|cmds| - 1];
      assert cmds == most + [last] && last in cmds;
      SetsApplied(copy, most, m);
    }
  }

  /** Lines that are removed are gone, and nothing else changes. */
  lemma {:induction false} RemovesApplied(copy: map<int, Key>, cmds: seq<Command>)
    requires forall cmd :: cmd in cmds ==> cmd.Remove?
    ensures Sub(Apply(copy, cmds), copy)
    ensures forall s :: s in copy && s !in Apply(copy, cmds) ==> Remove(s, copy[s]) in cmds
    ensures forall s :: s in Apply(copy, cmds) ==> Remove(s, copy[s]) !in cmds
  {
    if cmds != [] {
      var most, last := cmds[..|cmds| - 1], cmds[|cmds| - 1];
      assert cmds == most + [last] && last in cmds;
      RemovesApplied(copy, most);
    }
  }

  /** The copies lost nothing, and gained only desired entries. */
  ghost predicate Gained(a: Copies, b: Copies, m: map<int, Key>, desired: set<Key>) {
    && Under(b, m) && Sub(a.zebra, b.zebra) && Sub(a.bgpd, b.bgpd)
    && (forall s :: s in b.bgpd && s !in a.bgpd ==> m[s] in desired)
    && (forall s :: s in b.zebra && s !in a.zebra ==> m[s] in desired)
  }

  lemma SetPhase(a: Copies, cmds: seq<Command>, es: seq<Entry>, b: Copies, m: map<int, Key>, desired: set<Key>)
    requires Writes(a, cmds, es, b) && Clean(es) && Under(a, m)
    requires forall cmd :: cmd in cmds ==> cmd.Set? && cmd.seqNo in m && m[cmd.seqNo] == cmd.key && cmd.key in desired
    ensures Gained(a, b, m, desired) && forall cmd :: cmd in cmds ==> cmd.seqNo in b.bgpd
  {
    WritesClean(a, cmds, es, b);
    SetsApplied(a.zebra, cmds, m);
    SetsApplied(a.bgpd, cmds, m);
  }

  /** Without a failure every phase runs. */
  lemma CleanRuns(y: Cycle)
    requires y.Facts() && Clean(y.Trace())
    ensures y.answers == BOTH && y.Calm() && y.Ok() && y.c1 == y.start && y.c3 == y.c2
    ensures Verified(y.desired, y.byKey) != {} ==> y.answered
    ensures Clean(y.adds) && Clean(y.repairs) && Clean(y.removes)
  {
    TraceClean(y);
    if y.answers == BOTH { BothIsCalm(y); }
    hide Cycle.Calm;
    assert y.head[0] in y.head && y.head[1] in y.head;
    assert y.probe != [] ==> y.probe[0] in y.probe && y.probe[1] in y.probe;
  }

  lemma AddPhase(y: Cycle)
    requires y.Facts() && Clean(y.Trace())
    ensures Gained(y.c1, y.c2, Assignment(y), y.desired)
    ensures forall k :: k in y.desired && k !in y.byKey ==> Holds(y.c2.bgpd, k)
  {
    CleanRuns(y);
    AddsFit(y);
    AssignmentExtends(y);
    hide Assignment, Reads, OneToOne, Clean, Writes;
    var cmds := AddCommands(y.maxSeq, y.addKeys);
    SetPhase(y.c1, cmds, y.adds, y.c2, Assignment(y), y.desired);
    forall k | k in y.desired && k !in y.byKey ensures Holds(y.c2.bgpd, k) {
      assert k in Elems(y.addKeys);
      var j: nat :| j < |y.addKeys| && y.addKeys[j] == k;
      assert cmds[j] in cmds && cmds[j].key == k;
    }
  }

  lemma RepairPhase(y: Cycle)
    requires y.Facts() && Clean(y.Trace()) && Under(y.c2, Assignment(y))
    ensures Gained(y.c2, y.c4, Assignment(y), y.desired)
    ensures forall k :: k in y.desired && k in y.byKey ==> y.byKey[k] in y.c4.bgpd
  {
    CleanRuns(y);
    RepairsFit(y);
    SetPhase(y.c3, SetCommands(y.byKey, y.repairKeys), y.repairs, y.c4, Assignment(y), y.desired);
    hide Assignment, Reads, OneToOne, Clean, Writes, Cycle.Trace, Indexes, Fits, Under;
    forall k | k in y.desired && k in y.byKey ensures y.byKey[k] in y.c4.bgpd {
      assert k in Verified(y.desired, y.byKey) && y.answered;
      if Holds(y.c3.bgpd, k) {
        HeldUnderItsNumber(y, k);
        var t: int := y.byKey[k];
        assert t in y.c2.bgpd;
      } else {
        assert k in Elems(y.repairKeys);
        var j: nat :| j < |y.repairKeys| && y.repairKeys[j] == k;
        var cmd := SetCommands(y.byKey, y.repairKeys)[j];
        assert cmd in SetCommands(y.byKey, y.repairKeys) && cmd.seqNo == y.byKey[k];
      }
    }
  }

  lemma HeldUnderItsNumber(y: Cycle, k: Key)
    requires y.Facts() && y.Calm() && y.listOK && k in y.byKey && Under(y.c3, Assignment(y)) && Holds(y.c3.bgpd, k)
    ensures y.byKey[k] in y.c3.bgpd
  {
    IndexedIn(y, k);
    hide Cycle.Facts, Assignment;
    var s, t: int :| s in y.c3.bgpd && y.c3.bgpd[s] == k && t == y.byKey[k];
    assert Assignment(y)[s] == k && Assignment(y)[t] == k;
  }

  /** The removals take out nothing that is desired, and every listed entry that is not. */
  lemma RemovePhase(y: Cycle)
    requires y.Facts() && Clean(y.Trace())
    ensures Sub(y.end.zebra, y.c4.zebra) && Sub(y.end.bgpd, y.c4.bgpd)
    ensures forall s :: s in y.c4.bgpd && y.c4.bgpd[s] in y.desired ==> s in y.end.bgpd
    ensures forall k :: k in y.byKey && k !in y.desired ==>
      && !(y.byKey[k] in y.end.bgpd && y.end.bgpd[y.byKey[k]] == k) && !(y.byKey[k] in y.end.zebra && y.end.zebra[y.byKey[k]] == k)
  {
    CleanRuns(y);
    RemovesFit(y);
    hide Assignment, Reads, OneToOne, Clean, Writes;
    var cmds := RemoveCommands(y.byKey, y.removeKeys);
    WritesClean(y.c4, cmds, y.removes, y.end);
    RemovesApplied(y.c4.zebra, cmds);
    RemovesApplied(y.c4.bgpd, cmds);
    forall k | k in y.byKey && k !in y.desired ensures Remove(y.byKey[k], k) in cmds {
      assert k in Elems(y.removeKeys);
      var j: nat :| j < |y.removeKeys| && y.removeKeys[j] == k;
      assert cmds[j] in cmds;
    }
  }

  lemma StaleIsGone(y: Cycle, s: int, k: Key)
    requires y.Facts() && Clean(y.Trace())
    requires (s in y.end.bgpd && y.end.bgpd[s] == k) || (s in y.end.zebra && y.end.zebra[s] == k)
    ensures k in y.desired
  {
    CleanRuns(y);
    AddPhase(y);
    RepairPhase(y);
    RemovePhase(y);
    AssignmentExtends(y);
    hide Assignment, Reads, Clean, PhaseRun, Extends, Cycle.Trace;
    if s in y.c1.bgpd || s in y.c1.zebra {
      assert s in Union(y.c1) && Union(y.c1)[s] == k;
      IndexedIn(y, k);
      assert y.byKey[k] == s;
    }
  }

  lemma DesiredIsThere(y: Cycle, k: Key)
    requires y.Facts() && Clean(y.Trace()) && k in y.desired
    ensures Holds(y.end.bgpd, k)
  {
    CleanRuns(y);
    AddPhase(y);
    RepairPhase(y);
    RemovePhase(y);
    var s: int;
    if k in y.byKey {
      IndexedIn(y, k);
      s := y.byKey[k];
    } else {
      s :| s in y.c2.bgpd && y.c2.bgpd[s] == k;
    }
    hide Assignment, Reads, Clean, PhaseRun, OneToOne;
    assert s in y.c4.bgpd && y.c4.bgpd[s] == k;
    assert s in y.end.bgpd && y.end.bgpd[s] == k;
  }

  /** A cycle that is delivered in full leaves exactly the desired entries in bgpd, and no other in zebra. */
  lemma CycleHeals(y: Cycle)
    requires y.Facts() && Clean(y.Trace())
    ensures y.Ok() && OneToOne(y.end) && Healed(y.end, y.desired)
  {
    CleanRuns(y);
    CycleIsSafe(y);
    hide Cycle.Facts, Clean, Cycle.Trace, OneToOne, Safe;
    forall k | Holds(y.end.bgpd, k) || Holds(y.end.zebra, k) ensures k in y.desired {
      var s :| (s in y.end.bgpd && y.end.bgpd[s] == k) || (s in y.end.zebra && y.end.zebra[s] == k);
      StaleIsGone(y, s, k);
    }
    forall k | k in y.desired ensures Holds(y.end.bgpd, k) {
      DesiredIsThere(y, k);
    }
  }

  /** Over a healed list, a cycle in which everything works writes nothing. */
  lemma CycleIsQuiet(y: Cycle)
    requires y.Facts() && Clean(y.Trace()) && Healed(y.start, y.desired)
    ensures !Wrote(y.Trace())
  {
    CleanRuns(y);
    HealedIsListed(y);
    hide Indexes, OneToOne, Clean, Healed, Holds, Cycle.Trace, Shown, Writes, Reads;
    assert Missing(y.desired, y.byKey) == {};
    NoKeys(y.addKeys);
    assert y.c2 == y.c1 by { WritesNothing(y.c1, y.adds, y.c2); }
    assert Unheld(y.desired, y.byKey, y.c3.bgpd) == {};
    NoKeys(y.repairKeys);
    assert y.byKey.Keys - y.desired == {};
    NoKeys(y.removeKeys);
    assert y.adds == [] && y.repairs == [] && y.removes == [] by { WritesNothing(y.c3, y.repairs, y.c4); WritesNothing(y.c4, y.removes, y.end); }
    NothingWritten(y);
  }

  lemma WritesNothing(a: Copies, es: seq<Entry>, b: Copies)
    ensures Writes(a, [], es, b) ==> es == [] && a == b
  {
  }

  /** A healed list shows exactly the desired keys, and bgpd holds them all. */
  lemma HealedIsListed(y: Cycle)
    requires y.Facts() && y.answers == BOTH && y.listOK && y.c1 == y.start && Healed(y.start, y.desired)
    ensures forall k :: k in y.desired <==> k in y.byKey
    ensures forall k :: k in y.desired ==> Holds(y.c1.bgpd, k)
  {
    ShownParts(y.c1, y.answers);
    hide Cycle.Added, Cycle.Probed, Cycle.Repaired, Cycle.Removed, OneToOne, Reads;
    forall k | k in y.desired ensures k in y.byKey && Holds(y.c1.bgpd, k) {
      assert Holds(y.c1.bgpd, k);
      var s :| s in y.c1.bgpd && y.c1.bgpd[s] == k;
      assert s in Union(y.c1) && Union(y.c1)[s] == k;
    }
    forall k | k in y.byKey ensures k in y.desired {
      var s := y.byKey[k];
      assert s in Union(y.c1) && Union(y.c1)[s] == k;
      assert Holds(y.c1.bgpd, k) || Holds(y.c1.zebra, k);
    }
  }

  lemma ReadsOnly(a: Copies, cmd: Command, clean: bool, es: seq<Entry>, b: Copies)
    requires Reads(a, cmd, clean, es, b) && !IsWrite(cmd)
    ensures !Wrote(es)
  {
  }

  lemma NothingWritten(y: Cycle)
    requires y.Facts() && y.adds == [] && y.repairs == [] && y.removes == []
    ensures !Wrote(y.Trace())
  {
    ReadsOnly(y.start, List(y.answers), y.listOK && y.answers == BOTH, y.head, y.c1);
    if y.probe != [] { ReadsOnly(y.c2, ListBGPD, y.answered, y.probe, y.c3); }
    hide Cycle.Facts;
    assert y.Trace() == y.head + y.probe;
  }

  /** After one fully delivered cycle, the next one writes nothing. */
  lemma SecondCycleIsQuiet(first: Cycle, second: Cycle)
    requires first.Facts() && second.Facts() && second.start == first.end && second.desired == first.desired
    requires Clean(first.Trace()) && Clean(second.Trace())
    ensures !Wrote(second.Trace()) && Healed(second.end, second.desired)
  {
    CycleHeals(first);
    CycleHeals(second);
    CycleIsQuiet(second);
  }

  lemma NoKeys(ks: seq<Key>)
    ensures Elems(ks) == {} ==> ks == []
  {
    if ks != [] { assert ks[0] in Elems(ks); }
  }

  // ---------------------------------------------------------------------------
  // Listings that not every daemon answers
  // ---------------------------------------------------------------------------

  /**
   A number that new entries may get is one under which bgpd, unlisted, holds a desired entry,
   and another key that is not listed can get it.
   */
  ghost predicate Collides(c: Copies, a: Answers, desired: set<Key>) {
    exists maxSeq, j: nat :: Highest(Shown(c, a), maxSeq) && CollidesAt(c, a, desired, NumberOf(maxSeq, j)) && j < |Unlisted(c, a, desired)|
  }

  ghost predicate CollidesAt(c: Copies, a: Answers, desired: set<Key>, s: int) {
    s in c.bgpd && c.bgpd[s] in desired && exists k :: k in Unlisted(c, a, desired) && k != c.bgpd[s]
  }

  /** When bgpd answers, no number collides. */
  lemma ListedNumbersAreSafe(c: Copies, a: Answers, desired: set<Key>)
    requires OneToOne(c) && a.bgpd
    ensures !Collides(c, a, desired)
  {
    ShownParts(c, a);
  }

  lemma MissingIs(y: Cycle)
    requires y.Listed() && y.listOK
    ensures Missing(y.desired, y.byKey) == Unlisted(y.c1, y.answers, y.desired)
  {
    var shown := Shown(y.c1, y.answers);
    hide OneToOne, Shown, IsLoss;
    forall k ensures k in y.byKey <==> Holds(shown, k) {
      if k in y.byKey {
        var t: int := y.byKey[k];
        assert t in shown && shown[t] == k;
      }
      if Holds(shown, k) {
        var s :| s in shown && shown[s] == k;
        assert shown[s] in y.byKey;
      }
    }
  }

  /** The entry keeps bgpd's desired entries. */
  ghost predicate EntryKeeps(desired: set<Key>, e: Entry) {
    e.cmd != Restart ==> forall s :: s in e.before.bgpd && e.before.bgpd[s] in desired ==> s in e.after.bgpd && e.after.bgpd[s] == e.before.bgpd[s]
  }

  lemma KeepsEach(desired: set<Key>, es: seq<Entry>)
    ensures KeepsBGPD(desired, es) <==> forall e :: e in es ==> EntryKeeps(desired, e)
  {
  }

  lemma AddNumber(maxSeq: int, ks: seq<Key>, j: nat, k: Key)
    requires j < |ks| && k != ks[j]
    ensures Set(NumberOf(maxSeq, j), k) !in AddCommands(maxSeq, ks)
  {
    forall i: nat | i < |ks| ensures AddCommands(maxSeq, ks)[i] != Set(NumberOf(maxSeq, j), k) {}
  }

  /** A desired entry that an add replaces is a collision. */
  lemma AddCollides(y: Cycle, j: nat, before: map<int, Key>)
    requires y.Facts() && y.listOK && j < |y.addKeys|
    requires Origin(y.c1.bgpd, AddCommands(y.maxSeq, y.addKeys), before)
    requires var s := NumberOf(y.maxSeq, j); s in before && before[s] in y.desired && before[s] != y.addKeys[j]
    ensures Collides(y.c1, y.answers, y.desired)
  {
    var s := NumberOf(y.maxSeq, j);
    MissingIs(y);
    DistinctFit(y.addKeys, Missing(y.desired, y.byKey));
    assert y.addKeys[j] in Elems(y.addKeys);
    hide Cycle.Heard, Cycle.Probed, Cycle.Repaired, Cycle.Removed, PhaseRun, Indexes, Missing, Shown, Unlisted, AddCommands;
    assert Set(s, before[s]) !in AddCommands(y.maxSeq, y.addKeys) by { AddNumber(y.maxSeq, y.addKeys, j, before[s]); }
    assert y.addKeys[j] in Unlisted(y.c1, y.answers, y.desired);
    assert CollidesAt(y.c1, y.answers, y.desired, s);
  }

  /** An entry of the adds sets one of the new numbers. */
  lemma AddAt(y: Cycle, e: Entry) returns (j: nat)
    requires y.Facts() && y.listOK && e in y.adds && e.cmd != Restart
    ensures j < |y.addKeys| && IsWriteOf(e, Set(NumberOf(y.maxSeq, j), y.addKeys[j]))
    ensures Origin(y.c1.bgpd, AddCommands(y.maxSeq, y.addKeys), e.before.bgpd)
  {
    var cmds := AddCommands(y.maxSeq, y.addKeys);
    hide Cycle.Listed, Cycle.Probed, Cycle.Repaired, Cycle.Removed, Writes, Origin, Missing, IsWriteOf, Clean;
    AllOrigin(y.c1.bgpd);
    WritesOrigin(y.c1.bgpd, [], y.c1, cmds, y.adds, y.c2);
    assert [] + cmds == cmds;
    j := WrittenBy(y.c1, cmds, y.adds, y.c2, e);
  }

  lemma AllOrigin(m: map<int, Key>)
    ensures Origin(m, [], m)
  {
  }

  lemma AddKeepsBGPD(y: Cycle, e: Entry)
    requires y.Facts() && y.listOK && !Collides(y.c1, y.answers, y.desired) && e in y.adds
    ensures EntryKeeps(y.desired, e)
  {
    hide Cycle.Facts, Collides, Origin, AddCommands, NumberOf;
    if e.cmd != Restart {
      var j := AddAt(y, e);
      var s := NumberOf(y.maxSeq, j);
      if s in e.before.bgpd && e.before.bgpd[s] in y.desired && e.before.bgpd[s] != y.addKeys[j] {
        AddCollides(y, j, e.before.bgpd);
      }
    }
  }

  lemma {:induction false} DistinctFit(ks: seq<Key>, keys: set<Key>)
    requires Distinct(ks) && Elems(ks) <= keys
    ensures |ks| <= |keys|
  {
    if ks != [] {
      var n := |ks| - 1;
      assert ks[n] in Elems(ks);
      forall k | k in ks[..n] ensures k in keys - {ks[n]} { assert k in Elems(ks); }
      DistinctFit(ks[..n], keys - {ks[n]});
    }
  }

  /** bgpd holds nothing but the listed key under a listed number, whatever the cycle has written. */
  lemma ListedNumberHolds(y: Cycle, before: map<int, Key>, k: Key)
    requires y.Facts() && y.listOK && y.addOK && k in y.byKey && y.byKey[k] in before
    requires Origin(y.c1.bgpd, AddCommands(y.maxSeq, y.addKeys) + SetCommands(y.byKey, y.repairKeys), before)
    ensures before[y.byKey[k]] == k
  {
    var s := y.byKey[k];
    ShownParts(y.c1, y.answers);
    assert Shown(y.c1, y.answers)[s] == k && Union(y.c1)[s] == k && s <= y.maxSeq;
    hide Reads, Writes, PhaseRun, Shown;
    var adds, sets := AddCommands(y.maxSeq, y.addKeys), SetCommands(y.byKey, y.repairKeys);
    if Set(s, before[s]) in adds + sets {
      assert Set(s, before[s]) !in adds;
      var i: nat :| i < |y.repairKeys| && sets[i] == Set(s, before[s]);
      assert y.repairKeys[i] in Elems(y.repairKeys);
      assert Shown(y.c1, y.answers)[y.byKey[before[s]]] == before[s];
    }
  }

  /** What bgpd holds when the repairs start. */
  lemma RepairOrigin(y: Cycle)
    requires y.Facts() && y.listOK && y.addOK
    ensures Origin(y.c1.bgpd, AddCommands(y.maxSeq, y.addKeys), y.c3.bgpd)
  {
    var adds := AddCommands(y.maxSeq, y.addKeys);
    hide Writes, OneToOne, Indexes, Shown, Missing, Clean;
    WritesOrigin(y.c1.bgpd, [], y.c1, adds, y.adds, y.c2);
    assert [] + adds == adds;
  }

  /** An entry of the repairs sets a listed number to its key. */
  lemma RepairAt(y: Cycle, e: Entry) returns (k: Key)
    requires y.Facts() && y.listOK && y.addOK && e in y.repairs && e.cmd != Restart
    ensures k in y.byKey && IsWriteOf(e, Set(y.byKey[k], k))
    ensures Elems(y.repairKeys) <= y.byKey.Keys
    ensures Origin(y.c1.bgpd, AddCommands(y.maxSeq, y.addKeys) + SetCommands(y.byKey, y.repairKeys), e.before.bgpd)
  {
    var cmds := SetCommands(y.byKey, y.repairKeys);
    RepairOrigin(y);
    hide Cycle.Listed, Cycle.Added, Cycle.Probed, Cycle.Removed, Writes, Origin, AddCommands, IsWriteOf, Clean;
    WritesOrigin(y.c1.bgpd, AddCommands(y.maxSeq, y.addKeys), y.c3, cmds, y.repairs, y.c4);
    var j := WrittenBy(y.c3, cmds, y.repairs, y.c4, e);
    k := y.repairKeys[j];
    assert k in Elems(y.repairKeys) && cmds[j] == Set(y.byKey[k], k);
  }

  lemma RepairKeepsBGPD(y: Cycle, e: Entry)
    requires y.Facts() && y.listOK && y.addOK && e in y.repairs
    ensures EntryKeeps(y.desired, e)
  {
    hide Cycle.Facts, Origin, AddCommands;
    if e.cmd != Restart {
      var k := RepairAt(y, e);
      if y.byKey[k] in e.before.bgpd {
        ListedNumberHolds(y, e.before.bgpd, k);
      }
    }
  }

  lemma RemoveKeepsBGPD(y: Cycle, e: Entry)
    requires y.Facts() && y.repairOK && e in y.removes
    ensures EntryKeeps(y.desired, e)
  {
    var cmds := RemoveCommands(y.byKey, y.removeKeys);
    if e.cmd != Restart {
      var j := WrittenBy(y.c4, cmds, y.removes, y.end, e);
      assert y.removeKeys[j] in Elems(y.removeKeys);
    }
  }

  lemma ReadsChangeNothing(y: Cycle)
    requires y.Facts()
    ensures forall e :: e in y.head || e in y.probe ==> EntryKeeps(y.desired, e)
  {
    hide PhaseRun, Indexes, OneToOne;
  }

  lemma CycleKeepsBGPD(y: Cycle)
    requires y.Facts() && y.listOK && !Collides(y.c1, y.answers, y.desired)
    ensures KeepsBGPD(y.desired, y.Trace())
  {
    ReadsChangeNothing(y);
    assert (y.repairs != [] ==> y.addOK) && (y.removes != [] ==> y.repairOK);
    hide Cycle.Facts, Collides, EntryKeeps;
    forall e | e in y.Trace() ensures EntryKeeps(y.desired, e) {
      if e in y.adds { AddKeepsBGPD(y, e); }
      else if e in y.repairs { RepairKeepsBGPD(y, e); }
      else if e in y.removes { RemoveKeepsBGPD(y, e); }
      else { assert e in y.head || e in y.probe; }
    }
    KeepsEach(y.desired, y.Trace());
  }

  lemma {:induction false} PickKeys(keys: set<Key>, n: nat) returns (ks: seq<Key>)
    requires n <= |keys|
    ensures |ks| == n && Distinct(ks) && Elems(ks) <= keys
  {
    ks := [];
    if n > 0 {
      var k :| k in keys;
      ks := PickKeys(keys - {k}, n - 1);
      assert forall x :: x in ks ==> x in Elems(ks);
      ks := ks + [k];
    }
  }

  lemma {:induction false} SomeIndex(entries: map<int, Key>) returns (byKey: map<Key, int>)
    requires Injective(entries)
    ensures Indexes(byKey, entries)
    decreases |entries|
  {
    byKey := map[];
    if entries.Keys != {} {
      SomeNumber(entries.Keys);
      var s: int :| s in entries.Keys;
      var less := entries - {s};
      var rest := SomeIndex(less);
      byKey := rest[entries[s] := s];
      forall k | k in byKey ensures byKey[k] in entries && entries[byKey[k]] == k {
        if k != entries[s] { assert rest[k] in less; }
      }
      forall t | t in entries ensures entries[t] in byKey {
        if t != s { assert t in less && less[t] in rest; }
      }
    }
  }

  /** Writes that reach nobody, and a last one that reaches bgpd alone. */
  lemma {:induction false} LostWrites(c: Copies, cmds: seq<Command>) returns (es: seq<Entry>)
    ensures Writes(c, cmds, es, c)
  {
    es := [];
    if cmds != [] {
      var n := |cmds| - 1;
      var head := LostWrites(c, cmds[..n]);
      var pair := [Entry(Restart, true, c, c), Entry(cmds[n], false, c, c)];
      assert Writes(c, [cmds[n]], pair, c);
      WritesSnoc(c, cmds[..n], head, c, cmds[n], pair, c);
      assert cmds[..n] + [cmds[n]] == cmds;
      es := head + pair;
    }
  }

  /** Adds under the first numbers; only the last one reaches a daemon, one of them, and reports a failure. */
  lemma AddsThatReachOne(c: Copies, maxSeq: int, first: seq<Key>, other: Key, toBGPD: bool) returns (es: seq<Entry>, after: Copies)
    ensures var s := NumberOf(maxSeq, |first|);
      && after == (if toBGPD then Copies(c.zebra, c.bgpd[s := other]) else Copies(c.zebra[s := other], c.bgpd))
      && Writes(c, AddCommands(maxSeq, first + [other]), es, after) && Entry(Set(s, other), false, c, after) in es
  {
    var s := NumberOf(maxSeq, |first|);
    after := if toBGPD then Copies(c.zebra, c.bgpd[s := other]) else Copies(c.zebra[s := other], c.bgpd);
    var fs := LostWrites(c, AddCommands(maxSeq, first));
    var bad := Entry(Set(s, other), false, c, after);
    var pair := [Entry(Restart, true, c, c), bad];
    assert Writes(c, [Set(s, other)], pair, after);
    WritesSnoc(c, AddCommands(maxSeq, first), fs, c, Set(s, other), pair, after);
    AddSnoc(maxSeq, first, other);
    es := fs + pair;
    assert bad in pair;
  }

  /** A cycle whose adds are these and stop there. */
  lemma StoppedCycle(c: Copies, a: Answers, desired: set<Key>, byKey: map<Key, int>, maxSeq: int, ks: seq<Key>, adds: seq<Entry>, after: Copies) returns (y: Cycle)
    requires OneToOne(c) && (forall k :: k in desired ==> AgentShaped(k)) && Indexes(byKey, Shown(c, a)) && Highest(Shown(c, a), maxSeq)
    requires Distinct(ks) && ks != [] && Elems(ks) <= Unlisted(c, a, desired)
    requires Writes(c, AddCommands(maxSeq, ks), adds, after) && !Clean(adds)
    ensures y.Facts() && y.start == c && y.c1 == c && y.answers == a && y.desired == desired && y.listOK && y.adds == adds && y.end == after
  {
    var head := [Entry(Restart, true, c, c), Entry(List(a), a == BOTH, c, c)];
    y := Cycle(c, a, desired, head, true, c, byKey, maxSeq, ks, false, adds, after, [], false, after, [], false, [], after, [], false, [], after);
    assert y.Listed();
    MissingIs(y);
    hide OneToOne, Writes, Shown, Clean, Indexes;
    assert y.Added();
  }

  /** A collision happens: a cycle can take the number for the other key. */
  lemma CollisionHappens(c: Copies, a: Answers, desired: set<Key>) returns (y: Cycle)
    requires OneToOne(c) && (forall k :: k in desired ==> AgentShaped(k)) && Collides(c, a, desired)
    ensures y.Facts() && y.start == c && y.c1 == c && y.answers == a && y.desired == desired && y.listOK
    ensures !KeepsBGPD(desired, y.Trace())
  {
    var maxSeq, j: nat :| Highest(Shown(c, a), maxSeq) && CollidesAt(c, a, desired, NumberOf(maxSeq, j)) && j < |Unlisted(c, a, desired)|;
    var s, missing := NumberOf(maxSeq, j), Unlisted(c, a, desired);
    var other :| other in missing && other != c.bgpd[s];
    ShownParts(c, a);
    var byKey := SomeIndex(Shown(c, a));
    var first := PickKeys(missing - {other}, j);
    assert forall x :: x in first ==> x in Elems(first);
    var adds, after := AddsThatReachOne(c, maxSeq, first, other, true);
    var bad := Entry(Set(s, other), false, c, after);
    assert !Clean(adds);
    y := StoppedCycle(c, a, desired, byKey, maxSeq, first + [other], adds, after);
    assert bad in y.Trace();
    assert !EntryKeeps(desired, bad);
    KeepsEach(desired, y.Trace());
  }

  /**
   Exactly when a cycle keeps every desired entry in bgpd, whatever happens to it after its
   listing: when no number it can hand out collides.
   */
  lemma PartialListingIff(c: Copies, a: Answers, desired: set<Key>)
    requires OneToOne(c) && forall k :: k in desired ==> AgentShaped(k)
    ensures (forall y: Cycle :: y.Facts() && y.c1 == c && y.answers == a && y.desired == desired && y.listOK ==> KeepsBGPD(desired, y.Trace()))
        <==> !Collides(c, a, desired)
  {
    if Collides(c, a, desired) {
      var y := CollisionHappens(c, a, desired);
    } else {
      forall y: Cycle | y.Facts() && y.c1 == c && y.answers == a && y.desired == desired && y.listOK ensures KeepsBGPD(desired, y.Trace()) {
        CycleKeepsBGPD(y);
      }
    }
  }

  /** A conflicting write that one daemon alone takes breaks the assignment. */
  lemma DisagreementBreaks(c: Copies, s: int, k: Key) returns (toBGPD: bool)
    requires OneToOne(c) && Disagrees(Union(c), s, k)
    ensures !OneToOne(if toBGPD then Copies(c.zebra, c.bgpd[s := k]) else Copies(c.zebra[s := k], c.bgpd))
  {
    toBGPD := s in c.zebra && c.zebra[s] != k;
    var after := if toBGPD then Copies(c.zebra, c.bgpd[s := k]) else Copies(c.zebra[s := k], c.bgpd);
    if !(s in Union(c) && Union(c)[s] != k) {
      var t :| t in Union(c) && Union(c)[t] == k && t != s;
      assert Union(after)[t] == k && Union(after)[s] == k;
    }
  }

  /** A conflict happens: a cycle can leave the copies without a common assignment. */
  lemma ConflictHappens(c: Copies, a: Answers, desired: set<Key>) returns (y: Cycle)
    requires OneToOne(c) && (forall k :: k in desired ==> AgentShaped(k)) && Conflicts(c, a, desired)
    ensures y.Facts() && y.start == c && y.c1 == c && y.answers == a && y.desired == desired && y.listOK && !OneToOne(y.end)
  {
    var maxSeq, j: nat :| Highest(Shown(c, a), maxSeq) && j < |Unlisted(c, a, desired)| && ConflictsAt(c, a, desired, NumberOf(maxSeq, j));
    var s, missing := NumberOf(maxSeq, j), Unlisted(c, a, desired);
    var k :| k in missing && Disagrees(Union(c), s, k);
    var toBGPD := DisagreementBreaks(c, s, k);
    ShownParts(c, a);
    hide OneToOne, Disagrees, Conflicts, ConflictsAt, Shown, Writes;
    var byKey := SomeIndex(Shown(c, a));
    var first := PickKeys(missing - {k}, j);
    assert forall x :: x in first ==> x in Elems(first);
    var adds, after := AddsThatReachOne(c, maxSeq, first, k, toBGPD);
    assert !Clean(adds);
    y := StoppedCycle(c, a, desired, byKey, maxSeq, first + [k], adds, after);
  }

  /**
   Exactly when a cycle keeps the numbers one-to-one, whatever happens to it after its listing:
   when nothing it can write conflicts with what was not listed.
   */
  lemma OneToOneIff(c: Copies, a: Answers, desired: set<Key>)
    requires OneToOne(c) && forall k :: k in desired ==> AgentShaped(k)
    ensures (forall y: Cycle :: y.Facts() && y.c1 == c && y.answers == a && y.desired == desired && y.listOK ==> OneToOne(y.end))
        <==> !Conflicts(c, a, desired)
  {
    if Conflicts(c, a, desired) {
      var y := ConflictHappens(c, a, desired);
    } else {
      forall y: Cycle | y.Facts() && y.c1 == c && y.answers == a && y.desired == desired && y.listOK ensures OneToOne(y.end) {
        CycleIsSafe(y);
      }
    }
  }

  /** Cycles one after the other, over listings that any of the daemons answered. */
  ghost predicate Chained(ys: seq<Cycle>) {
    && (forall i :: 0 <= i < |ys| ==> ys[i].Ran())
    && (forall i :: 0 < i < |ys| ==> ys[i].start == ys[i - 1].end)
  }

  lemma RanIsFacts(y: Cycle)
    requires y.Ran() && OneToOne(y.start)
    ensures y.Facts()
  {
    OneToOneIsUnder(y.start);
    UnderSub(y.start, y.c1, Union(y.start));
    UnderIsOneToOne(y.c1, Union(y.start));
  }

  /** Over any sequence of cycles without a conflict the numbers stay one-to-one and bgpd keeps what is desired. */
  lemma {:induction false} CyclesAreSafe(ys: seq<Cycle>)
    requires Chained(ys) && (ys != [] ==> OneToOne(ys[0].start)) && forall y :: y in ys ==> y.Calm()
    ensures forall y :: y in ys ==> y.Facts() && OneToOne(y.end) && Safe(y.desired, y.Trace())
  {
    hide Cycle.Ran, Cycle.Facts, Cycle.Calm, Cycle.Trace, OneToOne, Safe;
    if ys != [] {
      var n := |ys| - 1;
      var most, last := ys[..n], ys[n];
      assert ys == most + [last];
      CyclesAreSafe(most);
      if n > 0 { assert most[n - 1] in most && last.start == most[n - 1].end; }
      RanIsFacts(last);
      CycleIsSafe(last);
    }
  }

  /** zebra restarted and alone answers: a cycle gives number 5 to a new entry and replaces bgpd's desired entry there. */
  lemma PartialListingLosesDesired() returns (y: Cycle)
    ensures var kept, added := Key("192.0.2.0/24", false), Key("198.51.100.0/24", false);
      && y.Facts() && y.start == Copies(map[], map[5 := kept]) && y.answers == Answers(true, false) && y.desired == {kept, added}
      && !KeepsBGPD(y.desired, y.Trace())
  {
    var kept, added := Key("192.0.2.0/24", false), Key("198.51.100.0/24", false);
    assert "192.0.2.0/24"[1] != "198.51.100.0/24"[1] || "192.0.2.0/24"[2] != "198.51.100.0/24"[2];
    var c, a, desired := Copies(map[], map[5 := kept]), Answers(true, false), {kept, added};
    assert Unlisted(c, a, desired) == desired && |desired| == 2;
    assert CollidesAt(c, a, desired, NumberOf(0, 0)) by { assert added in Unlisted(c, a, desired); }
    assert Highest(Shown(c, a), 0);
    y := CollisionHappens(c, a, desired);
  }

  lemma UnderSub(a: Copies, b: Copies, m: map<int, Key>)
    requires Under(a, m) && Sub(b.zebra, a.zebra) && Sub(b.bgpd, a.bgpd)
    ensures Under(b, m)
  {
  }
}
