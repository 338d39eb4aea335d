/**
 One log directory: its own segments over what its ancestors show. What a write does
 to the segments, headers included, what a fork cuts out of them and the watermark it
 starts the new branches from are computed here as the code computes them, and shown
 to mean one more record, a prefix and a suffix.
 */
module NodeLog {
  import opened Basics
  import opened Lineage
  import Files = SegmentRecovery

  /** How a log is opened: its fold, if it keeps headers, its segment limit (0 for
      none) and the extension of its segment files. */
  datatype Options = Options(fold: Option<Reducer>, segmentSize: nat, ext: string)

  /** Headers are promised for the folds they are sound for. */
  ghost function Tracked(fold: Option<Reducer>): Option<Reducer> {
    if fold.Some? && BlankSafe(fold.value) then fold else None
  }

  lemma TrackedFacts(fold: Option<Reducer>)
    ensures Tracked(fold).Some? <==> fold.Some? && BlankSafe(fold.value)
    ensures Tracked(fold).Some? ==> Tracked(fold) == fold
  {
  }

  const FRAME_HEADER := 8

  function FrameSize(payload: Bytes): nat {
    FRAME_HEADER + |payload|
  }

  function EntriesSize(entries: seq<Bytes>): nat {
    if entries == [] then 0 else EntriesSize(entries[..|entries| - 1]) + FrameSize(entries[|entries| - 1])
  }

  function SegmentBytes(headered: bool, s: Segment): nat {
    (if headered then FrameSize(s.header) else 0) + EntriesSize(s.entries)
  }

  // ---- sizes, as lengths of files ----

  /** The frames of a segment's file, its header first if it has one. */
  function Framed(headered: bool, header: Bytes, entries: seq<Bytes>): seq<Bytes> {
    (if headered then [header] else []) + entries
  }

  const ANY: Files.Checksum := (_: Bytes) => 0

  /** A file of these frames keeps to the limit. */
  predicate Room(size: nat, headered: bool, header: Bytes, entries: seq<Bytes>) {
    size == 0 || |Files.Frames(ANY, Framed(headered, header, entries))| <= size
  }

  lemma {:induction false} FramesLength(crc: Files.Checksum, ps: seq<Bytes>)
    ensures |Files.Frames(crc, ps)| == EntriesSize(ps)
  {
    if ps != [] {
      var n := |ps| - 1;
      FramesLength(crc, ps[..n]);
      assert ps == ps[..n] + [ps[n]];
      Files.FramesJoin(crc, ps[..n], [ps[n]]);
      Files.OneFrame(crc, ps[n]);
      hide EntriesSize, Files.Frames;
      SizeIs(ps);
    }
  }

  lemma SizeIs(ps: seq<Bytes>)
    requires ps != []
    ensures EntriesSize(ps) == EntriesSize(ps[..|ps| - 1]) + FrameSize(ps[|ps| - 1])
  {
  }

  lemma {:induction false} SizeJoin(a: seq<Bytes>, b: seq<Bytes>)
    ensures EntriesSize(a + b) == EntriesSize(a) + EntriesSize(b)
    decreases |b|
  {
    if b == [] {
      assert a + b == a;
    } else {
      var n := |b| - 1;
      SizeJoin(a, b[..n]);
      assert (a + b)[..|a + b| - 1] == a + b[..n];
      SizeIs(a + b);
      SizeIs(b);
    }
  }

  /** The size kept for a segment is the length of its file, whatever the checksum. */
  lemma SegmentBytesIsFile(crc: Files.Checksum, headered: bool, s: Segment)
    ensures SegmentBytes(headered, s) == |Files.Frames(crc, Framed(headered, s.header, s.entries))|
  {
    FramesLength(crc, Framed(headered, s.header, s.entries));
    if headered {
      SizeJoin([s.header], s.entries);
      SizeIs([s.header]);
      assert [s.header][..0] == [];
    } else {
      assert [] + s.entries == s.entries;
    }
    hide EntriesSize, Files.Frames;
    assert EntriesSize([]) == 0 by {
      NoSize();
    }
  }

  lemma NoSize()
    ensures EntriesSize([]) == 0
  {
  }

  /** One record behind a header: eight bytes for each frame, and what they hold. */
  lemma RoomForOne(size: nat, headered: bool, header: Bytes, payload: Bytes)
    ensures Room(size, headered, header, [payload]) <==>
            size == 0 || (if headered then 8 + |header| else 0) + 8 + |payload| <= size
  {
    SegmentBytesIsFile(ANY, headered, Segment(0, header, [payload]));
    SizeIs([payload]);
    assert [payload][..0] == [];
    NoSize();
    hide Files.Frames, EntriesSize;
  }

  // ---- splitting one log's segments at an index ----

  datatype Action = Keep | Move | Split

  function Classify(s: Segment, at: nat): Action {
    if s.base + |s.entries| - 1 < at then Keep
    else if s.base >= at then Move
    else Split
  }

  function Kept(segs: seq<Segment>, at: nat): seq<Segment> {
    if segs == [] then []
    else
      var front, s := Kept(segs[..|segs| - 1], at), segs[|segs| - 1];
      match Classify(s, at)
      case Keep => front + [s]
      case Move => front
      case Split => front + [s.(entries := s.entries[..at - s.base])]
  }

  function Moved(segs: seq<Segment>, at: nat, watermark: Bytes): seq<Segment> {
    if segs == [] then []
    else
      var front, s := Moved(segs[..|segs| - 1], at, watermark), segs[|segs| - 1];
      match Classify(s, at)
      case Keep => front
      case Move => front + [s]
      case Split => front + [Segment(at, watermark, s.entries[at - s.base..])]
  }

  /** No segment is empty. */
  predicate Full(segs: seq<Segment>) {
    forall i :: 0 <= i < |segs| ==> segs[i].entries != []
  }

  /** Every segment of `parts` has the base and header of one of `segs`, or is `extra`. */
  ghost predicate HeadersFrom(parts: seq<Segment>, segs: seq<Segment>, base: nat, header: Bytes) {
    forall i :: 0 <= i < |parts| ==>
      || (parts[i].base == base && parts[i].header == header)
      || exists j :: 0 <= j < |segs| && segs[j].base == parts[i].base && segs[j].header == parts[i].header
  }

  lemma {:induction false} AllKept(segs: seq<Segment>, at: nat, w: Bytes)
    requires Contiguous(segs) && Full(segs)
    requires segs != [] ==> segs[|segs| - 1].base + |segs[|segs| - 1].entries| <= at
    ensures Kept(segs, at) == segs && Moved(segs, at, w) == []
    decreases |segs|
  {
    if segs != [] {
      AllKept(segs[..|segs| - 1], at, w);
    }
  }

  ghost predicate CleanCut(segs: seq<Segment>, at: nat, k: seq<Segment>, m: seq<Segment>) {
    && Entries(k) + Entries(m) == Entries(segs)
    && Contiguous(k) && Full(k) && Contiguous(m) && Full(m)
    && (k != [] ==> segs != [] && k[0].base == segs[0].base && k[0].base + |Entries(k)| <= at)
    && (m != [] ==> m[0].base == at && segs != [] && segs[0].base + |Entries(k)| == at)
  }

  lemma CutNothing(segs: seq<Segment>, at: nat)
    requires Contiguous(segs) && Full(segs)
    requires segs != [] ==> segs[|segs| - 1].base + |segs[|segs| - 1].entries| <= at
    ensures CleanCut(segs, at, segs, [])
  {
    if segs != [] {
      EntriesAt(segs, |segs| - 1);
    }
  }

  lemma NoEntries()
    ensures Entries([]) == [] && Contiguous([]) && Full([])
  {
  }

  lemma FrontOf(front: seq<Segment>, s: Segment)
    requires Contiguous(front + [s]) && Full(front + [s])
    ensures Contiguous(front) && Full(front) && s.entries != []
    ensures front != [] ==> s.base == front[0].base + |Entries(front)|
    ensures (front + [s])[0].base == if front != [] then front[0].base else s.base
    ensures (front + [s])[0].base + |Entries(front)| == s.base
    ensures front != [] ==> front[|front| - 1].base + |front[|front| - 1].entries| == s.base
  {
    hide Entries, Contiguous;
    var segs := front + [s];
    EntriesBase(segs, |front|);
    NoEntries();
    assert segs[..|front|] == front && segs[|front|] == s;
    if front != [] {
      EntriesAt(front, |front| - 1);
    }
    assert forall i :: 0 <= i < |front| ==> front[i] == segs[i];
  }

  lemma Assoc(a: seq<Bytes>, b: seq<Bytes>, c: seq<Bytes>)
    ensures a + b + c == a + (b + c)
  {
  }

  lemma CutPieces(entries: seq<Bytes>, n: nat)
    requires n <= |entries|
    ensures entries == entries[..n] + entries[n..]
  {
  }

  lemma CutInside(front: seq<Segment>, s: Segment, at: nat, w: Bytes)
    requires Contiguous(front + [s]) && Full(front + [s])
    requires s.base < at < s.base + |s.entries|
    ensures CleanCut(front + [s], at, front + [s.(entries := s.entries[..at - s.base])],
                     [Segment(at, w, s.entries[at - s.base..])])
  {
    hide Entries, Contiguous, Full;
    var head := s.(entries := s.entries[..at - s.base]);
    var tail := Segment(at, w, s.entries[at - s.base..]);
    FrontOf(front, s);
    LastBase(front, head);
    LastBase(front, s);
    SingleEntries(tail);
    OneFull(tail);
    CutPieces(s.entries, at - s.base);
    Assoc(Entries(front), head.entries, tail.entries);
  }

  lemma OneFull(s: Segment)
    requires s.entries != []
    ensures Full([s])
  {
  }

  lemma CutBefore(front: seq<Segment>, s: Segment, at: nat, k: seq<Segment>, m: seq<Segment>)
    requires Contiguous(front + [s]) && Full(front + [s])
    requires CleanCut(front, at, k, m)
    requires at <= s.base && (front + [s])[0].base <= at
    ensures CleanCut(front + [s], at, k, m + [s])
  {
    hide Entries, Contiguous, Full;
    NoEntries();
    FrontOf(front, s);
    LastBase(front, s);
    LastBase(m, s);
    Assoc(Entries(k), Entries(m), s.entries);
  }

  lemma LastOf(segs: seq<Segment>)
    requires segs != []
    ensures segs == segs[..|segs| - 1] + [segs[|segs| - 1]]
  {
  }

  /** The cut loses nothing, repeats nothing and keeps both halves contiguous. */
  lemma {:induction false} CutSegments(segs: seq<Segment>, at: nat, w: Bytes)
    requires Contiguous(segs) && Full(segs)
    requires segs != [] ==> segs[0].base <= at
    ensures CleanCut(segs, at, Kept(segs, at), Moved(segs, at, w))
    decreases |segs|
  {
    hide CleanCut, Entries, Contiguous, Full;
    if segs == [] {
      CutNothing(segs, at);
    } else {
      var n := |segs| - 1;
      var front, s := segs[..n], segs[n];
      LastOf(segs);
      FrontOf(front, s);
      match Classify(s, at)
      case Keep =>
        AllKept(segs, at, w);
        CutNothing(segs, at);
      case Move =>
        CutSegments(front, at, w);
        CutBefore(front, s, at, Kept(front, at), Moved(front, at, w));
      case Split =>
        AllKept(front, at, w);
        CutInside(front, s, at, w);
        assert Moved(segs, at, w) == [] + [Segment(at, w, s.entries[at - s.base..])] ==
                 [Segment(at, w, s.entries[at - s.base..])];
    }
  }

  /** Appending a segment that starts where a contiguous list ends. */
  lemma LastBase(segs: seq<Segment>, s: Segment)
    requires Contiguous(segs)
    requires segs != [] ==> s.base == segs[0].base + |Entries(segs)|
    ensures Contiguous(segs + [s])
    ensures Entries(segs + [s]) == Entries(segs) + s.entries
    ensures Full(segs) && s.entries != [] ==> Full(segs + [s])
  {
    hide Full;
    assert (segs + [s])[..|segs|] == segs;
    if segs != [] {
      EntriesAt(segs, |segs| - 1);
    }
    FullGrows(segs, s);
  }

  lemma FullGrows(segs: seq<Segment>, s: Segment)
    ensures Full(segs) && s.entries != [] ==> Full(segs + [s])
  {
  }

  lemma {:induction false} CutHeaders(segs: seq<Segment>, at: nat, w: Bytes)
    ensures HeadersFrom(Kept(segs, at), segs, at, w)
    ensures HeadersFrom(Moved(segs, at, w), segs, at, w)
    decreases |segs|
  {
    if segs != [] {
      CutHeaders(segs[..|segs| - 1], at, w);
      var n := |segs| - 1;
      assert segs[n].base == segs[n].base;
    }
  }

  // ---- a directory's log ----

  /** Only the last segment may be empty. */
  ghost predicate Tight(segs: seq<Segment>) {
    forall i :: 0 <= i < |segs| - 1 ==> segs[i].entries != []
  }

  ghost predicate LogOk(mode: Option<Reducer>, v: seq<Bytes>, own: Own) {
    OwnOk(mode, v, own) && Tight(own.segs)
  }

  /** A log that has absorbed nothing: its first record is at its base. */
  ghost predicate NodeOk(mode: Option<Reducer>, v: seq<Bytes>, own: Own) {
    LogOk(mode, v, own) && First(own) == own.base
  }

  /** No empty segment follows a full one. */
  ghost predicate Settled(own: Own) {
    Entries(own.segs) == [] || Full(own.segs)
  }

  /** The index the next record gets. */
  function End(own: Own): nat {
    First(own) + |Entries(own.segs)|
  }

  lemma EndIs(up: seq<Bytes>, own: Own)
    requires Shaped(up, own)
    ensures End(own) == |Visible(up, own)| + 1
  {
    VisibleOwn(up, own);
  }

  lemma LogParts(mode: Option<Reducer>, v: seq<Bytes>, own: Own)
    requires LogOk(mode, v, own)
    ensures OwnOk(mode, v, own) && Shaped(v, own) && Tight(own.segs) && 1 <= own.base <= |v| + 1 && Contiguous(own.segs)
  {
  }

  lemma NodeParts(mode: Option<Reducer>, v: seq<Bytes>, own: Own)
    requires NodeOk(mode, v, own)
    ensures LogOk(mode, v, own) && First(own) == own.base
    ensures OwnOk(mode, v, own) && Shaped(v, own) && Tight(own.segs) && 1 <= own.base <= |v| + 1 && Contiguous(own.segs)
  {
  }

  lemma NodeVisible(mode: Option<Reducer>, v: seq<Bytes>, own: Own)
    requires NodeOk(mode, v, own)
    ensures Visible(v, own) == Take(v, own.base - 1) + Entries(own.segs) && |Visible(v, own)| == End(own) - 1
    ensures 1 <= own.base <= |v| + 1 && |Take(v, own.base - 1)| == own.base - 1
    ensures Contiguous(own.segs) && (own.segs != [] ==> own.segs[0].base == own.base)
    ensures mode.Some? ==> Watermarked(mode.value, Visible(v, own), own.segs)
  {
  }

  /** A well-shaped log whose first index is its base. */
  lemma PlainOwn(mode: Option<Reducer>, v: seq<Bytes>, own: Own)
    requires 1 <= own.base <= |v| + 1 && Contiguous(own.segs) && Tight(own.segs)
    requires own.segs != [] ==> own.segs[0].base == own.base
    requires mode.Some? ==> Watermarked(mode.value, Take(v, own.base - 1) + Entries(own.segs), own.segs)
    ensures NodeOk(mode, v, own) && Visible(v, own) == Take(v, own.base - 1) + Entries(own.segs)
  {
    hide Entries, Contiguous, MarkOk, Tight;
    assert Visible(v, own) == Take(v, own.base - 1) + Entries(own.segs);
    assert Drop(Take(v, own.base - 1), own.base - 1) == [];
  }

  /** A log depends on its ancestors only below its base. */
  lemma Rebased(mode: Option<Reducer>, v: seq<Bytes>, u: seq<Bytes>, own: Own)
    requires OwnOk(mode, v, own) && own.base <= |u| + 1 && Take(u, own.base - 1) == Take(v, own.base - 1)
    ensures OwnOk(mode, u, own) && Visible(u, own) == Visible(v, own)
  {
    hide Entries, Contiguous, MarkOk;
  }

  lemma FullIsTight(segs: seq<Segment>)
    requires Full(segs)
    ensures Tight(segs)
  {
  }

  lemma NonEmpty(segs: seq<Segment>)
    requires segs != [] && Full(segs)
    ensures Entries(segs) != []
  {
  }

  lemma SettledFull(own: Own)
    requires Settled(own) && Entries(own.segs) != []
    ensures Full(own.segs) && own.segs != []
  {
  }

  lemma FirstCounts(segs: seq<Segment>)
    requires segs != []
    ensures |Entries(segs)| >= |segs[0].entries|
  {
    EntriesSplit(segs, 1);
    SingleEntries(segs[0]);
    assert segs[..1] == [segs[0]];
  }

  /** A log with no entries has at most a header-only segment. */
  lemma NoEntriesTight(segs: seq<Segment>)
    requires Tight(segs) && Entries(segs) == []
    ensures |segs| <= 1 && (segs != [] ==> segs[0].entries == [])
  {
    hide Entries;
    if segs != [] {
      FirstCounts(segs);
    }
  }

  // ---- what a fork cuts ----

  /** Whether the node's own segments carry a suffix into the old future. */
  predicate DataMoves(own: Own, at: nat) {
    Entries(own.segs) != [] && at < End(own)
  }

  function Seed(headered: bool, at: nat, watermark: Bytes): seq<Segment> {
    if headered then [Segment(at, watermark, [])] else []
  }

  /** Whether the old future gets a segment that starts at the fork index. */
  predicate HasBoundary(segs: seq<Segment>, at: nat) {
    segs != [] &&
    var s := segs[|segs| - 1];
    || HasBoundary(segs[..|segs| - 1], at)
    || Classify(s, at) == Split
    || (Classify(s, at) == Move && s.base == at)
  }

  function FutureSegs(headered: bool, own: Own, at: nat, watermark: Bytes): seq<Segment> {
    var segs := if Entries(own.segs) == [] then [] else own.segs;
    (if HasBoundary(segs, at) then [] else Seed(headered, at, watermark)) + Moved(segs, at, watermark)
  }

  function KeptOwn(own: Own, at: nat): Own {
    if Entries(own.segs) == [] then own else Own(own.base, Kept(own.segs, at))
  }

  /** What the fork's segment surgery amounts to, for any node. */
  ghost predicate ForkedOwn(headered: bool, mode: Option<Reducer>, v: seq<Bytes>, own: Own, at: nat, w: Bytes) {
    var before := Visible(v, own);
    var kept, future, sprout := KeptOwn(own, at), Own(at, FutureSegs(headered, own, at, w)),
        Own(at, Seed(headered, at, w));
    && 1 <= at <= |before| + 1
    && NodeOk(mode, v, kept) && Visible(v, kept) == before[..at - 1]
    && NodeOk(mode, before[..at - 1], sprout) && Visible(before[..at - 1], sprout) == before[..at - 1]
    && NodeOk(mode, before[..at - 1], future) && Visible(before[..at - 1], future) == before
  }

  /** A log with no segment, or only a seeded watermark. */
  lemma SeedOk(headered: bool, mode: Option<Reducer>, v: seq<Bytes>, w: Bytes)
    requires mode.Some? ==> headered
    requires mode.Some? ==> HeaderOk(mode.value, w, v)
    ensures var own := Own(|v| + 1, Seed(headered, |v| + 1, w));
            NodeOk(mode, v, own) && Visible(v, own) == v
  {
    hide HeaderOk;
    var own := Own(|v| + 1, Seed(headered, |v| + 1, w));
    if headered {
      SingleEntries(own.segs[0]);
    }
    TakeAll(v, |v|);
    assert v + [] == v && v[..|v|] == v;
    PlainOwn(mode, v, own);
  }

  /** Watermarks survive in any part cut out of a log, over any history that
      agrees with the old one that far. */
  lemma MarksTransfer(r: Reducer, whole: seq<Bytes>, part: seq<Bytes>, segs: seq<Segment>, cut: seq<Segment>, at: nat,
                      w: Bytes)
    requires Watermarked(r, whole, segs) && HeadersFrom(cut, segs, at, w)
    requires 1 <= at <= |whole| + 1 && HeaderOk(r, w, whole[..at - 1])
    requires |part| <= |whole| && part == whole[..|part|]
    requires cut != [] ==> Contiguous(cut) && 1 <= cut[0].base && cut[0].base + |Entries(cut)| <= |part| + 1
    ensures Watermarked(r, part, cut)
  {
    hide HeaderOk, Contiguous, Entries, MarkOk;
    forall i | 0 <= i < |cut|
      ensures MarkOk(r, part, cut[i])
    {
      EntriesAt(cut, i);
      if cut[i].base == at && cut[i].header == w {
        MarkFrom(r, whole, part, cut[i]);
      } else {
        var j :| 0 <= j < |segs| && segs[j].base == cut[i].base && segs[j].header == cut[i].header;
        MarkSame(r, whole, part, segs[j], cut[i]);
      }
    }
  }

  lemma MarkFrom(r: Reducer, whole: seq<Bytes>, part: seq<Bytes>, seg: Segment)
    requires |part| <= |whole| && part == whole[..|part|] && 1 <= seg.base <= |part| + 1
    requires HeaderOk(r, seg.header, whole[..seg.base - 1])
    ensures MarkOk(r, part, seg)
  {
    hide HeaderOk;
    assert part[..seg.base - 1] == whole[..seg.base - 1];
  }

  lemma MarkSame(r: Reducer, whole: seq<Bytes>, part: seq<Bytes>, seg: Segment, cut: Segment)
    requires |part| <= |whole| && part == whole[..|part|] && 1 <= cut.base <= |part| + 1
    requires MarkOk(r, whole, seg) && seg.base == cut.base && seg.header == cut.header
    ensures MarkOk(r, part, cut)
  {
    hide HeaderOk;
    assert part[..seg.base - 1] == whole[..seg.base - 1];
  }

  /** The two halves of a cut, sized. */
  ghost predicate Halves(own: Own, at: nat, k: seq<Segment>, m: seq<Segment>) {
    && Contiguous(k) && Full(k) && Contiguous(m) && Full(m)
    && Entries(k) + Entries(m) == Entries(own.segs)
    && |Entries(k)| == at - own.base
    && (k != [] ==> k[0].base == own.base && Entries(k) != [])
    && (m != [] ==> m[0].base == at && Entries(m) != [])
    && (m == [] <==> at == End(own))
    && (k == [] ==> Entries(k) == [])
  }

  lemma CutHalves(own: Own, at: nat, w: Bytes)
    requires Contiguous(own.segs) && Full(own.segs) && own.segs != []
    requires own.segs[0].base == own.base <= at <= End(own)
    ensures Halves(own, at, Kept(own.segs, at), Moved(own.segs, at, w))
  {
    var k, m := Kept(own.segs, at), Moved(own.segs, at, w);
    CutSegments(own.segs, at, w);
    if k != [] { NonEmpty(k); }
    if m != [] { NonEmpty(m); }
    assert Entries([]) == [];
    hide Entries, Contiguous, Full, Kept, Moved;
  }

  lemma {:induction false} BoundaryIffMoved(segs: seq<Segment>, at: nat, w: Bytes)
    requires Contiguous(segs) && Full(segs)
    requires segs != [] ==> segs[0].base <= at
    ensures HasBoundary(segs, at) <==> Moved(segs, at, w) != []
    decreases |segs|
  {
    if segs != [] {
      var n := |segs| - 1;
      EntriesBase(segs, n);
      CutSegments(segs, at, w);
      hide Contiguous, Entries;
      BoundaryIffMoved(segs[..n], at, w);
      if Classify(segs[n], at) == Keep {
        AllKept(segs, at, w);
      }
    }
  }

  lemma ForkPrefix(mode: Option<Reducer>, v: seq<Bytes>, own: Own, at: nat, w: Bytes, k: seq<Segment>, m: seq<Segment>)
    requires NodeOk(mode, v, own) && Halves(own, at, k, m) && own.base <= at <= End(own)
    requires HeadersFrom(k, own.segs, at, w)
    requires mode.Some? ==> HeaderOk(mode.value, w, Visible(v, own)[..at - 1])
    ensures NodeOk(mode, v, Own(own.base, k)) && Visible(v, Own(own.base, k)) == Visible(v, own)[..at - 1]
  {
    hide *;
    var before := Visible(v, own);
    NodeVisible(mode, v, own);
    HalvesMean(own, at, k, m);
    EndOf(own);
    PrefixOf(before, Take(v, own.base - 1), Entries(k), Entries(m), Entries(own.segs), at);
    if mode.Some? {
      MarksTransfer(mode.value, before, before[..at - 1], own.segs, k, at, w);
    }
    FullIsTight(k);
    PlainOwn(mode, v, Own(own.base, k));
  }

  lemma HalvesMean(own: Own, at: nat, k: seq<Segment>, m: seq<Segment>)
    requires Halves(own, at, k, m)
    ensures Contiguous(k) && Full(k) && Contiguous(m) && Full(m)
    ensures Entries(k) + Entries(m) == Entries(own.segs) && |Entries(k)| == at - own.base
    ensures (k != [] ==> k[0].base == own.base) && (m != [] ==> m[0].base == at) && (m == [] <==> at == End(own))
  {
    hide Entries, Contiguous, Full;
  }

  lemma EndOf(own: Own)
    ensures End(own) == First(own) + |Entries(own.segs)|
  {
  }

  lemma PrefixOf(before: seq<Bytes>, up: seq<Bytes>, k: seq<Bytes>, m: seq<Bytes>, e: seq<Bytes>, at: nat)
    requires before == up + e && e == k + m && |up| + |k| == at - 1
    ensures before[..at - 1] == up + k && before == before[..at - 1] + m
    ensures before[..at - 1] == before[..|before[..at - 1]|]
  {
    assert before == up + k + m;
  }

  lemma ForkSuffix(mode: Option<Reducer>, v: seq<Bytes>, own: Own, at: nat, w: Bytes, k: seq<Segment>, m: seq<Segment>)
    requires NodeOk(mode, v, own) && Halves(own, at, k, m) && own.base <= at < End(own)
    requires HeadersFrom(m, own.segs, at, w)
    requires mode.Some? ==> HeaderOk(mode.value, w, Visible(v, own)[..at - 1])
    ensures var before := Visible(v, own);
            NodeOk(mode, before[..at - 1], Own(at, m)) && Visible(before[..at - 1], Own(at, m)) == before
  {
    hide *;
    var before := Visible(v, own);
    NodeVisible(mode, v, own);
    HalvesMean(own, at, k, m);
    EndOf(own);
    PrefixOf(before, Take(v, own.base - 1), Entries(k), Entries(m), Entries(own.segs), at);
    assert before == before[..|before|];
    if mode.Some? {
      MarksTransfer(mode.value, before, before, own.segs, m, at, w);
    }
    FullIsTight(m);
    TakeAll(before[..at - 1], at - 1);
    PlainOwn(mode, before[..at - 1], Own(at, m));
  }

  lemma TakeAll(v: seq<Bytes>, n: int)
    requires n >= |v|
    ensures Take(v, n) == v
  {
  }

  /** A fork of any settled directory: the kept prefix shows exactly what lies below the
      fork index, the new child the same, the old future what was shown before. */
  lemma ForkNode(headered: bool, mode: Option<Reducer>, v: seq<Bytes>, own: Own, at: nat, w: Bytes)
    requires mode.Some? ==> headered
    requires NodeOk(mode, v, own) && Settled(own)
    requires if Entries(own.segs) == [] then at == own.base else own.base <= at <= End(own)
    requires mode.Some? ==> HeaderOk(mode.value, w, Take(Visible(v, own), at - 1))
    ensures ForkedOwn(headered, mode, v, own, at, w)
  {
    hide *;
    NodeVisible(mode, v, own);
    NodeParts(mode, v, own);
    EndOf(own);
    TakeIs(Visible(v, own), at - 1);
    if Entries(own.segs) == [] {
      ForkEmpty(headered, mode, v, own, w);
    } else {
      SettledFull(own);
      CutHalves(own, at, w);
      CutHeaders(own.segs, at, w);
      BoundaryIffMoved(own.segs, at, w);
      ForkFull(headered, mode, v, own, at, w, Kept(own.segs, at), Moved(own.segs, at, w));
    }
  }

  lemma TakeIs(v: seq<Bytes>, n: int)
    requires 0 <= n <= |v|
    ensures Take(v, n) == v[..n]
  {
  }

  lemma ForkFull(headered: bool, mode: Option<Reducer>, v: seq<Bytes>, own: Own, at: nat, w: Bytes, k: seq<Segment>,
                 m: seq<Segment>)
    requires mode.Some? ==> headered
    requires NodeOk(mode, v, own) && Entries(own.segs) != [] && own.base <= at <= End(own)
    requires mode.Some? ==> HeaderOk(mode.value, w, Take(Visible(v, own), at - 1))
    requires k == Kept(own.segs, at) && m == Moved(own.segs, at, w) && Halves(own, at, k, m)
    requires HeadersFrom(k, own.segs, at, w) && HeadersFrom(m, own.segs, at, w)
    requires HasBoundary(own.segs, at) <==> m != []
    ensures ForkedOwn(headered, mode, v, own, at, w)
  {
    hide *;
    var before := Visible(v, own);
    NodeVisible(mode, v, own);
    NodeParts(mode, v, own);
    HalvesMean(own, at, k, m);
    TakeIs(before, at - 1);
    ForkPrefix(mode, v, own, at, w, k, m);
    KeptIs(own, at);
    SeedOk(headered, mode, before[..at - 1], w);
    FutureIs(headered, own, at, w);
    if at < End(own) {
      ForkSuffix(mode, v, own, at, w, k, m);
    } else {
      assert before[..at - 1] == before;
    }
    ForkedFrom(headered, mode, v, own, at, w);
  }

  lemma FutureIs(headered: bool, own: Own, at: nat, w: Bytes)
    requires Entries(own.segs) != [] && (HasBoundary(own.segs, at) <==> Moved(own.segs, at, w) != [])
    ensures FutureSegs(headered, own, at, w) ==
            if Moved(own.segs, at, w) != [] then Moved(own.segs, at, w) else Seed(headered, at, w)
  {
    hide Moved, HasBoundary, Seed, Entries;
  }

  lemma KeptIs(own: Own, at: nat)
    requires Entries(own.segs) != []
    ensures KeptOwn(own, at) == Own(own.base, Kept(own.segs, at))
  {
  }

  lemma ForkedFrom(headered: bool, mode: Option<Reducer>, v: seq<Bytes>, own: Own, at: nat, w: Bytes)
    requires 1 <= at <= |Visible(v, own)| + 1
    requires NodeOk(mode, v, KeptOwn(own, at)) && Visible(v, KeptOwn(own, at)) == Visible(v, own)[..at - 1]
    requires var cut, sprout := Visible(v, own)[..at - 1], Own(at, Seed(headered, at, w));
             NodeOk(mode, cut, sprout) && Visible(cut, sprout) == cut
    requires var cut, future := Visible(v, own)[..at - 1], Own(at, FutureSegs(headered, own, at, w));
             NodeOk(mode, cut, future) && Visible(cut, future) == Visible(v, own)
    ensures ForkedOwn(headered, mode, v, own, at, w)
  {
    hide NodeOk, Visible, KeptOwn, Seed, FutureSegs;
  }

  lemma ForkEmpty(headered: bool, mode: Option<Reducer>, v: seq<Bytes>, own: Own, w: Bytes)
    requires mode.Some? ==> headered
    requires NodeOk(mode, v, own) && Entries(own.segs) == []
    requires mode.Some? ==> HeaderOk(mode.value, w, Take(Visible(v, own), own.base - 1))
    ensures ForkedOwn(headered, mode, v, own, own.base, w)
  {
    hide *;
    var before := Visible(v, own);
    NodeVisible(mode, v, own);
    TakeAll(before, own.base - 1);
    assert before[..own.base - 1] == before;
    SeedOk(headered, mode, before, w);
    EmptyFork(headered, own, w);
    ForkedFrom(headered, mode, v, own, own.base, w);
  }

  lemma EmptyFork(headered: bool, own: Own, w: Bytes)
    requires Entries(own.segs) == []
    ensures KeptOwn(own, own.base) == own && FutureSegs(headered, own, own.base, w) == Seed(headered, own.base, w)
  {
  }

  // ---- growing a log ----

  /** A new, empty segment after the last record. */
  lemma AddSegment(mode: Option<Reducer>, up: seq<Bytes>, own: Own, seg: Segment)
    requires OwnOk(mode, up, own) && seg.entries == [] && seg.base == |Visible(up, own)| + 1
    requires mode.Some? ==> HeaderOk(mode.value, seg.header, Visible(up, own))
    ensures OwnOk(mode, up, Own(own.base, own.segs + [seg]))
    ensures Visible(up, Own(own.base, own.segs + [seg])) == Visible(up, own)
  {
    hide Entries, Contiguous, HeaderOk, Visible, Shaped, Watermarked;
    var more, v := Own(own.base, own.segs + [seg]), Visible(up, own);
    AddedShape(up, own, seg);
    GrownShape(up, own, more, []);
    SameShown(v);
    if mode.Some? {
      MarksAdded(mode.value, v, own.segs, seg);
    }
  }

  lemma SameShown(v: seq<Bytes>)
    ensures v + [] == v && v[..|v|] == v
  {
  }

  lemma MarksAdded(r: Reducer, v: seq<Bytes>, segs: seq<Segment>, seg: Segment)
    requires Watermarked(r, v, segs) && seg.base == |v| + 1 && HeaderOk(r, seg.header, v)
    ensures Watermarked(r, v, segs + [seg])
  {
    hide HeaderOk;
    assert v[..|v|] == v;
    forall i | 0 <= i < |segs + [seg]| ensures MarkOk(r, v, (segs + [seg])[i]) {
      assert i < |segs| ==> MarkOk(r, v, segs[i]);
    }
  }

  lemma AddedShape(up: seq<Bytes>, own: Own, seg: Segment)
    requires Shaped(up, own) && seg.entries == [] && seg.base == |Visible(up, own)| + 1
    ensures var more := Own(own.base, own.segs + [seg]);
            Contiguous(more.segs) && First(more) == First(own) && Entries(more.segs) == Entries(own.segs) + []
  {
    hide Entries, Contiguous, Visible, Shaped;
    VisibleOwn(up, own);
    AddedFirst(up, own);
    if own.segs == [] {
      SingleEntries(seg);
      assert own.segs + [seg] == [seg];
      AddedAlone(seg);
    } else {
      LastBase(own.segs, seg);
    }
    SameShown(Entries(own.segs));
  }

  lemma AddedAlone(seg: Segment)
    ensures Contiguous([seg]) && Entries([]) == []
  {
  }

  lemma AddedFirst(up: seq<Bytes>, own: Own)
    requires Shaped(up, own)
    ensures Contiguous(own.segs) && (own.segs == [] ==> Entries(own.segs) == [] && First(own) == own.base)
    ensures own.segs != [] ==> First(own) == own.segs[0].base
  {
  }

  /** One more payload in the last segment. */
  lemma AppendEntry(mode: Option<Reducer>, up: seq<Bytes>, front: seq<Segment>, seg: Segment, base: nat, payload: Bytes)
    requires OwnOk(mode, up, Own(base, front + [seg]))
    ensures var more := Own(base, front + [seg.(entries := seg.entries + [payload])]);
            OwnOk(mode, up, more) && Visible(up, more) == Visible(up, Own(base, front + [seg])) + [payload]
  {
    var own, grown := Own(base, front + [seg]), seg.(entries := seg.entries + [payload]);
    var more := Own(base, front + [grown]);
    assert own.segs[..|front|] == front && more.segs[..|front|] == front;
    assert Entries(more.segs) == Entries(own.segs) + [payload];
    assert Contiguous(more.segs);
    hide Entries, Contiguous, Visible, MarkOk;
    GrownShape(up, own, more, [payload]);
    if mode.Some? {
      GrownMarks(mode.value, Visible(up, own), [payload], own.segs, more.segs);
    }
  }

  lemma GrownShape(up: seq<Bytes>, own: Own, more: Own, tail: seq<Bytes>)
    requires Shaped(up, own) && more.base == own.base && First(more) == First(own) && Contiguous(more.segs)
    requires Entries(more.segs) == Entries(own.segs) + tail
    ensures Shaped(up, more) && Visible(up, more) == Visible(up, own) + tail
  {
    hide Entries, Contiguous;
    var e, k := Entries(own.segs), own.base - First(own);
    assert (e + tail)[..k] == e[..k];
    assert Drop(e + tail, k) == Drop(e, k) + tail;
  }

  lemma GrownMarks(r: Reducer, v: seq<Bytes>, tail: seq<Bytes>, segs: seq<Segment>, more: seq<Segment>)
    requires Watermarked(r, v, segs) && |more| == |segs|
    requires forall i :: 0 <= i < |segs| ==> more[i].base == segs[i].base && more[i].header == segs[i].header
    ensures Watermarked(r, v + tail, more)
  {
    hide HeaderOk;
    forall i | 0 <= i < |more| ensures MarkOk(r, v + tail, more[i]) {
      assert MarkOk(r, v, segs[i]);
      assert (v + tail)[..segs[i].base - 1] == v[..segs[i].base - 1];
    }
  }

  /** The header of the next segment: the last one's, folded with its entries. */
  lemma RotatedHeader(r: Reducer, up: seq<Bytes>, own: Own)
    requires BlankSafe(r) && OwnOk(Some(r), up, own) && own.segs != []
    requires own.segs[|own.segs| - 1].entries != []
    ensures var s := own.segs[|own.segs| - 1];
            SegmentOpen(r, s.header, s.entries) == FoldAll(r, Visible(up, own))
  {
    hide BlankSafe, Fold, Entries, Contiguous, Visible;
    var i := |own.segs| - 1;
    var s, v := own.segs[i], Visible(up, own);
    VisibleSegment(up, own, i);
    SegmentState(r, up, own, i, |v|);
    assert s.entries[..|v| - s.base + 1] == s.entries && v[..|v|] == v;
  }

  lemma OpensEmpty(r: Reducer, prev: Bytes)
    ensures SegmentOpen(r, prev, []).Some?
  {
  }

  lemma FirstAdded(up: seq<Bytes>, own: Own, seg: Segment)
    requires Shaped(up, own) && seg.base == |Visible(up, own)| + 1
    ensures First(Own(own.base, own.segs + [seg])) == First(own)
  {
    VisibleOwn(up, own);
  }

  lemma FirstSame(base: nat, front: seq<Segment>, seg: Segment, more: Segment)
    requires seg.base == more.base
    ensures First(Own(base, front + [seg])) == First(Own(base, front + [more]))
  {
  }

  // ---- one write ----

  /** What the ancestors' state is just below a base; none is needed at 1. */
  function StateBelow(r: Reducer, line: Line, base: nat): Option<Bytes> {
    if base > 1 then StateAt(r, line, base - 1) else Some([])
  }

  /** The header of the next segment: the last segment's, folded with its entries, or,
      for the first segment, the ancestors' state. */
  function NextHeader(fold: Option<Reducer>, line: Line, own: Own): Option<Bytes> {
    if fold.None? then Some([])
    else if own.segs != [] then
      var s := own.segs[|own.segs| - 1];
      SegmentOpen(fold.value, s.header, s.entries)
    else match StateBelow(fold.value, line, own.base)
      case None => None
      case Some(prev) => SegmentOpen(fold.value, prev, [])
  }

  /** The log with a new segment, unless its header cannot be computed. */
  function Opened(o: Options, line: Line, own: Own): Option<Own> {
    match NextHeader(o.fold, line, own)
    case None => None
    case Some(h) => Some(Own(own.base, own.segs + [Segment(End(own), h, [])]))
  }

  predicate Overflows(o: Options, s: Segment, payload: Bytes) {
    o.segmentSize > 0 && SegmentBytes(o.fold.Some?, s) + FrameSize(payload) > o.segmentSize
  }

  /** A record overflows a segment exactly when its file would pass the limit. */
  lemma OverflowsMeans(o: Options, s: Segment, payload: Bytes)
    ensures Overflows(o, s, payload) <==> !Room(o.segmentSize, o.fold.Some?, s.header, s.entries + [payload])
  {
    SegmentBytesIsFile(ANY, o.fold.Some?, s.(entries := s.entries + [payload]));
    assert (s.entries + [payload])[..|s.entries|] == s.entries;
    hide Files.Frames;
  }

  function Appended(own: Own, payload: Bytes): Own
    requires own.segs != []
  {
    var n := |own.segs| - 1;
    Own(own.base, own.segs[..n] + [own.segs[n].(entries := own.segs[n].entries + [payload])])
  }

  datatype Outcome = Outcome(own: Own, landed: bool)

  /** Whether a write opens a segment first. A handle that has sealed its last segment
      (`closed`), as a refused fork leaves it, does so although there is one. */
  predicate Unopened(own: Own, closed: bool) {
    own.segs == [] || (closed && own.segs[|own.segs| - 1].entries != [])
  }

  /** A record into the last segment, or into a new one when it does not fit. A refused
      record may leave a new, empty segment behind. */
  function PutRecord(o: Options, line: Line, own: Own, payload: Bytes): Outcome
    requires own.segs != []
  {
    var s := own.segs[|own.segs| - 1];
    if !Overflows(o, s, payload) then Outcome(Appended(own, payload), true)
    else if s.entries == [] then Outcome(own, false)
    else match Opened(o, line, own)
      case None => Outcome(own, false)
      case Some(more) =>
        if Overflows(o, more.segs[|more.segs| - 1], payload) then Outcome(more, false)
        else Outcome(Appended(more, payload), true)
  }

  function WriteOwn(o: Options, line: Line, own: Own, payload: Bytes, closed: bool): Outcome {
    if !Unopened(own, closed) then PutRecord(o, line, own, payload)
    else match Opened(o, line, own)
      case None => Outcome(own, false)
      case Some(first) => PutRecord(o, line, first, payload)
  }

  /** What a log is built on: a well-formed lineage, empty for a root. */
  ghost predicate Under(mode: Option<Reducer>, line: Line, own: Own) {
    && LineOk(mode, line) && LogOk(mode, LineVisible(line), own)
    && (line.Top? ==> own.base == 1)
  }

  lemma UnderIs(mode: Option<Reducer>, line: Line, own: Own)
    ensures Under(mode, line, own) <==>
            LineOk(mode, line) && LogOk(mode, LineVisible(line), own) && (line.Top? ==> own.base == 1)
  {
  }

  lemma FoldIsHeader(r: Reducer, w: Bytes, history: seq<Bytes>)
    requires FoldAll(r, history) == Some(w)
    ensures HeaderOk(r, w, history)
  {
  }

  lemma HeaderFolds(r: Reducer, w: Bytes, history: seq<Bytes>)
    requires HeaderOk(r, w, history)
    ensures FoldAll(r, history).Some?
  {
  }

  lemma NoHistory(r: Reducer)
    ensures SegmentOpen(r, [], []) == Some(r.initial) && HeaderOk(r, r.initial, []) && FoldAll(r, []).Some?
  {
  }

  /** The ancestors' state below the base is the fold of what the log inherits. */
  lemma BelowIsFold(r: Reducer, line: Line, own: Own)
    requires BlankSafe(r) && Under(Some(r), line, own) && own.base > 1
    ensures StateAt(r, line, own.base - 1) == FoldAll(r, Visible(LineVisible(line), own)[..own.base - 1])
  {
    hide *;
    UnderIs(Some(r), line, own);
    LogParts(Some(r), LineVisible(line), own);
    Inherited(LineVisible(line), own, own.base - 1);
    StateAtIsFold(r, line, own.base - 1);
  }

  lemma NothingOwn(up: seq<Bytes>, own: Own)
    requires Shaped(up, own) && Entries(own.segs) == []
    ensures |Visible(up, own)| == own.base - 1 && Visible(up, own)[..own.base - 1] == Visible(up, own)
  {
    VisibleOwn(up, own);
  }

  lemma NoEntriesOf(own: Own)
    requires own.segs == []
    ensures Entries(own.segs) == []
  {
  }

  /** The next header stands for everything shown so far; it cannot be computed exactly
      when the history does not fold. */
  lemma NextHeaderExact(r: Reducer, line: Line, own: Own)
    requires BlankSafe(r) && Under(Some(r), line, own)
    requires own.segs != [] ==> own.segs[|own.segs| - 1].entries != []
    ensures var h, v := NextHeader(Some(r), line, own), Visible(LineVisible(line), own);
            if h.Some? then HeaderOk(r, h.value, v) else FoldAll(r, v).None?
  {
    hide *;
    var up, v := LineVisible(line), Visible(LineVisible(line), own);
    UnderIs(Some(r), line, own);
    LogParts(Some(r), up, own);
    NextHeaderIs(Some(r), line, own);
    if own.segs != [] {
      RotatedHeader(r, up, own);
    } else {
      NoEntriesOf(own);
      NothingOwn(up, own);
      if own.base > 1 {
        BelowIsFold(r, line, own);
      } else {
        NoHistory(r);
      }
      var prev := StateBelow(r, line, own.base);
      if prev.Some? {
        OpensEmpty(r, prev.value);
        if own.base > 1 {
          FoldIsHeader(r, prev.value, v);
          HeaderFold(r, prev.value, v, []);
        }
      }
    }
    var h := NextHeader(Some(r), line, own);
    if own.segs != [] && h.Some? {
      FoldIsHeader(r, h.value, v);
    }
  }

  lemma NextHeaderIs(fold: Option<Reducer>, line: Line, own: Own)
    ensures fold.None? ==> NextHeader(fold, line, own).Some?
    ensures fold.Some? && own.segs != [] ==>
              NextHeader(fold, line, own) ==
              SegmentOpen(fold.value, own.segs[|own.segs| - 1].header, own.segs[|own.segs| - 1].entries)
    ensures fold.Some? && own.segs == [] ==>
              StateBelow(fold.value, line, own.base) ==
                  (if own.base > 1 then StateAt(fold.value, line, own.base - 1) else Some([])) &&
              var prev := StateBelow(fold.value, line, own.base);
              NextHeader(fold, line, own) == if prev.None? then None else SegmentOpen(fold.value, prev.value, [])
  {
    hide SegmentOpen, StateAt;
  }

  lemma OpenedIs(o: Options, line: Line, own: Own)
    ensures Opened(o, line, own).Some? <==> NextHeader(o.fold, line, own).Some?
    ensures Opened(o, line, own).Some? ==>
              var seg := Segment(End(own), NextHeader(o.fold, line, own).value, []);
              Opened(o, line, own) == Some(Own(own.base, own.segs + [seg]))
  {
    hide NextHeader, End;
  }

  lemma TightMore(segs: seq<Segment>, seg: Segment)
    requires Tight(segs) && (segs != [] ==> segs[|segs| - 1].entries != [])
    ensures Tight(segs + [seg])
  {
  }

  /** A new segment changes nothing shown; there is none only when the history does not fold. */
  lemma OpenedKeeps(o: Options, line: Line, own: Own)
    requires Under(Tracked(o.fold), line, own)
    requires own.segs != [] ==> own.segs[|own.segs| - 1].entries != []
    ensures o.fold.None? ==> Opened(o, line, own).Some?
    ensures Tracked(o.fold).Some? && Opened(o, line, own).None? ==>
              FoldAll(o.fold.value, Visible(LineVisible(line), own)).None?
    ensures Opened(o, line, own).Some? ==>
              var more := Opened(o, line, own).value;
              && Under(Tracked(o.fold), line, more)
                  && Visible(LineVisible(line), more) == Visible(LineVisible(line), own)
              && more.base == own.base && First(more) == First(own)
              && more.segs == own.segs + [more.segs[|own.segs|]] && more.segs[|own.segs|].entries == []
  {
    hide *;
    var t, up := Tracked(o.fold), LineVisible(line);
    UnderIs(t, line, own);
    LogParts(t, up, own);
    TrackedFacts(o.fold);
    NextHeaderIs(o.fold, line, own);
    OpenedIs(o, line, own);
    if t.Some? {
      NextHeaderExact(o.fold.value, line, own);
    }
    if Opened(o, line, own).Some? {
      var seg := Segment(End(own), NextHeader(o.fold, line, own).value, []);
      EndIs(up, own);
      AddSegment(t, up, own, seg);
      FirstAdded(up, own, seg);
      TightMore(own.segs, seg);
      var more := Own(own.base, own.segs + [seg]);
      LogFrom(t, up, more);
      UnderIs(t, line, more);
    }
  }

  lemma LogFrom(mode: Option<Reducer>, v: seq<Bytes>, own: Own)
    requires OwnOk(mode, v, own) && Tight(own.segs)
    ensures LogOk(mode, v, own)
  {
  }

  lemma AppendedKeeps(mode: Option<Reducer>, line: Line, own: Own, payload: Bytes)
    requires Under(mode, line, own) && own.segs != []
    ensures var more := Appended(own, payload);
            && Under(mode, line, more)
                && Visible(LineVisible(line), more) == Visible(LineVisible(line), own) + [payload]
            && more.base == own.base && First(more) == First(own) && more.segs != []
            && more.segs[|more.segs| - 1] ==
                own.segs[|own.segs| - 1].(entries := own.segs[|own.segs| - 1].entries + [payload])
            && Full(more.segs)
  {
    hide *;
    var up, n := LineVisible(line), |own.segs| - 1;
    var front, s := own.segs[..n], own.segs[n];
    UnderIs(mode, line, own);
    LogParts(mode, up, own);
    LastOf(own.segs);
    AppendEntry(mode, up, front, s, own.base, payload);
    AppendedIs(own, payload);
    var more := Appended(own, payload);
    FirstSame(own.base, front, s, more.segs[n]);
    TightSame(own.segs, more.segs);
    LogFrom(mode, up, more);
    UnderIs(mode, line, more);
    TightFront(own.segs);
    FullGrows(front, more.segs[n]);
  }

  lemma TightFront(segs: seq<Segment>)
    requires Tight(segs) && segs != []
    ensures Full(segs[..|segs| - 1])
  {
  }

  lemma AppendedIs(own: Own, payload: Bytes)
    requires own.segs != []
    ensures var n := |own.segs| - 1;
            Appended(own, payload) ==
                Own(own.base, own.segs[..n] + [own.segs[n].(entries := own.segs[n].entries + [payload])])
  {
  }

  lemma TightSame(segs: seq<Segment>, more: seq<Segment>)
    requires Tight(segs) && segs != [] && |more| == |segs| && more[..|more| - 1] == segs[..|segs| - 1]
    ensures Tight(more)
  {
    assert forall i :: 0 <= i < |segs| - 1 ==> more[i] == more[..|more| - 1][i] == segs[..|segs| - 1][i] == segs[i];
  }

  /** What a write, landed or refused, leaves of a log. */
  ghost predicate Written(o: Options, line: Line, own: Own, payload: Bytes, out: Outcome) {
    && Under(Tracked(o.fold), line, out.own)
    && Visible(LineVisible(line), out.own) == Visible(LineVisible(line), own) + (if out.landed then [payload] else [])
    && out.own.base == own.base && First(out.own) == First(own)
    && (out.landed ==> Full(out.own.segs))
    && (out.landed && o.segmentSize > 0 ==>
          out.own.segs != [] && SegmentBytes(o.fold.Some?, out.own.segs[|out.own.segs| - 1]) <= o.segmentSize)
  }

  lemma WrittenMeans(o: Options, line: Line, own: Own, payload: Bytes, out: Outcome)
    requires Written(o, line, own, payload, out)
    ensures Under(Tracked(o.fold), line, out.own)
    ensures out.own.base == own.base && First(out.own) == First(own)
    ensures Visible(LineVisible(line), out.own) == Visible(LineVisible(line), own) +
              if out.landed then [payload] else []
    ensures out.landed ==> Settled(out.own)
    ensures out.landed && o.segmentSize > 0 ==>
              out.own.segs != [] && SegmentBytes(o.fold.Some?, out.own.segs[|out.own.segs| - 1]) <= o.segmentSize
  {
    hide Under, Visible, LineVisible, First, SegmentBytes, Entries;
  }

  lemma FitsMeans(o: Options, s: Segment, payload: Bytes)
    ensures o.segmentSize > 0 && !Overflows(o, s, payload) ==>
              FrameSize(payload) <= o.segmentSize &&
              SegmentBytes(o.fold.Some?, s.(entries := s.entries + [payload])) <= o.segmentSize
    ensures Overflows(o, s, payload) && o.fold.None? && s.entries == [] ==> FrameSize(payload) > o.segmentSize > 0
    ensures o.segmentSize == 0 ==> !Overflows(o, s, payload)
    ensures Overflows(o, s, payload) ==> o.segmentSize > 0
  {
    assert (s.entries + [payload])[..|s.entries|] == s.entries;
  }

  lemma WrittenBy(o: Options, line: Line, own: Own, payload: Bytes, from: Own)
    requires Under(Tracked(o.fold), line, from) && from.segs != []
    requires Visible(LineVisible(line), from) == Visible(LineVisible(line), own) && from.base == own.base
               && First(from) == First(own)
    requires !Overflows(o, from.segs[|from.segs| - 1], payload)
    ensures Written(o, line, own, payload, Outcome(Appended(from, payload), true))
  {
    hide Under, Visible, Appended, SegmentBytes, First, Tracked, LineVisible;
    AppendedKeeps(Tracked(o.fold), line, from, payload);
    FitsMeans(o, from.segs[|from.segs| - 1], payload);
  }

  lemma Unwritten(o: Options, line: Line, own: Own, payload: Bytes, from: Own)
    requires Under(Tracked(o.fold), line, from)
    requires Visible(LineVisible(line), from) == Visible(LineVisible(line), own) && from.base == own.base
               && First(from) == First(own)
    ensures Written(o, line, own, payload, Outcome(from, false))
  {
    hide Under, Visible, First, Tracked, LineVisible;
    SameShown(Visible(LineVisible(line), own));
  }

  /** PutRecord, case by case. */
  lemma PutIs(o: Options, line: Line, own: Own, payload: Bytes)
    requires own.segs != []
    ensures var s, out, more := own.segs[|own.segs| - 1], PutRecord(o, line, own, payload), Opened(o, line, own);
            && (!Overflows(o, s, payload) ==> out == Outcome(Appended(own, payload), true))
            && (Overflows(o, s, payload) && s.entries == [] ==> out == Outcome(own, false))
            && (Overflows(o, s, payload) && s.entries != [] && more.None? ==> out == Outcome(own, false))
            && (Overflows(o, s, payload) && s.entries != [] && more.Some? ==>
                  more.value.segs != [] &&
                  out == if Overflows(o, more.value.segs[|more.value.segs| - 1], payload)
                      then Outcome(more.value, false)
                         else Outcome(Appended(more.value, payload), true))
  {
    hide Overflows, Appended, NextHeader, End;
  }

  lemma PutKeeps(o: Options, line: Line, own: Own, payload: Bytes)
    requires Under(Tracked(o.fold), line, own) && own.segs != []
    ensures Written(o, line, own, payload, PutRecord(o, line, own, payload))
    ensures o.fold.None? ==>
              (PutRecord(o, line, own, payload).landed <==> o.segmentSize == 0 || FrameSize(payload) <= o.segmentSize)
  {
    hide *;
    var s := own.segs[|own.segs| - 1];
    PutIs(o, line, own, payload);
    FitsMeans(o, s, payload);
    if !Overflows(o, s, payload) {
      WrittenBy(o, line, own, payload, own);
    } else if s.entries == [] {
      Unwritten(o, line, own, payload, own);
    } else {
      OpenedKeeps(o, line, own);
      var more := Opened(o, line, own);
      if more.None? {
        Unwritten(o, line, own, payload, own);
      } else {
        FitsMeans(o, more.value.segs[|own.segs|], payload);
        if Overflows(o, more.value.segs[|own.segs|], payload) {
          Unwritten(o, line, own, payload, more.value);
        } else {
          WrittenBy(o, line, own, payload, more.value);
        }
      }
    }
  }

  lemma WriteIs(o: Options, line: Line, own: Own, payload: Bytes, closed: bool)
    ensures var out, first := WriteOwn(o, line, own, payload, closed), Opened(o, line, own);
            && (!Unopened(own, closed) ==> own.segs != [] && out == PutRecord(o, line, own, payload))
            && (Unopened(own, closed) && first.None? ==> out == Outcome(own, false))
            && (Unopened(own, closed) && first.Some? ==>
                first.value.segs != [] && out == PutRecord(o, line, first.value, payload))
  {
    hide PutRecord, NextHeader, End;
  }

  lemma UnopenedIs(own: Own, closed: bool)
    ensures Unopened(own, closed) <==> own.segs == [] || (closed && own.segs[|own.segs| - 1].entries != [])
  {
  }

  /** A write shows exactly one more record or none, keeps every header right for a sound
      fold and no segment past its limit; without headers it lands exactly when its
      frame fits a segment. */
  lemma WriteKeeps(o: Options, line: Line, own: Own, payload: Bytes, closed: bool)
    requires Under(Tracked(o.fold), line, own)
    ensures Written(o, line, own, payload, WriteOwn(o, line, own, payload, closed))
    ensures o.fold.None? ==>
              (WriteOwn(o, line, own, payload, closed).landed <==>
                  o.segmentSize == 0 || FrameSize(payload) <= o.segmentSize)
  {
    hide *;
    WriteIs(o, line, own, payload, closed);
    UnopenedIs(own, closed);
    if !Unopened(own, closed) {
      PutKeeps(o, line, own, payload);
    } else {
      OpenedKeeps(o, line, own);
      var first := Opened(o, line, own);
      if first.None? {
        Unwritten(o, line, own, payload, own);
      } else {
        PutKeeps(o, line, first.value, payload);
        WrittenFrom(o, line, own, first.value, payload, PutRecord(o, line, first.value, payload));
      }
    }
  }

  /** The open segment has room for the record, or a new one has and may be opened: its
      header can be computed, and there is no open segment or a used one. */
  ghost predicate Lands(size: nat, headered: bool, open: Option<Segment>, next: Option<Bytes>, payload: Bytes) {
    || (open.Some? && Room(size, headered, open.value.header, open.value.entries + [payload]))
    || ((open.None? || open.value.entries != []) && next.Some? && Room(size, headered, next.value, [payload]))
  }

  /** The segment a write finds open. */
  function OpenSegment(own: Own, closed: bool): Option<Segment> {
    if Unopened(own, closed) then None else Some(own.segs[|own.segs| - 1])
  }

  lemma PutLands(o: Options, line: Line, own: Own, payload: Bytes)
    requires own.segs != []
    ensures var s := own.segs[|own.segs| - 1];
            PutRecord(o, line, own, payload).landed <==>
            Lands(o.segmentSize, o.fold.Some?, Some(s), NextHeader(o.fold, line, own), payload)
  {
    hide Overflows, Room, NextHeader, Appended, End;
    PutIs(o, line, own, payload);
    OpenedIs(o, line, own);
    OverflowsMeans(o, own.segs[|own.segs| - 1], payload);
    if Opened(o, line, own).Some? {
      var seg := Segment(End(own), NextHeader(o.fold, line, own).value, []);
      OverflowsMeans(o, seg, payload);
      assert [] + [payload] == [payload];
    }
  }

  /** With headers or without, a write lands exactly when there is room for it. */
  lemma WriteLands(o: Options, line: Line, own: Own, payload: Bytes, closed: bool)
    ensures WriteOwn(o, line, own, payload, closed).landed <==>
            Lands(o.segmentSize, o.fold.Some?, OpenSegment(own, closed), NextHeader(o.fold, line, own), payload)
  {
    hide Room, NextHeader, PutRecord, End, Overflows;
    WriteIs(o, line, own, payload, closed);
    UnopenedIs(own, closed);
    OpenedIs(o, line, own);
    if !Unopened(own, closed) {
      PutLands(o, line, own, payload);
    } else if Opened(o, line, own).Some? {
      var first := Opened(o, line, own).value;
      PutLands(o, line, first, payload);
      assert [] + [payload] == [payload];
    }
  }

  lemma WrittenFrom(o: Options, line: Line, own: Own, first: Own, payload: Bytes, out: Outcome)
    requires Written(o, line, first, payload, out)
    requires Visible(LineVisible(line), first) == Visible(LineVisible(line), own) && first.base == own.base
               && First(first) == First(own)
    ensures Written(o, line, own, payload, out)
  {
    hide Under, Visible, First, Tracked, LineVisible, SegmentBytes;
  }

  // ---- the fork watermark ----

  /** The state just below the fork index. An empty log takes it from its header-only
      segment, if the handle still holds that, from its ancestors or from nothing. */
  function ForkMark(r: Reducer, line: Line, own: Own, at: nat, held: bool): Option<Bytes> {
    if Entries(own.segs) != [] then if at >= 1 then StateAt(r, Over(line, own), at - 1) else None
    else if held && own.segs != [] then Some(own.segs[0].header)
    else if at > 1 then StateAt(r, line, at - 1)
    else SegmentOpen(r, [], [])
  }

  /** The history below the fork index folds. A log with records of its own cannot fork
      at index 1, where there is no state to look up. */
  ghost predicate Markable(r: Reducer, v: seq<Bytes>, own: Own, at: nat) {
    (at == 1 ==> Entries(own.segs) == []) && FoldAll(r, Take(v, at - 1)).Some?
  }

  lemma MarkableIs(r: Reducer, v: seq<Bytes>, own: Own, at: nat)
    ensures Markable(r, v, own, at) <==> (at == 1 ==> Entries(own.segs) == []) && FoldAll(r, Take(v, at - 1)).Some?
  {
    hide FoldAll, Take, Entries;
  }

  lemma ForkMarkIs(r: Reducer, line: Line, own: Own, at: nat, held: bool)
    requires at >= 1
    ensures Entries(own.segs) != [] ==> ForkMark(r, line, own, at, held) == StateAt(r, Over(line, own), at - 1)
    ensures Entries(own.segs) == [] ==>
              ForkMark(r, line, own, at, held) ==
              if held && own.segs != [] then Some(own.segs[0].header)
              else if at > 1 then StateAt(r, line, at - 1)
              else SegmentOpen(r, [], [])
  {
    hide Entries, StateAt, SegmentOpen;
  }

  /** The watermark is computed exactly when the history below the index folds and there
      is a state to look up, and then stands for it. */
  lemma ForkMarkExact(r: Reducer, line: Line, own: Own, at: nat, held: bool)
    requires BlankSafe(r) && Under(Some(r), line, own) && 1 <= at <= |Visible(LineVisible(line), own)| + 1
    requires Entries(own.segs) == [] ==> at == own.base
    ensures ForkMark(r, line, own, at, held).Some? <==> Markable(r, Visible(LineVisible(line), own), own, at)
    ensures ForkMark(r, line, own, at, held).Some? ==>
              HeaderOk(r, ForkMark(r, line, own, at, held).value, Take(Visible(LineVisible(line), own), at - 1))
  {
    hide *;
    var up, v := LineVisible(line), Visible(LineVisible(line), own);
    UnderIs(Some(r), line, own);
    LogParts(Some(r), up, own);
    MarkableIs(r, v, own, at);
    ForkMarkIs(r, line, own, at, held);
    TakeIs(v, at - 1);
    if Entries(own.segs) == [] {
      EmptyMarkExact(r, line, own, held);
    } else {
      LineFrom(Some(r), line, own);
      StateAtIsFold(r, Over(line, own), at - 1);
      if ForkMark(r, line, own, at, held).Some? {
        FoldIsHeader(r, ForkMark(r, line, own, at, held).value, v[..at - 1]);
      }
    }
  }

  lemma EmptyMarkExact(r: Reducer, line: Line, own: Own, held: bool)
    requires BlankSafe(r) && Under(Some(r), line, own) && Entries(own.segs) == []
    ensures own.base >= 1
    ensures var v, w := Visible(LineVisible(line), own), ForkMark(r, line, own, own.base, held);
            if w.Some? then HeaderOk(r, w.value, Take(v, own.base - 1)) && FoldAll(r, Take(v, own.base - 1)).Some?
            else FoldAll(r, Take(v, own.base - 1)).None?
  {
    hide *;
    var up, v, at := LineVisible(line), Visible(LineVisible(line), own), own.base;
    UnderIs(Some(r), line, own);
    LogParts(Some(r), up, own);
    NothingOwn(up, own);
    TakeIs(v, at - 1);
    ForkMarkIs(r, line, own, at, held);
    NoEntriesTight(own.segs);
    var w := ForkMark(r, line, own, at, held);
    if held && own.segs != [] {
      assert own.segs == [own.segs[0]];
      SeedHeader(r, up, own, own.segs[0]);
    } else if at > 1 {
      BelowIsFold(r, line, own);
      if w.Some? {
        FoldIsHeader(r, w.value, v[..at - 1]);
      }
    } else {
      NoHistory(r);
      assert v[..at - 1] == [];
    }
    if w.Some? {
      HeaderFolds(r, w.value, v[..at - 1]);
    }
  }

  /** A seeded watermark stands for what its log inherits. */
  lemma SeedHeader(r: Reducer, up: seq<Bytes>, own: Own, seg: Segment)
    requires OwnOk(Some(r), up, own) && own.segs == [seg] && seg.entries == []
    ensures own.base - 1 <= |Visible(up, own)| && HeaderOk(r, seg.header, Visible(up, own)[..own.base - 1])
  {
    SingleEntries(seg);
    hide Visible, HeaderOk, Fold, FoldAll;
    assert MarkOk(r, Visible(up, own), own.segs[0]);
  }
}
