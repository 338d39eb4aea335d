/**
 A log and its ancestors, root first. Each log owns a base index and a list of
 segments; what lies below the base is read through the ancestors. This module
 fixes what such a lineage means: one plain sequence of payloads, and, for a
 reducible log, the plain left fold of that sequence.
 */
module Lineage {
  import opened Basics

  /** One segment file: its base index, its block-0 header (used in header mode
      only) and the payloads that follow. */
  datatype Segment = Segment(base: nat, header: Bytes, entries: seq<Bytes>)

  /** The records a log owns. A root owns from 1; a fork from its base. */
  datatype Own = Own(base: nat, segs: seq<Segment>)

  /** A log over its ancestors; `Top` is above every root. */
  datatype Line = Top | Over(parent: Line, own: Own)

  /** The caller's fold. `reduce` stands for decoding one frame and applying its
      patch, either of which may fail. */
  datatype Reducer = Reducer(initial: Bytes, reduce: (Bytes, Bytes) -> Option<Bytes>)

  // ---- the plain fold, and the fold the log performs ----

  function Fold(r: Reducer, state: Bytes, patches: seq<Bytes>): Option<Bytes>
    decreases |patches|
  {
    if patches == [] then Some(state)
    else match r.reduce(state, patches[0])
      case None => None
      case Some(next) => Fold(r, next, patches[1..])
  }

  /** State after a whole history. */
  function FoldAll(r: Reducer, history: seq<Bytes>): Option<Bytes> {
    Fold(r, r.initial, history)
  }

  /** The header callback: an empty previous header is taken for the initial state. */
  function SegmentOpen(r: Reducer, prevHeader: Bytes, sealed: seq<Bytes>): Option<Bytes> {
    Fold(r, if |prevHeader| == 0 then r.initial else prevHeader, sealed)
  }

  lemma {:induction false} FoldAppend(r: Reducer, state: Bytes, a: seq<Bytes>, b: seq<Bytes>)
    ensures Fold(r, state, a + b) ==
            match Fold(r, state, a) case None => None case Some(mid) => Fold(r, mid, b)
    decreases |a|
  {
    if a == [] {
      assert a + b == b;
    } else {
      assert (a + b)[1..] == a[1..] + b;
      match r.reduce(state, a[0])
      case None =>
      case Some(next) => FoldAppend(r, next, a[1..], b);
    }
  }

  /** The callback cannot tell an empty state from "no state yet". That is
      harmless exactly when, from every reachable empty state, a patch does what
      it does to the initial state. */
  ghost predicate BlankSafe(r: Reducer) {
    forall history: seq<Bytes>, patch: Bytes :: BlankSafeAt(r, history, patch)
  }

  ghost predicate BlankSafeAt(r: Reducer, history: seq<Bytes>, patch: Bytes) {
    FoldAll(r, history) == Some([]) ==> r.reduce([], patch) == r.reduce(r.initial, patch)
  }

  /** `header` stands for the state after `history`: it is that state, or the
      initial state where that state is empty. */
  ghost predicate HeaderOk(r: Reducer, header: Bytes, history: seq<Bytes>) {
    var state := FoldAll(r, history);
    state.Some? && (header == state.value || (state.value == [] && header == r.initial))
  }

  lemma HeaderFold(r: Reducer, header: Bytes, history: seq<Bytes>, patches: seq<Bytes>)
    requires BlankSafe(r) && HeaderOk(r, header, history)
    ensures patches != [] ==> SegmentOpen(r, header, patches) == FoldAll(r, history + patches)
    ensures patches == [] ==>
              SegmentOpen(r, header, patches).Some? && HeaderOk(r, SegmentOpen(r, header, patches).value, history)
  {
    FoldAppend(r, r.initial, history, patches);
    if patches != [] {
      assert BlankSafeAt(r, history, patches[0]);
    }
  }

  // ---- segment lists ----

  function Entries(segs: seq<Segment>): seq<Bytes> {
    if segs == [] then [] else Entries(segs[..|segs| - 1]) + segs[|segs| - 1].entries
  }

  /** Each segment starts where those before it end. */
  ghost predicate Contiguous(segs: seq<Segment>) {
    |segs| > 1 ==>
      var n := |segs| - 1;
      Contiguous(segs[..n]) && segs[n].base == segs[0].base + |Entries(segs[..n])|
  }

  lemma {:induction false} EntriesSplit(segs: seq<Segment>, n: nat)
    requires n <= |segs|
    ensures Entries(segs) == Entries(segs[..n]) + Entries(segs[n..])
    decreases |segs|
  {
    if n == |segs| {
      assert segs[..n] == segs && Entries(segs[n..]) == [];
    } else {
      var front, back := segs[..|segs| - 1], segs[n..];
      EntriesSplit(front, n);
      assert front[..n] == segs[..n];
      assert back[..|back| - 1] == front[n..];
    }
  }

  lemma {:induction false} EntriesBase(segs: seq<Segment>, i: nat)
    requires Contiguous(segs) && i < |segs|
    ensures segs[i].base == segs[0].base + |Entries(segs[..i])|
    ensures Contiguous(segs[..i])
    decreases |segs|
  {
    var n := |segs| - 1;
    if i < n {
      EntriesBase(segs[..n], i);
      assert segs[..n][..i] == segs[..i];
    }
  }

  /** A contiguous list is its concatenation, addressed by index. */
  lemma EntriesAt(segs: seq<Segment>, i: nat)
    requires Contiguous(segs) && i < |segs|
    ensures segs[0].base <= segs[i].base
    ensures segs[i].base - segs[0].base + |segs[i].entries| <= |Entries(segs)|
    ensures Entries(segs)[segs[i].base - segs[0].base..][..|segs[i].entries|] == segs[i].entries
    ensures i == |segs| - 1 ==> segs[i].base - segs[0].base + |segs[i].entries| == |Entries(segs)|
  {
    EntriesBase(segs, i);
    EntriesSplit(segs, i);
    EntriesSplit(segs[i..], 1);
    assert segs[i..][..1] == [segs[i]];
    assert Entries([segs[i]]) == segs[i].entries;
  }

  lemma SingleEntries(s: Segment)
    ensures Entries([s]) == s.entries && Contiguous([s])
  {
    assert [s][..0] == [];
  }

  // ---- one log over its ancestors ----

  function First(own: Own): nat {
    if own.segs == [] then own.base else own.segs[0].base
  }

  /** What a log shows, given what its ancestors show: their records below its
      base, then its own from the base on. */
  ghost function Visible(up: seq<Bytes>, own: Own): seq<Bytes> {
    Take(up, own.base - 1) + Drop(Entries(own.segs), own.base - First(own))
  }

  /** A log may own records below its base (an absorbed prefix). They must then
      repeat what its ancestors hold. */
  ghost predicate Shaped(up: seq<Bytes>, own: Own) {
    && 1 <= own.base <= |up| + 1
    && Contiguous(own.segs)
    && 1 <= First(own) <= own.base
    && own.base - First(own) <= |Entries(own.segs)|
    && Take(Entries(own.segs), own.base - First(own)) == Drop(Take(up, own.base - 1), First(own) - 1)
  }

  /** The segment's header stands for the state before its base. */
  ghost predicate MarkOk(r: Reducer, visible: seq<Bytes>, seg: Segment) {
    1 <= seg.base <= |visible| + 1 && HeaderOk(r, seg.header, visible[..seg.base - 1])
  }

  ghost predicate Watermarked(r: Reducer, visible: seq<Bytes>, segs: seq<Segment>) {
    forall i :: 0 <= i < |segs| ==> MarkOk(r, visible, segs[i])
  }

  ghost predicate OwnOk(mode: Option<Reducer>, up: seq<Bytes>, own: Own) {
    Shaped(up, own) && (mode.Some? ==> Watermarked(mode.value, Visible(up, own), own.segs))
  }

  /** A list that repeats the end of a prefix, laid over it, ends in itself. */
  lemma Overlap(up: seq<Bytes>, e: seq<Bytes>, base: nat, first: nat)
    requires 1 <= first <= base <= |up| + 1 && base - first <= |e|
    requires Take(e, base - first) == Drop(Take(up, base - 1), first - 1)
    ensures var v := Take(up, base - 1) + Drop(e, base - first);
            && |v| == first - 1 + |e| && v[..base - 1] == up[..base - 1]
            && forall i :: 0 <= i < |e| ==> v[first - 1 + i] == e[i]
  {
    var v := Take(up, base - 1) + Drop(e, base - first);
    assert |Take(up, base - 1)| == base - 1;
    forall i | 0 <= i < |e| ensures v[first - 1 + i] == e[i] {
      if i < base - first {
        assert e[i] == Take(e, base - first)[i] == Drop(Take(up, base - 1), first - 1)[i];
        assert Drop(Take(up, base - 1), first - 1)[i] == Take(up, base - 1)[first - 1 + i];
      } else {
        assert v[first - 1 + i] == Drop(e, base - first)[i - (base - first)];
      }
    }
  }

  lemma TailIs(v: seq<Bytes>, n: nat, e: seq<Bytes>)
    requires |v| == n + |e| && forall i :: 0 <= i < |e| ==> v[n + i] == e[i]
    ensures v[n..] == e
  {
  }

  /** The visible records from a log's first own index on are its own entries. */
  lemma VisibleOwn(up: seq<Bytes>, own: Own)
    requires Shaped(up, own)
    ensures |Visible(up, own)| == First(own) - 1 + |Entries(own.segs)| >= own.base - 1
    ensures Visible(up, own)[First(own) - 1..] == Entries(own.segs)
    ensures Visible(up, own)[..own.base - 1] == up[..own.base - 1]
  {
    hide Contiguous, Entries, First, Take, Drop;
    Overlap(up, Entries(own.segs), own.base, First(own));
    TailIs(Visible(up, own), First(own) - 1, Entries(own.segs));
  }

  lemma VisibleSegment(up: seq<Bytes>, own: Own, i: nat)
    requires Shaped(up, own) && i < |own.segs|
    ensures 1 <= own.segs[i].base && own.segs[i].base - 1 + |own.segs[i].entries| <= |Visible(up, own)|
    ensures Visible(up, own)[own.segs[i].base - 1..][..|own.segs[i].entries|] == own.segs[i].entries
    ensures i == |own.segs| - 1 ==> own.segs[i].base - 1 + |own.segs[i].entries| == |Visible(up, own)|
  {
    VisibleOwn(up, own);
    EntriesAt(own.segs, i);
    var off := own.segs[i].base - First(own);
    assert Visible(up, own)[own.segs[i].base - 1..] == Visible(up, own)[First(own) - 1..][off..];
  }

  // ---- a whole lineage ----

  ghost function LineVisible(line: Line): seq<Bytes> {
    match line
    case Top => []
    case Over(parent, own) => Visible(LineVisible(parent), own)
  }

  ghost predicate LineOk(mode: Option<Reducer>, line: Line) {
    match line
    case Top => true
    case Over(parent, own) => LineOk(mode, parent) && OwnOk(mode, LineVisible(parent), own)
  }

  ghost predicate Holds(seg: Segment, idx: nat) {
    seg.base <= idx < seg.base + |seg.entries|
  }

  /** The segment that holds `idx`, searched linearly. */
  function FindSegment(segs: seq<Segment>, idx: nat): (r: Option<nat>)
    ensures r.Some? ==> r.value < |segs| && Holds(segs[r.value], idx)
    ensures r.None? ==> forall i :: 0 <= i < |segs| ==> !Holds(segs[i], idx)
  {
    if segs == [] then None
    else
      var n := |segs| - 1;
      if segs[n].base <= idx < segs[n].base + |segs[n].entries| then Some(n)
      else FindSegment(segs[..n], idx)
  }

  /** Watermark of the segment holding `idx`, folded with that segment's entries
      up to `idx`. */
  function OwnStateAt(r: Reducer, own: Own, idx: nat): Option<Bytes> {
    match FindSegment(own.segs, idx)
    case None => None
    case Some(i) => SegmentOpen(r, own.segs[i].header, own.segs[i].entries[..idx - own.segs[i].base + 1])
  }

  /** Indices below a fork's base are answered by its parent. */
  function StateAt(r: Reducer, line: Line, idx: nat): Option<Bytes> {
    match line
    case Top => None
    case Over(parent, own) =>
      if parent.Over? && idx < own.base then StateAt(r, parent, idx) else OwnStateAt(r, own, idx)
  }

  /** Exactly the indices a log shows at or above its first are held by a segment. */
  lemma HeldIffVisible(up: seq<Bytes>, own: Own, idx: nat)
    requires Shaped(up, own)
    ensures FindSegment(own.segs, idx).Some? <==> First(own) <= idx <= |Visible(up, own)|
  {
    var found := FindSegment(own.segs, idx);
    VisibleOwn(up, own);
    if found.Some? {
      EntriesAt(own.segs, found.value);
      VisibleSegment(up, own, found.value);
    } else if First(own) <= idx <= |Visible(up, own)| {
      assert own.segs != [];
      Holder(own.segs, idx);
    }
  }

  lemma {:induction false} Holder(segs: seq<Segment>, idx: nat)
    requires Contiguous(segs) && segs != []
    requires segs[0].base <= idx < segs[0].base + |Entries(segs)|
    ensures exists i :: 0 <= i < |segs| && Holds(segs[i], idx)
    decreases |segs|
  {
    var n := |segs| - 1;
    EntriesAt(segs, n);
    if idx >= segs[n].base {
      assert Holds(segs[n], idx);
    } else {
      EntriesBase(segs, n);
      Holder(segs[..n], idx);
      var i :| 0 <= i < n && Holds(segs[..n][i], idx);
      assert Holds(segs[i], idx);
    }
  }

  lemma PartOfSegment(v: seq<Bytes>, from: nat, entries: seq<Bytes>, n: nat)
    requires from + |entries| <= |v| && v[from..][..|entries|] == entries && n <= |entries|
    ensures v[..from] + entries[..n] == v[..from + n]
  {
    forall i | 0 <= i < n ensures entries[i] == v[from + i] {
      assert entries[i] == v[from..][..|entries|][i];
    }
  }

  lemma MarkOf(r: Reducer, up: seq<Bytes>, own: Own, i: nat)
    requires OwnOk(Some(r), up, own) && i < |own.segs|
    ensures Shaped(up, own) && 1 <= own.segs[i].base <= |Visible(up, own)| + 1
    ensures HeaderOk(r, own.segs[i].header, Visible(up, own)[..own.segs[i].base - 1])
  {
    hide Visible, Shaped, HeaderOk;
    assert MarkOk(r, Visible(up, own), own.segs[i]);
  }

  /** Below its base a log shows what its ancestors show. */
  lemma Inherited(up: seq<Bytes>, own: Own, idx: nat)
    requires Shaped(up, own) && idx < own.base
    ensures idx <= |up| && idx <= |Visible(up, own)|
    ensures Visible(up, own)[..idx] == up[..idx]
    ensures idx >= 1 ==> Visible(up, own)[idx - 1] == up[idx - 1]
  {
    hide Contiguous, Entries;
    VisibleOwn(up, own);
    hide Visible;
    var v := Visible(up, own);
    assert v[..idx] == v[..own.base - 1][..idx] && up[..idx] == up[..own.base - 1][..idx];
    if idx >= 1 {
      assert v[idx - 1] == v[..idx][idx - 1] && up[idx - 1] == up[..idx][idx - 1];
    }
  }

  /** Reading a log's own segment reads its history. */
  lemma OwnRead(up: seq<Bytes>, own: Own, idx: nat)
    requires Shaped(up, own)
    ensures match FindSegment(own.segs, idx)
            case None => !(First(own) <= idx <= |Visible(up, own)|) && (own.base <= idx ==> idx > |Visible(up, own)|)
            case Some(i) =>
              1 <= idx <= |Visible(up, own)| &&
              own.segs[i].entries[idx - own.segs[i].base] == Visible(up, own)[idx - 1]
  {
    hide Visible, Contiguous, Entries;
    HeldIffVisible(up, own, idx);
    match FindSegment(own.segs, idx)
    case None =>
    case Some(i) =>
      VisibleSegment(up, own, i);
      var v, s := Visible(up, own), own.segs[i];
      assert s.entries[idx - s.base] == v[s.base - 1..][..|s.entries|][idx - s.base];
  }

  /** What a log answers for an index, whatever shape it is in: below its base its
      parent, which shows `up`, above it its own segments. */
  function ReadUnder(up: seq<Bytes>, own: Own, idx: nat): Option<Bytes> {
    if idx < own.base then if 1 <= idx <= |up| then Some(up[idx - 1]) else None
    else match FindSegment(own.segs, idx)
      case None => None
      case Some(i) => Some(own.segs[i].entries[idx - own.segs[i].base])
  }

  /** A well-shaped log answers from its history. */
  lemma ReadIs(up: seq<Bytes>, own: Own, idx: nat)
    requires Shaped(up, own)
    ensures ReadUnder(up, own, idx) == if 1 <= idx <= |Visible(up, own)| then Some(Visible(up, own)[idx - 1]) else None
  {
    hide Visible, Contiguous, Entries, Shaped;
    if idx < own.base {
      Inherited(up, own, idx);
    } else {
      OwnRead(up, own, idx);
      BaseAtLeastOne(up, own);
    }
  }

  lemma BaseAtLeastOne(up: seq<Bytes>, own: Own)
    requires Shaped(up, own)
    ensures own.base >= 1
  {
  }

  /** One segment's watermark, folded with its entries up to `idx`. */
  lemma SegmentState(r: Reducer, up: seq<Bytes>, own: Own, i: nat, idx: nat)
    requires BlankSafe(r) && OwnOk(Some(r), up, own)
    requires i < |own.segs| && Holds(own.segs[i], idx)
    ensures 1 <= idx <= |Visible(up, own)|
    ensures SegmentOpen(r, own.segs[i].header, own.segs[i].entries[..idx - own.segs[i].base + 1]) ==
            FoldAll(r, Visible(up, own)[..idx])
  {
    hide BlankSafe, OwnOk, Visible, HeaderOk, SegmentOpen, FoldAll;
    var seg, v := own.segs[i], Visible(up, own);
    MarkOf(r, up, own, i);
    VisibleSegment(up, own, i);
    var n := idx - seg.base + 1;
    PartOfSegment(v, seg.base - 1, seg.entries, n);
    HeaderFold(r, seg.header, v[..seg.base - 1], seg.entries[..n]);
  }

  lemma OwnStateIsFold(r: Reducer, up: seq<Bytes>, own: Own, idx: nat)
    requires BlankSafe(r) && OwnOk(Some(r), up, own)
    ensures OwnStateAt(r, own, idx) ==
            if First(own) <= idx <= |Visible(up, own)| then FoldAll(r, Visible(up, own)[..idx]) else None
  {
    HeldIffVisible(up, own, idx);
    match FindSegment(own.segs, idx)
    case None =>
    case Some(i) => SegmentState(r, up, own, i, idx);
  }

  lemma LineParts(r: Reducer, parent: Line, own: Own, idx: nat)
    requires LineOk(Some(r), Over(parent, own))
    ensures LineOk(Some(r), parent) && OwnOk(Some(r), LineVisible(parent), own) && Shaped(LineVisible(parent), own)
    ensures LineVisible(Over(parent, own)) == Visible(LineVisible(parent), own)
    ensures StateAt(r, Over(parent, own), idx) ==
            if parent.Over? && idx < own.base then StateAt(r, parent, idx) else OwnStateAt(r, own, idx)
    ensures 1 <= own.base <= |LineVisible(parent)| + 1 && 1 <= First(own) <= own.base
    ensures parent.Top? ==> own.base == 1 && LineVisible(parent) == []
  {
    hide Visible, Contiguous, Entries, Watermarked, OwnStateAt;
  }

  lemma TopState(r: Reducer, idx: nat)
    ensures StateAt(r, Top, idx) == None && LineVisible(Top) == []
  {
  }

  lemma Below(up: seq<Bytes>, v: seq<Bytes>, base: nat, idx: nat)
    requires 1 <= base <= |up| + 1 && base - 1 <= |v| && v[..base - 1] == up[..base - 1] && idx < base
    ensures idx <= |v| && idx <= |up| && v[..idx] == up[..idx]
  {
    assert v[..base - 1][..idx] == v[..idx] && up[..base - 1][..idx] == up[..idx];
  }

  /** Watermark soundness: folding from the nearest watermark is folding the whole
      visible history, at every visible index, however deep the fork chain. */
  lemma {:induction false} StateAtIsFold(r: Reducer, line: Line, idx: nat)
    requires BlankSafe(r) && LineOk(Some(r), line)
    ensures StateAt(r, line, idx) ==
            if 1 <= idx <= |LineVisible(line)| then FoldAll(r, LineVisible(line)[..idx]) else None
    decreases line
  {
    hide *;
    match line
    case Top => TopState(r, idx);
    case Over(parent, own) =>
      var up, v := LineVisible(parent), LineVisible(line);
      LineParts(r, parent, own, idx);
      VisibleOwn(up, own);
      if parent.Over? && idx < own.base {
        StateAtIsFold(r, parent, idx);
        Below(up, v, own.base, idx);
      } else {
        OwnStateIsFold(r, up, own, idx);
        LineFirst(parent, own, idx);
      }
  }

  /** Where a log answers itself, its first index bounds what it can be asked for. */
  lemma LineFirst(parent: Line, own: Own, idx: nat)
    requires 1 <= First(own) <= own.base && (parent.Top? ==> own.base == 1) && !(parent.Over? && idx < own.base)
    ensures idx >= 1 ==> First(own) <= idx
  {
  }

  /** The watermarks of every well-formed lineage answer with the plain fold. */
  ghost predicate WatermarksSound(r: Reducer) {
    forall line: Line, idx: nat :: SoundAt(r, line, idx)
  }

  ghost predicate SoundAt(r: Reducer, line: Line, idx: nat) {
    LineOk(Some(r), line) && 1 <= idx <= |LineVisible(line)| ==>
      StateAt(r, line, idx) == FoldAll(r, LineVisible(line)[..idx])
  }

  /** A fork taken where the state is empty, and one more patch. */
  function BlankFork(r: Reducer, history: seq<Bytes>, patch: Bytes): Line {
    Over(Over(Top, Own(1, [Segment(1, r.initial, history)])),
         Own(|history| + 1, [Segment(|history| + 1, [], [patch])]))
  }

  /** A log that starts right after what its parent shows. */
  lemma TailLog(mode: Option<Reducer>, v: seq<Bytes>, own: Own)
    requires own.base == |v| + 1 && Contiguous(own.segs)
    requires own.segs != [] ==> own.segs[0].base == own.base
    requires mode.Some? ==> Watermarked(mode.value, v + Entries(own.segs), own.segs)
    ensures OwnOk(mode, v, own) && Visible(v, own) == v + Entries(own.segs) && First(own) == own.base
  {
    hide Entries, Contiguous, MarkOk;
    assert v[..|v|] == v;
    assert Visible(v, own) == v + Entries(own.segs);
  }

  lemma RootLog(r: Reducer, history: seq<Bytes>)
    ensures var own := Own(1, [Segment(1, r.initial, history)]);
            OwnOk(Some(r), [], own) && Visible([], own) == history
  {
    var own := Own(1, [Segment(1, r.initial, history)]);
    SingleEntries(own.segs[0]);
    assert FoldAll(r, []) == Some(r.initial) && history[..0] == [];
    assert MarkOk(r, history, own.segs[0]);
    assert [] + history == history;
    TailLog(Some(r), [], own);
  }

  lemma BlankLog(r: Reducer, history: seq<Bytes>, patch: Bytes)
    requires FoldAll(r, history) == Some([])
    ensures var own := Own(|history| + 1, [Segment(|history| + 1, [], [patch])]);
            OwnOk(Some(r), history, own) && Visible(history, own) == history + [patch]
  {
    var own := Own(|history| + 1, [Segment(|history| + 1, [], [patch])]);
    SingleEntries(own.segs[0]);
    assert (history + [patch])[..|history|] == history;
    assert MarkOk(r, history + [patch], own.segs[0]);
    TailLog(Some(r), history, own);
  }

  lemma LineFrom(mode: Option<Reducer>, parent: Line, own: Own)
    requires LineOk(mode, parent) && OwnOk(mode, LineVisible(parent), own)
    ensures LineOk(mode, Over(parent, own)) && LineVisible(Over(parent, own)) == Visible(LineVisible(parent), own)
  {
    hide OwnOk, Visible;
  }

  lemma TopOk(mode: Option<Reducer>)
    ensures LineOk(mode, Top) && LineVisible(Top) == []
  {
  }

  lemma BlankForkShape(r: Reducer, history: seq<Bytes>, patch: Bytes)
    requires FoldAll(r, history) == Some([])
    ensures LineOk(Some(r), BlankFork(r, history, patch))
    ensures LineVisible(BlankFork(r, history, patch)) == history + [patch]
  {
    hide OwnOk, Visible, LineOk, LineVisible, FoldAll;
    var root := Own(1, [Segment(1, r.initial, history)]);
    TopOk(Some(r));
    RootLog(r, history);
    LineFrom(Some(r), Top, root);
    BlankLog(r, history, patch);
    LineFrom(Some(r), Over(Top, root), Own(|history| + 1, [Segment(|history| + 1, [], [patch])]));
  }

  /** Watermarks are sound for a reducer exactly when its empty states cannot be
      told from its initial state by any patch. */
  lemma SoundIffBlankSafe(r: Reducer)
    ensures WatermarksSound(r) <==> BlankSafe(r)
  {
    if BlankSafe(r) {
      forall line: Line, idx: nat ensures SoundAt(r, line, idx) {
        if LineOk(Some(r), line) {
          StateAtIsFold(r, line, idx);
        }
      }
    }
    if WatermarksSound(r) {
      forall history: seq<Bytes>, patch: Bytes ensures BlankSafeAt(r, history, patch) {
        if FoldAll(r, history) == Some([]) {
          assert SoundAt(r, BlankFork(r, history, patch), |history| + 1);
          BlankForkState(r, history, patch);
        }
      }
    }
  }

  /** What the log answers on that fork, and what the plain fold is. */
  lemma BlankForkState(r: Reducer, history: seq<Bytes>, patch: Bytes)
    requires FoldAll(r, history) == Some([])
    ensures var line := BlankFork(r, history, patch);
            && LineOk(Some(r), line) && |LineVisible(line)| == |history| + 1
            && StateAt(r, line, |history| + 1) == r.reduce(r.initial, patch)
            && FoldAll(r, LineVisible(line)[..|history| + 1]) == r.reduce([], patch)
  {
    BlankForkShape(r, history, patch);
    FoldAppend(r, r.initial, history, [patch]);
    OnePatch(r, r.initial, patch);
    OnePatch(r, [], patch);
    hide Fold, LineOk, LineVisible;
    assert (history + [patch])[..|history| + 1] == history + [patch];
    assert [patch][..1] == [patch];
  }

  lemma OnePatch(r: Reducer, state: Bytes, patch: Bytes)
    ensures Fold(r, state, [patch]) == r.reduce(state, patch)
  {
    assert [patch][1..] == [];
  }
}
