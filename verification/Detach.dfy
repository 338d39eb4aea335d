/**
 Detach: a node absorbs, channel by channel, the prefix it reads through an
 ancestor, then flips each channel's fork marker to base 1, then forgets the
 ancestor. No journal: every intermediate state must show the same records.
 */
module Detach {
  import opened Basics
  import opened Lineage

  /** Every segment file but the one based at 1. */
  function Rest(own: Own): seq<Segment> {
    if own.segs != [] && own.segs[0].base == 1 then own.segs[1..] else own.segs
  }

  /** Absorbing builds one segment based at 1 and renames it into place, over
      whatever file bears that name: the segment as it reads back if its header, where
      one is expected, was written. */
  function Filled(initial: Bytes, up: seq<Bytes>, own: Own): Own {
    if own.base <= 1 then own
    else
      Own(own.base, [Segment(1, initial, Take(up, own.base - 1))] + Rest(own))
  }

  /** A reducible channel's segment is read back with a header. Absorbing writes one only
      if the channel has an initial state; without it the first record is taken for the
      header, and the others move down by one. */
  function Absorbed(headered: bool, initial: Option<Bytes>, up: seq<Bytes>, own: Own): Own {
    if own.base <= 1 then own
    else if headered && initial.None? then
      var prefix := Take(up, own.base - 1);
      Own(own.base, [if prefix == [] then Segment(1, [], []) else Segment(1, prefix[0], prefix[1..])] + Rest(own))
    else Filled(if initial.Some? then initial.value else [], up, own)
  }

  /** Publishing: the log now claims to own everything from 1. */
  function Flipped(own: Own): Own {
    Own(1, own.segs)
  }

  /** Where the log's first segment starts: at its base, or at 1 once absorbed. */
  ghost predicate HalfDetached(own: Own) {
    own.base > 1 && own.segs != [] && own.segs[0].base == 1
  }

  /** The file that absorbing replaces holds no record of the log's own. */
  ghost predicate Replaceable(own: Own) {
    HalfDetached(own) ==> |own.segs[0].entries| == own.base - 1
  }

  ghost predicate Ready(mode: Option<Reducer>, up: seq<Bytes>, own: Own) {
    && OwnOk(mode, up, own)
    && (First(own) == own.base || HalfDetached(own))
    && Replaceable(own)
  }

  function InitialOf(mode: Option<Reducer>): Bytes {
    if mode.Some? then mode.value.initial else []
  }

  lemma HeadEntries(s: Segment, rest: seq<Segment>)
    ensures Entries([s] + rest) == s.entries + Entries(rest)
  {
    EntriesSplit([s] + rest, 1);
    assert ([s] + rest)[..1] == [s] && ([s] + rest)[1..] == rest;
    SingleEntries(s);
  }

  /** A contiguous list with a segment put in front of it. */
  lemma {:induction false} HeadContiguous(s: Segment, rest: seq<Segment>)
    requires Contiguous(rest) && (rest != [] ==> rest[0].base == s.base + |s.entries|)
    ensures Contiguous([s] + rest)
    decreases |rest|
  {
    if rest != [] {
      var n := |rest| - 1;
      HeadContiguous(s, rest[..n]);
      HeadEntries(s, rest[..n]);
      assert ([s] + rest)[..n + 1] == [s] + rest[..n];
      EntriesBase(rest, n);
    }
  }

  lemma TailContiguous(segs: seq<Segment>)
    requires Contiguous(segs) && segs != []
    ensures Contiguous(segs[1..])
    ensures |segs| > 1 ==> segs[1].base == segs[0].base + |segs[0].entries|
    ensures Entries(segs) == segs[0].entries + Entries(segs[1..])
  {
    assert segs == [segs[0]] + segs[1..];
    HeadEntries(segs[0], segs[1..]);
    DropHead(segs);
  }

  lemma {:induction false} DropHead(segs: seq<Segment>)
    requires Contiguous(segs) && segs != []
    ensures Contiguous(segs[1..])
    ensures |segs| > 1 ==> segs[1].base == segs[0].base + |segs[0].entries|
    decreases |segs|
  {
    var n := |segs| - 1;
    if n == 1 {
      SingleEntries(segs[0]);
      assert segs[..1] == [segs[0]];
    } else if n > 1 {
      DropHead(segs[..n]);
      assert segs[..n] == [segs[0]] + segs[1..n];
      HeadEntries(segs[0], segs[1..n]);
      assert segs[1..][..n - 1] == segs[1..n] == segs[..n][1..];
    }
  }

  /** A log whose first segment is the whole inherited prefix. */
  lemma PrefixLog(mode: Option<Reducer>, up: seq<Bytes>, base: nat, rest: seq<Segment>)
    requires 1 < base <= |up| + 1 && Contiguous(rest) && (rest != [] ==> rest[0].base == base)
    requires mode.Some? ==> Watermarked(mode.value, up[..base - 1] + Entries(rest), rest)
    ensures var own := Own(base, [Segment(1, InitialOf(mode), up[..base - 1])] + rest);
            && OwnOk(mode, up, own) && Visible(up, own) == up[..base - 1] + Entries(rest)
            && HalfDetached(own) && Replaceable(own)
  {
    var head := Segment(1, InitialOf(mode), up[..base - 1]);
    var own := Own(base, [head] + rest);
    HeadContiguous(head, rest);
    HeadEntries(head, rest);
    hide Entries, Contiguous, HeaderOk, MarkOk, Watermarked;
    var v := up[..base - 1] + Entries(rest);
    assert Entries(own.segs)[..base - 1] == up[..base - 1] == up[0..base - 1];
    assert Drop(Entries(own.segs), base - 1) == Entries(rest);
    assert Visible(up, own) == v;
    if mode.Some? {
      PrefixMarks(mode.value, v, head, rest);
    }
  }

  lemma PrefixMarks(r: Reducer, v: seq<Bytes>, head: Segment, rest: seq<Segment>)
    requires Watermarked(r, v, rest) && head.base == 1 && head.header == r.initial
    ensures Watermarked(r, v, [head] + rest)
  {
    FoldNothing(r);
    hide HeaderOk;
    assert v[..0] == [];
    forall i | 0 <= i < |[head] + rest| ensures MarkOk(r, v, ([head] + rest)[i]) {
      assert i > 0 ==> MarkOk(r, v, rest[i - 1]);
    }
  }

  lemma FoldNothing(r: Reducer)
    ensures HeaderOk(r, r.initial, [])
  {
  }

  lemma HalfRest(mode: Option<Reducer>, up: seq<Bytes>, own: Own)
    requires OwnOk(mode, up, own) && HalfDetached(own) && Replaceable(own)
    ensures Contiguous(Rest(own)) && (Rest(own) != [] ==> Rest(own)[0].base == own.base)
    ensures Visible(up, own) == up[..own.base - 1] + Entries(Rest(own))
    ensures mode.Some? ==> Watermarked(mode.value, Visible(up, own), Rest(own))
  {
    TailContiguous(own.segs);
    var rest := own.segs[1..];
    hide Entries, Contiguous, MarkOk;
    assert Drop(Entries(own.segs), own.base - 1) == Entries(rest);
    hide Visible;
    if mode.Some? {
      forall i | 0 <= i < |rest| ensures MarkOk(mode.value, Visible(up, own), rest[i]) {
        assert rest[i] == own.segs[i + 1];
      }
    }
  }

  /** What a ready log shows, in terms of the segments absorbing leaves alone. */
  lemma ReadyRest(mode: Option<Reducer>, up: seq<Bytes>, own: Own)
    requires Ready(mode, up, own) && own.base > 1
    ensures Contiguous(Rest(own)) && (Rest(own) != [] ==> Rest(own)[0].base == own.base)
    ensures Visible(up, own) == up[..own.base - 1] + Entries(Rest(own))
    ensures mode.Some? ==> Watermarked(mode.value, Visible(up, own), Rest(own))
  {
    hide Entries, Contiguous, Watermarked;
    if HalfDetached(own) {
      HalfRest(mode, up, own);
    } else {
      assert Rest(own) == own.segs;
    }
  }

  /** Absorbing is invisible, unless a header is expected and not written. */
  lemma AbsorbInvisible(mode: Option<Reducer>, initial: Option<Bytes>, up: seq<Bytes>, own: Own)
    requires Ready(mode, up, own) && (initial.Some? ==> mode.Some? && initial.value == mode.value.initial)
    ensures (mode.Some? ==> initial.Some?) || own.base <= 1 ==>
              var after := Absorbed(mode.Some?, initial, up, own);
              Ready(mode, up, after) && Visible(up, after) == Visible(up, own) && First(after) == 1
  {
    hide Ready, Visible, First, Rest;
    if (mode.Some? ==> initial.Some?) || own.base <= 1 {
      FillInvisible(mode, up, own);
    }
  }

  lemma FillInvisible(mode: Option<Reducer>, up: seq<Bytes>, own: Own)
    requires Ready(mode, up, own)
    ensures var after := Filled(InitialOf(mode), up, own);
            Ready(mode, up, after) && Visible(up, after) == Visible(up, own) && First(after) == 1
  {
    if own.base > 1 {
      ReadyRest(mode, up, own);
      hide Entries, Contiguous, Visible, Watermarked;
      PrefixLog(mode, up, own.base, Rest(own));
    }
  }

  lemma FlippedShown(any: seq<Bytes>, segs: seq<Segment>)
    requires First(Own(1, segs)) == 1
    ensures Visible(any, Own(1, segs)) == Entries(segs)
  {
    hide Entries;
  }

  lemma FlippedShape(any: seq<Bytes>, segs: seq<Segment>)
    requires Contiguous(segs) && First(Own(1, segs)) == 1
    ensures Shaped(any, Own(1, segs))
  {
    hide Entries, Contiguous;
  }

  lemma FromStart(v: seq<Bytes>, e: seq<Bytes>)
    requires v[0..] == e
    ensures v == e
  {
  }

  /** Publishing is invisible, and from then on the ancestors do not matter. */
  lemma FlipInvisible(mode: Option<Reducer>, up: seq<Bytes>, own: Own, any: seq<Bytes>)
    requires OwnOk(mode, up, own) && First(own) == 1
    ensures OwnOk(mode, any, Flipped(own)) && Visible(any, Flipped(own)) == Visible(up, own)
    ensures Ready(mode, any, Flipped(own))
  {
    hide Entries, Contiguous, Watermarked, Visible, Shaped;
    ShapedContiguous(up, own);
    VisibleOwn(up, own);
    FromStart(Visible(up, own), Entries(own.segs));
    FlippedShown(any, own.segs);
    FlippedShape(any, own.segs);
  }

  lemma ShapedContiguous(up: seq<Bytes>, own: Own)
    requires Shaped(up, own)
    ensures Contiguous(own.segs)
  {
  }

  /** Absorbing a half-detached log keeps its history exactly when the file based at
      1 ends where the inherited prefix ends. A log that had no segment of its own
      when it was first absorbed appends into that very file; absorbing again then
      overwrites those records. */
  lemma AbsorbAgainExact(mode: Option<Reducer>, up: seq<Bytes>, own: Own)
    requires OwnOk(mode, up, own) && HalfDetached(own)
    ensures Visible(up, Filled(InitialOf(mode), up, own)) == Visible(up, own) <==> |own.segs[0].entries| == own.base - 1
  {
    hide *;
    HalfParts(mode, up, own);
    BothShown(mode, up, own);
    SameTail(up[..own.base - 1], own.segs[0].entries, Entries(own.segs[1..]));
  }

  lemma HalfParts(mode: Option<Reducer>, up: seq<Bytes>, own: Own)
    requires OwnOk(mode, up, own) && HalfDetached(own)
    ensures 1 < own.base <= |up| + 1 && own.segs != [] && own.segs[0].base == 1 && First(own) == 1
    ensures Contiguous(own.segs) && own.base - 1 <= |Entries(own.segs)|
  {
    hide Entries, Contiguous, Visible;
  }

  lemma BothShown(mode: Option<Reducer>, up: seq<Bytes>, own: Own)
    requires 1 < own.base <= |up| + 1 && own.segs != [] && own.segs[0].base == 1 && First(own) == 1
    requires Contiguous(own.segs) && own.base - 1 <= |Entries(own.segs)|
    ensures var b, e, tail := own.base - 1, own.segs[0].entries, Entries(own.segs[1..]);
            && b <= |e + tail| && Visible(up, Filled(InitialOf(mode), up, own)) == up[..b] + tail
            && Visible(up, own) == up[..b] + (e + tail)[b..]
  {
    TailContiguous(own.segs);
    var after := Filled(InitialOf(mode), up, own);
    HeadEntries(after.segs[0], own.segs[1..]);
    hide Entries, Contiguous;
    assert Drop(Entries(after.segs), own.base - 1) == Entries(own.segs[1..]);
  }

  lemma SameTail(p: seq<Bytes>, e: seq<Bytes>, tail: seq<Bytes>)
    requires |p| <= |e + tail|
    ensures p + tail == p + (e + tail)[|p|..] <==> |e| == |p|
  {
    if |e| == |p| {
      assert (e + tail)[|p|..] == tail;
    } else {
      assert |p + tail| != |p + (e + tail)[|p|..]|;
    }
  }

  /** The failing case, concretely: one inherited record, absorbed, one append, and
      a second absorb. */
  lemma AbsorbAgainLoses(record: Bytes, appended: Bytes)
    ensures var up := [record];
            var first := Filled([], up, Own(2, []));
            var grown := Own(2, [first.segs[0].(entries := first.segs[0].entries + [appended])]);
            && OwnOk(None, up, grown) && Visible(up, grown) == [record, appended]
            && Visible(up, Filled([], up, grown)) == [record]
  {
    var up := [record];
    var seg := Segment(1, [], [record, appended]);
    var grown := Own(2, [seg]);
    assert Take(up, 1) == [record];
    assert Filled([], up, Own(2, [])).segs == [Segment(1, [], [record])];
    assert [record] + [appended] == [record, appended];
    SingleEntries(seg);
    SingleEntries(Segment(1, [], [record]));
    assert Visible(up, grown) == [record, appended];
    assert Filled([], up, grown).segs == [Segment(1, [], [record])];
    assert Visible(up, Filled([], up, grown)) == [record];
  }

  // ---- what a detached log answers ----

  /** Every index is answered alike. */
  ghost predicate SameReads(up: seq<Bytes>, own: Own, any: seq<Bytes>, after: Own) {
    forall idx: nat :: ReadUnder(any, after, idx) == ReadUnder(up, own, idx)
  }

  lemma SameHistory(up: seq<Bytes>, own: Own, any: seq<Bytes>, after: Own)
    requires Shaped(up, own) && Shaped(any, after) && Visible(any, after) == Visible(up, own)
    ensures SameReads(up, own, any, after)
  {
    hide Shaped, Visible, ReadUnder;
    forall idx: nat ensures ReadUnder(any, after, idx) == ReadUnder(up, own, idx) {
      ReadIs(up, own, idx);
      ReadIs(any, after, idx);
    }
  }

  /** Segments that start at or past an index do not hold what is below it. */
  lemma NotBelow(rest: seq<Segment>, base: nat, idx: nat)
    requires Contiguous(rest) && (rest != [] ==> rest[0].base == base) && idx < base
    ensures FindSegment(rest, idx) == None
  {
    hide Contiguous, Entries;
    forall i | 0 <= i < |rest| ensures rest[i].base >= base {
      EntriesAt(rest, i);
    }
  }

  /** Without its header the absorbed file holds one record less. */
  lemma LastIsLost(up: seq<Bytes>, own: Own, any: seq<Bytes>)
    requires Ready(None, up, own) && own.base > 1
    ensures var after := Flipped(Absorbed(true, None, up, own));
            && FindSegment(after.segs, own.base - 1) == None && ReadUnder(any, after, own.base - 1) == None
            && ReadUnder(up, own, own.base - 1) == Some(up[own.base - 2])
  {
    hide *;
    var after := Flipped(Absorbed(true, None, up, own));
    ShortFile(up, own);
    ReadyRest(None, up, own);
    FindBehind(after.segs[0], Rest(own), own.base - 1);
    NotBelow(Rest(own), own.base, own.base - 1);
    ReadsAre(up, own, any, after);
  }

  lemma ShortFile(up: seq<Bytes>, own: Own)
    requires Ready(None, up, own) && own.base > 1
    ensures var after := Flipped(Absorbed(true, None, up, own));
            && after.base == 1 && after.segs == [after.segs[0]] + Rest(own) && !Holds(after.segs[0], own.base - 1)
            && own.base - 1 <= |up|
  {
    hide Entries, Contiguous, Visible;
  }

  lemma ReadsAre(up: seq<Bytes>, own: Own, any: seq<Bytes>, after: Own)
    requires 1 < own.base <= |up| + 1 && after.base == 1 && FindSegment(after.segs, own.base - 1) == None
    ensures ReadUnder(any, after, own.base - 1) == None && ReadUnder(up, own, own.base - 1) == Some(up[own.base - 2])
  {
    hide FindSegment;
  }

  /** Detaching a channel keeps what it answers at every index if and only if it does not
      expect a header that absorbing did not write. */
  lemma DetachKeepsIff(headered: bool, initial: Option<Bytes>, up: seq<Bytes>, own: Own, any: seq<Bytes>)
    requires Ready(None, up, own) && (initial.Some? ==> headered)
    ensures SameReads(up, own, any, Flipped(Absorbed(headered, initial, up, own))) <==>
            (headered ==> initial.Some?) || own.base <= 1
  {
    hide *;
    if headered && initial.None? && own.base > 1 {
      LastIsLost(up, own, any);
      Differs(up, own, any, Flipped(Absorbed(true, None, up, own)), own.base - 1);
    } else {
      PlainShape(headered, initial, up, own);
      var after := Absorbed(headered, initial, up, own);
      ReadyParts(None, up, own);
      FlipInvisible(None, up, after, any);
      OwnParts(None, any, Flipped(after));
      SameHistory(up, own, any, Flipped(after));
    }
  }

  lemma Differs(up: seq<Bytes>, own: Own, any: seq<Bytes>, after: Own, idx: nat)
    requires ReadUnder(any, after, idx) != ReadUnder(up, own, idx)
    ensures !SameReads(up, own, any, after)
  {
  }

  lemma ReadyParts(mode: Option<Reducer>, up: seq<Bytes>, own: Own)
    requires Ready(mode, up, own)
    ensures Ready(None, up, own) && Shaped(up, own) && OwnOk(mode, up, own) && OwnOk(None, up, own)
  {
  }

  lemma OwnParts(mode: Option<Reducer>, up: seq<Bytes>, own: Own)
    requires OwnOk(mode, up, own)
    ensures Shaped(up, own)
  {
  }

  /** Headers apart, absorbing with any header is absorbing with none. */
  lemma PlainShape(headered: bool, initial: Option<Bytes>, up: seq<Bytes>, own: Own)
    requires Ready(None, up, own) && ((headered ==> initial.Some?) || own.base <= 1)
    ensures var after := Absorbed(headered, initial, up, own);
            OwnOk(None, up, after) && Visible(up, after) == Visible(up, own) && First(after) == 1
  {
    hide *;
    AbsorbedIs(headered, initial, up, own);
    var h := if initial.Some? then initial.value else [];
    FillInvisible(None, up, own);
    ReadyParts(None, up, Filled(InitialOf(None), up, own));
    SameButHeader(h, InitialOf(None), up, own);
  }

  lemma AbsorbedIs(headered: bool, initial: Option<Bytes>, up: seq<Bytes>, own: Own)
    requires (headered ==> initial.Some?) || own.base <= 1
    ensures Absorbed(headered, initial, up, own) == Filled(if initial.Some? then initial.value else [], up, own)
  {
  }

  lemma SameButHeader(h: Bytes, g: Bytes, up: seq<Bytes>, own: Own)
    requires Shaped(up, Filled(g, up, own))
    ensures Shaped(up, Filled(h, up, own)) && Visible(up, Filled(h, up, own)) == Visible(up, Filled(g, up, own))
    ensures First(Filled(h, up, own)) == First(Filled(g, up, own)) && OwnOk(None, up, Filled(h, up, own))
  {
    var a, b := Filled(h, up, own), Filled(g, up, own);
    if own.base > 1 {
      HeadEntries(a.segs[0], Rest(own));
      HeadEntries(b.segs[0], Rest(own));
      hide Entries;
      HeadSwap(a.segs[0], b.segs[0], Rest(own));
    }
  }

  lemma {:induction false} HeadSwap(s: Segment, r: Segment, rest: seq<Segment>)
    requires s.base == r.base && s.entries == r.entries && Contiguous([r] + rest)
    ensures Contiguous([s] + rest)
    decreases |rest|
  {
    var a, b := [s] + rest, [r] + rest;
    if rest == [] {
      assert a == [s];
    } else {
      var n := |rest| - 1;
      assert a[..|a| - 1] == [s] + rest[..n] && b[..|b| - 1] == [r] + rest[..n] && a[|a| - 1] == b[|b| - 1] == rest[n];
      HeadSwap(s, r, rest[..n]);
      HeadEntries(s, rest[..n]);
      HeadEntries(r, rest[..n]);
    }
  }

  /** The smallest case: one inherited record, a reducible channel without an initial
      state. Detached, it shows nothing. */
  lemma NilInitialLoses(record: Bytes, any: seq<Bytes>)
    ensures var own := Own(2, []);
            var after := Flipped(Absorbed(true, None, [record], own));
            && Ready(None, [record], own) && Visible([record], own) == [record]
            && after == Own(1, [Segment(1, record, [])])
            && ReadUnder([record], own, 1) == Some(record) && ReadUnder(any, after, 1) == None
  {
    var own, after := Own(2, []), Flipped(Absorbed(true, None, [record], Own(2, [])));
    assert Take([record], 1) == [record] && [record][1..] == [];
    assert Rest(own) == [];
    assert after.segs == [Segment(1, record, [])];
    assert Visible([record], own) == [record];
    assert FindSegment(after.segs, 1) == None;
  }

  // ---- states ----

  /** A segment in front that does not hold the index does not change the search. */
  lemma {:induction false} FindBehind(s: Segment, rest: seq<Segment>, idx: nat)
    requires !Holds(s, idx)
    ensures FindSegment([s] + rest, idx) ==
            match FindSegment(rest, idx) case None => None case Some(i) => Some(i + 1)
    decreases |rest|
  {
    var all := [s] + rest;
    if rest == [] {
      assert all == [s] && all[..0] == [];
    } else {
      var n := |rest| - 1;
      assert all[|all| - 1] == rest[n] && all[..|all| - 1] == [s] + rest[..n];
      FindBehind(s, rest[..n], idx);
    }
  }

  lemma StateBehind(r: Reducer, s: Segment, rest: seq<Segment>, idx: nat, base: nat)
    requires !Holds(s, idx)
    ensures OwnStateAt(r, Own(base, [s] + rest), idx) == OwnStateAt(r, Own(base, rest), idx)
  {
    hide SegmentOpen;
    FindBehind(s, rest, idx);
    var f := FindSegment(rest, idx);
    if f.Some? {
      assert ([s] + rest)[f.value + 1] == rest[f.value];
    }
  }

  lemma StateOver(r: Reducer, line: Line, own: Own, idx: nat)
    ensures StateAt(r, Over(line, own), idx) ==
              if line.Over? && idx < own.base then StateAt(r, line, idx) else OwnStateAt(r, own, idx)
  {
    hide OwnStateAt;
  }

  /** Absorbing changes no state, whatever the reducer: below the base the parent still
      answers, above it the same segments do. */
  lemma AbsorbState(r: Reducer, initial: Bytes, line: Line, own: Own, idx: nat)
    requires line.Over? && Ready(None, LineVisible(line), own)
    ensures StateAt(r, Over(line, Filled(initial, LineVisible(line), own)), idx) == StateAt(r, Over(line, own), idx)
  {
    hide *;
    var up := LineVisible(line);
    FilledIs(initial, up, own);
    var after := Filled(initial, up, own);
    StateOver(r, line, own, idx);
    StateOver(r, line, after, idx);
    if own.base > 1 && idx >= own.base {
      StateBehind(r, after.segs[0], Rest(own), idx, own.base);
      if HalfDetached(own) {
        StateBehind(r, own.segs[0], Rest(own), idx, own.base);
        assert own == Own(own.base, [own.segs[0]] + Rest(own));
      }
    }
  }

  lemma FilledIs(initial: Bytes, up: seq<Bytes>, own: Own)
    requires Ready(None, up, own)
    ensures Filled(initial, up, own).base == own.base
    ensures own.base <= 1 ==> Filled(initial, up, own) == own
    ensures own.base > 1 ==>
              var after := Filled(initial, up, own);
              && after == Own(own.base, [Segment(1, initial, up[..own.base - 1])] + Rest(own))
              && after.segs[0] == Segment(1, initial, up[..own.base - 1]) && own.base - 1 <= |up|
              && (forall idx :: idx >= own.base ==> !Holds(after.segs[0], idx))
              && (forall idx: nat :: 1 <= idx < own.base ==> Holds(after.segs[0], idx))
              && (if HalfDetached(own)
                  then own.segs == [own.segs[0]] + Rest(own)
                      && (forall idx :: idx >= own.base ==> !Holds(own.segs[0], idx))
                  else own.segs == Rest(own))
  {
    hide Entries, Contiguous, Visible;
  }

  /** The state below the base once the log answers itself: the fold from the first
      absorbed record. */
  lemma FilledState(r: Reducer, up: seq<Bytes>, own: Own, idx: nat)
    requires Ready(None, up, own) && 1 <= idx < own.base
    ensures idx <= |up| && OwnStateAt(r, Filled(r.initial, up, own), idx) == FoldAll(r, up[..idx])
  {
    hide *;
    FilledIs(r.initial, up, own);
    var after := Filled(r.initial, up, own);
    FilledContiguous(r.initial, up, own);
    FrontFound(r, after, idx);
    FoldInitial(r, up[..idx]);
    assert up[..own.base - 1][..idx] == up[..idx];
  }

  lemma FoldInitial(r: Reducer, history: seq<Bytes>)
    ensures SegmentOpen(r, r.initial, history) == FoldAll(r, history)
  {
  }

  lemma FilledContiguous(initial: Bytes, up: seq<Bytes>, own: Own)
    requires Ready(None, up, own) && own.base > 1
    ensures Contiguous(Filled(initial, up, own).segs)
  {
    hide *;
    FilledIs(initial, up, own);
    ReadyRest(None, up, own);
    HeadContiguous(Segment(1, initial, up[..own.base - 1]), Rest(own));
  }

  lemma FrontFound(r: Reducer, own: Own, idx: nat)
    requires Contiguous(own.segs) && own.segs != [] && own.segs[0].base == 1 && Holds(own.segs[0], idx)
    ensures idx <= |own.segs[0].entries|
    ensures OwnStateAt(r, own, idx) == SegmentOpen(r, own.segs[0].header, own.segs[0].entries[..idx])
  {
    hide Visible, SegmentOpen, Entries;
    HeldFirst(own.segs, idx);
  }

  /** The first segment is the only one that holds what it holds. */
  lemma {:induction false} HeldFirst(segs: seq<Segment>, idx: nat)
    requires Contiguous(segs) && segs != [] && Holds(segs[0], idx)
    ensures FindSegment(segs, idx) == Some(0)
    decreases |segs|
  {
    var n := |segs| - 1;
    if n > 0 {
      EntriesBase(segs, n);
      EntriesAt(segs[..n], 0);
      hide Entries, Contiguous;
      assert segs[..n][0] == segs[0];
      HeldFirst(segs[..n], idx);
    }
  }

  lemma {:induction false} NoStateAtZero(r: Reducer, line: Line)
    requires LineOk(None, line)
    ensures StateAt(r, line, 0) == None
    decreases line
  {
    match line
    case Top =>
    case Over(parent, own) =>
      hide Visible, SegmentOpen;
      HeldIffVisible(LineVisible(parent), own, 0);
      if parent.Over? {
        NoStateAtZero(r, parent);
      }
  }

  /** Publishing changes a state only below the base, where the parent's answer gives way
      to the fold of the records. */
  lemma FlipState(r: Reducer, line: Line, own: Own, idx: nat)
    requires line.Over? && LineOk(None, line) && Ready(None, LineVisible(line), own)
    ensures own.base - 1 <= |LineVisible(line)|
    ensures var up := LineVisible(line);
            StateAt(r, Over(line, Flipped(Filled(r.initial, up, own))), idx) ==
            if 1 <= idx < own.base then FoldAll(r, up[..idx]) else StateAt(r, Over(line, own), idx)
  {
    hide *;
    var up := LineVisible(line);
    FilledIs(r.initial, up, own);
    AbsorbState(r, r.initial, line, own, idx);
    var after := Filled(r.initial, up, own);
    StateOver(r, line, after, idx);
    StateOver(r, line, Flipped(after), idx);
    FlippedIs(r, after, idx);
    if 1 <= idx < own.base {
      FilledState(r, up, own, idx);
    }
    if idx == 0 {
      NoStateAtZero(r, line);
      StateOver(r, line, own, 0);
    }
    ReadyBase(up, own);
  }

  lemma ReadyBase(up: seq<Bytes>, own: Own)
    requires Ready(None, up, own)
    ensures 1 <= own.base <= |up| + 1
  {
  }

  lemma FlippedIs(r: Reducer, own: Own, idx: nat)
    ensures Flipped(own).base == 1 && OwnStateAt(r, Flipped(own), idx) == OwnStateAt(r, own, idx)
  {
  }

  ghost predicate SameAnswers(r: Reducer, a: Line, b: Line) {
    forall idx: nat :: StateAt(r, a, idx) == StateAt(r, b, idx)
  }

  /** A lineage answers with the fold of its records, below an index. */
  ghost predicate AnswersFold(r: Reducer, line: Line, base: nat) {
    forall idx: nat :: 1 <= idx < base && idx <= |LineVisible(line)| ==>
        StateAt(r, line, idx) == FoldAll(r, LineVisible(line)[..idx])
  }

  /** Detaching keeps every state if and only if the ancestors' states below the base
      were the fold of their records; with headers sound for the reducer they are. */
  lemma DetachStateExact(r: Reducer, line: Line, own: Own)
    requires line.Over? && LineOk(None, line) && Ready(None, LineVisible(line), own)
    ensures SameAnswers(r, Over(line, Flipped(Filled(r.initial, LineVisible(line), own))), Over(line, own)) <==>
            AnswersFold(r, line, own.base)
    ensures BlankSafe(r) && LineOk(Some(r), line) ==> AnswersFold(r, line, own.base)
  {
    hide BlankSafe, LineOk, LineVisible, Ready, Filled, Flipped, FoldAll, StateAt;
    var after := Flipped(Filled(r.initial, LineVisible(line), own));
    ReadyBase(LineVisible(line), own);
    if SameAnswers(r, Over(line, after), Over(line, own)) {
      forall idx: nat | 1 <= idx < own.base ensures StateAt(r, line, idx) == FoldAll(r, LineVisible(line)[..idx]) {
        FlipState(r, line, own, idx);
        StateOver(r, line, own, idx);
      }
    }
    if AnswersFold(r, line, own.base) {
      forall idx: nat ensures StateAt(r, Over(line, after), idx) == StateAt(r, Over(line, own), idx) {
        FlipState(r, line, own, idx);
        StateOver(r, line, own, idx);
      }
    }
    if BlankSafe(r) && LineOk(Some(r), line) {
      forall idx: nat | 1 <= idx < own.base && idx <= |LineVisible(line)|
        ensures StateAt(r, line, idx) == FoldAll(r, LineVisible(line)[..idx])
      {
        StateAtIsFold(r, line, idx);
      }
    }
  }

  /** How many of these logs have something to absorb. */
  function Nested(owns: seq<Own>): nat {
    if owns == [] then 0 else Nested(owns[..|owns| - 1]) + if owns[|owns| - 1].base > 1 then 1 else 0
  }

  lemma NestedNone(owns: seq<Own>)
    ensures Nested(owns[..0]) == 0
  {
  }

  lemma NestedOne(owns: seq<Own>, i: nat)
    requires i < |owns|
    ensures Nested(owns[..i + 1]) == Nested(owns[..i]) + if owns[i].base > 1 then 1 else 0
  {
    assert owns[..i + 1][..i] == owns[..i];
  }

  /** A node in every channel it has a directory in, and the parent its marker
      names. An empty `from` names the root, whose records `roots` shows. A reducible
      channel may have been given no initial state. */
  class Node {
    const modes: seq<Option<Reducer>>
    const inits: seq<Option<Bytes>>
    const ups: seq<seq<Bytes>>
    const roots: seq<seq<Bytes>>
    ghost const upLines: seq<Line>     // the lineages that show `ups` and `roots`
    ghost const rootLines: seq<Line>
    var owns: seq<Own>
    var from: string

    ghost predicate Sized()
      reads this
    {
      |modes| == |inits| == |ups| == |roots| == |owns| == |upLines| == |rootLines|
    }

    function Seen(i: nat): seq<Bytes>
      requires i < |ups| == |roots|
      reads this
    {
      if from == "" then roots[i] else ups[i]
    }

    /** A reducible channel without an initial state. */
    predicate Nil(i: nat)
      requires i < |modes| == |inits|
    {
      modes[i].Some? && inits[i].None?
    }

    ghost predicate Valid()
      reads this
    {
      && Sized()
      && (forall i :: 0 <= i < |owns| && !Nil(i) ==>
            LineOk(modes[i], upLines[i]) && LineVisible(upLines[i]) == ups[i])
      && (forall i :: 0 <= i < |owns| && !Nil(i) ==>
            LineOk(modes[i], rootLines[i]) && LineVisible(rootLines[i]) == roots[i])
      && (forall i :: 0 <= i < |owns| && inits[i].Some? ==> modes[i].Some? && inits[i].value == modes[i].value.initial)
      && forall i :: 0 <= i < |owns| && !Nil(i) ==> Ready(modes[i], Seen(i), owns[i])
    }

    /** The node's history in one channel. */
    ghost function Shown(i: nat): seq<Bytes>
      requires i < |owns| == |ups| == |roots|
      reads this
    {
      Visible(Seen(i), owns[i])
    }

    /** What a reducible channel answers for the state at an index. */
    ghost function StateOf(i: nat, idx: nat): Option<Bytes>
      requires i < |owns| == |modes| == |upLines| == |rootLines| && modes[i].Some?
      reads this
    {
      StateAt(modes[i].value, Over(if from == "" then rootLines[i] else upLines[i], owns[i]), idx)
    }

    /** A channel with an initial state and a reducer its headers are sound for. */
    ghost predicate Sound(i: nat)
      requires i < |modes| == |inits|
    {
      modes[i].Some? && inits[i].Some? && BlankSafe(modes[i].value)
    }

    /** Every such channel answers with the fold of its history. */
    ghost predicate Folds()
      requires Sized()
      reads this
    {
      forall i: nat, idx: nat :: i < |owns| && Sound(i) ==>
        StateOf(i, idx) == if 1 <= idx <= |Shown(i)| then FoldAll(modes[i].value, Shown(i)[..idx]) else None
    }

    lemma AllFold()
      requires Valid()
      ensures Sized() && Folds()
    {
      hide Ready, Visible, LineVisible, LineOk, FoldAll;
      forall i: nat, idx: nat | i < |owns| && Sound(i)
        ensures StateOf(i, idx) == if 1 <= idx <= |Shown(i)| then FoldAll(modes[i].value, Shown(i)[..idx]) else None
      {
        ReadyOwn(modes[i], Seen(i), owns[i]);
        LineFrom(modes[i], if from == "" then rootLines[i] else upLines[i], owns[i]);
        StateAtIsFold(modes[i].value, Over(if from == "" then rootLines[i] else upLines[i], owns[i]), idx);
      }
    }

    /** Every history that does not lack an initial state is as it was. */
    twostate predicate Unchanged()
      requires old(Sized()) && Sized()
      reads this
    {
      |owns| == old(|owns|) && forall k: nat :: k < |owns| && !Nil(k) ==> Shown(k) == old(Shown(k))
    }

    /** Replace one channel's files; those of a channel with its initial state by others
        that show the same records. */
    method Put(i: nat, own: Own)
      requires Valid() && i < |owns|
      requires !Nil(i) ==> Ready(modes[i], Seen(i), own) && Visible(Seen(i), own) == Shown(i)
      modifies this`owns
      ensures Valid() && owns == old(owns)[i := own] && Unchanged()
    {
      hide Ready, Visible, LineOk, LineVisible;
      owns := owns[i := own];
    }

    ghost predicate Settled()
      reads this
    {
      forall i :: 0 <= i < |owns| ==> owns[i].base <= 1
    }

    /** One channel's files once its prefix is absorbed. */
    function Taking(i: nat, own: Own): Own
      requires i < |modes| == |inits| && i < |ups| == |roots|
      reads this
    {
      Absorbed(modes[i].Some?, inits[i], Seen(i), own)
    }

    /** Absorb one channel. */
    method AbsorbOne(i: nat)
      requires Valid() && i < |owns|
      modifies this`owns
      ensures Valid() && Unchanged() && owns == old(owns)[i := old(Taking(i, owns[i]))]
      ensures !Nil(i) ==> First(owns[i]) == 1
      ensures old(owns[i]).base <= 1 ==> owns == old(owns)
    {
      hide Ready, Visible, Absorbed, First, LineOk, LineVisible;
      NothingToTake(modes[i].Some?, inits[i], Seen(i), owns[i]);
      if !Nil(i) {
        AbsorbInvisible(modes[i], inits[i], Seen(i), owns[i]);
      }
      Put(i, Taking(i, owns[i]));
    }

    /** Absorb channel by channel, dying after `budget` of them. */
    method AbsorbAll(budget: nat) returns (left: nat, done: bool, ghost n: nat)
      requires Valid()
      modifies this`owns
      ensures Valid() && Unchanged() && n <= |owns|
      ensures forall k :: 0 <= k < |owns| ==> owns[k] == if k < n then Taking(k, old(owns[k])) else old(owns[k])
      ensures done ==> n == |owns| && left + |owns| >= budget
      ensures left == budget - Nested(old(owns)[..n]) && (!done ==> left == 0 && n < |owns| && old(owns[n]).base > 1)
      ensures done ==> forall k :: 0 <= k < |owns| && !Nil(k) ==> First(owns[k]) == 1
      ensures budget >= |owns| ==> done
      ensures old(Settled()) ==> owns == old(owns)
    {
      hide Ready, Visible, Absorbed, First, LineOk, LineVisible, Shown, Valid, Nested;
      ValidSizes();
      left, done := budget, false;
      ghost var was := owns;
      NestedNone(was);
      var i := 0;
      while i < |owns|
        invariant Sized() && 0 <= i <= |owns| && Valid() && Unchanged() && left + i >= budget
        invariant forall k :: 0 <= k < |owns| ==> owns[k] == if k < i then Taking(k, old(owns[k])) else old(owns[k])
        invariant forall k :: 0 <= k < i && !Nil(k) ==> First(owns[k]) == 1
        invariant old(Settled()) ==> owns == old(owns)
        invariant left == budget - Nested(was[..i]) && was == old(owns)
      {
        NestedOne(was, i);
        if owns[i].base > 1 {
          if left == 0 {
            n := i;
            return;
          }
          left := left - 1;
        }
        AbsorbOne(i);
        i := i + 1;
      }
      done, n := true, i;
    }

    /** Flip one channel. */
    method FlipOne(i: nat)
      requires Valid() && i < |owns| && (!Nil(i) ==> First(owns[i]) == 1)
      modifies this`owns
      ensures Valid() && Unchanged() && owns == old(owns)[i := Flipped(old(owns[i]))] && owns[i].base == 1
      ensures !Nil(i) ==> First(owns[i]) == 1
    {
      hide Ready, Visible, First, Flipped, LineOk, LineVisible;
      FlipFacts(owns[i]);
      if !Nil(i) {
        ReadyOwn(modes[i], Seen(i), owns[i]);
        FlipInvisible(modes[i], Seen(i), owns[i], Seen(i));
      }
      Put(i, Flipped(owns[i]));
    }

    /** Flip channel by channel, dying after `budget` of them. */
    method FlipAll(budget: nat) returns (left: nat, done: bool, ghost n: nat)
      requires Valid() && forall k :: 0 <= k < |owns| && !Nil(k) ==> First(owns[k]) == 1
      modifies this`owns
      ensures Valid() && Unchanged() && n <= |owns|
      ensures forall k :: 0 <= k < |owns| ==> owns[k] == if k < n then Flipped(old(owns[k])) else old(owns[k])
      ensures done ==> n == |owns| && left + |owns| >= budget && Settled()
      ensures left == budget - n && (!done ==> left == 0 && n < |owns|)
      ensures done ==> forall k :: 0 <= k < |owns| && !Nil(k) ==> First(owns[k]) == 1
      ensures budget >= |owns| ==> done
    {
      hide Ready, Visible, First, Flipped, LineOk, LineVisible, Shown, Valid;
      ValidSizes();
      left, done := budget, false;
      var i := 0;
      while i < |owns|
        invariant Sized() && 0 <= i <= |owns| && Valid() && Unchanged() && left + i >= budget
        invariant forall k :: 0 <= k < |owns| ==> owns[k] == if k < i then Flipped(old(owns[k])) else old(owns[k])
        invariant forall k :: 0 <= k < |owns| && !Nil(k) ==> First(owns[k]) == 1
        invariant forall k :: 0 <= k < i ==> owns[k].base == 1
        invariant left == budget - i
      {
        if left == 0 {
          n := i;
          return;
        }
        left := left - 1;
        FlipOne(i);
        i := i + 1;
      }
      done, n := true, i;
    }

    /** Run Detach, dying after `budget` file-system steps. Whatever the budget, the
        node shows the same records, and a sound reducer the same states, in every channel
        that does not lack an initial state; once done it reads none of them through an
        ancestor, and a channel answers as before if and only if it did not lack one or
        had nothing to absorb. A detached node is left as it is. */
    method Detach(budget: nat) returns (done: bool)
      requires Valid()
      modifies this
      ensures Valid() && Unchanged()
      ensures forall i: nat, idx: nat :: i < |owns| && Sound(i) ==> StateOf(i, idx) == old(StateOf(i, idx))
      ensures done ==> from == "" && Settled()
      ensures done ==> forall i: nat :: i < |owns| && Ready(None, old(Seen(i)), old(owns[i])) ==>
                (SameReads(old(Seen(i)), old(owns[i]), Seen(i), owns[i]) <==> !Nil(i) || old(owns[i]).base <= 1)
      ensures budget > 2 * |owns| ==> done
      ensures old(from == "" && Settled()) && (forall i :: 0 <= i < |owns| ==> old(owns[i]).base == 1) ==>
                owns == old(owns) && from == ""
    {
      hide *;
      AllFold();
      ValidSizes();
      done := Steps(budget);
      AllFold();
      ValidSizes();
      SameStates();
      if done {
        KeptReads();
      }
    }

    twostate lemma KeptReads()
      requires Valid() && |owns| == old(|owns|)
      requires forall i: nat :: i < |owns| ==> owns[i] == Flipped(old(Taking(i, owns[i])))
      ensures forall i: nat :: i < |owns| && Ready(None, old(Seen(i)), old(owns[i])) ==>
                (SameReads(old(Seen(i)), old(owns[i]), Seen(i), owns[i]) <==> !Nil(i) || old(owns[i]).base <= 1)
    {
      hide Ready, SameReads, Flipped, Absorbed, LineOk, LineVisible;
      forall i: nat | i < |owns| && Ready(None, old(Seen(i)), old(owns[i]))
        ensures (SameReads(old(Seen(i)), old(owns[i]), Seen(i), owns[i]) <==> !Nil(i) || old(owns[i]).base <= 1)
      {
        NilMeans(i);
        DetachKeepsIff(modes[i].Some?, inits[i], old(Seen(i)), old(owns[i]), Seen(i));
      }
    }

    lemma NilMeans(i: nat)
      requires Valid() && i < |owns|
      ensures Nil(i) <==> modes[i].Some? && inits[i].None?
      ensures inits[i].Some? ==> modes[i].Some?
    {
    }

    lemma ValidSizes()
      requires Valid()
      ensures |modes| == |inits| == |ups| == |roots| == |owns| == |upLines| == |rootLines|
    {
    }

    /** Channels that fold the same history answer alike. */
    twostate lemma SameStates()
      requires old(Sized()) && Sized() && Unchanged() && old(Folds()) && Folds()
      ensures forall i: nat, idx: nat :: i < |owns| && Sound(i) ==> StateOf(i, idx) == old(StateOf(i, idx))
    {
      hide Shown, StateOf, FoldAll, BlankSafe;
    }

    method Steps(budget: nat) returns (done: bool)
      requires Valid()
      modifies this
      ensures Valid() && Unchanged()
      ensures done ==> from == "" && Settled()
      ensures done ==> forall i: nat :: i < |owns| ==> owns[i] == Flipped(old(Taking(i, owns[i])))
      ensures budget > 2 * |owns| ==> done
      ensures old(from == "" && Settled()) && (forall i :: 0 <= i < |owns| ==> old(owns[i]).base == 1) ==>
                owns == old(owns) && from == ""
    {
      hide Ready, Visible, Absorbed, LineOk, LineVisible, First;
      ghost var n;
      var left, absorbed;
      left, absorbed, n := AbsorbAll(budget);
      if !absorbed {
        return false;
      }
      var rest, flipped;
      ghost var was := owns;
      rest, flipped, n := FlipAll(left);
      forall i | 0 <= i < |owns| && was[i].base == 1 ensures Flipped(was[i]) == was[i] {
      }
      if !flipped || rest == 0 {
        return false;
      }
      forall k | 0 <= k < |owns| && !Nil(k)
        ensures Ready(modes[k], roots[k], owns[k]) && Visible(roots[k], owns[k]) == Shown(k)
      {
        ReadyOwn(modes[k], Seen(k), owns[k]);
        assert Flipped(owns[k]) == owns[k];
        FlipInvisible(modes[k], Seen(k), owns[k], roots[k]);
      }
      from := "";
      done := true;
    }
  }

  lemma NothingToTake(headered: bool, initial: Option<Bytes>, up: seq<Bytes>, own: Own)
    ensures own.base <= 1 ==> Absorbed(headered, initial, up, own) == own
    ensures Absorbed(headered, initial, up, own).base == own.base
  {
  }

  lemma FlipFacts(own: Own)
    ensures (First(own) == 1 ==> First(Flipped(own)) == 1) && Flipped(own).base == 1
    ensures own.base == 1 ==> Flipped(own) == own
  {
  }

  lemma ReadyOwn(mode: Option<Reducer>, up: seq<Bytes>, own: Own)
    requires Ready(mode, up, own)
    ensures OwnOk(mode, up, own)
  {
  }

  lemma AbsorbRoot(mode: Option<Reducer>, up: seq<Bytes>, own: Own)
    requires Ready(mode, up, own)
    ensures own.base >= 1 && (own.base == 1 ==> First(own) == 1)
  {
  }
}
