/**
 The disk log as an object: sealed segments, an active one, and a parent that
 answers below the fork base. Reads are proved against the lineage's plain history,
 `Shown()`; writes and forks are proved to be the steps of the directory tree.
 */
module DiskLog {
  import opened Basics
  import opened Lineage
  import opened NodeLog
  import opened ForkTree

  datatype WriteResult = Landed | ReadOnly | OutOfOrder | PayloadTooLarge | HeaderFailed

  function LastIndexOf(s: Segment): int {
    s.base + |s.entries| - 1
  }

  /** Records numbered from `from`, up to but excluding `limit`. */
  function Numbered(v: seq<Bytes>, from: nat, limit: nat): seq<(nat, Bytes)> {
    var lo := if from < 1 then 1 else from;
    var hi := if limit <= |v| then limit else |v| + 1;
    if lo < hi then seq(hi - lo, k requires 0 <= k < hi - lo => (lo + k, v[lo + k - 1])) else []
  }

  lemma NumberedStep(v: seq<Bytes>, from: nat, k: nat)
    requires from <= k && 1 <= k <= |v|
    ensures Numbered(v, from, k + 1) == Numbered(v, from, k) + [(k, v[k - 1])]
  {
  }

  lemma NumberedBelow(v: seq<Bytes>, up: seq<Bytes>, from: nat, limit: nat)
    requires 1 <= limit <= |v| + 1 && limit <= |up| + 1 && v[..limit - 1] == up[..limit - 1]
    ensures Numbered(up, from, limit) == Numbered(v, from, limit)
  {
    assert forall k :: 0 <= k < limit - 1 ==> v[k] == v[..limit - 1][k] == up[..limit - 1][k] == up[k];
  }

  /** Bases and ends grow along a contiguous list of non-empty segments. */
  lemma {:induction false} EndsGrow(segs: seq<Segment>, i: nat, j: nat)
    requires Contiguous(segs) && Full(segs) && i < j < |segs|
    ensures segs[i].base + |segs[i].entries| <= segs[j].base
    decreases |segs|
  {
    var n := |segs| - 1;
    if j < n {
      EndsGrow(segs[..n], i, j);
    } else {
      EntriesAt(segs[..n], i);
    }
  }

  lemma HolderUnique(segs: seq<Segment>, i: nat, idx: nat)
    requires Contiguous(segs) && i < |segs| && Holds(segs[i], idx)
    ensures FindSegment(segs, idx) == Some(i)
  {
    hide Contiguous;
    var f := FindSegment(segs, idx).value;
    if f != i {
      HeldOnce(segs, if f < i then f else i, if f < i then i else f, idx);
    }
  }

  lemma HeldOnce(segs: seq<Segment>, i: nat, j: nat, idx: nat)
    requires Contiguous(segs) && i < j < |segs|
    ensures !(Holds(segs[i], idx) && Holds(segs[j], idx))
  {
    EntriesBase(segs, j);
    hide Contiguous, Entries;
    EntriesAt(segs[..j], i);
    assert segs[..j][i] == segs[i];
  }

  /** Binary search for the first sealed segment that ends at or after `idx`. */
  method SearchSealed(sealed: seq<Segment>, idx: nat) returns (k: nat)
    requires Contiguous(sealed) && Full(sealed)
    ensures k <= |sealed|
    ensures forall i :: 0 <= i < k ==> LastIndexOf(sealed[i]) < idx
    ensures forall i :: k <= i < |sealed| ==> LastIndexOf(sealed[i]) >= idx
  {
    var lo, hi := 0, |sealed|;
    while lo < hi
      invariant 0 <= lo <= hi <= |sealed|
      invariant forall i :: 0 <= i < lo ==> LastIndexOf(sealed[i]) < idx
      invariant forall i :: hi <= i < |sealed| ==> LastIndexOf(sealed[i]) >= idx
    {
      var mid := (lo + hi) / 2;
      if LastIndexOf(sealed[mid]) >= idx {
        forall i | mid <= i < hi ensures LastIndexOf(sealed[i]) >= idx {
          if mid < i { EndsGrow(sealed, mid, i); }
        }
        hi := mid;
      } else {
        forall i | lo <= i <= mid ensures LastIndexOf(sealed[i]) < idx {
          if i < mid { EndsGrow(sealed, i, mid); }
        }
        lo := mid + 1;
      }
    }
    k := lo;
  }

  function Joined(sealed: seq<Segment>, active: Option<Segment>): seq<Segment> {
    sealed + (if active.Some? then [active.value] else [])
  }

  lemma JoinedOne(sealed: seq<Segment>, seg: Segment)
    ensures Joined(sealed, Some(seg)) == Joined(sealed, None) + [seg]
    ensures Joined(sealed + [seg], None) == Joined(sealed, Some(seg)) == sealed + [seg]
  {
  }

  lemma NoneFull()
    ensures Full([])
  {
  }

  lemma JoinedNone(sealed: seq<Segment>)
    ensures Joined(sealed, None) == sealed
  {
  }

  lemma FullOne(sealed: seq<Segment>, seg: Segment)
    requires Full(sealed) && seg.entries != []
    ensures Full(sealed + [seg])
  {
  }

  lemma SealedShape(sealed: seq<Segment>, active: Option<Segment>)
    requires Contiguous(Joined(sealed, active))
    ensures Contiguous(sealed)
    ensures active.Some? && sealed != [] ==> active.value.base == sealed[0].base + |Entries(sealed)|
  {
    if active.Some? {
      assert Joined(sealed, active)[..|sealed|] == sealed;
    } else {
      assert Joined(sealed, active) == sealed;
    }
  }

  /** Route an index to its segment: the sealed list by binary search, then the
      active segment. */
  method Route(sealed: seq<Segment>, active: Option<Segment>, idx: nat) returns (r: Option<Segment>)
    requires Contiguous(Joined(sealed, active)) && Full(sealed)
    ensures r == match FindSegment(Joined(sealed, active), idx)
                 case None => None
                 case Some(i) => Some(Joined(sealed, active)[i])
    ensures r.Some? ==> r.value.base <= idx < r.value.base + |r.value.entries|
  {
    hide Contiguous, Entries;
    ghost var segs := Joined(sealed, active);
    SealedShape(sealed, active);
    var k := SearchSealed(sealed, idx);
    if k < |sealed| && idx >= sealed[k].base {
      HolderUnique(segs, k, idx);
      return Some(sealed[k]);
    }
    if active.Some? && active.value.entries != [] && active.value.base <= idx <= LastIndexOf(active.value) {
      HolderUnique(segs, |sealed|, idx);
      return active;
    }
    forall i | 0 <= i < |segs| ensures !Holds(segs[i], idx) {
      if k < i < |sealed| {
        EndsGrow(sealed, k, i);
      }
    }
    return None;
  }

  lemma EmptyShown(up: seq<Bytes>, own: Own)
    requires Shaped(up, own) && (own.segs == [] || (|own.segs| == 1 && own.segs[0].entries == []))
    ensures |Visible(up, own)| == own.base - 1
  {
    if own.segs != [] {
      SingleEntries(own.segs[0]);
      assert own.segs == [own.segs[0]];
    }
  }

  /** The last non-empty segment ends the history. */
  lemma LastShown(up: seq<Bytes>, sealed: seq<Segment>, active: Option<Segment>, own: Own)
    requires own.segs == Joined(sealed, active) && Shaped(up, own) && Full(sealed)
    requires sealed != [] || (active.Some? && active.value.entries != [])
    ensures |Visible(up, own)| ==
            LastIndexOf(if active.Some? && active.value.entries != [] then active.value else sealed[|sealed| - 1])
  {
    hide Visible, Contiguous, Entries;
    VisibleSegment(up, own, |own.segs| - 1);
    if active.Some? && active.value.entries == [] {
      SealedShape(sealed, active);
      EntriesAt(sealed, |sealed| - 1);
    }
  }

  /** The index the next write must carry: after the last record, or the first
      index the log owns. */
  function NextIndex(base: nat, sealed: seq<Segment>, active: Option<Segment>): int {
    if sealed == [] && (active.None? || active.value.entries == []) then base
    else LastIndexOf(if active.Some? && active.value.entries != [] then active.value else sealed[|sealed| - 1]) + 1
  }

  lemma NextAfter(up: seq<Bytes>, own: Own, sealed: seq<Segment>, active: Option<Segment>)
    requires own.segs == Joined(sealed, active) && Shaped(up, own) && Full(sealed)
    ensures NextIndex(own.base, sealed, active) == |Visible(up, own)| + 1
  {
    hide Visible, Contiguous, Entries, Shaped, Full;
    if sealed == [] && (active.None? || active.value.entries == []) {
      EmptyShown(up, own);
    } else {
      LastShown(up, sealed, active, own);
    }
  }

  function Bound(cur: nat, limit: nat): nat {
    if cur < limit then cur else limit
  }

  lemma BoundRange(cur: nat, limit: nat)
    ensures Bound(cur, limit) <= cur && Bound(cur, limit) <= limit
    ensures Bound(cur, limit) == cur || Bound(cur, limit) == limit
  {
  }

  lemma NumberedNone(v: seq<Bytes>, from: nat, limit: nat)
    ensures Numbered(v, from, Bound(from, limit)) == []
  {
  }

  lemma NumberedAll(v: seq<Bytes>, from: nat, cur: nat, limit: nat)
    requires cur > |v|
    ensures Numbered(v, from, Bound(cur, limit)) == Numbered(v, from, limit)
  {
  }

  /** A segment's entries are the records its numbers stand for. */
  ghost predicate ShownBy(v: seq<Bytes>, s: Segment) {
    forall k :: 0 <= k < |s.entries| ==> 1 <= s.base + k <= |v| && s.entries[k] == v[s.base + k - 1]
  }

  lemma SegmentShown(up: seq<Bytes>, own: Own, k: nat)
    requires Shaped(up, own) && k < |own.segs|
    ensures ShownBy(Visible(up, own), own.segs[k])
  {
    hide Visible, Shaped;
    VisibleSegment(up, own, k);
    ShownFrom(Visible(up, own), own.segs[k]);
  }

  lemma ShownFrom(v: seq<Bytes>, s: Segment)
    requires 1 <= s.base && s.base - 1 + |s.entries| <= |v| && v[s.base - 1..][..|s.entries|] == s.entries
    ensures ShownBy(v, s)
  {
    forall k | 0 <= k < |s.entries| ensures s.entries[k] == v[s.base + k - 1] {
      assert s.entries[k] == v[s.base - 1..][..|s.entries|][k];
    }
  }

  lemma RoutedShown(up: seq<Bytes>, own: Own, idx: nat)
    requires Shaped(up, own) && own.segs != [] && First(own) <= idx <= |Visible(up, own)|
    ensures FindSegment(own.segs, idx).Some? && ShownBy(Visible(up, own), own.segs[FindSegment(own.segs, idx).value])
  {
    hide Visible, Shaped, ShownBy;
    HeldIffVisible(up, own, idx);
    SegmentShown(up, own, FindSegment(own.segs, idx).value);
  }

  lemma FirstFacts(up: seq<Bytes>, own: Own)
    requires Shaped(up, own)
    ensures Contiguous(own.segs) && 1 <= First(own) <= own.base && (own.segs != [] ==> First(own) == own.segs[0].base)
  {
  }

  lemma LastIs(s: Segment)
    ensures LastIndexOf(s) == s.base + |s.entries| - 1
  {
  }

  lemma JoinedSome(sealed: seq<Segment>, active: Option<Segment>)
    ensures Joined(sealed, active) == [] <==> sealed == [] && active.None?
    ensures |Joined(sealed, active)| == |sealed| + if active.Some? then 1 else 0
    ensures sealed == [] && active.Some? ==> Joined(sealed, active) == [active.value]
  {
  }

  /** One segment of the walk; `full` when the limit is reached. */
  method VisitSegment(ghost v: seq<Bytes>, ghost from: nat, limit: nat, s: Segment, cur: nat, segEnd: int,
                      below: seq<(nat, Bytes)>)
    returns (out: seq<(nat, Bytes)>, full: bool)
    requires ShownBy(v, s) && s.base <= cur <= segEnd + 1 && segEnd < s.base + |s.entries| && from <= cur
    requires below == Numbered(v, from, Bound(cur, limit))
    ensures full ==> out == Numbered(v, from, limit)
    ensures !full ==> out == Numbered(v, from, Bound(segEnd + 1, limit))
  {
    hide Numbered;
    out := below;
    var i := cur;
    while i <= segEnd
      invariant cur <= i <= segEnd + 1
      invariant out == Numbered(v, from, Bound(i, limit))
    {
      if i >= limit {
        return out, true;
      }
      var payload := s.entries[i - s.base];
      NumberedStep(v, from, i);
      out := out + [(i, payload)];
      i := i + 1;
    }
    return out, false;
  }

  /** The part of Range that walks a log's own segments, one after another. */
  method VisitOwn(ghost up: seq<Bytes>, ghost own: Own, sealed: seq<Segment>, active: Option<Segment>,
                  ghost from: nat, limit: nat, start: nat, below: seq<(nat, Bytes)>)
    returns (out: seq<(nat, Bytes)>)
    requires own.segs == Joined(sealed, active) && Shaped(up, own) && Full(sealed)
    requires from <= start && (own.base <= start || own.base == 1)
    requires below == Numbered(Visible(up, own), from, Bound(start, limit))
    ensures out == Numbered(Visible(up, own), from, limit)
  {
    hide *;
    ghost var v := Visible(up, own);
    out := below;
    FirstFacts(up, own);
    JoinedSome(sealed, active);
    if sealed == [] && (active.None? || active.value.entries == []) {
      EmptyShown(up, own);
      NumberedEmptyOwn(v, from, start, limit);
      return;
    }
    var first := Joined(sealed, active)[0].base;
    var last := LastIndexOf(if active.Some? && active.value.entries != [] then active.value else sealed[|sealed| - 1]);
    LastShown(up, sealed, active, own);
    var cur := if start < first then first else start;
    NumberedFirst(v, from, start, cur, limit);
    while cur <= last
      invariant first <= cur && from <= cur
      invariant out == Numbered(v, from, Bound(cur, limit))
    {
      RoutedShown(up, own, cur);
      var s := Route(sealed, active, cur);
      LastIs(s.value);
      var segEnd := if LastIndexOf(s.value) > last then last else LastIndexOf(s.value);
      var full;
      out, full := VisitSegment(v, from, limit, s.value, cur, segEnd, out);
      if full {
        return;
      }
      cur := segEnd + 1;
    }
    NumberedAll(v, from, cur, limit);
  }

  lemma NumberedEmptyOwn(v: seq<Bytes>, from: nat, start: nat, limit: nat)
    requires from <= start && (|v| < start || |v| == 0)
    ensures Numbered(v, from, Bound(start, limit)) == Numbered(v, from, limit)
  {
  }

  lemma NumberedFirst(v: seq<Bytes>, from: nat, start: nat, cur: nat, limit: nat)
    requires from <= start && (cur == start || (start < 1 && cur == 1))
    ensures Numbered(v, from, Bound(cur, limit)) == Numbered(v, from, Bound(start, limit))
  {
  }

  // ---- forking ----

  /** Classify every segment against the fork index: keep it, move it, or split it
      into a kept prefix and a moved suffix that starts from the fork watermark. */
  method Partition(segs: seq<Segment>, at: nat, watermark: Bytes)
    returns (kept: seq<Segment>, moved: seq<Segment>, boundary: bool)
    ensures kept == Kept(segs, at) && moved == Moved(segs, at, watermark)
    ensures boundary == HasBoundary(segs, at)
  {
    kept, moved, boundary := [], [], false;
    var i := 0;
    while i < |segs|
      invariant 0 <= i <= |segs|
      invariant kept == Kept(segs[..i], at) && moved == Moved(segs[..i], at, watermark)
      invariant boundary == HasBoundary(segs[..i], at)
    {
      var s := segs[i];
      assert segs[..i + 1][..i] == segs[..i];
      if s.base + |s.entries| - 1 < at {
        kept := kept + [s];
      } else if s.base >= at {
        moved := moved + [s];
        boundary := boundary || s.base == at;
      } else {
        kept := kept + [s.(entries := s.entries[..at - s.base])];
        moved := moved + [Segment(at, watermark, s.entries[at - s.base..])];
        boundary := true;
      }
      i := i + 1;
    }
    assert segs[..|segs|] == segs;
  }

  /** The children listing shows leave for the old future, one by one. */
  method Rehome(kids: map<string, Dir>) returns (here: map<string, Dir>, gone: map<string, Dir>)
    ensures here == Staying(kids) && gone == Rehomed(kids)
  {
    hide *;
    here, gone := kids, map[];
    var names := kids.Keys;
    while names != {}
      invariant names <= kids.Keys
      invariant forall k :: k in gone <==> k in kids && k !in names && !Hidden(k)
      invariant forall k :: k in gone ==> gone[k] == kids[k]
      invariant forall k :: k in here <==> k in kids && (k in names || Hidden(k))
      invariant forall k :: k in here ==> here[k] == kids[k]
      decreases |names|
    {
      var k :| k in names;
      names := names - {k};
      if !Hidden(k) {
        gone := gone[k := kids[k]];
        here := here - {k};
      }
    }
    forall k ensures (k in here <==> k in Staying(kids)) && (k in here ==> here[k] == Staying(kids)[k]) {
      KidsSplit(kids, k);
    }
    forall k ensures (k in gone <==> k in Rehomed(kids)) && (k in gone ==> gone[k] == Rehomed(kids)[k]) {
      KidsSplit(kids, k);
    }
    assert here == Staying(kids) && gone == Rehomed(kids);
  }

  /** The subdirectories after a fork: re-homed children leave, the child and the
      old future arrive. */
  method MoveKids(ghost kept: Own, kids: map<string, Dir>, child: string, sprout: Own, oldFuture: string, future: Own,
                  moves: bool, named: bool)
    returns (after: map<string, Dir>)
    ensures Arrange(kept, sprout, future, kids, child, oldFuture, moves, named) == Dir(kept, after)
  {
    hide Staying, Rehomed;
    var rehomed: map<string, Dir>;
    if moves {
      after, rehomed := Rehome(kids);
    } else {
      after, rehomed := kids, map[];
    }
    after := after[child := Dir(sprout, map[])];
    if named || moves {
      after := after[oldFuture := Dir(future, rehomed)];
    }
  }

  lemma EmptyEntries(sealed: seq<Segment>, active: Option<Segment>)
    requires Full(sealed)
    ensures Entries(Joined(sealed, active)) == [] <==> sealed == [] && (active.None? || active.value.entries == [])
  {
    if sealed != [] {
      NonEmpty(sealed);
      EntriesSplit(Joined(sealed, active), |sealed|);
      assert Joined(sealed, active)[..|sealed|] == sealed;
    } else if active.Some? {
      SingleEntries(active.value);
      assert Joined(sealed, active) == [active.value];
    }
  }

  lemma ActiveFull(sealed: seq<Segment>, active: Option<Segment>)
    requires Full(Joined(sealed, active))
    ensures active.Some? ==> active.value.entries != []
  {
    assert active.Some? ==> Joined(sealed, active)[|sealed|] == active.value;
  }

  /** What is left to a fork once the active segment is sealed. */
  lemma AllSealed(own: Own, sealed: seq<Segment>, active: Option<Segment>)
    requires own.segs == Joined(sealed, active) && Full(sealed) && Settled(own)
    requires active.Some? ==> active.value.entries == []
    ensures sealed == if Entries(own.segs) == [] then [] else own.segs
  {
    hide Entries;
    EmptyEntries(sealed, active);
    if Entries(own.segs) != [] {
      ActiveFull(sealed, active);
      JoinedNone(sealed);
    }
  }

  /** What the partition of the sealed segments amounts to, for any node a fork accepts. */
  lemma PartitionMeans(headered: bool, mode: Option<Reducer>, up: seq<Bytes>, own: Own,
                       sealed: seq<Segment>, active: Option<Segment>, at: nat, w: Bytes)
    requires NodeOk(mode, up, own) && own.segs == Joined(sealed, active) && Full(sealed) && Settled(own)
    requires active.Some? ==> active.value.entries == []
    requires if Entries(own.segs) == [] then at == own.base else own.base <= at <= End(own)
    ensures Moved(sealed, at, w) != [] <==> DataMoves(own, at)
    ensures FutureSegs(headered, own, at, w) ==
            (if HasBoundary(sealed, at) then [] else Seed(headered, at, w)) + Moved(sealed, at, w)
    ensures Full(Kept(sealed, at))
    ensures KeptOwn(own, at) == if Entries(own.segs) == [] then own else Own(own.base, Kept(sealed, at))
    ensures Entries(own.segs) == [] ==> Kept(sealed, at) == []
  {
    hide *;
    AllSealed(own, sealed, active);
    NodeVisible(mode, up, own);
    NodeParts(mode, up, own);
    PartitionParts(headered, own, sealed, at, w);
    MovesIff(own, at);
    if Entries(own.segs) != [] {
      SettledFull(own);
      CutHalves(own, at, w);
      HalvesMean(own, at, Kept(sealed, at), Moved(sealed, at, w));
    } else {
      NoneFull();
    }
  }

  lemma MovesIff(own: Own, at: nat)
    ensures DataMoves(own, at) <==> Entries(own.segs) != [] && at < End(own)
  {
    hide Entries, End;
  }

  lemma PartitionParts(headered: bool, own: Own, sealed: seq<Segment>, at: nat, w: Bytes)
    requires sealed == if Entries(own.segs) == [] then [] else own.segs
    ensures FutureSegs(headered, own, at, w) ==
            (if HasBoundary(sealed, at) then [] else Seed(headered, at, w)) + Moved(sealed, at, w)
    ensures KeptOwn(own, at) == if Entries(own.segs) == [] then own else Own(own.base, Kept(sealed, at))
    ensures Entries(own.segs) == [] ==> Kept(sealed, at) == [] && Moved(sealed, at, w) == []
  {
    hide Entries;
  }

  /** The fork index against the fields. */
  predicate IndexFits(forkBase: nat, sealed: seq<Segment>, active: Option<Segment>, at: nat) {
    if sealed == [] && (active.None? || active.value.entries == [])
    then at == if forkBase == 0 then 1 else forkBase
    else
      var first := Joined(sealed, active)[0].base;
      (at > first || (forkBase > 0 && at == first)) && at <= NextIndex(0, sealed, active)
  }

  lemma IndexMeans(mode: Option<Reducer>, up: seq<Bytes>, own: Own, forkBase: nat, sealed: seq<Segment>,
                   active: Option<Segment>, at: nat)
    requires NodeOk(mode, up, own) && own.segs == Joined(sealed, active) && Full(sealed)
    requires own.base == if forkBase == 0 then 1 else forkBase
    ensures IndexFits(forkBase, sealed, active, at) <==> IndexAllowed(own, forkBase == 0, at)
    ensures IndexAllowed(own, forkBase == 0, at) ==>
              && 1 <= at <= |Visible(up, own)| + 1
              && (if Entries(own.segs) == [] then at == own.base else own.base <= at <= End(own))
  {
    hide *;
    NodeVisible(mode, up, own);
    NodeParts(mode, up, own);
    EmptyEntries(sealed, active);
    JoinedSome(sealed, active);
    NextAfter(up, own, sealed, active);
    IndexIs(own, forkBase, sealed, active, at);
    NoEntriesOf(Own(own.base, []));
  }

  lemma IndexIs(own: Own, forkBase: nat, sealed: seq<Segment>, active: Option<Segment>, at: nat)
    requires own.segs == Joined(sealed, active)
    ensures IndexAllowed(own, forkBase == 0, at) <==>
            if Entries(own.segs) == [] then at == own.base
            else (First(own) < at || (forkBase != 0 && at == First(own))) && at <= End(own)
    ensures sealed == [] && (active.None? || active.value.entries == []) ==>
              (IndexFits(forkBase, sealed, active, at) <==> at == if forkBase == 0 then 1 else forkBase)
    ensures !(sealed == [] && (active.None? || active.value.entries == [])) ==>
              && own.segs != [] && NextIndex(0, sealed, active) == NextIndex(own.base, sealed, active)
              && (IndexFits(forkBase, sealed, active, at) <==>
                  (at > own.segs[0].base || (forkBase > 0 && at == own.segs[0].base))
                      && at <= NextIndex(0, sealed, active))
  {
    hide Entries, End;
  }

  /** The checks Fork makes first, on the fields it reads and the names on disk. */
  predicate Admissible(forkBase: nat, sealed: seq<Segment>, active: Option<Segment>, ext: string, d: Dir,
                       at: nat, child: string, oldFuture: string) {
    && ValidName(child) && ValidName(oldFuture) && child != oldFuture
    && IndexFits(forkBase, sealed, active, at)
    && !Taken(ext, d, forkBase == 0, child)
  }

  lemma AdmissibleMeans(mode: Option<Reducer>, up: seq<Bytes>, own: Own, ext: string, d: Dir, forkBase: nat,
                        sealed: seq<Segment>,
                        active: Option<Segment>, at: nat, child: string, oldFuture: string, named: bool)
    requires NodeOk(mode, up, own) && own.segs == Joined(sealed, active) && Full(sealed)
    requires own.base == d.own.base == if forkBase == 0 then 1 else forkBase
    requires d.own == own || (Entries(own.segs) == [] && Entries(d.own.segs) == [])
    ensures Admissible(forkBase, sealed, active, ext, d, at, child, oldFuture) &&
            (CreatesOld(d.own, at, named) ==> !Taken(ext, d, forkBase == 0, oldFuture))
            <==> ForkAllowed(ext, d, forkBase == 0, at, child, oldFuture, named)
    ensures Admissible(forkBase, sealed, active, ext, d, at, child, oldFuture) ==>
              && 1 <= at <= |Visible(up, own)| + 1 && child != oldFuture && !Taken(ext, d, forkBase == 0, child)
              && (if Entries(own.segs) == [] then at == own.base else own.base <= at <= End(own))
  {
    hide *;
    IndexMeans(mode, up, own, forkBase, sealed, active, at);
    SameIndex(own, d.own, forkBase == 0, at);
    AllowedIs(forkBase, sealed, active, ext, d, at, child, oldFuture, named);
  }

  lemma SameIndex(own: Own, disk: Own, isRoot: bool, at: nat)
    requires own.base == disk.base && (disk == own || (Entries(own.segs) == [] && Entries(disk.segs) == []))
    ensures IndexAllowed(own, isRoot, at) <==> IndexAllowed(disk, isRoot, at)
  {
    hide Entries, End;
  }

  lemma AllowedIs(forkBase: nat, sealed: seq<Segment>, active: Option<Segment>, ext: string, d: Dir,
                  at: nat, child: string, oldFuture: string, named: bool)
    ensures Admissible(forkBase, sealed, active, ext, d, at, child, oldFuture) <==>
            && ValidName(child) && ValidName(oldFuture) && child != oldFuture
            && IndexFits(forkBase, sealed, active, at) && !Taken(ext, d, forkBase == 0, child)
    ensures ForkAllowed(ext, d, forkBase == 0, at, child, oldFuture, named) <==>
            && ValidName(child) && ValidName(oldFuture) && child != oldFuture
            && IndexAllowed(d.own, forkBase == 0, at) && !Taken(ext, d, forkBase == 0, child)
            && (CreatesOld(d.own, at, named) ==> !Taken(ext, d, forkBase == 0, oldFuture))
  {
    hide ValidName, IndexFits, IndexAllowed, Taken, CreatesOld;
  }

  lemma TightJoined(sealed: seq<Segment>, active: Option<Segment>)
    requires Full(sealed)
    ensures Tight(Joined(sealed, active))
  {
  }

  /** A list of segments, opened: the newest is active. */
  lemma Reloaded(segs: seq<Segment>)
    requires Tight(segs)
    ensures segs == [] ==> Joined([], None) == segs && Full([])
    ensures segs != [] ==> Joined(segs[..|segs| - 1], Some(segs[|segs| - 1])) == segs && Full(segs[..|segs| - 1])
  {
  }

  class Log {
    const name: string
    const mode: Option<Reducer>
    const segmentSize: nat
    const ext: string
    const parent: Log?
    const forkBase: nat          // 0 for a root
    ghost const ancestors: set<Log>
    var sealed: seq<Segment>
    var active: Option<Segment>
    var readOnly: bool
    var kids: map<string, Dir>   // subdirectories: the logs forked from this one
    var left: Option<Segment>    // a header-only segment file this handle has let go of

    // ---- what the log stands for ----

    ghost predicate Linked()
      decreases ancestors
    {
      && (parent == null <==> ancestors == {})
      && (parent == null <==> forkBase == 0)
      && this !in ancestors
      && (parent != null ==>
            parent !in parent.ancestors && ancestors == parent.ancestors + {parent} && parent.mode == mode
                && parent.Linked())
    }

    function Opts(): Options {
      Options(mode, segmentSize, ext)
    }

    function Segs(): seq<Segment>
      reads this
    {
      Joined(sealed, active)
    }

    function OwnLog(): Own
      reads this
    {
      Own(if forkBase == 0 then 1 else forkBase, Segs())
    }

    /** The log's own files, the one let go of included. */
    function DiskOwn(): Own
      reads this
    {
      if left.Some? then Own(OwnLog().base, [left.value]) else OwnLog()
    }

    function OnDisk(): Dir
      reads this
    {
      Dir(DiskOwn(), kids)
    }

    ghost function Line(): Line
      requires Linked()
      reads this, ancestors
      decreases ancestors
    {
      Over(if parent == null then Top else parent.Line(), OwnLog())
    }

    ghost function UpLine(): Line
      requires Linked()
      reads ancestors
    {
      if parent == null then Top else parent.Line()
    }

    /** What the ancestors show. */
    ghost function Up(): seq<Bytes>
      requires Linked()
      reads ancestors
    {
      if parent == null then [] else LineVisible(parent.Line())
    }

    /** The history this log shows. */
    ghost function Shown(): seq<Bytes>
      requires Linked()
      reads this, ancestors
    {
      LineVisible(Line())
    }

    ghost function Tracked(): Option<Reducer> {
      NodeLog.Tracked(mode)
    }

    /** A file let go of holds no record, and its handle writes nothing more. */
    ghost predicate LeftOk()
      requires Linked()
      reads this, ancestors
    {
      left.Some? ==>
        && sealed == [] && active.None? && readOnly && left.value.entries == []
        && NodeOk(Tracked(), Up(), Own(OwnLog().base, [left.value]))
    }

    ghost predicate Valid()
      reads this, ancestors
      decreases ancestors
    {
      && Linked()
      && OwnOk(Tracked(), Up(), OwnLog())
      && Full(sealed)
      && LeftOk()
      && (parent != null ==> parent.Valid())
    }

    /** The log has absorbed nothing, which a fork needs and writes and forks keep. */
    ghost predicate IsNode()
      requires Valid()
      reads this, ancestors
    {
      NodeOk(Tracked(), Up(), OwnLog())
    }

    lemma LineValid()
      requires Valid()
      ensures LineOk(Tracked(), Line())
      decreases ancestors
    {
      if parent != null {
        parent.LineValid();
      }
    }

    lemma Facts()
      requires Valid()
      ensures Linked() && Shaped(Up(), OwnLog()) && Full(sealed) && Shown() == Visible(Up(), OwnLog())
      ensures OwnLog().base == if forkBase == 0 then 1 else forkBase
      ensures parent == null ==> Up() == [] && UpLine() == Top && OwnLog().base == 1
      ensures UpLine().Top? <==> forkBase == 0
      ensures parent != null ==> parent.Valid() && Up() == parent.Shown() && OwnLog().base == forkBase <= |Up()| + 1
      ensures parent != null ==> parent.ancestors < ancestors && UpLine() == parent.Line() && UpLine().Over?
      ensures OwnLog().segs == Joined(sealed, active) && Contiguous(Joined(sealed, active))
      ensures Line() == Over(UpLine(), OwnLog()) && LineVisible(UpLine()) == Up()
    {
    }

    /** The log in its place among its ancestors. */
    lemma Founded()
      requires Valid()
      ensures Under(Tracked(), UpLine(), OwnLog())
    {
      hide OwnOk, LineOk, Full, Visible, LeftOk;
      LineFounded();
      TightJoined(sealed, active);
      Parts();
    }

    lemma LineFounded()
      requires Valid()
      ensures LineOk(Tracked(), UpLine()) && LineVisible(UpLine()) == Up() && (UpLine().Top? ==> OwnLog().base == 1)
    {
      if parent != null {
        parent.LineValid();
      }
    }

    lemma Parts()
      requires Valid()
      ensures OwnOk(Tracked(), Up(), OwnLog()) && Full(sealed) && LeftOk()
    {
    }

    lemma LeftIs()
      requires Linked()
      ensures left.None? ==> LeftOk()
      ensures LeftOk() && !readOnly ==> left.None?
      ensures LeftOk() && left.Some? ==>
                && sealed == [] && active.None? && readOnly && left.value.entries == []
                && NodeOk(Tracked(), Up(), Own(OwnLog().base, [left.value]))
    {
    }

    /** A log with records of its own has let go of nothing. */
    lemma LeftNone()
      requires Valid() && |Shown()| >= OwnLog().base
      ensures left.None?
    {
      hide *;
      Facts();
      Parts();
      LeftIs();
      if left.Some? {
        JoinedSome(sealed, active);
        EmptyShown(Up(), OwnLog());
      }
    }

    lemma NodeIs()
      requires Valid()
      ensures IsNode() <==> NodeOk(Tracked(), Up(), OwnLog())
      ensures IsNode() <==> First(OwnLog()) == OwnLog().base
    {
      hide OwnOk, Visible, LeftOk;
      TightJoined(sealed, active);
    }

    lemma DiskIs()
      ensures OnDisk() == Dir(DiskOwn(), kids) && DiskOwn().base == OwnLog().base
      ensures left.None? ==> DiskOwn() == OwnLog()
      ensures left.Some? ==> DiskOwn() == Own(OwnLog().base, [left.value])
    {
    }

    // ---- reading ----

    method Read(idx: nat) returns (r: Option<Bytes>)
      requires Valid()
      ensures r == if 1 <= idx <= |Shown()| then Some(Shown()[idx - 1]) else None
      decreases ancestors
    {
      hide *;
      Facts();
      if parent != null && idx < forkBase {
        Inherited(Up(), OwnLog(), idx);
        r := parent.Read(idx);
        return;
      }
      OwnRead(Up(), OwnLog(), idx);
      var s := Route(sealed, active, idx);
      if s.None? {
        return None;
      }
      return Some(s.value.entries[idx - s.value.base]);
    }

    /** Visit the records from `from` on, in order, until the visitor refuses one at
        or past `limit`. A fork visits its parent's records below the base first. */
    method Range(from: nat, limit: nat) returns (out: seq<(nat, Bytes)>)
      requires Valid() && limit >= 1
      ensures out == Numbered(Shown(), from, limit)
      decreases ancestors
    {
      hide *;
      Facts();
      ghost var own := OwnLog();
      if parent != null && from < forkBase {
        var stop := Bound(forkBase, limit);
        assert 1 <= stop <= forkBase by { BoundRange(forkBase, limit); }
        Inherited(Up(), own, stop - 1);
        var below := parent.Range(from, stop);
        NumberedBelow(Shown(), Up(), from, stop);
        out := VisitOwn(Up(), own, sealed, active, from, limit, forkBase, below);
      } else {
        NumberedNone(Shown(), from, limit);
        out := VisitOwn(Up(), own, sealed, active, from, limit, from, []);
      }
    }

    // ---- folding ----

    lemma StateLine(idx: nat)
      requires Valid() && mode.Some?
      ensures if parent != null && idx < forkBase
              then parent.mode == mode &&
                   Lineage.StateAt(mode.value, Line(), idx) == Lineage.StateAt(mode.value, parent.Line(), idx)
              else Lineage.StateAt(mode.value, Line(), idx) ==
                   match FindSegment(Joined(sealed, active), idx)
                   case None => None
                   case Some(i) =>
                     var s := Joined(sealed, active)[i];
                     SegmentOpen(mode.value, s.header, s.entries[..idx - s.base + 1])
    {
      hide LineVisible, BlankSafe, OwnOk, Full, SegmentOpen;
    }

    method StateAt(idx: nat) returns (r: Option<Bytes>)
      requires Valid()
      ensures mode.None? ==> r.None?
      ensures mode.Some? ==> r == Lineage.StateAt(mode.value, Line(), idx)
      decreases ancestors
    {
      hide *;
      Facts();
      if mode.None? {
        return None;
      }
      StateLine(idx);
      if parent != null && idx < forkBase {
        r := parent.StateAt(idx);
        return;
      }
      var s := Route(sealed, active, idx);
      if s.None? {
        return None;
      }
      var patches: seq<Bytes> := [];
      var i := s.value.base;
      while i <= idx
        invariant s.value.base <= i <= idx + 1
        invariant patches == s.value.entries[..i - s.value.base]
      {
        patches := patches + [s.value.entries[i - s.value.base]];
        i := i + 1;
      }
      r := SegmentOpen(mode.value, s.value.header, patches);
    }

    /** In every valid log with a sound reducer, StateAt is the plain fold. */
    lemma StateIsFold(idx: nat)
      requires Valid() && mode.Some? && BlankSafe(mode.value)
      ensures Lineage.StateAt(mode.value, Line(), idx) ==
              if 1 <= idx <= |Shown()| then FoldAll(mode.value, Shown()[..idx]) else None
    {
      LineValid();
      StateAtIsFold(mode.value, Line(), idx);
    }

    // ---- writing ----

    lemma SameMode()
      requires Linked() && parent != null
      ensures parent.mode == mode
    {
    }

    /** What makes a log valid, and what it then shows. */
    lemma Establish()
      requires Linked() && OwnOk(Tracked(), Up(), OwnLog()) && Full(sealed) && LeftOk()
      requires parent != null ==> parent.Valid()
      ensures Valid() && Shown() == Visible(Up(), OwnLog())
    {
    }

    /** The same, from what a write keeps. */
    lemma Continue(shown: seq<Bytes>)
      requires Linked() && Under(Tracked(), UpLine(), OwnLog()) && Full(sealed) && left.None?
      requires parent != null ==> parent.Valid()
      requires LineVisible(UpLine()) == Up() && Visible(Up(), OwnLog()) == shown
      ensures Valid() && Shown() == shown
    {
      hide *;
      UnderIs(Tracked(), UpLine(), OwnLog());
      LogParts(Tracked(), Up(), OwnLog());
      LeftIs();
      Establish();
    }

    lemma OwnIs(segs: seq<Segment>)
      requires Joined(sealed, active) == segs
      ensures OwnLog() == Own(if forkBase == 0 then 1 else forkBase, segs)
    {
    }

    lemma OptsAre()
      ensures Opts().fold == mode && Opts().segmentSize == segmentSize && Opts().ext == ext
      ensures NodeLog.Tracked(Opts().fold) == Tracked()
    {
    }

    /** The header of the next segment, from the last sealed one or from the parent. */
    method HeaderForNext() returns (header: Option<Bytes>)
      requires Valid() && active.None?
      ensures header == NextHeader(mode, UpLine(), OwnLog())
      ensures Tracked().Some? ==>
                if header.Some? then HeaderOk(Tracked().value, header.value, Shown())
                    else FoldAll(Tracked().value, Shown()).None?
    {
      hide *;
      Facts();
      Parts();
      Founded();
      SealedFull(OwnLog());
      TrackedIs();
      TrackedFacts(mode);
      if Tracked().Some? {
        NextHeaderExact(mode.value, UpLine(), OwnLog());
      }
      JoinedNone(sealed);
      NextHeaderIs(mode, UpLine(), OwnLog());
      if mode.None? {
        NoFold(UpLine(), OwnLog());
        return Some([]);
      }
      var prev: Bytes, entries: seq<Bytes> := [], [];
      if |sealed| > 0 {
        prev, entries := sealed[|sealed| - 1].header, sealed[|sealed| - 1].entries;
      } else if parent != null && forkBase > 1 {
        SameMode();
        var state := parent.StateAt(forkBase - 1);
        if state.None? {
          return None;
        }
        prev := state.value;
      }
      header := SegmentOpen(mode.value, prev, entries);
    }

    lemma NoFold(line: Line, own: Own)
      ensures NextHeader(None, line, own) == Some([])
    {
    }

    method OpenActive(base: nat) returns (ok: bool)
      requires Valid() && active.None? && left.None? && base == End(OwnLog())
      modifies this`active
      ensures Valid() && Shown() == old(Shown())
      ensures ok == Opened(Opts(), UpLine(), old(OwnLog())).Some?
      ensures ok ==> OwnLog() == Opened(Opts(), UpLine(), old(OwnLog())).value
      ensures ok ==> active.Some? && active.value.entries == []
      ensures !ok ==> active.None?
      ensures !ok && Tracked().Some? ==> FoldAll(Tracked().value, Shown()).None?
    {
      hide *;
      Facts();
      Parts();
      Founded();
      OptsAre();
      ghost var own, line := OwnLog(), UpLine();
      SealedFull(own);
      OpenedKeeps(Opts(), line, own);
      OpenedIs(Opts(), line, own);
      var header := HeaderForNext();
      if header.None? {
        return false;
      }
      ghost var seg := Segment(base, header.value, []);
      active := Some(Segment(base, header.value, []));
      JoinedOne(sealed, seg);
      OwnIs(own.segs + [seg]);
      assert unchanged(ancestors);
      Continue(old(Shown()));
      return true;
    }

    lemma SealedFull(own: Own)
      requires Full(sealed) && active.None? && own.segs == Joined(sealed, active)
      ensures own.segs != [] ==> own.segs[|own.segs| - 1].entries != []
    {
    }

    lemma NextFollowsShown()
      requires Valid()
      ensures NextIndex(if forkBase > 0 then forkBase else 1, sealed, active) == |Shown()| + 1 == End(OwnLog())
    {
      hide *;
      Facts();
      OwnIs(Joined(sealed, active));
      NextAfter(Up(), OwnLog(), sealed, active);
      EndIs(Up(), OwnLog());
    }

    method Rotate(base: nat) returns (ok: bool)
      requires Valid() && active.Some? && active.value.entries != [] && left.None? && base == End(OwnLog())
      modifies this`active, this`sealed
      ensures Valid() && Shown() == old(Shown()) && sealed == old(sealed) + [old(active).value]
      ensures ok == Opened(Opts(), UpLine(), old(OwnLog())).Some?
      ensures OwnLog() == if ok then Opened(Opts(), UpLine(), old(OwnLog())).value else old(OwnLog())
      ensures ok ==> active.Some? && active.value.entries == []
      ensures !ok ==> active.None?
    {
      hide *;
      Seal();
      ok := OpenActive(base);
      if !ok {
        OwnIs(Joined(sealed, active));
      }
    }

    /** The active segment joins the sealed ones; nothing else changes. */
    method Seal()
      requires Valid() && active.Some? && active.value.entries != []
      modifies this`active, this`sealed
      ensures Valid() && Shown() == old(Shown()) && OwnLog() == old(OwnLog())
      ensures active.None? && sealed == old(sealed) + [old(active).value]
    {
      hide *;
      Facts();
      Parts();
      LeftIs();
      OwnIs(Joined(sealed, active));
      JoinedOne(sealed, active.value);
      FullOne(sealed, active.value);
      sealed := sealed + [active.value];
      active := None;
      OwnIs(Joined(sealed, active));
      LeftIs();
      Establish();
    }

    method AppendActive(payload: Bytes)
      requires Valid() && active.Some? && left.None?
      modifies this`active
      ensures Valid() && Shown() == old(Shown()) + [payload]
      ensures old(OwnLog()).segs != [] && OwnLog() == Appended(old(OwnLog()), payload)
      ensures active == Some(old(active).value.(entries := old(active).value.entries + [payload]))
    {
      hide *;
      Facts();
      Parts();
      Founded();
      ghost var seg, own, line := active.value, OwnLog(), UpLine();
      JoinedOne(sealed, seg);
      OwnIs(sealed + [seg]);
      LastOfJoined(seg);
      AppendedKeeps(Tracked(), line, own, payload);
      AppendedIs(own, payload);
      active := Some(active.value.(entries := active.value.entries + [payload]));
      JoinedOne(sealed, active.value);
      OwnIs(sealed + [active.value]);
      Continue(old(Shown()) + [payload]);
    }

    lemma LastOfJoined(seg: Segment)
      ensures (sealed + [seg]) != [] && (sealed + [seg])[|sealed + [seg]| - 1] == seg
      ensures (sealed + [seg])[..|sealed + [seg]| - 1] == sealed
    {
    }

    /** The last segment is sealed, so a write opens a new one. */
    predicate Closed()
      reads this
    {
      active.None? && sealed != []
    }

    lemma ClosedMeans()
      requires Full(sealed)
      ensures Unopened(OwnLog(), Closed()) <==> active.None?
      ensures active.Some? ==> OwnLog().segs != [] && OwnLog().segs[|OwnLog().segs| - 1] == active.value
    {
    }

    lemma OpenIs()
      requires Full(sealed)
      ensures OpenSegment(OwnLog(), Closed()) == active
    {
    }

    /** The record into the active segment, or into a new one when it does not fit. */
    method PutActive(idx: nat, payload: Bytes) returns (r: WriteResult)
      requires Valid() && active.Some? && left.None? && idx == End(OwnLog())
      modifies this`sealed, this`active
      ensures Valid() && r != ReadOnly && r != OutOfOrder
      ensures old(OwnLog()).segs != []
      ensures var out := PutRecord(Opts(), UpLine(), old(OwnLog()), payload);
                OwnLog() == out.own && (r.Landed? <==> out.landed)
      ensures r.HeaderFailed? ==> mode.Some?
      ensures r.HeaderFailed? && Tracked().Some? ==> FoldAll(Tracked().value, old(Shown())).None?
      ensures r.HeaderFailed? <==>
                && NextHeader(mode, UpLine(), old(OwnLog())).None? && old(active).value.entries != []
                && !Room(segmentSize, mode.Some?, old(active).value.header, old(active).value.entries + [payload])
      ensures r.PayloadTooLarge? ==>
                active.Some? && active.value.entries == []
                    && !Room(segmentSize, mode.Some?, active.value.header, [payload])
    {
      hide *;
      Facts();
      Parts();
      Founded();
      OptsAre();
      ClosedMeans();
      ghost var own, line := OwnLog(), UpLine();
      OpenedIs(Opts(), line, own);
      PutIs(Opts(), line, own, payload);
      OverflowsMeans(Opts(), active.value, payload);
      AppendOne(active.value.entries, payload);
      if Overflows(Opts(), active.value, payload) {
        if active.value.entries == [] {
          return PayloadTooLarge;
        }
        OpenedKeeps(Opts(), line, own);
        TrackedFacts(mode);
        var ok := Rotate(idx);
        if !ok {
          return HeaderFailed;
        }
        Parts();
        ClosedMeans();
        OptsAre();
        OverflowsMeans(Opts(), active.value, payload);
        AppendOne(active.value.entries, payload);
        if Overflows(Opts(), active.value, payload) {
          return PayloadTooLarge;
        }
      }
      AppendActive(payload);
      return Landed;
    }

    lemma AppendOne(entries: seq<Bytes>, payload: Bytes)
      ensures entries == [] ==> entries + [payload] == [payload]
    {
    }

    /** A new segment is needed, and its header cannot be computed. */
    ghost predicate NoHeader(line: Line, own: Own, open: Option<Segment>, payload: Bytes) {
      && NextHeader(mode, line, own).None?
      && (open.Some? ==>
            && open.value.entries != []
            && !Room(segmentSize, mode.Some?, open.value.header, open.value.entries + [payload]))
    }

    lemma NoHeaderIs(line: Line, own: Own, open: Option<Segment>, payload: Bytes)
      ensures NoHeader(line, own, open, payload) <==>
              && NextHeader(mode, line, own).None?
              && (open.Some? ==>
                    && open.value.entries != []
                    && !Room(segmentSize, mode.Some?, open.value.header, open.value.entries + [payload]))
    {
    }

    /** The whole write, past the checks: exactly the step of the directory's log. */
    method Put(idx: nat, payload: Bytes) returns (r: WriteResult)
      requires Valid() && left.None? && idx == End(OwnLog())
      modifies this`sealed, this`active
      ensures Valid() && r != ReadOnly && r != OutOfOrder
      ensures var out := WriteOwn(Opts(), UpLine(), old(OwnLog()), payload, old(Closed()));
              OwnLog() == out.own && (r.Landed? <==> out.landed)
      ensures r.HeaderFailed? ==> mode.Some?
      ensures r.HeaderFailed? && Tracked().Some? ==> FoldAll(Tracked().value, old(Shown())).None?
      ensures r.HeaderFailed? <==> NoHeader(UpLine(), old(OwnLog()), old(active), payload)
      ensures r.PayloadTooLarge? ==>
                active.Some? && active.value.entries == []
                    && !Room(segmentSize, mode.Some?, active.value.header, [payload])
    {
      hide *;
      Facts();
      Parts();
      Founded();
      OptsAre();
      ClosedMeans();
      NextFollowsShown();
      ghost var own, line := OwnLog(), UpLine();
      WriteIs(Opts(), line, own, payload, Closed());
      OpenedIs(Opts(), line, own);
      NoHeaderIs(line, own, active, payload);
      if active.None? {
        SealedFull(own);
        OpenedKeeps(Opts(), line, own);
        TrackedFacts(mode);
        var ok := OpenActive(idx);
        if !ok {
          OwnIs(Joined(sealed, active));
          return HeaderFailed;
        }
        NextFollowsShown();
      }
      r := PutActive(idx, payload);
    }

    /** Append one record. A record that fails to land leaves the history as it was. */
    method Write(idx: nat, payload: Bytes) returns (r: WriteResult)
      requires Valid()
      modifies this`sealed, this`active, this`readOnly
      ensures Valid() && (old(IsNode()) ==> IsNode())
      ensures readOnly == r.ReadOnly? == (old(readOnly) || Frozen(kids))
      ensures r.OutOfOrder? <==> !r.ReadOnly? && idx != |old(Shown())| + 1
      ensures r.ReadOnly? || r.OutOfOrder? ==> OnDisk() == old(OnDisk())
      ensures !r.ReadOnly? && !r.OutOfOrder? ==>
                var act := ForkTree.Write(payload, old(Closed()), r.Landed?);
                Enabled(Opts(), UpLine(), old(OnDisk()), [], act)
                    && OnDisk() == Perform(Opts(), UpLine(), old(OnDisk()), [], act)
      ensures Shown() == if r.Landed? then old(Shown()) + [payload] else old(Shown())
      ensures r.Landed? ==> Settled(OwnLog())
      ensures r.HeaderFailed? ==> mode.Some?
      ensures r.HeaderFailed? && Tracked().Some? ==> FoldAll(Tracked().value, Shown()).None?
      ensures !r.ReadOnly? && !r.OutOfOrder? ==>
                var next := NextHeader(mode, UpLine(), old(OwnLog()));
                && (r.Landed? <==> Lands(segmentSize, mode.Some?, old(active), next, payload))
                && (r.HeaderFailed? <==> NoHeader(UpLine(), old(OwnLog()), old(active), payload))
      ensures r.PayloadTooLarge? ==>
                active.Some? && active.value.entries == []
                    && !Room(segmentSize, mode.Some?, active.value.header, [payload])
      ensures r.Landed? && segmentSize > 0 ==>
                OwnLog().segs != [] && SegmentBytes(mode.Some?, OwnLog().segs[|OwnLog().segs| - 1]) <= segmentSize
      ensures mode.None? && !r.ReadOnly? && !r.OutOfOrder? ==>
                (r.Landed? <==> segmentSize == 0 || FrameSize(payload) <= segmentSize)
    {
      hide *;
      Facts();
      Parts();
      NodeIs();
      LeftIs();
      DiskIs();
      if readOnly {
        return ReadOnly;
      }
      if Frozen(kids) {
        OwnIs(Joined(sealed, active));
        readOnly := true;
        OwnIs(Joined(sealed, active));
        LeftIs();
        DiskIs();
        Establish();
        NodeIs();
        return ReadOnly;
      }
      NextFollowsShown();
      if idx != NextIndex(if forkBase > 0 then forkBase else 1, sealed, active) {
        return OutOfOrder;
      }
      Founded();
      OptsAre();
      ghost var before, own, line, shown := OnDisk(), OwnLog(), UpLine(), Shown();
      ghost var closed := Closed();
      WriteKeeps(Opts(), line, own, payload, closed);
      WriteLands(Opts(), line, own, payload, closed);
      OpenIs();
      r := Put(idx, payload);
      WrittenMeans(Opts(), line, own, payload, WriteOwn(Opts(), line, own, payload, closed));
      WriteIsStep(Opts(), line, before, payload, closed, r.Landed?);
      Facts();
      NodeIs();
      DiskIs();
      SameShown(shown);
    }

    // ---- forking ----

    /** A log opened on its directory. The newest segment becomes the active one, and
        the log is frozen if listing shows a child. */
    constructor Open(dirName: string, o: Options, over: Log?, marker: nat, dir: Dir)
      requires over == null <==> marker == 0
      requires over != null ==> over.Valid() && over.mode == o.fold
      requires dir.own.base == if marker == 0 then 1 else marker
      requires LogOk(NodeLog.Tracked(o.fold), if over == null then [] else over.Shown(), dir.own)
      ensures Valid() && name == dirName && Opts() == o && parent == over && forkBase == marker
      ensures OnDisk() == dir && OwnLog() == dir.own && left.None? && kids == dir.kids
      ensures readOnly == Frozen(dir.kids)
      ensures Up() == (if over == null then [] else over.Shown()) && Shown() == Visible(Up(), dir.own)
      ensures IsNode() <==> First(dir.own) == dir.own.base
    {
      hide *;
      name, mode, segmentSize, ext := dirName, o.fold, o.segmentSize, o.ext;
      parent, forkBase := over, marker;
      ancestors := if over == null then {} else over.ancestors + {over};
      var n := |dir.own.segs|;
      sealed := if n == 0 then [] else dir.own.segs[..n - 1];
      active := if n == 0 then None else Some(dir.own.segs[n - 1]);
      readOnly, kids, left := Frozen(dir.kids), dir.kids, None;
      new;
      if over != null {
        over.Facts();
        over.NotOwnAncestor();
      }
      LogParts(NodeLog.Tracked(o.fold), if over == null then [] else over.Shown(), dir.own);
      Reloaded(dir.own.segs);
      OwnIs(dir.own.segs);
      DiskIs();
      FreshLinked();
      TrackedIs();
      LeftIs();
      Establish();
      NodeIs();
      OptsIs(o);
    }

    lemma OptsIs(o: Options)
      requires mode == o.fold && segmentSize == o.segmentSize && ext == o.ext
      ensures Opts() == o
    {
    }

    lemma TrackedIs()
      ensures Tracked() == NodeLog.Tracked(mode)
    {
    }

    lemma NotOwnAncestor()
      requires Valid()
      ensures this !in ancestors
    {
    }

    lemma FreshLinked()
      requires parent == null <==> forkBase == 0
      requires parent == null ==> ancestors == {}
      requires parent != null ==> parent.Valid() && mode == parent.mode
      requires parent != null ==> parent !in parent.ancestors && ancestors == parent.ancestors + {parent}
      requires this !in ancestors
      ensures Linked() && Up() == if parent == null then [] else parent.Shown()
    {
    }

    /** Open as the code does it: a marker that names a base below the first segment, or
        that cannot be read because a child has taken its name, is an error. */
    static method OpenDir(dirName: string, o: Options, over: Log?, marker: nat, dir: Dir) returns (log: Log?)
      requires over == null <==> marker == 0
      requires over != null ==> over.Valid() && over.mode == o.fold
      requires dir.own.base == if marker == 0 then 1 else marker
      requires First(dir.own) <= dir.own.base ==>
                 LogOk(NodeLog.Tracked(o.fold), if over == null then [] else over.Shown(), dir.own)
      requires marker == 0 ==> First(dir.own) <= 1
      ensures log == null <==> FORK_MARKER in dir.kids || First(dir.own) > dir.own.base
      ensures log != null ==>
                && fresh(log) && log.Valid() && log.Opts() == o && log.parent == over && log.forkBase == marker
                && log.name == dirName && log.left.None? && log.OnDisk() == dir && log.readOnly == Frozen(dir.kids)
                && log.Shown() == Visible(log.Up(), dir.own) && log.Up() == (if over == null then [] else over.Shown())
                && (log.IsNode() <==> First(dir.own) == dir.own.base)
    {
      hide *;
      if FORK_MARKER in dir.kids {
        return null;
      }
      if First(dir.own) > dir.own.base {
        return null;
      }
      log := new Log.Open(dirName, o, over, marker, dir);
    }

    /** The state just below the fork index. */
    method MarkFor(at: nat) returns (w: Option<Bytes>)
      requires Valid() && mode.Some? && 1 <= at <= |Shown()| + 1
      requires Entries(OwnLog().segs) == [] ==> at == OwnLog().base
      ensures w == ForkMark(mode.value, UpLine(), OwnLog(), at, true)
      ensures Tracked().Some? ==>
                && (w.Some? <==> Markable(mode.value, Shown(), OwnLog(), at))
                && (w.Some? ==> HeaderOk(mode.value, w.value, Take(Shown(), at - 1)))
    {
      hide *;
      Facts();
      Founded();
      TrackedIs();
      TrackedFacts(mode);
      if Tracked().Some? {
        ForkMarkExact(mode.value, UpLine(), OwnLog(), at, true);
      }
      EmptyEntries(sealed, active);
      ForkMarkIs(mode.value, UpLine(), OwnLog(), at, true);
      if sealed == [] && (active.None? || active.value.entries == []) {
        if active.Some? {
          JoinedSome(sealed, active);
          w := Some(active.value.header);
        } else if parent != null && at > 1 {
          SameMode();
          JoinedNone(sealed);
          w := parent.StateAt(at - 1);
        } else {
          JoinedNone(sealed);
          w := SegmentOpen(mode.value, [], []);
        }
      } else {
        w := StateAt(at - 1);
      }
    }

    /** Seal a non-empty active segment, so that a fork sees only sealed ones. */
    method SealActive()
      requires Valid()
      modifies this`sealed, this`active
      ensures Valid() && Shown() == old(Shown()) && OwnLog() == old(OwnLog()) && Up() == old(Up())
                && UpLine() == old(UpLine())
      ensures OnDisk() == old(OnDisk()) && DiskOwn() == old(DiskOwn())
      ensures active.Some? ==> active.value.entries == [] && sealed == old(sealed)
    {
      hide *;
      Facts();
      DiskIs();
      if active.Some? && active.value.entries != [] {
        Seal();
        DiskIs();
      }
    }

    /** Install the outcome of a fork: the kept prefix, frozen, and the new children. A
        header-only segment is closed; its file stays. */
    method Publish(kept: seq<Segment>, newKids: map<string, Dir>, ghost cut: seq<Bytes>)
      requires Valid() && IsNode() && Full(kept)
                 && (active.Some? ==> active.value.entries == [] && sealed == [] == kept)
      requires left.Some? ==> kept == []
      requires NodeOk(Tracked(), Up(), Own(OwnLog().base, kept)) && Visible(Up(), Own(OwnLog().base, kept)) == cut
      modifies this`sealed, this`active, this`readOnly, this`kids, this`left
      ensures Valid() && IsNode() && Shown() == cut && readOnly && kids == newKids && Up() == old(Up())
                && Settled(OwnLog())
      ensures OnDisk() ==
                Dir(if kept == [] && old(sealed) == [] then old(DiskOwn()) else Own(old(OwnLog()).base, kept), newKids)
    {
      hide *;
      Facts();
      Parts();
      NodeIs();
      LeftIs();
      DiskIs();
      JoinedSome(sealed, active);
      OwnIs(Joined(sealed, active));
      NodeParts(Tracked(), Up(), Own(OwnLog().base, kept));
      if active.Some? {
        left := active;
      }
      sealed, active, kids, readOnly := kept, None, newKids, true;
      JoinedNone(kept);
      OwnIs(kept);
      FullSettles(OwnLog());
      DiskIs();
      if left.Some? {
        LeftFrom();
      } else {
        LeftIs();
      }
      Establish();
      NodeIs();
    }

    lemma LeftFrom()
      requires Linked() && left.Some? && sealed == [] && active.None? && readOnly && left.value.entries == []
      requires NodeOk(Tracked(), Up(), Own(OwnLog().base, [left.value]))
      ensures LeftOk()
    {
    }

    /** Split this log at `at`: it keeps the prefix and freezes, what follows moves
        into the old future with every child that listing shows, and an empty child
        begins at `at`. */
    method Fork(at: nat, childName: string, oldFutureName: string) returns (child: Log?, ghost act: Act)
      requires Valid() && IsNode() && Settled(OwnLog()) && ValidName(name)
      modifies this`sealed, this`active, this`readOnly, this`kids, this`left
      ensures Valid() && IsNode()
      ensures act == Forks(at, childName,
                if oldFutureName != "" then oldFutureName else name, oldFutureName != "", old(left).None?)
      ensures child != null <==> ForkReady(Opts(), UpLine(), old(OnDisk()), act)
      ensures child == null ==> Shown() == old(Shown()) && OnDisk() == old(OnDisk())
      ensures child != null ==>
                && 1 <= at <= |old(Shown())| + 1 && readOnly && Shown() == old(Shown())[..at - 1] && Settled(OwnLog())
                && OnDisk() == Perform(Opts(), UpLine(), old(OnDisk()), [], act)
                && fresh(child) && child.Valid() && child.IsNode() && child.parent == this && child.forkBase == at
                && child.Shown() == old(Shown())[..at - 1] && !child.readOnly
                && child.name == childName && child.Opts() == Opts() && child.left.None? && child.kids == map[]
                && childName in kids && child.OnDisk() == kids[childName]
    {
      hide *;
      var named := oldFutureName != "";
      var oldFuture := if named then oldFutureName else name;
      act := Forks(at, childName, oldFuture, named, left.None?);
      Facts();
      Checks(act);
      var allowed := Admissible(forkBase, sealed, active, ext, OnDisk(), at, childName, oldFuture);
      if !allowed {
        return null, act;
      }
      var w := Prepare(at);
      if w.None? {
        return null, act;
      }
      child := Complete(at, childName, oldFuture, named, w.value, act);
    }

    /** What the checks before the fork, and the one made later, decide together. */
    lemma Checks(act: Act)
      requires Valid() && IsNode() && Settled(OwnLog()) && act.Forks? && act.held == left.None?
      ensures var ok := Admissible(forkBase, sealed, active, ext, OnDisk(), act.at, act.child, act.oldFuture);
              && (ForkReady(Opts(), UpLine(), OnDisk(), act) <==>
                  && ok && (CreatesOld(DiskOwn(), act.at, act.named) ==>
                      !Taken(ext, OnDisk(), forkBase == 0, act.oldFuture))
                  && Watermark(Opts(), UpLine(), OwnLog(), act.at, true).Some?)
              && (ok ==> && 1 <= act.at <= |Shown()| + 1 && act.child != act.oldFuture
                         && !Taken(ext, OnDisk(), forkBase == 0, act.child)
                         && if Entries(OwnLog().segs) == [] then act.at == OwnLog().base
                            else OwnLog().base <= act.at <= End(OwnLog()))
      ensures Watermark(Opts(), UpLine(), DiskOwn(), act.at, act.held) ==
                Watermark(Opts(), UpLine(), OwnLog(), act.at, true)
    {
      hide *;
      Facts();
      NodeIs();
      DiskIs();
      OptsAre();
      LeftIs();
      Parts();
      SettledDisk();
      HeldMark(act.at);
      AdmissibleMeans(Tracked(), Up(), OwnLog(), ext, OnDisk(), forkBase, sealed, active, act.at, act.child,
          act.oldFuture, act.named);
      ReadyIs(Opts(), UpLine(), OnDisk(), act);
    }

    /** Seal the active segment and compute the fork watermark. */
    method Prepare(at: nat) returns (w: Option<Bytes>)
      requires Valid() && IsNode() && 1 <= at <= |Shown()| + 1 && (Entries(OwnLog().segs) == [] ==> at == OwnLog().base)
      modifies this`sealed, this`active
      ensures Valid() && IsNode() && Shown() == old(Shown()) && OwnLog() == old(OwnLog()) && UpLine() == old(UpLine())
      ensures OnDisk() == old(OnDisk()) && DiskOwn() == old(DiskOwn())
      ensures active.Some? ==> active.value.entries == []
      ensures w == Watermark(Opts(), UpLine(), OwnLog(), at, true)
    {
      hide *;
      Facts();
      NodeIs();
      SealActive();
      NodeIs();
      OptsAre();
      WatermarkIs(Opts(), UpLine(), OwnLog(), at, true);
      w := Some([]);
      if mode.Some? {
        w := MarkFor(at);
      }
    }

    lemma SettledDisk()
      requires Valid() && IsNode() && Settled(OwnLog())
      ensures Settled(DiskOwn()) && NodeOk(Tracked(), Up(), DiskOwn())
      ensures DiskOwn() == OwnLog() || (Entries(OwnLog().segs) == [] && Entries(DiskOwn().segs) == [])
      ensures Visible(Up(), DiskOwn()) == Visible(Up(), OwnLog())
    {
      hide Visible, OwnOk, NodeOk;
      if left.Some? {
        SingleEntries(left.value);
        NodeVisible(Tracked(), Up(), OwnLog());
        NodeVisible(Tracked(), Up(), DiskOwn());
      }
    }

    lemma HeldMark(at: nat)
      requires left.Some? ==> sealed == [] && active.None? && left.value.entries == []
      ensures Watermark(Opts(), UpLine(), DiskOwn(), at, left.None?) == Watermark(Opts(), UpLine(), OwnLog(), at, true)
      requires Linked()
    {
      hide Lineage.StateAt, SegmentOpen;
      if left.Some? {
        SingleEntries(left.value);
      }
    }

    /** What the partition of the sealed segments makes of this directory. */
    lemma Plan(act: Act, w: Bytes, kept: seq<Segment>, moved: seq<Segment>, seed: seq<Segment>, future: Own,
               keptOwn: Own)
      requires Valid() && IsNode() && Settled(OwnLog()) && (active.Some? ==> active.value.entries == [])
      requires act.Forks? && act.held == left.None?
                 && Watermark(Opts(), UpLine(), DiskOwn(), act.at, act.held) == Some(w)
      requires 1 <= act.at <= |Shown()| + 1
      requires if Entries(OwnLog().segs) == [] then act.at == OwnLog().base
                 else OwnLog().base <= act.at <= End(OwnLog())
      requires kept == Kept(sealed, act.at) && moved == Moved(sealed, act.at, w) && seed == Seed(mode.Some?, act.at, w)
      requires future == Own(act.at, (if HasBoundary(sealed, act.at) then [] else seed) + moved)
      requires keptOwn == if kept == [] && sealed == [] then DiskOwn() else Own(OwnLog().base, kept)
      ensures act.named || moved != [] <==> CreatesOld(DiskOwn(), act.at, act.named)
      ensures Full(kept) && (active.Some? ==> sealed == [] == kept) && (left.Some? ==> kept == [])
      ensures NodeOk(Tracked(), Up(), Own(OwnLog().base, kept))
                && Visible(Up(), Own(OwnLog().base, kept)) == Shown()[..act.at - 1]
      ensures NodeOk(Tracked(), Shown()[..act.at - 1], Own(act.at, seed))
      ensures Visible(Shown()[..act.at - 1], Own(act.at, seed)) == Shown()[..act.at - 1]
      ensures Perform(Opts(), UpLine(), OnDisk(), [], act) ==
              Arrange(keptOwn, Own(act.at, seed), future, kids, act.child, act.oldFuture, moved != [], act.named)
    {
      hide *;
      Facts();
      NodeIs();
      Parts();
      LeftIs();
      DiskIs();
      OptsAre();
      SettledDisk();
      Founded();
      var line, own, dir, t, up, at := UpLine(), OwnLog(), OnDisk(), Tracked(), Up(), act.at;
      WatermarkIs(Opts(), line, own, at, true);
      HeldMark(at);
      TrackedFacts(mode);
      MarkRight(Opts(), line, own, at, true);
      ForkNode(mode.Some?, t, up, own, at, w);
      ForkedParts(mode.Some?, t, up, own, at, w);
      PartitionMeans(mode.Some?, t, up, own, sealed, active, at, w);
      AllSealed(own, sealed, active);
      SameSurgery(mode.Some?, own, dir.own, at, w);
      CreatesMeans(dir.own, at, act.named);
      PerformFork(Opts(), line, dir, act);
      KeptNode(t, up, own, sealed, active, at);
      KeptShows(t, up, own, at, kept);
      JoinedSome(sealed, active);
      EmptyEntries(sealed, active);
    }

    /** The part of a fork that moves data. Refused only when the old future's name
        is taken. */
    method Complete(at: nat, childName: string, oldFuture: string, named: bool, w: Bytes, ghost act: Act)
      returns (child: Log?)
      requires Valid() && IsNode() && Settled(OwnLog()) && (active.Some? ==> active.value.entries == [])
      requires act == Forks(at, childName, oldFuture, named, left.None?)
      requires Watermark(Opts(), UpLine(), DiskOwn(), at, left.None?) == Some(w)
      requires 1 <= at <= |Shown()| + 1
      requires if Entries(OwnLog().segs) == [] then at == OwnLog().base else OwnLog().base <= at <= End(OwnLog())
      requires !Taken(ext, OnDisk(), forkBase == 0, childName) && childName != oldFuture
      modifies this`sealed, this`active, this`readOnly, this`kids, this`left
      ensures Valid() && IsNode()
      ensures child == null <==>
                CreatesOld(old(DiskOwn()), at, named) && Taken(ext, old(OnDisk()), forkBase == 0, oldFuture)
      ensures child == null ==> Shown() == old(Shown()) && OnDisk() == old(OnDisk())
      ensures child != null ==>
                && readOnly && Shown() == old(Shown())[..at - 1] && Settled(OwnLog())
                && OnDisk() == Perform(Opts(), UpLine(), old(OnDisk()), [], act)
                && fresh(child) && child.Valid() && child.IsNode() && child.parent == this && child.forkBase == at
                && child.Shown() == old(Shown())[..at - 1] && !child.readOnly
                && child.name == childName && child.Opts() == Opts() && child.left.None? && child.kids == map[]
                && childName in kids && child.OnDisk() == kids[childName]
    {
      hide *;
      Facts();
      var ok, kept, newKids, seed := Layout(at, childName, oldFuture, named, w, act);
      if !ok {
        return null;
      }
      child := Attach(kept, newKids, childName, at, seed, Shown()[..at - 1]);
    }

    /** The segments that stay and the subdirectories there will be, unless the old
        future's name is taken. */
    method Layout(at: nat, childName: string, oldFuture: string, named: bool, w: Bytes, ghost act: Act)
      returns (ok: bool, kept: seq<Segment>, newKids: map<string, Dir>, seed: seq<Segment>)
      requires Valid() && IsNode() && Settled(OwnLog()) && (active.Some? ==> active.value.entries == [])
      requires act == Forks(at, childName, oldFuture, named, left.None?)
      requires Watermark(Opts(), UpLine(), DiskOwn(), at, left.None?) == Some(w)
      requires 1 <= at <= |Shown()| + 1 && childName != oldFuture
      requires if Entries(OwnLog().segs) == [] then at == OwnLog().base else OwnLog().base <= at <= End(OwnLog())
      ensures ok <==> !(CreatesOld(DiskOwn(), at, named) && Taken(ext, OnDisk(), forkBase == 0, oldFuture))
      ensures Full(kept) && (active.Some? ==> sealed == [] == kept) && (left.Some? ==> kept == [])
      ensures NodeOk(Tracked(), Up(), Own(OwnLog().base, kept))
                && Visible(Up(), Own(OwnLog().base, kept)) == Shown()[..at - 1]
      ensures NodeOk(Tracked(), Shown()[..at - 1], Own(at, seed))
                && Visible(Shown()[..at - 1], Own(at, seed)) == Shown()[..at - 1]
      ensures ok ==>
                && Perform(Opts(), UpLine(), OnDisk(), [], act) ==
                   Dir(if kept == [] && sealed == [] then DiskOwn() else Own(OwnLog().base, kept), newKids)
                && childName in newKids && newKids[childName] == Dir(Own(at, seed), map[])
    {
      hide *;
      Facts();
      var moved, boundary;
      kept, moved, boundary := Partition(sealed, at, w);
      seed := Seed(mode.Some?, at, w);
      var future := Own(at, (if boundary then [] else seed) + moved);
      ghost var keptOwn := if kept == [] && sealed == [] then DiskOwn() else Own(OwnLog().base, kept);
      Plan(act, w, kept, moved, seed, future, keptOwn);
      newKids := map[];
      ok := !((named || moved != []) && Taken(ext, OnDisk(), forkBase == 0, oldFuture));
      if ok {
        newKids := MoveKids(keptOwn, kids, childName, Own(at, seed), oldFuture, future, moved != [], named);
        ArrangeChild(keptOwn, Own(at, seed), future, kids, childName, oldFuture, moved != [], named);
      }
    }

    /** Freeze the kept prefix, then open the child over it. */
    method Attach(kept: seq<Segment>, newKids: map<string, Dir>, childName: string, at: nat, seed: seq<Segment>,
                  ghost cut: seq<Bytes>)
      returns (child: Log)
      requires Valid() && IsNode() && Full(kept)
                 && (active.Some? ==> active.value.entries == [] && sealed == [] == kept)
      requires left.Some? ==> kept == []
      requires NodeOk(Tracked(), Up(), Own(OwnLog().base, kept)) && Visible(Up(), Own(OwnLog().base, kept)) == cut
      requires at >= 1 && NodeOk(Tracked(), cut, Own(at, seed)) && Visible(cut, Own(at, seed)) == cut
      modifies this`sealed, this`active, this`readOnly, this`kids, this`left
      ensures Valid() && IsNode() && Shown() == cut && readOnly && kids == newKids && UpLine() == old(UpLine())
                && Settled(OwnLog())
      ensures OnDisk() ==
                Dir(if kept == [] && old(sealed) == [] then old(DiskOwn()) else Own(old(OwnLog()).base, kept), newKids)
      ensures fresh(child) && child.Valid() && child.IsNode() && child.parent == this && child.forkBase == at
      ensures child.Shown() == cut && !child.readOnly && child.OnDisk() == Dir(Own(at, seed), map[])
      ensures child.name == childName && child.Opts() == Opts() && child.left.None? && child.kids == map[]
    {
      hide *;
      Facts();
      NodeParts(Tracked(), cut, Own(at, seed));
      TrackedIs();
      Publish(kept, newKids, cut);
      assert unchanged(ancestors);
      Facts();
      OptsAre();
      child := new Log.Open(childName, Options(mode, segmentSize, ext), this, at, Dir(Own(at, seed), map[]));
      ChildUnfrozen();
    }

    lemma ChildUnfrozen()
      ensures !Frozen(map[])
    {
    }
  }

  lemma FullSettles(own: Own)
    requires Full(own.segs)
    ensures Settled(own)
  {
  }

  lemma ReadyIs(o: Options, line: Line, d: Dir, act: Act)
    requires act.Forks?
    ensures ForkReady(o, line, d, act) <==>
            && ForkAllowed(o.ext, d, line.Top?, act.at, act.child, act.oldFuture, act.named)
            && Settled(d.own) && Watermark(o, line, d.own, act.at, act.held).Some?
  {
    hide ForkAllowed, Settled, Watermark;
  }

  lemma CreatesMeans(own: Own, at: nat, named: bool)
    ensures CreatesOld(own, at, named) <==> named || DataMoves(own, at)
  {
    hide DataMoves;
  }

  /** The surgery sees the entries; a header-only file makes no difference. */
  lemma SameSurgery(headered: bool, own: Own, disk: Own, at: nat, w: Bytes)
    requires own.base == disk.base && (disk == own || (Entries(own.segs) == [] && Entries(disk.segs) == []))
    ensures FutureSegs(headered, disk, at, w) == FutureSegs(headered, own, at, w)
    ensures DataMoves(disk, at) <==> DataMoves(own, at)
    ensures KeptOwn(disk, at) == if Entries(disk.segs) == [] then disk else KeptOwn(own, at)
    ensures Entries(disk.segs) == [] <==> Entries(own.segs) == []
  {
    hide Entries, Kept, Moved, HasBoundary, Seed, End;
  }

  lemma ArrangeChild(kept: Own, sprout: Own, future: Own, kids: map<string, Dir>, child: string, oldFuture: string,
                     moves: bool, named: bool)
    requires child != oldFuture
    ensures var after := Arrange(kept, sprout, future, kids, child, oldFuture, moves, named);
            child in after.kids && after.kids[child] == Dir(sprout, map[])
  {
  }

  /** The kept prefix is a node, with or without its header-only segment. */
  lemma KeptNode(mode: Option<Reducer>, up: seq<Bytes>, own: Own, sealed: seq<Segment>, active: Option<Segment>,
                 at: nat)
    requires NodeOk(mode, up, own) && own.segs == Joined(sealed, active) && Full(sealed) && Settled(own)
    requires active.Some? ==> active.value.entries == []
    requires NodeOk(mode, up, KeptOwn(own, at))
    ensures NodeOk(mode, up, Own(own.base, Kept(sealed, at)))
  {
    hide *;
    AllSealed(own, sealed, active);
    if Entries(own.segs) == [] {
      BareNode(mode, up, own, at);
    } else {
      KeptIs(own, at);
    }
  }

  lemma BareNode(mode: Option<Reducer>, up: seq<Bytes>, own: Own, at: nat)
    requires NodeOk(mode, up, own)
    ensures NodeOk(mode, up, Own(own.base, Kept([], at)))
  {
    PlainOwn(mode, up, Own(own.base, []));
  }

  lemma KeptShows(mode: Option<Reducer>, up: seq<Bytes>, own: Own, at: nat, kept: seq<Segment>)
    requires NodeOk(mode, up, KeptOwn(own, at)) && NodeOk(mode, up, Own(own.base, kept))
    requires KeptOwn(own, at) == (if Entries(own.segs) == [] then own else Own(own.base, kept))
    requires Entries(own.segs) == [] ==> kept == []
    ensures Visible(up, Own(own.base, kept)) == Visible(up, KeptOwn(own, at))
  {
    hide Visible, NodeOk, KeptOwn;
    NodeVisible(mode, up, KeptOwn(own, at));
    NodeVisible(mode, up, Own(own.base, kept));
    NoEntries();
  }

  lemma WriteIsStep(o: Options, line: Line, d: Dir, payload: Bytes, closed: bool, landed: bool)
    requires landed == WriteOwn(o, line, d.own, payload, closed).landed
    ensures var act := ForkTree.Write(payload, closed, landed);
            && Perform(o, line, d, [], act) == Dir(WriteOwn(o, line, d.own, payload, closed).own, d.kids)
            && (Enabled(o, line, d, [], act) <==> !Frozen(d.kids))
  {
    hide WriteOwn, Frozen;
  }

  /** A fork and the first write into it. The child takes what its parent would have: with
      the parent's limit and, with headers on, behind the header of its first segment. */
  method WriteChild(log: Log, at: nat, childName: string, oldFutureName: string, payload: Bytes)
    returns (child: Log?, r: WriteResult)
    requires log.Valid() && log.IsNode() && Settled(log.OwnLog()) && ValidName(log.name)
    modifies log`sealed, log`active, log`readOnly, log`kids, log`left
    ensures child != null ==> child.Valid() && !r.ReadOnly? && !r.OutOfOrder?
    ensures child != null ==>
              && 1 <= at <= |old(log.Shown())| + 1
              && child.Shown() == old(log.Shown())[..at - 1] + if r.Landed? then [payload] else []
    ensures child != null && log.mode.None? ==>
              (r.Landed? <==> Room(log.segmentSize, false, [], [payload]))
    ensures child != null && r.PayloadTooLarge? ==>
              child.active.Some? && !Room(log.segmentSize, log.mode.Some?, child.active.value.header, [payload])
  {
    hide *;
    ghost var act;
    child, act := log.Fork(at, childName, oldFutureName);
    r := ReadOnly;
    if child != null {
      log.OptsAre();
      child.OptsAre();
      child.ChildUnfrozen();
      r := child.Write(at, payload);
      RoomForOne(log.segmentSize, false, [], payload);
      FrameSizeIs(payload);
    }
  }

  lemma FrameSizeIs(payload: Bytes)
    ensures FrameSize(payload) == 8 + |payload|
  {
  }

  // ---- children whose names begin with a dot ----

  /** A segment file's name begins with a digit. */
  lemma SegNameDigit(base: nat, ext: string)
    ensures SegName(base, ext) != "" && SegName(base, ext)[0] != '.' && SegName(base, ext)[0] != 'y'
              && SegName(base, ext)[0] != 'r'
  {
    Decimal.ItoaIs(base);
  }

  lemma RootName(d: Dir, ext: string, name: string)
    requires (name == ".x" || name == "y" || name == "r") && name !in d.kids
    ensures !Taken(ext, d, true, name)
  {
    if name in FileNames(d.own, true, ext) {
      var s :| s in d.own.segs && SegName(s.base, ext) == name;
      SegNameDigit(s.base, ext);
    }
  }

  /** A plain root with some records can be forked anywhere past the first. */
  lemma RootReady(log: Log, at: nat, child: string)
    requires log.Valid() && log.IsNode() && Settled(log.OwnLog()) && log.parent == null && log.mode.None?
               && log.name == "r" && log.left.None?
    requires 1 < at <= |log.Shown()| + 1 && (child == ".x" || child == "y") && child !in log.kids && "r" !in log.kids
    ensures ForkReady(log.Opts(), log.UpLine(), log.OnDisk(), Forks(at, child, "r", false, true))
    ensures DataMoves(log.OnDisk().own, at) <==> at <= |log.Shown()|
  {
    hide *;
    log.Facts();
    log.NodeIs();
    log.DiskIs();
    log.OptsAre();
    var d, own := log.OnDisk(), log.OwnLog();
    NodeVisible(log.Tracked(), log.Up(), own);
    NodeParts(log.Tracked(), log.Up(), own);
    RootName(d, log.ext, child);
    RootName(d, log.ext, "r");
    WatermarkIs(log.Opts(), log.UpLine(), d.own, at, true);
    RootAllowed(log.ext, d, at, child);
    ReadyIs(log.Opts(), log.UpLine(), d, Forks(at, child, "r", false, true));
    EndOf(own);
    MovesIff(own, at);
  }

  lemma RootAllowed(ext: string, d: Dir, at: nat, child: string)
    requires First(d.own) == d.own.base == 1 < at <= End(d.own) && (child == ".x" || child == "y")
    requires !Taken(ext, d, true, child) && !Taken(ext, d, true, "r")
    ensures ForkAllowed(ext, d, true, at, child, "r", false)
  {
    hide Taken, Entries;
  }

  /** The kids after a plain fork of a root. */
  lemma RootForked(o: Options, d: Dir, at: nat, child: string)
    requires o.fold.None? && (child == ".x" || child == "y") && child !in d.kids && "r" !in d.kids
    ensures var after := Perform(o, Top, d, [], Forks(at, child, "r", false, true)).kids;
            && child in after && after[child] == Dir(Own(at, []), map[])
            && (".x" in d.kids ==> ".x" in after && after[".x"] == d.kids[".x"])
            && ("r" in after <==> DataMoves(d.own, at))
            && (forall k :: k in after ==> k == child || k == "r" || k in d.kids)
  {
    hide KeptOwn, FutureSegs, DataMoves, Arrange;
    var act := Forks(at, child, "r", false, true);
    PerformFork(o, Top, d, act);
    forall k ensures var after := Perform(o, Top, d, [], act).kids;
                     && (k == child ==> k in after && after[k] == Dir(Own(at, []), map[]))
                     && (k == ".x" && k in d.kids ==> k in after && after[k] == d.kids[k])
                     && (k == "r" ==> (k in after <==> DataMoves(d.own, at)))
                     && (k in after ==> k == child || k == "r" || k in d.kids)
    {
      ArrangeKids(KeptOwn(d.own, at), Own(at, Seed(false, at, [])), Own(at, FutureSegs(false, d.own, at, [])), d.kids,
                  child, "r", DataMoves(d.own, at), false, k);
    }
  }

  /** A plain root log of two records. */
  method TwoRecords(a: Bytes, b: Bytes) returns (log: Log)
    ensures fresh(log) && log.Valid() && log.IsNode() && Settled(log.OwnLog()) && log.Shown() == [a, b]
    ensures log.parent == null && log.mode.None? && log.segmentSize == 0 && log.name == "r" && log.left.None?
              && log.kids == map[]
  {
    hide *;
    EmptyRoot();
    log := new Log.Open("r", Options(None, 0, ".seg"), null, 0, Dir(Own(1, []), map[]));
    log.Facts();
    log.NodeIs();
    log.OptsAre();
    log.DiskIs();
    var r := log.Write(1, a);
    log.Facts();
    assert log.Shown() == [a];
    r := log.Write(2, b);
    log.Facts();
    assert log.Shown() == [a, b];
  }

  /** The same, forked at its tail under a name that begins with a dot. */
  method DotForked(a: Bytes, b: Bytes) returns (log: Log)
    ensures fresh(log) && log.Valid() && log.IsNode() && Settled(log.OwnLog()) && log.Shown() == [a, b]
    ensures log.parent == null && log.mode.None? && log.segmentSize == 0 && log.name == "r" && log.left.None?
    ensures log.kids == map[".x" := Dir(Own(3, []), map[])]
  {
    hide *;
    EmptyRoot();
    log := TwoRecords(a, b);
    var child := DotFork(log);
    assert [a, b][..2] == [a, b];
  }

  method DotFork(log: Log) returns (child: Log)
    requires log.Valid() && log.IsNode() && Settled(log.OwnLog()) && |log.Shown()| == 2 && log.kids == map[]
    requires log.parent == null && log.mode.None? && log.name == "r" && log.left.None?
    modifies log`sealed, log`active, log`readOnly, log`kids, log`left
    ensures fresh(child) && log.Valid() && log.IsNode() && Settled(log.OwnLog()) && log.Shown() == old(log.Shown())[..2]
    ensures log.kids == map[".x" := Dir(Own(3, []), map[])] && log.left.None?
  {
    hide *;
    EmptyRoot();
    log.Facts();
    log.DiskIs();
    log.OptsAre();
    RootReady(log, 3, ".x");
    ghost var disk := log.OnDisk();
    RootForked(log.Opts(), disk, 3, ".x");
    var forked;
    ghost var act;
    forked, act := log.Fork(3, ".x", "");
    child := forked;
    log.Facts();
    log.DiskIs();
    log.LeftNone();
  }

  lemma EmptyRoot()
    ensures NodeOk(NodeLog.Tracked(None), [], Own(1, [])) && LogOk(NodeLog.Tracked(None), [], Own(1, []))
    ensures Visible([], Own(1, [])) == [] && First(Own(1, [])) == 1 && !Frozen(map[]) && ValidName("r")
  {
    PlainOwn(NodeLog.Tracked(None), [], Own(1, []));
  }

  /** The re-split leaves the dot-named child under the cut prefix: the second record,
      which it read through its parent, is gone for it. */
  method HiddenChildIsCutOff(a: Bytes, b: Bytes) returns (log: Log, before: Option<Bytes>, after: Option<Bytes>)
    ensures fresh(log) && log.Valid() && log.Shown() == [a]
    ensures ".x" in log.kids && log.kids[".x"].own == Own(3, [])
    ensures before == Some(b) == ReadUnder([a, b], log.kids[".x"].own, 2)
    ensures after == None == ReadUnder(log.Shown(), log.kids[".x"].own, 2)
  {
    hide *;
    EmptyRoot();
    log := DotForked(a, b);
    log.Facts();
    log.DiskIs();
    log.OptsAre();
    RootReady(log, 2, "y");
    RootForked(log.Opts(), log.OnDisk(), 2, "y");
    ghost var act;
    var child;
    child, act := log.Fork(2, "y", "");
    log.DiskIs();
    assert [a, b][..1] == [a];
    CutRead(a, b);
    before, after := ReadUnder([a, b], Own(3, []), 2), ReadUnder([a], Own(3, []), 2);
  }

  lemma CutRead(a: Bytes, b: Bytes)
    ensures ReadUnder([a, b], Own(3, []), 2) == Some(b) && ReadUnder([a], Own(3, []), 2) == None
  {
  }

  /** A log whose only child has a dot name is written again once reopened, and the child
      no longer starts after its parent's last record. */
  method ReopenedPastHiddenChild(a: Bytes, b: Bytes, c: Bytes) returns (again: Log)
    ensures fresh(again) && again.Valid() && !again.readOnly && again.Shown() == [a, b, c]
    ensures ".x" in again.kids && again.kids[".x"].own.base == |again.Shown()|
  {
    hide *;
    var log := DotForked(a, b);
    log.Facts();
    log.Parts();
    log.DiskIs();
    log.NodeIs();
    NodeParts(log.Tracked(), log.Up(), log.OwnLog());
    log.TrackedIs();
    var found := Log.OpenDir("r", Options(None, 0, log.ext), null, 0, log.OnDisk());
    DotOnly(log.kids);
    again := found;
    again.Facts();
    again.DiskIs();
    again.OptsAre();
    var r := again.Write(3, c);
    again.Facts();
    assert again.Shown() == [a, b] + [c];
  }

  lemma DotOnly(kids: map<string, Dir>)
    requires kids == map[".x" := Dir(Own(3, []), map[])]
    ensures !Frozen(kids) && FORK_MARKER !in kids
  {
  }
}
