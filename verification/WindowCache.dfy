/**
 The window cache: runs of units over a durable source, any of which may be hollowed
 at any charge. A range is served from whatever is resident and refetched where it is
 not; it must be what the source holds, whichever runs there are.
 */
module WindowCache {
  import opened Basics

  /** (from..to] within one node. */
  datatype Coord = Coord(node: string, from: nat, to: nat)

  datatype Unit = Unit(key: nat, payload: Bytes)

  datatype Run = Run(coord: Coord, units: seq<Unit>, resident: bool, pinned: bool)

  /** One step of a lineage, root first; `base` is the first coordinate that is the
      node's own, 0 for the root. */
  datatype Ref = Ref(node: string, base: nat)

  const CHUNK: nat := 64

  ghost predicate Ascending(s: seq<Unit>) {
    forall i, j :: 0 <= i < j < |s| ==> s[i].key < s[j].key
  }

  /** The units of (from..to]. */
  function Between(s: seq<Unit>, from: nat, to: nat): seq<Unit> {
    if s == [] then []
    else
      var front := Between(s[..|s| - 1], from, to);
      if from < s[|s| - 1].key <= to then front + [s[|s| - 1]] else front
  }

  lemma BetweenOne(s: seq<Unit>, u: Unit, from: nat, to: nat)
    ensures Between(s + [u], from, to) == Between(s, from, to) + if from < u.key <= to then [u] else []
  {
    assert (s + [u])[..|s|] == s;
  }

  lemma {:induction false} BetweenJoin(a: seq<Unit>, b: seq<Unit>, from: nat, to: nat)
    ensures Between(a + b, from, to) == Between(a, from, to) + Between(b, from, to)
  {
    if b == [] {
      assert a + b == a;
    } else {
      var front, u := b[..|b| - 1], b[|b| - 1];
      BetweenJoin(a, front, from, to);
      BetweenOne(a + front, u, from, to);
      assert a + b == a + front + [u];
    }
  }

  lemma {:induction false} BetweenMembers(s: seq<Unit>, from: nat, to: nat)
    requires Ascending(s)
    ensures Ascending(Between(s, from, to))
    ensures forall i :: 0 <= i < |Between(s, from, to)| ==> from < Between(s, from, to)[i].key <= to
    ensures forall i :: 0 <= i < |Between(s, from, to)| ==> s != [] && Between(s, from, to)[i].key <= s[|s| - 1].key
  {
    if s != [] {
      BetweenMembers(s[..|s| - 1], from, to);
    }
  }

  /** Filtering a filtered list narrows it. */
  lemma {:induction false} BetweenTwice(s: seq<Unit>, a: nat, b: nat, from: nat, to: nat)
    ensures Between(Between(s, a, b), from, to) ==
            Between(s, if a < from then from else a, if b < to then b else to)
  {
    if s != [] {
      var front, u := s[..|s| - 1], s[|s| - 1];
      BetweenTwice(front, a, b, from, to);
      if a < u.key <= b {
        BetweenOne(Between(front, a, b), u, from, to);
      }
    }
  }

  lemma {:induction false} BetweenNone(s: seq<Unit>, from: nat, to: nat)
    requires forall i :: 0 <= i < |s| ==> !(from < s[i].key <= to)
    ensures Between(s, from, to) == []
  {
    if s != [] {
      BetweenNone(s[..|s| - 1], from, to);
    }
  }

  /** A range is its two halves, in order. */
  lemma {:induction false} BetweenSplit(s: seq<Unit>, from: nat, mid: nat, to: nat)
    requires Ascending(s) && from <= mid <= to
    ensures Between(s, from, to) == Between(s, from, mid) + Between(s, mid, to)
  {
    if s != [] {
      var front, u := s[..|s| - 1], s[|s| - 1];
      BetweenSplit(front, from, mid, to);
      if u.key <= mid {
        forall i | 0 <= i < |front| ensures !(mid < front[i].key <= to) {
          assert front[i].key < u.key;
        }
        BetweenNone(front, mid, to);
      }
    }
  }

  // ---- which node owns what ----

  type Source = map<string, seq<Unit>>

  function UnitsOf(src: Source, node: string): seq<Unit> {
    if node in src then src[node] else []
  }

  ghost predicate Sound(src: Source) {
    forall n :: n in src ==> Ascending(src[n])
  }

  /** Bases do not decrease along a lineage, and only the root's may be 0. */
  ghost predicate Forked(lineage: seq<Ref>) {
    && (forall i :: 0 < i < |lineage| ==> lineage[i].base >= 1)
    && (forall i, j :: 0 < i < j < |lineage| ==> lineage[i].base <= lineage[j].base)
  }

  /** What the last node of a lineage reads: below its base, what its parent reads. */
  ghost function Seen(src: Source, lineage: seq<Ref>): seq<Unit> {
    if lineage == [] then []
    else
      var r := lineage[|lineage| - 1];
      if |lineage| == 1 then UnitsOf(src, r.node)
      else if r.base == 0 then Seen(src, lineage[..|lineage| - 1])
      else Between(Seen(src, lineage[..|lineage| - 1]), 0, r.base - 1) + Above(UnitsOf(src, r.node), r.base - 1)
  }

  /** The units keyed past `from`. */
  function Above(s: seq<Unit>, from: nat): seq<Unit> {
    if s == [] then []
    else
      var front := Above(s[..|s| - 1], from);
      if s[|s| - 1].key > from then front + [s[|s| - 1]] else front
  }

  lemma {:induction false} AboveBetween(s: seq<Unit>, a: nat, from: nat, to: nat)
    ensures Between(Above(s, a), from, to) == Between(s, if a < from then from else a, to)
  {
    if s != [] {
      var front, u := s[..|s| - 1], s[|s| - 1];
      AboveBetween(front, a, from, to);
      if u.key > a {
        BetweenOne(Above(front, a), u, from, to);
      }
    }
  }

  lemma Empty(s: seq<Unit>, from: nat, to: nat)
    requires to <= from
    ensures Between(s, from, to) == []
  {
    BetweenNone(s, from, to);
  }

  lemma SeenIs(src: Source, lineage: seq<Ref>)
    requires Forked(lineage) && |lineage| > 1
    ensures var r, up := lineage[|lineage| - 1], lineage[..|lineage| - 1];
            && r.base >= 1 && Forked(up)
            && Seen(src, lineage) == Between(Seen(src, up), 0, r.base - 1) + Above(UnitsOf(src, r.node), r.base - 1)
  {
    hide Between, Above;
  }

  lemma SeenRoot(src: Source, lineage: seq<Ref>)
    requires |lineage| == 1
    ensures Seen(src, lineage) == UnitsOf(src, lineage[0].node)
  {
  }

  /** From its base on, the last node's own units are what is seen... */
  lemma SeenOwn(src: Source, lineage: seq<Ref>, from: nat, to: nat)
    requires Forked(lineage) && lineage != [] && (|lineage| > 1 ==> lineage[|lineage| - 1].base - 1 <= from)
    ensures Between(Seen(src, lineage), from, to) == Between(UnitsOf(src, lineage[|lineage| - 1].node), from, to)
  {
    hide *;
    if |lineage| > 1 {
      SeenIs(src, lineage);
      var r, up := lineage[|lineage| - 1], Seen(src, lineage[..|lineage| - 1]);
      var own := UnitsOf(src, r.node);
      BetweenJoin(Between(up, 0, r.base - 1), Above(own, r.base - 1), from, to);
      BetweenTwice(up, 0, r.base - 1, from, to);
      AboveBetween(own, r.base - 1, from, to);
      Empty(up, from, if r.base - 1 < to then r.base - 1 else to);
      assert [] + Between(own, from, to) == Between(own, from, to);
    } else {
      SeenRoot(src, lineage);
    }
  }

  /** ... and below it, what the parent sees. */
  lemma SeenParent(src: Source, lineage: seq<Ref>, from: nat, to: nat)
    requires Forked(lineage) && |lineage| > 1 && to <= lineage[|lineage| - 1].base - 1
    ensures Between(Seen(src, lineage), from, to) == Between(Seen(src, lineage[..|lineage| - 1]), from, to)
  {
    hide *;
    SeenIs(src, lineage);
    var r, up := lineage[|lineage| - 1], Seen(src, lineage[..|lineage| - 1]);
    var own := UnitsOf(src, r.node);
    BetweenJoin(Between(up, 0, r.base - 1), Above(own, r.base - 1), from, to);
    BetweenTwice(up, 0, r.base - 1, from, to);
    AboveBetween(own, r.base - 1, from, to);
    Empty(own, if r.base - 1 < from then from else r.base - 1, to);
    assert Between(up, from, to) + [] == Between(up, from, to);
  }

  /** A coordinate between a node's base and the next one is that node's. */
  lemma {:induction false} SeenAt(src: Source, lineage: seq<Ref>, i: nat, from: nat, to: nat)
    requires Forked(lineage) && i < |lineage|
    requires i > 0 ==> lineage[i].base - 1 <= from
    requires i + 1 < |lineage| ==> to <= lineage[i + 1].base - 1
    ensures Between(Seen(src, lineage), from, to) == Between(UnitsOf(src, lineage[i].node), from, to)
    decreases |lineage|
  {
    if i + 1 == |lineage| {
      SeenOwn(src, lineage, from, to);
    } else {
      var front := lineage[..|lineage| - 1];
      assert i + 1 < |lineage| - 1 ==> lineage[i + 1].base <= lineage[|lineage| - 1].base;
      SeenParent(src, lineage, from, to);
      SeenAt(src, front, i, from, to);
    }
  }

  lemma AscendJoin(a: seq<Unit>, b: seq<Unit>, cut: nat)
    requires Ascending(a) && Ascending(b)
    requires forall i :: 0 <= i < |a| ==> a[i].key <= cut
    requires forall i :: 0 <= i < |b| ==> b[i].key > cut
    ensures Ascending(a + b)
  {
  }

  lemma {:induction false} SeenAscends(src: Source, lineage: seq<Ref>)
    requires Sound(src) && Forked(lineage)
    ensures Ascending(Seen(src, lineage))
  {
    if |lineage| > 1 {
      SeenIs(src, lineage);
      var r, up := lineage[|lineage| - 1], Seen(src, lineage[..|lineage| - 1]);
      var own := UnitsOf(src, r.node);
      assert Ascending(own);
      hide *;
      SeenAscends(src, lineage[..|lineage| - 1]);
      BetweenMembers(up, 0, r.base - 1);
      AboveMembers(own, r.base - 1);
      AscendJoin(Between(up, 0, r.base - 1), Above(own, r.base - 1), r.base - 1);
    }
  }

  lemma {:induction false} AboveMembers(s: seq<Unit>, from: nat)
    requires Ascending(s)
    ensures Ascending(Above(s, from)) && forall i :: 0 <= i < |Above(s, from)| ==> Above(s, from)[i].key > from
    ensures forall i :: 0 <= i < |Above(s, from)| ==> s != [] && Above(s, from)[i].key <= s[|s| - 1].key
  {
    if s != [] {
      AboveMembers(s[..|s| - 1], from);
    }
  }

  // ---- splitting a range over a lineage ----

  function Served(src: Source, cuts: seq<Coord>): seq<Unit> {
    if cuts == [] then []
    else
      var c := cuts[|cuts| - 1];
      Served(src, cuts[..|cuts| - 1]) + Between(UnitsOf(src, c.node), c.from, c.to)
  }

  /** Cut a range so that every coordinate goes to the node that owns it. */
  method Split(ghost src: Source, lineage: seq<Ref>, from: nat, to: nat) returns (cuts: seq<Coord>)
    requires lineage != [] && Forked(lineage) && from <= to && Sound(src)
    ensures Served(src, cuts) == Between(Seen(src, lineage), from, to)
    ensures Linked(cuts, from, to)
  {
    hide *;
    cuts := [];
    var lo, i := from, 0;
    SeenAscends(src, lineage);
    NothingServed(src, lineage, from);
    NoCuts(from);
    while i < |lineage|
      invariant 0 <= i <= |lineage| && from <= lo <= to
      invariant i > 0 && lo < to ==> i < |lineage| && lineage[i].base >= 1 && lineage[i].base - 1 <= lo
      invariant Served(src, cuts) == Between(Seen(src, lineage), from, lo)
      invariant Linked(cuts, from, lo)
    {
      var hi := to;
      BaseAt(lineage, i + 1);
      if i + 1 < |lineage| && lineage[i + 1].base > 0 && lineage[i + 1].base - 1 < hi {
        hi := lineage[i + 1].base - 1;
      }
      if hi > lo {
        SeenAt(src, lineage, i, lo, hi);
        BetweenSplit(Seen(src, lineage), from, lo, hi);
        ServedOne(src, cuts, Coord(lineage[i].node, lo, hi));
        CutsLink(cuts, from, lo, Coord(lineage[i].node, lo, hi));
        cuts := cuts + [Coord(lineage[i].node, lo, hi)];
        lo := hi;
      }
      if lo >= to {
        break;
      }
      i := i + 1;
    }
  }

  /** Non-empty ranges, each starting where the one before it ends, from `from` to `to`. */
  ghost predicate Linked(cuts: seq<Coord>, from: nat, to: nat) {
    && (forall i :: 0 <= i < |cuts| ==> cuts[i].from < cuts[i].to)
    && (forall i, j :: 0 <= i && j == i + 1 < |cuts| ==> cuts[i].to == cuts[j].from)
    && (cuts == [] <==> from == to)
    && (cuts != [] ==> cuts[0].from == from && cuts[|cuts| - 1].to == to)
  }

  lemma NoCuts(from: nat)
    ensures Linked([], from, from)
  {
  }

  lemma CutsLink(cuts: seq<Coord>, from: nat, lo: nat, c: Coord)
    requires Linked(cuts, from, lo) && from <= lo && c.from == lo < c.to
    ensures Linked(cuts + [c], from, c.to)
  {
  }

  lemma BaseAt(lineage: seq<Ref>, i: nat)
    requires Forked(lineage)
    ensures 0 < i < |lineage| ==> lineage[i].base >= 1
  {
  }

  lemma CutsBounded(cuts: seq<Coord>, from: nat, to: nat, i: nat)
    requires Linked(cuts, from, to) && i < |cuts|
    ensures cuts[i].from <= cuts[i].to
  {
  }

  lemma NothingServed(src: Source, lineage: seq<Ref>, from: nat)
    ensures Served(src, []) == Between(Seen(src, lineage), from, from)
  {
    Empty(Seen(src, lineage), from, from);
  }

  lemma ServedNone(src: Source, cuts: seq<Coord>)
    ensures Served(src, cuts[..0]) == []
  {
  }

  lemma ServedOne(src: Source, cuts: seq<Coord>, c: Coord)
    ensures Served(src, cuts + [c]) == Served(src, cuts) + Between(UnitsOf(src, c.node), c.from, c.to)
  {
    assert (cuts + [c])[..|cuts|] == cuts;
  }

  // ---- the cache ----

  /** The first unit keyed past `bound`: a binary search. */
  method FirstPast(units: seq<Unit>, bound: nat) returns (i: nat)
    requires Ascending(units)
    ensures i <= |units|
    ensures forall k :: 0 <= k < i ==> units[k].key <= bound
    ensures forall k :: i <= k < |units| ==> units[k].key > bound
  {
    var lo, hi := 0, |units|;
    while lo < hi
      invariant 0 <= lo <= hi <= |units|
      invariant forall k :: 0 <= k < lo ==> units[k].key <= bound
      invariant forall k :: hi <= k < |units| ==> units[k].key > bound
    {
      var mid := (lo + hi) / 2;
      if units[mid].key > bound {
        hi := mid;
      } else {
        lo := mid + 1;
      }
    }
    return lo;
  }

  lemma {:induction false} BetweenAll(s: seq<Unit>, from: nat, to: nat)
    requires forall k :: 0 <= k < |s| ==> from < s[k].key <= to
    ensures Between(s, from, to) == s
  {
    if s != [] {
      BetweenAll(s[..|s| - 1], from, to);
    }
  }

  lemma BetweenIs(s: seq<Unit>, from: nat, to: nat, lo: nat, hi: nat)
    requires lo <= hi <= |s|
    requires forall k :: 0 <= k < lo ==> s[k].key <= from
    requires forall k :: lo <= k < hi ==> from < s[k].key <= to
    requires forall k :: hi <= k < |s| ==> s[k].key > to
    ensures Between(s, from, to) == s[lo..hi]
  {
    hide Between;
    BetweenParts(s[..lo], s[lo..hi], s[hi..], from, to);
    assert s == s[..lo] + s[lo..hi] + s[hi..];
  }

  lemma BetweenParts(a: seq<Unit>, b: seq<Unit>, c: seq<Unit>, from: nat, to: nat)
    requires forall k :: 0 <= k < |a| ==> a[k].key <= from
    requires forall k :: 0 <= k < |b| ==> from < b[k].key <= to
    requires forall k :: 0 <= k < |c| ==> c[k].key > to
    ensures Between(a + b + c, from, to) == b
  {
    hide Between;
    BetweenNone(a, from, to);
    BetweenAll(b, from, to);
    BetweenNone(c, from, to);
    BetweenJoin(a, b, from, to);
    BetweenJoin(a + b, c, from, to);
  }

  /** The units of (from..to] by two binary searches. Asked for a range that ends before
      it begins, it slices backwards, and that is a crash unless nothing lies between. */
  method Slice(units: seq<Unit>, from: nat, to: nat) returns (r: Option<seq<Unit>>)
    requires Ascending(units)
    ensures from <= to ==> r == Some(Between(units, from, to))
    ensures from > to ==> r == if Between(units, to, from) == [] then Some([]) else None
  {
    var lo := FirstPast(units, from);
    var hi := FirstPast(units, to);
    if from <= to {
      assert hi < |units| ==> units[hi].key > from;
      BetweenIs(units, from, to, lo, hi);
    } else {
      assert lo < |units| ==> units[lo].key > to;
      BetweenIs(units, to, from, hi, lo);
    }
    return if lo <= hi then Some(units[lo..hi]) else None;
  }

  /** The same by two forward scans. */
  method SliceUnits(units: seq<Unit>, from: nat, to: nat) returns (r: seq<Unit>)
    requires Ascending(units)
    ensures r == Between(units, from, to)
  {
    var lo := 0;
    while lo < |units| && units[lo].key <= from
      invariant 0 <= lo <= |units| && forall k :: 0 <= k < lo ==> units[k].key <= from
    {
      lo := lo + 1;
    }
    var hi := lo;
    while hi < |units| && units[hi].key <= to
      invariant lo <= hi <= |units|
      invariant forall k :: lo <= k < hi ==> from < units[k].key <= to
    {
      hi := hi + 1;
    }
    forall k | hi <= k < |units| ensures units[k].key > to {
      assert k > hi ==> units[hi].key < units[k].key;
    }
    BetweenIs(units, from, to, lo, hi);
    return units[lo..hi];
  }

  datatype Outcome = Done | SourceFailed | Crashed

  /** How far a visit of the runs `ids` gets, starting from `pos`, for a range ending at `to`. */
  function Reach(table: seq<Run>, ids: seq<nat>, node: string, pos: nat, to: nat): nat {
    if ids == [] then pos
    else
      var p := Reach(table, ids[..|ids| - 1], node, pos, to);
      var id := ids[|ids| - 1];
      if Visits(table, id, node, p, to) then table[id].coord.to else p
  }

  predicate Visits(table: seq<Run>, id: nat, node: string, pos: nat, to: nat) {
    id < |table| && table[id].coord.node == node && table[id].coord.to > pos && table[id].coord.from < to
  }

  /** The `j`th visited run is resident, starts inside the range, and ends past one that
      already went beyond the end of the range, with units in between. */
  ghost predicate Overtakes(src: Source, table: seq<Run>, ids: seq<nat>, coord: Coord, j: nat) {
    && j < |ids|
    && var p := Reach(table, ids[..j], coord.node, coord.from, coord.to);
       p > coord.to && Visits(table, ids[j], coord.node, p, coord.to) && table[ids[j]].resident
       && Between(UnitsOf(src, coord.node), coord.to, p) != []
  }

  /** The same runs in the same places, more perhaps behind them. */
  ghost predicate Extends(before: seq<Run>, after: seq<Run>) {
    |before| <= |after| && forall i :: 0 <= i < |before| ==> after[i].coord == before[i].coord
  }

  /** Resident runs stayed as they were. */
  ghost predicate Keeps(before: seq<Run>, after: seq<Run>) {
    |before| <= |after| && forall i :: 0 <= i < |before| && before[i].resident ==> after[i] == before[i]
  }

  /** No run was refilled, except perhaps `id`. */
  ghost predicate Fills(before: seq<Run>, after: seq<Run>, id: nat) {
    |before| <= |after| && forall i :: 0 <= i < |before| && i != id && after[i].resident ==> before[i].resident
  }

  /** Only runs that a visit has passed were refilled. */
  ghost predicate Passed(was: seq<Run>, table: seq<Run>, pos: nat) {
    |was| <= |table| && forall i :: 0 <= i < |was| && table[i].resident ==> was[i].resident || was[i].coord.to <= pos
  }

  /** One node's runs, listed by where they start. */
  ghost predicate Listed(table: seq<Run>, node: string, ids: seq<nat>) {
    && (forall i :: 0 <= i < |ids| ==> ids[i] < |table| && table[ids[i]].coord.node == node)
    && (forall i, j :: 0 <= i < j < |ids| ==> table[ids[i]].coord.from <= table[ids[j]].coord.from)
  }

  ghost predicate Ordered(table: seq<Run>, order: map<string, seq<nat>>) {
    forall n :: n in order ==> Listed(table, n, order[n])
  }

  lemma OrderedExtends(before: seq<Run>, after: seq<Run>, order: map<string, seq<nat>>)
    requires Ordered(before, order) && Extends(before, after)
    ensures Ordered(after, order)
  {
    forall n | n in order ensures Listed(after, n, order[n]) {
      assert Listed(before, n, order[n]);
    }
  }

  /** No listed run starts before `from`. */
  ghost predicate NoneEarlier(table: seq<Run>, ids: seq<nat>, from: nat) {
    forall i :: 0 <= i < |ids| ==> ids[i] < |table| && table[ids[i]].coord.from >= from
  }

  /** No listed run is at exactly this place. */
  ghost predicate Unlisted(table: seq<Run>, ids: seq<nat>, c: Coord) {
    forall i :: 0 <= i < |ids| ==> ids[i] < |table| && table[ids[i]].coord != c
  }

  lemma ListedAt(table: seq<Run>, ids: seq<nat>, c: Coord, at: Option<nat>)
    requires at.Some? ==> at.value < |table| && table[at.value].coord == c && at.value in ids
    ensures Unlisted(table, ids, c) ==> at.None?
  {
  }

  lemma ListedInsert(table: seq<Run>, ids: seq<nat>, r: Run, at: nat)
    requires Listed(table, r.coord.node, ids) && at <= |ids|
    requires forall i :: 0 <= i < at ==> table[ids[i]].coord.from < r.coord.from
    requires forall i :: at <= i < |ids| ==> table[ids[i]].coord.from >= r.coord.from
    ensures Listed(table + [r], r.coord.node, ids[..at] + [|table|] + ids[at..])
  {
  }

  lemma Longer(t: seq<Run>, r: Run)
    ensures Extends(t, t + [r]) && Keeps(t, t + [r])
  {
  }

  lemma Reflexive(t: seq<Run>)
    ensures Extends(t, t)
  {
  }

  lemma NobodySees(src: Source, lineage: seq<Ref>, from: nat, to: nat)
    requires lineage == []
    ensures Between(Seen(src, lineage), from, to) == []
  {
  }

  /** Run `k` starts inside the range and ends at `pos`, past the end of it. */
  ghost predicate Ends(table: seq<Run>, k: nat, c: Coord, pos: nat) {
    k < |table| && table[k].coord.node == c.node && table[k].coord.from < c.to < pos == table[k].coord.to
  }

  /** Two runs start inside the range and end past it, at different places, with units
      between the end of the range and the nearer of the two. */
  ghost predicate Straddled(src: Source, table: seq<Run>, c: Coord) {
    exists a, b, p, q :: Ends(table, a, c, p) && Ends(table, b, c, q) && p < q
        && Between(UnitsOf(src, c.node), c.to, p) != []
  }

  /** The runs added since are this node's, none longer than 64 coordinates and none pinned;
      as long as nothing is evicted they are resident. */
  ghost predicate Chunks(table: seq<Run>, from: nat, node: string, calm: bool) {
    forall i :: from <= i < |table| ==> Chunk(table[i], node, calm)
  }

  ghost predicate Chunk(r: Run, node: string, calm: bool) {
    r.coord.node == node && 0 < r.coord.to - r.coord.from <= 64 && !r.pinned && (calm ==> r.resident)
  }

  lemma NoChunks(table: seq<Run>, node: string, calm: bool)
    ensures Chunks(table, |table|, node, calm)
  {
  }

  lemma ChunkMore(before: seq<Run>, r: Run, after: seq<Run>, from: nat, node: string, calm: bool)
    requires Chunks(before, from, node, calm) && |after| == |before| + 1 && Extends(before + [r], after)
    requires Chunk(r, node, calm) && (calm ==> after == before + [r])
    requires forall i :: 0 <= i < |after| ==> after[i].pinned == (before + [r])[i].pinned
    ensures Chunks(after, from, node, calm)
  {
    forall i | from <= i < |after| ensures Chunk(after[i], node, calm) {
      assert after[i].coord == (before + [r])[i].coord;
      assert i < |before| ==> Chunk(before[i], node, calm);
    }
  }

  class Window {
    const src: Source
    /** Which calls of the source fail, and which runs each charge hollows. */
    const fails: nat -> bool
    const sweep: nat -> set<nat>
    var table: seq<Run>
    var order: map<string, seq<nat>>
    var recomposes: nat
    var charges: nat

    function Fetched(c: Coord): seq<Unit> {
      Between(UnitsOf(src, c.node), c.from, c.to)
    }

    /** A resident run holds what the source holds. */
    ghost predicate RunOk(r: Run) {
      r.coord.from <= r.coord.to && (r.resident ==> r.units == Fetched(r.coord))
    }

    ghost predicate Valid()
      reads this
    {
      Sound(src) && Ordered(table, order) && forall i :: 0 <= i < |table| ==> RunOk(table[i])
    }

    constructor (src: Source, fails: nat -> bool, sweep: nat -> set<nat>)
      requires Sound(src)
      ensures Valid() && this.src == src && this.fails == fails && this.sweep == sweep && table == [] && order == map[]
      ensures recomposes == 0 && charges == 0
    {
      this.src, this.fails, this.sweep := src, fails, sweep;
      table, order, recomposes, charges := [], map[], 0, 0;
    }

    ghost predicate Quiet() {
      (forall n :: !fails(n)) && forall n :: sweep(n) == {}
    }

    method Fetch(c: Coord) returns (r: Option<seq<Unit>>)
      modifies `recomposes
      ensures r.Some? ==> r.value == Fetched(c)
      ensures (r.None? <==> fails(old(recomposes))) && recomposes == old(recomposes) + 1
    {
      var n := recomposes;
      recomposes := recomposes + 1;
      if fails(n) {
        return None;
      }
      return Some(Fetched(c));
    }

    /** The budget takes what it takes: any unpinned runs. */
    method Charge()
      requires Valid()
      modifies `table, `charges
      ensures Valid() && |table| == |old(table)| && Extends(old(table), table) && (Quiet() ==> table == old(table))
      ensures Fills(old(table), table, |table|)
      ensures forall i :: 0 <= i < |table| && old(table)[i].pinned ==> table[i] == old(table)[i]
      ensures charges == old(charges) + 1 && forall i :: 0 <= i < |table| ==> table[i].pinned == old(table)[i].pinned
    {
      var victims, was := sweep(charges), table;
      charges := charges + 1;
      table := seq(|was|, i requires 0 <= i < |was| =>
        if i in victims && was[i].resident && !was[i].pinned then was[i].(units := [], resident := false) else was[i]);
      assert Quiet() ==> table == was;
      OrderedExtends(was, table, order);
    }

    function IdsOf(node: string): seq<nat>
      reads this
    {
      if node in order then order[node] else []
    }

    /** The first of a node's runs that starts at or after `from`: a binary search. */
    method FirstFrom(node: string, from: nat) returns (at: nat)
      requires Valid()
      ensures at <= |IdsOf(node)| && Listed(table, node, IdsOf(node))
      ensures forall i :: 0 <= i < at ==> table[IdsOf(node)[i]].coord.from < from
      ensures forall i :: at <= i < |IdsOf(node)| ==> table[IdsOf(node)[i]].coord.from >= from
    {
      var ids := IdsOf(node);
      assert Listed(table, node, ids);
      hide Valid;
      var lo, hi := 0, |ids|;
      while lo < hi
        invariant 0 <= lo <= hi <= |ids|
        invariant forall i :: 0 <= i < lo ==> table[ids[i]].coord.from < from
        invariant forall i :: hi <= i < |ids| ==> table[ids[i]].coord.from >= from
      {
        var mid := (lo + hi) / 2;
        if table[ids[mid]].coord.from >= from {
          hi := mid;
        } else {
          lo := mid + 1;
        }
      }
      return lo;
    }

    /** The run at exactly this place, if it is the first of those starting there. */
    method At(c: Coord) returns (r: Option<nat>)
      requires Valid()
      ensures r.Some? ==> r.value < |table| && table[r.value].coord == c && r.value in IdsOf(c.node)
      ensures r.None? ==>
                forall i ::
                  0 <= i < |IdsOf(c.node)| && IdsOf(c.node)[i] < |table| && table[IdsOf(c.node)[i]].coord == c ==>
                  exists j :: 0 <= j < i && IdsOf(c.node)[j] < |table| && table[IdsOf(c.node)[j]].coord.from == c.from
    {
      var at := FirstFrom(c.node, c.from);
      var ids := IdsOf(c.node);
      hide Valid, Ordered;
      if at < |ids| && table[ids[at]].coord == c {
        return Some(ids[at]);
      }
      return None;
    }

    /** Place a run before the first that starts no earlier. */
    method Insert(r: Run)
      requires Valid() && RunOk(r)
      modifies `table, `order
      ensures Valid() && table == old(table) + [r]
      ensures r.coord.node in order && |order[r.coord.node]| == |old(IdsOf(r.coord.node))| + 1
      ensures NoneEarlier(old(table), old(IdsOf(r.coord.node)), r.coord.from) ==>
                order[r.coord.node] == [|old(table)|] + old(IdsOf(r.coord.node))
    {
      var at := FirstFrom(r.coord.node, r.coord.from);
      var ids := IdsOf(r.coord.node);
      ListedInsert(table, ids, r, at);
      OrderedExtends(table, table + [r], order);
      hide Listed;
      order := order[r.coord.node := ids[..at] + [|table|] + ids[at..]];
      table := table + [r];
      assert at == 0 ==> ids[..0] + [|old(table)|] + ids[0..] == [|old(table)|] + ids;
    }

    /** Fill a gap with new runs of at most CHUNK coordinates. */
    method Materialize(c: Coord) returns (r: Option<seq<Unit>>)
      requires Valid() && c.from <= c.to
      modifies this
      ensures Valid() && Extends(old(table), table) && (Quiet() ==> Keeps(old(table), table) && r.Some?)
      ensures Fills(old(table), table, |old(table)|)
      ensures r.Some? ==> r.value == Fetched(c)
      ensures Chunks(table, |old(table)|, c.node, Quiet())
    {
      hide Sound, Between, Chunks;
      NoChunks(table, c.node, Quiet());
      var all, lo := [], c.from;
      ghost var s := UnitsOf(src, c.node);
      AscendingUnits(c.node);
      Empty(s, c.from, c.from);
      while lo < c.to
        invariant c.from <= lo <= c.to && Valid() && Extends(old(table), table)
        invariant (Quiet() ==> Keeps(old(table), table)) && Fills(old(table), table, |old(table)|)
        invariant all == Between(s, c.from, lo)
        invariant Chunks(table, |old(table)|, c.node, Quiet())
      {
        var hi := lo + CHUNK;
        if hi > c.to {
          hi := c.to;
        }
        var units := Fetch(Coord(c.node, lo, hi));
        if units.None? {
          return None;
        }
        BetweenSplit(s, c.from, lo, hi);
        ghost var before, r := table, Run(Coord(c.node, lo, hi), units.value, true, false);
        Insert(Run(Coord(c.node, lo, hi), units.value, true, false));
        Charge();
        ChunkMore(before, r, table, |old(table)|, c.node, Quiet());
        all := all + units.value;
        lo := hi;
      }
      return Some(all);
    }

    lemma AscendingUnits(node: string)
      requires Sound(src)
      ensures Ascending(UnitsOf(src, node))
    {
    }

    /** Refill a hollow run in place; it may be gone again before this returns. */
    method Refill(id: nat) returns (r: Option<seq<Unit>>)
      requires Valid() && id < |table|
      modifies this
      ensures Valid() && Extends(old(table), table) && Fills(old(table), table, id)
      ensures Quiet() && !old(table)[id].resident ==> Keeps(old(table), table) && r.Some? && table[id].resident
      ensures table[id].pinned == old(table)[id].pinned
      ensures r.Some? ==> r.value == Fetched(old(table)[id].coord)
    {
      hide Sound, Between;
      var units := Fetch(table[id].coord);
      if units.None? {
        return None;
      }
      ghost var was := table;
      table := table[id := table[id].(units := units.value, resident := true)];
      OrderedExtends(was, table, order);
      Charge();
      return units;
    }

    /** One run of the visit: the gap before it, then its part of the range. */
    method Visit(c: Coord, id: nat, pos: nat) returns (more: seq<Unit>, how: Outcome)
      requires Valid() && Visits(table, id, c.node, pos, c.to) && c.from <= pos
      modifies this
      ensures Valid() && Extends(old(table), table) && (Quiet() ==> Keeps(old(table), table))
                && Fills(old(table), table, id)
      ensures var end := old(table)[id].coord.to;
              how == Done ==> more == Between(UnitsOf(src, c.node), pos, if end < c.to then end else c.to)
      ensures how == Crashed ==> old(table)[id].resident && pos > c.to && Between(UnitsOf(src, c.node), c.to, pos) != []
      ensures Quiet() && old(table)[id].resident && pos > c.to && Between(UnitsOf(src, c.node), c.to, pos) != [] ==>
                how == Crashed
      ensures Quiet() ==> how != SourceFailed
      ensures old(table)[id].resident && old(table)[id].coord.from <= pos ==>
                table == old(table) && recomposes == old(recomposes)
    {
      hide Sound, Between;
      ghost var s, run := UnitsOf(src, c.node), table[id].coord;
      AscendingUnits(c.node);
      more := [];
      Empty(s, pos, pos);
      if table[id].coord.from > pos {
        var gap := Materialize(Coord(c.node, pos, table[id].coord.from));
        if gap.None? {
          return [], SourceFailed;
        }
        more := gap.value;
      }
      ghost var at := if run.from > pos then run.from else pos;
      assert more == Between(s, pos, at);
      BetweenTwice(s, run.from, run.to, pos, c.to);
      ghost var end := if run.to < c.to then run.to else c.to;
      if at <= end {
        BetweenSplit(s, pos, at, end);
      } else {
        Empty(s, at, end);
        Empty(s, pos, end);
      }
      BetweenMembers(s, run.from, run.to);
      if !table[id].resident {
        var units := Refill(id);
        if units.None? {
          return [], SourceFailed;
        }
        var part := SliceUnits(units.value, pos, c.to);
        return more + part, Done;
      }
      if pos > c.to {
        BetweenTwice(s, run.from, run.to, c.to, pos);
      }
      var part := Slice(table[id].units, pos, c.to);
      if part.None? {
        return [], Crashed;
      }
      return more + part.value, Done;
    }

    /** Serve one node's part of a range. `visit` are the runs the loop comes across, in
        whatever order and however many of them: the result does not depend on it. It
        crashes only where a resident run overtakes another beyond the end of the range,
        and, as long as nothing is evicted, wherever one does. Hollow runs do not crash. */
    method RangeInNode(c: Coord, visit: seq<nat>) returns (out: seq<Unit>, how: Outcome)
      requires Valid() && c.from <= c.to
      modifies this
      ensures Valid() && Extends(old(table), table) && (Quiet() ==> how != SourceFailed)
      ensures how == Done ==> out == Fetched(c)
      ensures how != Done ==> Begins(UnitsOf(src, c.node), c, out)
      ensures how == Crashed ==> Straddled(src, table, c)
      ensures how == Crashed && Inside(old(table), visit) ==> Overtaken(src, old(table), visit, c)
      ensures Quiet() && Inside(old(table), visit) ==> (how == Crashed <==> Overtaken(src, old(table), visit, c))
      ensures Inside(old(table), visit) && Warm(old(table), visit, c) ==>
                table == old(table) && recomposes == old(recomposes)
    {
      hide *;
      ghost var was, calm := table, Quiet();
      ValidIs();
      ghost var s := UnitsOf(src, c.node);
      AscendingUnits(c.node);
      out := [];
      Empty(s, c.from, c.from);
      Starts(src, was, visit, c, calm);
      var pos, i := c.from, 0;
      while i < |visit|
        invariant 0 <= i <= |visit| && c.from <= pos && Valid() && Tracks(src, was, table, visit, i, c, pos, calm)
        invariant (Quiet() ==> Keeps(was, table)) && Passed(was, table, pos)
        invariant out == Between(s, c.from, if pos < c.to then pos else c.to)
        invariant Inside(was, visit) && Warm(was, visit, c) ==> table == was && recomposes == old(recomposes)
      {
        var id := visit[i];
        ghost var before := table;
        if Visits(table, id, c.node, pos, c.to) {
          VisitIs(table, id, c, pos);
          var end := table[id].coord.to;
          TracksExtends(src, was, table, visit, i, c, pos, calm);
          if Inside(was, visit) {
            Residency(was, table, visit, i, c, pos, calm);
            ReachedAt(src, was, table, visit, i, c, pos, calm);
            if Warm(was, visit, c) {
              WarmAt(was, visit, i, c, pos);
            }
          }
          BeginsAt(s, c, pos, out);
          var more;
          more, how := Visit(c, id, pos);
          Extended(was, before, table);
          PassedOn(was, before, table, id, pos, end);
          if how != Done {
            if how == Crashed {
              TracksCrash(src, was, before, table, visit, i, c, pos, calm);
            }
            return;
          }
          TracksOn(src, was, before, table, visit, i, c, pos, calm);
          SplitAt(s, c.from, pos, end, c.to);
          out := out + more;
          pos := end;
        } else {
          TracksSkip(src, was, table, visit, i, c, pos, calm);
        }
        i := i + 1;
      }
      TracksExtends(src, was, table, visit, i, c, pos, calm);
      if Inside(was, visit) {
        ReachedAt(src, was, table, visit, i, c, pos, calm);
        if Warm(was, visit, c) {
          WarmEnds(was, visit, c, pos);
        }
      }
      if pos < c.to {
        ghost var before := table;
        BeginsAt(s, c, pos, out);
        var gap := Materialize(Coord(c.node, pos, c.to));
        Extended(was, before, table);
        if gap.None? {
          return out, SourceFailed;
        }
        FetchedIs(Coord(c.node, pos, c.to));
        BetweenSplit(s, c.from, pos, c.to);
        out := out + gap.value;
      }
      FetchedIs(c);
      how := Done;
    }

    /** A range along a lineage: each part from the node that owns it, in order. The loop
        over part `i` comes across the runs `visits(i)`: filling a gap moves the others in
        place or not, as the slice has room. `parts` are the parts it began, each with the
        table it met; it crashes, as long as nothing is evicted, where one is overtaken. */
    method Range(lineage: seq<Ref>, from: nat, to: nat, visits: nat -> seq<nat>)
      returns (out: seq<Unit>, how: Outcome, ghost parts: seq<Part>)
      requires Valid() && Forked(lineage)
      modifies this
      ensures Valid() && Extends(old(table), table)
      ensures how == Done ==> out == if to < from then [] else Between(Seen(src, lineage), from, to)
      ensures how == Crashed ==> exists c :: Straddled(src, table, c)
      ensures Quiet() ==> how != SourceFailed
      ensures forall i :: 0 <= i < |parts| ==> Extends(old(table), parts[i].table)
      ensures parts != [] ==> parts[0].table == old(table)
      ensures Quiet() && (forall i: nat :: i < |parts| ==> Inside(parts[i].table, visits(i))) ==>
                (how == Crashed <==> exists i: nat :: i < |parts| && Hit(src, parts[i], visits(i)))
    {
      hide *;
      ValidIs();
      out, parts := [], [];
      Extended(table, table, table);
      Reflexive(table);
      if |lineage| == 0 || to < from {
        if |lineage| == 0 {
          NobodySees(src, lineage, from, to);
        }
        return out, Done, [];
      }
      ghost var was := table;
      var cuts := Split(src, lineage, from, to);
      var i := 0;
      ServedNone(src, cuts);
      while i < |cuts|
        invariant 0 <= i <= |cuts| && Valid() && Extends(was, table) && out == Served(src, cuts[..i])
        invariant |parts| == i && (i == 0 ==> table == was) && (i > 0 ==> parts[0].table == was)
        invariant forall k :: 0 <= k < i ==> Extends(was, parts[k].table)
        invariant Quiet() ==> forall k: nat :: k < i && Inside(parts[k].table, visits(k)) ==>
                    !Hit(src, parts[k], visits(k))
      {
        var c := cuts[i];
        CutsBounded(cuts, from, to, i);
        ghost var before := table;
        parts := parts + [Part(table, c)];
        HitIs(src, parts[i], visits(i));
        var units;
        units, how := RangeInNode(c, visits(i));
        Extended(was, before, table);
        if how != Done {
          return;
        }
        FetchedIs(c);
        assert cuts[..i + 1] == cuts[..i] + [c];
        ServedOne(src, cuts[..i], c);
        out := out + units;
        i := i + 1;
      }
      assert cuts[..|cuts|] == cuts;
      how := Done;
    }

    /** Seed a run with units the source agrees on. A run at exactly this place that
        comes first among those starting there is replaced. */
    method Put(c: Coord, units: seq<Unit>, pinned: bool)
      requires Valid() && c.from <= c.to && units == Fetched(c)
      modifies this
      ensures Valid() && Extends(old(table), table)
      ensures pinned || Quiet() ==> Run(c, units, true, pinned) in table
      ensures Quiet() && Unlisted(old(table), old(IdsOf(c.node)), c) ==>
                && table == old(table) + [Run(c, units, true, pinned)] && c.node in order
                && (NoneEarlier(old(table), old(IdsOf(c.node)), c.from) ==>
                      order[c.node] == [|old(table)|] + old(IdsOf(c.node)))
      ensures forall i :: 0 <= i < |old(table)| && old(table)[i].pinned && old(table)[i].coord != c ==>
                i < |table| && table[i] == old(table)[i]
    {
      hide *;
      ValidIs();
      Reflexive(table);
      var at := At(c);
      ghost var was := table;
      ListedAt(table, IdsOf(c.node), c, at);
      RunsAre();
      var r := Run(c, units, true, pinned);
      Seeded(r);
      if at.Some? {
        table := table[at.value := r];
        Replaced(was, at.value, r);
      } else {
        Insert(r);
        Longer(was, r);
      }
      ghost var before, k := table, if at.Some? then at.value else |was|;
      Charge();
      Extended(was, before, table);
      assert before[k] == r;
      assert pinned || Quiet() ==> table[k] == r;
      Prefixed(was, before);
    }

    lemma Prefixed(was: seq<Run>, after: seq<Run>)
      requires Extends(was, after)
      ensures |was| <= |after|
    {
    }

    lemma Seeded(r: Run)
      requires r.coord.from <= r.coord.to && r.units == Fetched(r.coord)
      ensures RunOk(r)
    {
    }

    lemma Replaced(was: seq<Run>, id: nat, r: Run)
      requires Sound(src) && id < |was| && (forall i :: 0 <= i < |was| ==> RunOk(was[i])) && RunOk(r)
                 && Ordered(was, order)
      requires was[id].coord == r.coord && table == was[id := r]
      ensures Valid() && Extends(was, table)
    {
      OrderedExtends(was, table, order);
    }

    lemma RunsAre()
      requires Valid()
      ensures Sound(src) && Ordered(table, order) && forall i :: 0 <= i < |table| ==> RunOk(table[i])
    {
    }

    lemma QuietIf()
      requires (forall n :: !fails(n)) && (forall n :: sweep(n) == {})
      ensures Quiet()
    {
    }

    lemma IdsAre(n: string)
      ensures IdsOf(n) == if n in order then order[n] else []
    {
    }

    lemma ValidIs()
      requires Valid()
      ensures Sound(src)
    {
    }

    lemma FetchedIs(c: Coord)
      ensures Fetched(c) == Between(UnitsOf(src, c.node), c.from, c.to)
    {
    }
  }

  /** `out` is the beginning of the range. */
  ghost predicate Begins(s: seq<Unit>, c: Coord, out: seq<Unit>) {
    exists p :: c.from <= p <= c.to && out == Between(s, c.from, p)
  }

  lemma BeginsAt(s: seq<Unit>, c: Coord, pos: nat, out: seq<Unit>)
    requires c.from <= c.to && c.from <= pos && out == Between(s, c.from, if pos < c.to then pos else c.to)
    ensures Begins(s, c, out)
  {
    hide Between;
  }

  ghost predicate Overtaken(src: Source, table: seq<Run>, visit: seq<nat>, c: Coord) {
    exists j :: Overtakes(src, table, visit, c, j)
  }

  /** One part of a range, and the runs there were when it began. */
  datatype Part = Part(table: seq<Run>, c: Coord)

  ghost predicate Hit(src: Source, p: Part, visit: seq<nat>) {
    Overtaken(src, p.table, visit, p.c)
  }

  lemma HitIs(src: Source, p: Part, visit: seq<nat>)
    ensures Hit(src, p, visit) <==> Overtaken(src, p.table, visit, p.c)
  {
  }

  ghost predicate Inside(was: seq<Run>, visit: seq<nat>) {
    forall k :: k in visit ==> k < |was|
  }

  /** Where a visit stands after `i` runs: while nothing is evicted, no run has yet been
      overtaken. */
  ghost predicate Tracks(src: Source, was: seq<Run>, table: seq<Run>, visit: seq<nat>, i: nat, c: Coord, pos: nat,
                         calm: bool) {
    && i <= |visit| && Extends(was, table)
    && (pos > c.to ==> exists k :: Ends(table, k, c, pos))
    && (Inside(was, visit) ==> pos == Reach(was, visit[..i], c.node, c.from, c.to))
    && (Inside(was, visit) && calm ==> forall j :: 0 <= j < i ==> !Overtakes(src, was, visit, c, j))
  }

  /** The runs come one behind the other, resident and without a gap, to the end of the range. */
  ghost predicate Warm(table: seq<Run>, visit: seq<nat>, c: Coord) {
    && Reach(table, visit, c.node, c.from, c.to) >= c.to
    && forall j :: 0 <= j < |visit| ==>
         var pos := Reach(table, visit[..j], c.node, c.from, c.to);
         Visits(table, visit[j], c.node, pos, c.to) ==>
           table[visit[j]].resident && table[visit[j]].coord.from <= pos
  }

  lemma WarmAt(table: seq<Run>, visit: seq<nat>, i: nat, c: Coord, pos: nat)
    requires Warm(table, visit, c) && i < |visit| && pos == Reach(table, visit[..i], c.node, c.from, c.to)
    requires Visits(table, visit[i], c.node, pos, c.to)
    ensures visit[i] < |table| && table[visit[i]].resident && table[visit[i]].coord.from <= pos
  {
    hide Reach;
  }

  lemma WarmEnds(table: seq<Run>, visit: seq<nat>, c: Coord, pos: nat)
    requires Warm(table, visit, c) && pos == Reach(table, visit[..|visit|], c.node, c.from, c.to)
    ensures pos >= c.to
  {
    assert visit[..|visit|] == visit;
  }

  lemma ReachedAt(src: Source, was: seq<Run>, table: seq<Run>, visit: seq<nat>, i: nat, c: Coord, pos: nat, calm: bool)
    requires Tracks(src, was, table, visit, i, c, pos, calm) && Inside(was, visit)
    ensures i <= |visit| && pos == Reach(was, visit[..i], c.node, c.from, c.to)
  {
  }

  lemma Starts(src: Source, was: seq<Run>, visit: seq<nat>, c: Coord, calm: bool)
    requires c.from <= c.to
    ensures Tracks(src, was, was, visit, 0, c, c.from, calm) && Keeps(was, was) && Extends(was, was)
              && Passed(was, was, c.from)
  {
  }

  lemma TracksExtends(src: Source, was: seq<Run>, table: seq<Run>, visit: seq<nat>, i: nat, c: Coord, pos: nat,
                      calm: bool)
    requires Tracks(src, was, table, visit, i, c, pos, calm)
    ensures Extends(was, table)
    ensures i == |visit| && Inside(was, visit) && calm ==> !Overtaken(src, was, visit, c)
  {
    hide Reach, Visits, Between;
  }

  lemma ReachOn(was: seq<Run>, visit: seq<nat>, i: nat, c: Coord)
    requires i < |visit|
    ensures var p := Reach(was, visit[..i], c.node, c.from, c.to);
            && (Visits(was, visit[i], c.node, p, c.to) ==> visit[i] < |was|)
            && Reach(was, visit[..i + 1], c.node, c.from, c.to) ==
               if Visits(was, visit[i], c.node, p, c.to) then was[visit[i]].coord.to else p
  {
    assert visit[..i + 1][..i] == visit[..i];
  }

  lemma SameVisit(was: seq<Run>, table: seq<Run>, visit: seq<nat>, i: nat, c: Coord, pos: nat)
    requires Extends(was, table) && Inside(was, visit) && i < |visit|
    ensures var id := visit[i];
            && Visits(table, id, c.node, pos, c.to) == Visits(was, id, c.node, pos, c.to)
            && id < |was| && id < |table| && table[id].coord == was[id].coord
  {
    assert visit[i] in visit;
  }

  lemma TracksSkip(src: Source, was: seq<Run>, table: seq<Run>, visit: seq<nat>, i: nat, c: Coord, pos: nat, calm: bool)
    requires Tracks(src, was, table, visit, i, c, pos, calm) && i < |visit|
               && !Visits(table, visit[i], c.node, pos, c.to)
    ensures Tracks(src, was, table, visit, i + 1, c, pos, calm)
  {
    if Inside(was, visit) {
      SameVisit(was, table, visit, i, c, pos);
      ReachOn(was, visit, i, c);
    }
    hide Reach, Visits, Between, Extends, Ends;
  }

  lemma EndsStay(before: seq<Run>, after: seq<Run>, id: nat, c: Coord, pos: nat)
    requires Extends(before, after) && Visits(before, id, c.node, pos, c.to)
    ensures (exists k :: Ends(before, k, c, pos)) ==> exists k :: Ends(after, k, c, pos)
    ensures id < |before| && (before[id].coord.to > c.to ==> Ends(after, id, c, before[id].coord.to))
  {
    if k :| Ends(before, k, c, pos) {
      assert Ends(after, k, c, pos);
    }
  }

  lemma TracksOn(src: Source, was: seq<Run>, before: seq<Run>, after: seq<Run>, visit: seq<nat>, i: nat, c: Coord,
                 pos: nat, calm: bool)
    requires Tracks(src, was, before, visit, i, c, pos, calm) && i < |visit|
               && Visits(before, visit[i], c.node, pos, c.to)
    requires Extends(was, after) && Extends(before, after)
    requires calm && Inside(was, visit) ==>
               visit[i] < |was| && !(was[visit[i]].resident && pos > c.to
                   && Between(UnitsOf(src, c.node), c.to, pos) != [])
    ensures visit[i] < |before| && Tracks(src, was, after, visit, i + 1, c, before[visit[i]].coord.to, calm)
  {
    EndsStay(before, after, visit[i], c, pos);
    if Inside(was, visit) {
      SameVisit(was, before, visit, i, c, pos);
      ReachOn(was, visit, i, c);
    }
    hide Reach, Visits, Between, Extends, Ends;
  }

  /** A crash at this point is a run overtaking another. */
  lemma TracksCrash(src: Source, was: seq<Run>, before: seq<Run>, after: seq<Run>, visit: seq<nat>, i: nat, c: Coord,
                    pos: nat, calm: bool)
    requires Tracks(src, was, before, visit, i, c, pos, calm) && i < |visit|
               && Visits(before, visit[i], c.node, pos, c.to)
    requires Extends(before, after) && pos > c.to && Between(UnitsOf(src, c.node), c.to, pos) != []
    requires Inside(was, visit) ==> visit[i] < |was| && was[visit[i]].resident
    ensures Straddled(src, after, c) && (Inside(was, visit) ==> Overtaken(src, was, visit, c))
  {
    EndsStay(before, after, visit[i], c, pos);
    VisitIs(before, visit[i], c, pos);
    if Inside(was, visit) {
      SameVisit(was, before, visit, i, c, pos);
      assert Overtakes(src, was, visit, c, i);
    }
    hide Reach, Visits, Between, Extends;
  }

  lemma VisitIs(table: seq<Run>, id: nat, c: Coord, pos: nat)
    requires Visits(table, id, c.node, pos, c.to)
    ensures id < |table| && table[id].coord.node == c.node && table[id].coord.to > pos && table[id].coord.from < c.to
  {
  }

  /** A run about to be visited is as resident as it was at the start. */
  lemma Residency(was: seq<Run>, table: seq<Run>, visit: seq<nat>, i: nat, c: Coord, pos: nat, calm: bool)
    requires Passed(was, table, pos) && Inside(was, visit) && i < |visit| && Visits(table, visit[i], c.node, pos, c.to)
    requires Extends(was, table) && (calm ==> Keeps(was, table))
    ensures visit[i] < |was| <= |table| && (table[visit[i]].resident ==> was[visit[i]].resident)
    ensures calm && was[visit[i]].resident ==> table[visit[i]].resident
  {
    assert visit[i] in visit;
  }

  lemma PassedOn(was: seq<Run>, before: seq<Run>, after: seq<Run>, id: nat, pos: nat, end: nat)
    requires Passed(was, before, pos) && Fills(before, after, id) && Extends(was, before) && Extends(before, after)
    requires id < |before| && before[id].coord.to == end >= pos
    ensures Passed(was, after, end)
  {
  }

  lemma Extended(a: seq<Run>, b: seq<Run>, c: seq<Run>)
    ensures Extends(a, b) && Extends(b, c) ==> Extends(a, c)
    ensures Keeps(a, b) && Keeps(b, c) ==> Keeps(a, c)
  {
  }

  lemma SplitAt(s: seq<Unit>, from: nat, pos: nat, end: nat, to: nat)
    requires Ascending(s) && from <= pos < end && from <= to
    ensures Between(s, from, if pos < to then pos else to) + Between(s, pos, if end < to then end else to) ==
            Between(s, from, if end < to then end else to)
  {
    hide Between;
    if pos <= to {
      BetweenSplit(s, from, pos, if end < to then end else to);
    } else {
      Empty(s, pos, to);
    }
  }

  /** Whatever two runs start together, the shorter one listed first, a range that ends
      inside both and has units past its end crashes. */
  lemma FirstOvertaken(src: Source, table: seq<Run>, c: Coord)
    requires |table| == 2 && table[0].coord.node == table[1].coord.node == c.node
    requires table[0].coord.from == table[1].coord.from == c.from < c.to < table[1].coord.to < table[0].coord.to
    requires Between(UnitsOf(src, c.node), c.to, table[1].coord.to) != [] && table[0].resident
    ensures Inside(table, [1, 0]) && Overtaken(src, table, [1, 0], c)
  {
    hide Between;
    ReachOn(table, [1, 0], 0, c);
    assert [1, 0][..0] == [] && [1, 0][..1] == [1];
    assert Overtakes(src, table, [1, 0], c, 1);
  }

  /** Two runs that start together over one unit at 4, seeded up to 10 and then up to 5,
      and a range up to 3: the longer run is sliced from beyond the end of the range. */
  method OverlapCrashes() returns (w: Window, how: Outcome)
    ensures fresh(w) && w.Valid() && how == Crashed
  {
    hide *;
    var s := [Unit(4, [])];
    var c := Coord("n", 0, 3);
    OneUnit(4);
    OneSource(s);
    w := new Window(map["n" := s], n => false, n => {});
    w.QuietIf();
    UnitsAre(w.src, "n", s);
    ghost var long, short := Run(Coord("n", 0, 10), s, true, false), Run(Coord("n", 0, 5), s, true, false);
    w.FetchedIs(long.coord);
    w.FetchedIs(short.coord);
    w.IdsAre("n");
    Alone(w.table, long);
    w.Put(Coord("n", 0, 10), s, false);
    assert w.order["n"] == [0] && w.table == [long];
    w.IdsAre("n");
    Alone(w.table, long);
    w.Put(Coord("n", 0, 5), s, false);
    assert w.table == [long, short] && w.order["n"] == [1, 0];
    FirstOvertaken(w.src, w.table, c);
    var out;
    out, how := w.RangeInNode(c, w.order["n"]);
  }

  lemma OneSource(s: seq<Unit>)
    requires |s| == 1
    ensures Sound(map["n" := s])
  {
  }

  lemma UnitsAre(src: Source, n: string, s: seq<Unit>)
    requires n in src && src[n] == s
    ensures UnitsOf(src, n) == s
  {
  }

  lemma Alone(table: seq<Run>, r: Run)
    ensures NoneEarlier(table, [], r.coord.from) && forall c :: Unlisted(table, [], c)
    ensures table == [r] ==>
              NoneEarlier(table, [0], r.coord.from) && forall c :: c != r.coord ==> Unlisted(table, [0], c)
  {
  }

  lemma OneUnit(k: nat)
    ensures forall a: nat, b: nat :: Between([Unit(k, [])], a, b) == if a < k <= b then [Unit(k, [])] else []
  {
    var s := [Unit(k, [])];
    forall a: nat, b: nat ensures Between(s, a, b) == if a < k <= b then s else [] {
      assert s[..0] == [];
      assert Between(s[..0], a, b) == [];
    }
  }
}
