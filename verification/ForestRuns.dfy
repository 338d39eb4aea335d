/**
 Runs of the flat forest: appends, tail forks, interior forks redirected to the owner
 of the fork point, stumps and removals. What a child inherits is worked out by the
 code from bases; here it is a cut of the parent's history, and the two are equal.
 */
module ForestRuns {
  import opened Basics
  import opened FlatForest

  // ---- the boundary of a fork ----

  /** The records of a keyed channel that belong to main [1..at]. */
  function KeyedBelow(h: History, at: nat): History {
    if h == [] then []
    else
      var front := KeyedBelow(h[..|h| - 1], at);
      if h[|h| - 1].key <= at then front + [h[|h| - 1]] else front
  }

  /** The greatest index keyed at or below `at`, or 0: a scan from the end. */
  function AtOrBelow(h: History, at: nat): (i: nat)
    ensures i <= |h|
  {
    if h == [] then 0
    else if h[|h| - 1].key <= at then |h|
    else AtOrBelow(h[..|h| - 1], at)
  }

  /** It is the last one: everything after it is keyed above. */
  lemma {:induction false} AtOrBelowIs(h: History, at: nat)
    ensures AtOrBelow(h, at) > 0 ==> h[AtOrBelow(h, at) - 1].key <= at
    ensures forall j :: AtOrBelow(h, at) <= j < |h| ==> h[j].key > at
  {
    if h != [] && h[|h| - 1].key > at {
      AtOrBelowIs(h[..|h| - 1], at);
    }
  }

  lemma AtOrBelowUnique(h: History, at: nat, i: nat)
    requires i <= |h| && (i > 0 ==> h[i - 1].key <= at) && forall j :: i <= j < |h| ==> h[j].key > at
    ensures AtOrBelow(h, at) == i
  {
    AtOrBelowIs(h, at);
  }

  lemma {:induction false} KeyedAll(h: History, at: nat)
    requires forall i :: 0 <= i < |h| ==> h[i].key <= at
    ensures KeyedBelow(h, at) == h
  {
    if h != [] {
      KeyedAll(h[..|h| - 1], at);
      assert h == h[..|h| - 1] + [h[|h| - 1]];
    }
  }

  lemma LastKey(h: History, at: nat)
    requires h != []
    ensures h[|h| - 1].key <= at ==> AtOrBelow(h, at) == |h|
    ensures h[|h| - 1].key > at ==>
              AtOrBelow(h, at) == AtOrBelow(h[..|h| - 1], at) && KeyedBelow(h, at) == KeyedBelow(h[..|h| - 1], at)
  {
  }

  /** In key order, "keyed at or below" is a prefix, and the scan finds its end. */
  lemma {:induction false} KeyedIsPrefix(h: History, at: nat)
    requires Sorted(h)
    ensures KeyedBelow(h, at) == Take(h, AtOrBelow(h, at))
  {
    if h == [] {
    } else {
      var front := h[..|h| - 1];
      LastKey(h, at);
      hide KeyedBelow, AtOrBelow;
      if h[|h| - 1].key <= at {
        forall i | 0 <= i < |h| ensures h[i].key <= at {
          assert i < |h| - 1 ==> h[i].key <= h[|h| - 1].key;
        }
        KeyedAll(h, at);
      } else {
        KeyedIsPrefix(front, at);
        assert Take(front, AtOrBelow(front, at)) == Take(h, AtOrBelow(front, at));
      }
    }
  }

  /** What a fork at `at` takes of one channel: main up to `at`; an unkeyed channel
      whole for a tail fork, up to the stamp otherwise; a keyed one by key. */
  function CutOne(cfg: Config, ch: string, h: History, main: History, at: nat, tail: bool): History {
    if ch == cfg.main then Take(h, at)
    else if cfg.Unkeyed(ch) then
      if tail then h else Take(h, if 1 <= at <= |main| then Cursor(main[at - 1], ch) else 0)
    else KeyedBelow(h, at)
  }

  /** The base of one channel, as the fork code works it out from the parent's records,
      its last and first indexes, and the fork point. */
  function BaseFrom(cfg: Config, ch: string, h: History, main: History, last: nat, first: nat, at: nat,
                    tail: bool): nat {
    var base :=
      if ch == cfg.main then at + 1
      else if cfg.Unkeyed(ch) && tail then last + 1
      else
        var b := 1 + if cfg.Unkeyed(ch) then (if 1 <= at <= |main| then Cursor(main[at - 1], ch) else 0)
                     else AtOrBelow(h, at);
        if b > last + 1 then last + 1 else b;
    if base < first then first else base
  }

  function BaseOf(cfg: Config, f: Forest, n: string, ch: string, at: nat, tail: bool): nat {
    BaseFrom(cfg, ch, View(f, n, ch), View(f, n, cfg.main), Last(f, n, ch), FirstIndex(f, n, ch), at, tail)
  }

  lemma BaseFromExact(cfg: Config, ch: string, h: History, main: History, first: nat, at: nat, tail: bool)
    requires first <= 1 && 1 <= at <= |main| && (ch == cfg.main ==> h == main) && ch in cfg.Names()
    requires cfg.Keyed(ch) ==> Sorted(h)
    ensures var b := BaseFrom(cfg, ch, h, main, |h|, first, at, tail) as int;
            && 1 <= b <= |h| + 1
            && Take(h, b - 1) == CutOne(cfg, ch, h, main, at, tail)
            && (ch == cfg.main ==> b == at + 1)
            && (cfg.Unkeyed(ch) && ch != cfg.main && Cursor(main[at - 1], ch) <= |h| ==>
                Cursor(main[at - 1], ch) <= b - 1)
  {
    hide Cursor, KeyedBelow, AtOrBelow;
    if ch != cfg.main && cfg.Keyed(ch) {
      KeyedIsPrefix(h, at);
    }
  }

  /** A point a node can be forked at: a main record it has, the last one for a tail fork. */
  ghost predicate ForkPoint(cfg: Config, f: Forest, n: string, at: nat, tail: bool) {
    n in f.nodes && 1 <= at <= |View(f, n, cfg.main)| && (tail ==> at == |View(f, n, cfg.main)|)
  }

  /** The base is exact: what lies below it is the cut, and the parent has all of it. */
  lemma BaseExact(cfg: Config, f: Forest, n: string, ch: string, at: nat, tail: bool)
    requires Ok(cfg, f) && ForkPoint(cfg, f, n, at, tail) && ch in cfg.Names()
    ensures var b := BaseOf(cfg, f, n, ch, at, tail) as int;
            && 1 <= b <= |View(f, n, ch)| + 1
            && Take(View(f, n, ch), b - 1) == CutOne(cfg, ch, View(f, n, ch), View(f, n, cfg.main), at, tail)
            && (ch == cfg.main ==> b == at + 1)
            && (cfg.Unkeyed(ch) ==> Cursor(View(f, n, cfg.main)[at - 1], ch) <= b - 1)
  {
    hide Ok, View, FirstIndex, Last, Based, AllBased, BaseFrom, CutOne, Cursor, Sorted;
    OkAt(cfg, f, n, ch);
    OkIs(cfg, f, ch);
    FirstIsOne(f, n, ch);
    BaseFromExact(cfg, ch, View(f, n, ch), View(f, n, cfg.main), FirstIndex(f, n, ch), at, tail);
  }

  function Bases(cfg: Config, f: Forest, n: string, at: nat, tail: bool): map<string, nat> {
    map ch | ch in cfg.Names() :: BaseOf(cfg, f, n, ch, at, tail)
  }

  lemma BasesAre(cfg: Config, f: Forest, n: string, ch: string, at: nat, tail: bool)
    requires ch in cfg.Names()
    ensures Bases(cfg, f, n, at, tail).Keys == cfg.Names()
    ensures Bases(cfg, f, n, at, tail)[ch] == BaseOf(cfg, f, n, ch, at, tail)
  {
    hide BaseOf;
  }

  /** Earlier main records stamp no more than the one at the fork point. */
  lemma EarlierStamp(cfg: Config, f: Forest, n: string, ch: string, i: nat, j: nat)
    requires Ok(cfg, f) && n in f.nodes && ch in cfg.Names() && cfg.Unkeyed(ch) && i <= j < |View(f, n, cfg.main)|
    ensures Cursor(View(f, n, cfg.main)[i], ch) <= Cursor(View(f, n, cfg.main)[j], ch)
  {
    OkAt(cfg, f, n, ch);
    hide Ok, View, Cursor, Based, Last;
  }

  lemma OneFits(cfg: Config, f: Forest, n: string, at: nat, tail: bool, ch: string, i: nat)
    requires Ok(cfg, f) && ForkPoint(cfg, f, n, at, tail) && ch in cfg.Names() && i < at
    ensures ch in Bases(cfg, f, n, at, tail) && 1 <= Bases(cfg, f, n, at, tail)[ch] <= |View(f, n, ch)| + 1
    ensures cfg.Unkeyed(ch) ==> Cursor(View(f, n, cfg.main)[i], ch) <= Bases(cfg, f, n, at, tail)[ch] as int - 1
    ensures ch == cfg.main ==> Bases(cfg, f, n, at, tail)[ch] == at + 1
  {
    hide Ok, View, BaseOf, Cursor, Bases, CutOne;
    BasesAre(cfg, f, n, ch, at, tail);
    BaseExact(cfg, f, n, ch, at, tail);
    if cfg.Unkeyed(ch) {
      EarlierStamp(cfg, f, n, ch, i, at - 1);
    }
  }

  lemma ChannelFits(cfg: Config, f: Forest, n: string, at: nat, tail: bool, ch: string)
    requires Ok(cfg, f) && ForkPoint(cfg, f, n, at, tail) && ch in cfg.Names() && cfg.main in cfg.Names()
    ensures var bases := Bases(cfg, f, n, at, tail);
            ch in bases && cfg.main in bases && bases[cfg.main] == at + 1 && BaseFits(cfg, f, n, bases, ch)
  {
    hide Ok, View, Bases, Cursor;
    var bases := Bases(cfg, f, n, at, tail);
    OneFits(cfg, f, n, at, tail, cfg.main, 0);
    OneFits(cfg, f, n, at, tail, ch, 0);
    if cfg.Unkeyed(ch) {
      forall i | 0 <= i < at ensures Cursor(View(f, n, cfg.main)[i], ch) <= bases[ch] as int - 1 {
        OneFits(cfg, f, n, at, tail, ch, i);
      }
    }
  }

  lemma PointAt(cfg: Config, f: Forest, n: string, at: nat, tail: bool)
    requires ForkPoint(cfg, f, n, at, tail)
    ensures at >= 1
  {
  }

  lemma FitFrom(cfg: Config, f: Forest, n: string, bases: map<string, nat>)
    requires bases.Keys == cfg.Names() && cfg.main in bases && bases[cfg.main] >= 2
    requires forall ch :: ch in cfg.Names() ==> BaseFits(cfg, f, n, bases, ch)
    ensures BasesFit(cfg, f, n, bases)
  {
    hide BaseFits;
  }

  lemma BasesDoFit(cfg: Config, f: Forest, n: string, at: nat, tail: bool)
    requires Ok(cfg, f) && ForkPoint(cfg, f, n, at, tail)
    ensures BasesFit(cfg, f, n, Bases(cfg, f, n, at, tail))
  {
    hide *;
    MainNamed(cfg);
    PointAt(cfg, f, n, at, tail);
    BasesAre(cfg, f, n, cfg.main, at, tail);
    ChannelFits(cfg, f, n, at, tail, cfg.main);
    forall ch | ch in cfg.Names() ensures BaseFits(cfg, f, n, Bases(cfg, f, n, at, tail), ch) {
      ChannelFits(cfg, f, n, at, tail, ch);
    }
    FitFrom(cfg, f, n, Bases(cfg, f, n, at, tail));
  }

  // ---- who is forked ----

  /** The nearest node, from `n` up, whose own main range covers `at`; the root owns the rest. */
  function OwnerOf(cfg: Config, f: Forest, n: string, at: nat): string
    decreases Rank(f, n)
  {
    if n == "" || !HasParent(f, n) then ""
    else if PartOf(f, n, cfg.main).base <= at then n
    else OwnerOf(cfg, f, Parent(f, n), at)
  }

  datatype Point = Point(from: string, at: nat, tail: bool)

  /** Where a fork of `n` at `at` really forks. */
  function PointOf(cfg: Config, f: Forest, n: string, at: nat): Point {
    var tail := |View(f, n, cfg.main)|;
    if at == 0 || at >= tail then Point(n, tail, true)
    else if at < PartOf(f, n, cfg.main).base then Point(OwnerOf(cfg, f, n, at), at, false)
    else Point(n, at, false)
  }

  lemma OwnerIs(cfg: Config, f: Forest, n: string, at: nat)
    requires n == "" || HasParent(f, n)
    ensures OwnerOf(cfg, f, n, at) ==
            if n == "" || PartOf(f, n, cfg.main).base <= at then n else OwnerOf(cfg, f, Parent(f, n), at)
  {
  }

  lemma PointIs(cfg: Config, f: Forest, n: string, at: nat)
    ensures PointOf(cfg, f, n, at) ==
            if at == 0 || at >= |View(f, n, cfg.main)| then Point(n, |View(f, n, cfg.main)|, true)
            else if at < PartOf(f, n, cfg.main).base then Point(OwnerOf(cfg, f, n, at), at, false)
            else Point(n, at, false)
  {
  }

  lemma {:induction false} OwnerHas(cfg: Config, f: Forest, n: string, at: nat)
    requires Ok(cfg, f) && n in f.nodes && 1 <= at <= |View(f, n, cfg.main)|
    ensures var o := OwnerOf(cfg, f, n, at);
            && o in f.nodes && PartOf(f, o, cfg.main).base <= at <= |View(f, o, cfg.main)|
            && Take(View(f, o, cfg.main), at) == Take(View(f, n, cfg.main), at)
    decreases Rank(f, n)
  {
    hide *;
    MainNamed(cfg);
    NodeFacts(cfg, f, n, cfg.main);
    OwnerIs(cfg, f, n, at);
    if n != "" && PartOf(f, n, cfg.main).base > at {
      var p := Parent(f, n);
      Inherited(View(f, p, cfg.main), PartOf(f, n, cfg.main).base, PartOf(f, n, cfg.main).own, at);
      OwnerHas(cfg, f, p, at);
    } else if n == "" {
      RootBase(cfg, f);
    }
  }

  lemma RootBase(cfg: Config, f: Forest)
    requires Ok(cfg, f)
    ensures PartOf(f, "", cfg.main).base == 1
  {
    OkAt(cfg, f, "", cfg.main);
  }

  lemma IsForkPoint(cfg: Config, f: Forest, n: string, at: nat, tail: bool)
    requires n in f.nodes && 1 <= at <= |View(f, n, cfg.main)| && (tail ==> at == |View(f, n, cfg.main)|)
    ensures ForkPoint(cfg, f, n, at, tail)
  {
  }

  lemma SomeMain(cfg: Config, f: Forest, n: string)
    requires Ok(cfg, f) && n in f.nodes
    ensures |View(f, n, cfg.main)| >= 1
  {
  }

  lemma PointIsForkPoint(cfg: Config, f: Forest, n: string, at: nat)
    requires Ok(cfg, f) && n in f.nodes
    ensures var p := PointOf(cfg, f, n, at); ForkPoint(cfg, f, p.from, p.at, p.tail)
  {
    hide *;
    SomeMain(cfg, f, n);
    PointIs(cfg, f, n, at);
    var p := PointOf(cfg, f, n, at);
    if 1 <= at < |View(f, n, cfg.main)| {
      OwnerHas(cfg, f, n, at);
    }
    IsForkPoint(cfg, f, p.from, p.at, p.tail);
  }

  // ---- steps ----

  datatype Step =
    | AppendMain(n: string, payload: Bytes, extra: map<string, nat>)
    | Append(n: string, ch: string, key: nat, payload: Bytes)
    | ForkAt(n: string, at: nat, child: string, trunk: string, kind: string)
    | CreateStump(child: string)
    | Remove(n: string, recursive: bool)
    | RemoveStump(n: string)

  /** Another trunk lives below `n`. */
  predicate Branched(f: Forest, n: string)
    requires n in f.nodes
  {
    exists m :: m in f.nodes && Below(f, n, m) && f.nodes[m].trunk != "" && f.nodes[m].trunk != f.nodes[n].trunk
  }

  predicate Childless(f: Forest, n: string) {
    forall m :: m in f.nodes ==> m == "" || f.nodes[m].parent != n
  }

  /** Whether the code goes ahead; otherwise it returns an error and changes nothing. */
  predicate Allowed(cfg: Config, f: Forest, s: Step) {
    match s
    case AppendMain(n, _, extra) => n in f.nodes && extra.Keys !! cfg.Names()
    case Append(n, ch, key, _) =>
      && n in f.nodes && ch in cfg.related
      && (cfg.Unkeyed(ch) || View(f, n, ch) == [] || View(f, n, ch)[|View(f, n, ch)| - 1].key <= key)
    case ForkAt(n, _, child, _, _) => n in f.nodes && child !in f.nodes && child != ""
    case CreateStump(child) => child !in f.nodes && StumpName(child)
    case Remove(n, recursive) => n in f.nodes && n != "" && (recursive || !Branched(f, n))
    case RemoveStump(n) => n in f.nodes && n != "" && f.nodes[n].kind == "loadout" && Childless(f, n)
  }

  function Standing(cfg: Config, f: Forest, n: string, ch: string): nat {
    if cfg.Unkeyed(ch) then Last(f, n, ch) else 0
  }

  /** Where every unkeyed channel of `n` stands. */
  function Stamps(cfg: Config, f: Forest, n: string): map<string, nat> {
    map ch | ch in cfg.related && cfg.related[ch].unkeyed :: Standing(cfg, f, n, ch)
  }

  /** What a step comes down to. */
  datatype Act =
    | Wrote(n: string, ch: string, r: Record)
    | Forked(point: Point, child: string, trunk: string, kind: string)
    | Removed(gone: set<string>)

  function ActOf(cfg: Config, f: Forest, s: Step): Act {
    match s
    case AppendMain(n, payload, extra) =>
      Wrote(n, cfg.main, Record(n, Last(f, n, cfg.main) + 1, payload, Stamps(cfg, f, n) + extra))
    case Append(n, ch, key, payload) => Wrote(n, ch, Record(n, if cfg.Unkeyed(ch) then 0 else key, payload, map[]))
    case ForkAt(n, at, child, trunk, kind) => Forked(PointOf(cfg, f, n, at), child, trunk, kind)
    case CreateStump(child) => Forked(PointOf(cfg, f, "", 0), child, "", "loadout")
    case Remove(n, _) => Removed(Subtree(f, n))
    case RemoveStump(n) => Removed({n})
  }

  ghost predicate ActOk(cfg: Config, f: Forest, a: Act) {
    match a
    case Wrote(n, ch, r) => n in f.nodes && ch in cfg.Names() && Fits(cfg, f, n, ch, r)
    case Forked(p, child, _, _) => ForkPoint(cfg, f, p.from, p.at, p.tail) && child !in f.nodes && child != ""
    case Removed(gone) => Closed(f, gone)
  }

  lemma StampFits(cfg: Config, f: Forest, n: string, extra: map<string, nat>, c: string)
    requires Ok(cfg, f) && n in f.nodes && extra.Keys !! cfg.Names() && cfg.Unkeyed(c)
    ensures c in Stamps(cfg, f, n) + extra && (Stamps(cfg, f, n) + extra)[c] == |View(f, n, c)|
  {
    assert c in cfg.Names();
    OkAt(cfg, f, n, c);
  }

  lemma AppendMainFits(cfg: Config, f: Forest, n: string, payload: Bytes, extra: map<string, nat>)
    requires Ok(cfg, f) && n in f.nodes && extra.Keys !! cfg.Names()
    ensures Fits(cfg, f, n, cfg.main, Record(n, Last(f, n, cfg.main) + 1, payload, Stamps(cfg, f, n) + extra))
  {
    assert cfg.Valid();
    hide Ok, View, Last;
    var r := Record(n, Last(f, n, cfg.main) + 1, payload, Stamps(cfg, f, n) + extra);
    forall c | c in cfg.Names() && cfg.Unkeyed(c) ensures Cursor(r, c) == |View(f, n, c)| {
      StampFits(cfg, f, n, extra, c);
    }
  }

  lemma Rooted(cfg: Config, f: Forest)
    requires Ok(cfg, f)
    ensures cfg.Valid() && "" in f.nodes && forall m :: m in f.nodes ==> m == "" || HasParent(f, m)
  {
    assert cfg.main in cfg.Names();
    OkIs(cfg, f, cfg.main);
    hide Ok, View;
    forall m | m in f.nodes ensures m == "" || HasParent(f, m) {
      BasedIs(f, m, cfg.main);
    }
  }

  lemma AppendFits(cfg: Config, f: Forest, n: string, ch: string, key: nat, payload: Bytes)
    requires Ok(cfg, f) && Allowed(cfg, f, Append(n, ch, key, payload))
    ensures ActOk(cfg, f, ActOf(cfg, f, Append(n, ch, key, payload)))
  {
    hide Ok, View;
    Rooted(cfg, f);
  }

  lemma MainOk(cfg: Config, f: Forest, n: string, payload: Bytes, extra: map<string, nat>)
    requires Ok(cfg, f) && Allowed(cfg, f, AppendMain(n, payload, extra))
    ensures ActOk(cfg, f, ActOf(cfg, f, AppendMain(n, payload, extra)))
  {
    AppendMainFits(cfg, f, n, payload, extra);
    hide Ok, View, Fits, Last, Stamps;
  }

  lemma ForkOk(cfg: Config, f: Forest, n: string, at: nat, child: string, trunk: string, kind: string)
    requires Ok(cfg, f) && Allowed(cfg, f, ForkAt(n, at, child, trunk, kind))
    ensures ActOk(cfg, f, ActOf(cfg, f, ForkAt(n, at, child, trunk, kind)))
  {
    hide Ok, View, PointOf, ForkPoint;
    PointIsForkPoint(cfg, f, n, at);
  }

  lemma StumpOk(cfg: Config, f: Forest, child: string)
    requires Ok(cfg, f) && Allowed(cfg, f, CreateStump(child))
    ensures ActOk(cfg, f, ActOf(cfg, f, CreateStump(child)))
  {
    Rooted(cfg, f);
    hide Ok, View, PointOf, ForkPoint;
    PointIsForkPoint(cfg, f, "", 0);
  }

  lemma RemoveOk(cfg: Config, f: Forest, n: string, recursive: bool)
    requires Ok(cfg, f) && Allowed(cfg, f, Remove(n, recursive))
    ensures ActOk(cfg, f, ActOf(cfg, f, Remove(n, recursive)))
  {
    Rooted(cfg, f);
    hide Ok, Closed, Subtree, Branched;
    SubtreeClosed(f, n);
  }

  lemma StumpGone(cfg: Config, f: Forest, n: string)
    requires Ok(cfg, f) && Allowed(cfg, f, RemoveStump(n))
    ensures ActOk(cfg, f, ActOf(cfg, f, RemoveStump(n)))
  {
    hide Ok, View;
  }

  lemma ActIsOk(cfg: Config, f: Forest, s: Step)
    requires Ok(cfg, f) && Allowed(cfg, f, s)
    ensures ActOk(cfg, f, ActOf(cfg, f, s))
  {
    hide *;
    match s
    case AppendMain(n, payload, extra) => MainOk(cfg, f, n, payload, extra);
    case Append(n, ch, key, payload) => AppendFits(cfg, f, n, ch, key, payload);
    case ForkAt(n, at, child, trunk, kind) => ForkOk(cfg, f, n, at, child, trunk, kind);
    case CreateStump(child) => StumpOk(cfg, f, child);
    case Remove(n, recursive) => RemoveOk(cfg, f, n, recursive);
    case RemoveStump(n) => StumpGone(cfg, f, n);
  }

  function Perform(cfg: Config, f: Forest, a: Act): Forest {
    match a
    case Wrote(n, ch, r) => if n in f.nodes then Grown(f, n, ch, r) else f
    case Forked(p, child, trunk, kind) => Sprouted(f, child, p.from, trunk, kind, Bases(cfg, f, p.from, p.at, p.tail))
    case Removed(gone) => Pruned(f, gone)
  }

  function Next(cfg: Config, f: Forest, s: Step): Forest {
    if Allowed(cfg, f, s) then Perform(cfg, f, ActOf(cfg, f, s)) else f
  }

  lemma PerformKeepsOk(cfg: Config, f: Forest, a: Act)
    requires Ok(cfg, f) && ActOk(cfg, f, a)
    ensures Ok(cfg, Perform(cfg, f, a))
  {
    hide Ok, Fits, Closed, BasesFit, Bases, Grown, Sprouted, Pruned;
    match a
    case Wrote(n, ch, r) => AppendKeepsOk(cfg, f, n, ch, r);
    case Forked(p, child, trunk, kind) =>
      BasesDoFit(cfg, f, p.from, p.at, p.tail);
      ForkKeepsOk(cfg, f, child, p.from, trunk, kind, Bases(cfg, f, p.from, p.at, p.tail));
    case Removed(gone) => RemoveKeepsOk(cfg, f, gone);
  }

  // ---- full copies ----

  /** Every node with its own complete history, channel by channel. */
  type Copies = map<string, map<string, History>>

  function Cut(cfg: Config, c: map<string, History>, at: nat, tail: bool): map<string, History>
    requires c.Keys == cfg.Names()
  {
    map ch | ch in c :: CutOne(cfg, ch, c[ch], c[cfg.main], at, tail)
  }

  ghost predicate Whole(cfg: Config, c: Copies) {
    forall n :: n in c ==> c[n].Keys == cfg.Names()
  }

  /** Appending touches one copy; forking copies a cut; removing drops copies. */
  ghost function Copy(cfg: Config, c: Copies, a: Act): Copies
    requires Whole(cfg, c)
  {
    match a
    case Wrote(n, ch, r) =>
      if n in c && ch in c[n] then c[n := c[n][ch := c[n][ch] + [r]]] else c
    case Forked(p, child, _, _) => if p.from in c then c[child := Cut(cfg, c[p.from], p.at, p.tail)] else c
    case Removed(gone) => c - gone
  }

  ghost predicate Refines(cfg: Config, f: Forest, c: Copies) {
    && Whole(cfg, c) && c.Keys == f.nodes.Keys
    && forall n, ch :: n in c && ch in cfg.Names() ==> c[n][ch] == View(f, n, ch)
  }

  lemma RefinesAt(cfg: Config, f: Forest, c: Copies, n: string, ch: string)
    requires Refines(cfg, f, c) && n in f.nodes && ch in cfg.Names()
    ensures n in c && c[n].Keys == cfg.Names() && c[n][ch] == View(f, n, ch)
  {
  }

  lemma CopyWrote(cfg: Config, c: Copies, n: string, ch: string, r: Record, m: string, k: string)
    requires Whole(cfg, c) && n in c && m in c && ch in cfg.Names() && k in cfg.Names()
    ensures var d := Copy(cfg, c, Wrote(n, ch, r));
            && d.Keys == c.Keys && m in d && d[m].Keys == cfg.Names() == c[m].Keys
            && d[m][k] == c[m][k] + if m == n && k == ch then [r] else []
  {
    assert c[m].Keys == cfg.Names() && c[n].Keys == cfg.Names();
    assert c[m][k] + [] == c[m][k];
  }

  lemma RefinesKeys(cfg: Config, f: Forest, c: Copies)
    requires Refines(cfg, f, c)
    ensures Whole(cfg, c) && c.Keys == f.nodes.Keys
  {
  }

  lemma WroteIs(cfg: Config, f: Forest, c: Copies, n: string, ch: string, r: Record, m: string, k: string)
    requires Refines(cfg, f, c) && n in f.nodes && m in f.nodes && ch in cfg.Names() && k in cfg.Names()
    ensures Whole(cfg, c)
    ensures var d := Copy(cfg, c, Wrote(n, ch, r));
            && d.Keys == c.Keys && m in d && d[m].Keys == cfg.Names()
            && d[m][k] == View(f, m, k) + if m == n && k == ch then [r] else []
  {
    hide *;
    RefinesKeys(cfg, f, c);
    RefinesAt(cfg, f, c, m, k);
    CopyWrote(cfg, c, n, ch, r, m, k);
  }

  lemma RefinesFrom(cfg: Config, f: Forest, c: Copies)
    requires c.Keys == f.nodes.Keys
    requires forall n :: n in c ==> c[n].Keys == cfg.Names()
    requires forall n, ch :: n in f.nodes && ch in cfg.Names() ==> c[n][ch] == View(f, n, ch)
    ensures Refines(cfg, f, c)
  {
    hide View;
  }

  lemma WroteRefines(cfg: Config, f: Forest, c: Copies, n: string, ch: string, r: Record)
    requires Ok(cfg, f) && Refines(cfg, f, c) && n in f.nodes && ch in cfg.Names()
    ensures Whole(cfg, c) && Refines(cfg, Grown(f, n, ch, r), Copy(cfg, c, Wrote(n, ch, r)))
  {
    assert c.Keys == f.nodes.Keys;
    hide *;
    WroteIs(cfg, f, c, n, ch, r, n, ch);
    var g, d := Grown(f, n, ch, r), Copy(cfg, c, Wrote(n, ch, r));
    SameNodes(f, n, ch, r);
    forall m | m in d ensures d[m].Keys == cfg.Names() {
      WroteIs(cfg, f, c, n, ch, r, m, ch);
    }
    forall m, k | m in g.nodes && k in cfg.Names() ensures d[m][k] == View(g, m, k) {
      WroteIs(cfg, f, c, n, ch, r, m, k);
      OkIs(cfg, f, k);
      AppendIsolated(f, n, ch, r, m, k);
    }
    RefinesFrom(cfg, g, d);
  }

  lemma PerformFork(cfg: Config, f: Forest, p: Point, child: string, trunk: string, kind: string)
    ensures Perform(cfg, f, Forked(p, child, trunk, kind)) ==
            Sprouted(f, child, p.from, trunk, kind, Bases(cfg, f, p.from, p.at, p.tail))
  {
    hide Bases, Sprouted;
  }

  lemma OkShape(cfg: Config, f: Forest)
    requires Ok(cfg, f)
    ensures Shaped(cfg, f)
  {
  }

  lemma PointIn(cfg: Config, f: Forest, n: string, at: nat, tail: bool)
    requires ForkPoint(cfg, f, n, at, tail)
    ensures n in f.nodes
  {
  }

  lemma ForkedView(cfg: Config, f: Forest, p: Point, child: string, trunk: string, kind: string, m: string, k: string)
    requires Ok(cfg, f) && ForkPoint(cfg, f, p.from, p.at, p.tail) && child !in f.nodes && child != ""
    requires k in cfg.Names() && (m == child || m in f.nodes)
    ensures View(Perform(cfg, f, Forked(p, child, trunk, kind)), m, k) ==
            if m == child then CutOne(cfg, k, View(f, p.from, k), View(f, p.from, cfg.main), p.at, p.tail)
            else View(f, m, k)
  {
    hide *;
    var bases := Bases(cfg, f, p.from, p.at, p.tail);
    BasesAre(cfg, f, p.from, k, p.at, p.tail);
    PerformFork(cfg, f, p, child, trunk, kind);
    PointIn(cfg, f, p.from, p.at, p.tail);
    OkShape(cfg, f);
    OkIs(cfg, f, k);
    Sprouts(cfg, f, child, p.from, trunk, kind, bases);
    if m == child {
      BaseExact(cfg, f, p.from, k, p.at, p.tail);
      ChildView(f, child, p.from, trunk, kind, bases, k);
    } else {
      ForkIsolated(f, child, p.from, trunk, kind, bases, m, k);
    }
  }

  lemma ForkedKeys(cfg: Config, f: Forest, p: Point, child: string, trunk: string, kind: string)
    ensures Perform(cfg, f, Forked(p, child, trunk, kind)).nodes.Keys == f.nodes.Keys + {child}
  {
    hide Bases;
  }

  lemma CutIs(cfg: Config, f: Forest, c: Copies, p: Point, k: string)
    requires Refines(cfg, f, c) && p.from in f.nodes && k in cfg.Names() && cfg.main in cfg.Names()
    ensures p.from in c && c[p.from].Keys == cfg.Names()
    ensures Cut(cfg, c[p.from], p.at, p.tail).Keys == cfg.Names()
    ensures Cut(cfg, c[p.from], p.at, p.tail)[k] ==
              CutOne(cfg, k, View(f, p.from, k), View(f, p.from, cfg.main), p.at, p.tail)
  {
    RefinesAt(cfg, f, c, p.from, k);
    RefinesAt(cfg, f, c, p.from, cfg.main);
    hide View, CutOne, Refines;
  }

  lemma CopyForked(cfg: Config, c: Copies, p: Point, child: string, trunk: string, kind: string)
    requires Whole(cfg, c) && p.from in c
    ensures c[p.from].Keys == cfg.Names()
    ensures Copy(cfg, c, Forked(p, child, trunk, kind)) == c[child := Cut(cfg, c[p.from], p.at, p.tail)]
  {
    assert c[p.from].Keys == cfg.Names();
    hide Cut;
  }

  lemma ForkedIs(cfg: Config, f: Forest, c: Copies, p: Point, child: string, trunk: string, kind: string, m: string,
                 k: string)
    requires Refines(cfg, f, c) && p.from in f.nodes && k in cfg.Names() && cfg.main in cfg.Names()
    requires child !in f.nodes && (m == child || m in f.nodes)
    ensures Whole(cfg, c)
    ensures var d := Copy(cfg, c, Forked(p, child, trunk, kind));
            && d.Keys == f.nodes.Keys + {child} && d[m].Keys == cfg.Names()
            && d[m][k] == if m == child then CutOne(cfg, k, View(f, p.from, k), View(f, p.from, cfg.main), p.at, p.tail)
                          else View(f, m, k)
  {
    hide *;
    RefinesKeys(cfg, f, c);
    CutIs(cfg, f, c, p, k);
    CopyForked(cfg, c, p, child, trunk, kind);
    if m != child {
      RefinesAt(cfg, f, c, m, k);
    }
  }

  lemma ForkedRefines(cfg: Config, f: Forest, c: Copies, p: Point, child: string, trunk: string, kind: string)
    requires Ok(cfg, f) && Refines(cfg, f, c) && ForkPoint(cfg, f, p.from, p.at, p.tail) && child !in f.nodes
               && child != ""
    ensures Whole(cfg, c)
    ensures Refines(cfg, Perform(cfg, f, Forked(p, child, trunk, kind)), Copy(cfg, c, Forked(p, child, trunk, kind)))
  {
    assert cfg.main in cfg.Names();
    hide *;
    var g := Perform(cfg, f, Forked(p, child, trunk, kind));
    PointIn(cfg, f, p.from, p.at, p.tail);
    ForkedIs(cfg, f, c, p, child, trunk, kind, child, cfg.main);
    var d := Copy(cfg, c, Forked(p, child, trunk, kind));
    ForkedKeys(cfg, f, p, child, trunk, kind);
    forall m | m in d ensures d[m].Keys == cfg.Names() {
      ForkedIs(cfg, f, c, p, child, trunk, kind, m, cfg.main);
    }
    forall m, k | m in g.nodes && k in cfg.Names() ensures d[m][k] == View(g, m, k) {
      ForkedIs(cfg, f, c, p, child, trunk, kind, m, k);
      ForkedView(cfg, f, p, child, trunk, kind, m, k);
    }
    RefinesFrom(cfg, g, d);
  }

  lemma CopyRemoved(cfg: Config, c: Copies, gone: set<string>)
    requires Whole(cfg, c)
    ensures Copy(cfg, c, Removed(gone)) == c - gone && Whole(cfg, c - gone)
  {
  }

  lemma PrunedKeys(f: Forest, gone: set<string>)
    ensures Pruned(f, gone).nodes.Keys == f.nodes.Keys - gone
  {
  }

  lemma RemovedRefines(cfg: Config, f: Forest, c: Copies, gone: set<string>)
    requires Ok(cfg, f) && Refines(cfg, f, c) && Closed(f, gone)
    ensures Whole(cfg, c) && Refines(cfg, Pruned(f, gone), Copy(cfg, c, Removed(gone)))
  {
    hide *;
    RefinesKeys(cfg, f, c);
    CopyRemoved(cfg, c, gone);
    PrunedKeys(f, gone);
    var g, d := Pruned(f, gone), c - gone;
    forall m | m in d ensures d[m].Keys == cfg.Names() {
      WholeAt(cfg, d, m);
    }
    forall m, k | m in g.nodes && k in cfg.Names() ensures d[m][k] == View(g, m, k) {
      OkIs(cfg, f, k);
      RefinesAt(cfg, f, c, m, k);
      RemoveIsolated(f, gone, m, k);
    }
    RefinesFrom(cfg, g, d);
  }

  lemma WholeAt(cfg: Config, c: Copies, n: string)
    requires Whole(cfg, c) && n in c
    ensures c[n].Keys == cfg.Names()
  {
  }

  lemma ActRefines(cfg: Config, f: Forest, c: Copies, a: Act)
    requires Ok(cfg, f) && Refines(cfg, f, c) && ActOk(cfg, f, a)
    ensures Whole(cfg, c) && Refines(cfg, Perform(cfg, f, a), Copy(cfg, c, a))
  {
    match a
    case Wrote(n, ch, r) =>
      hide Ok, Refines, Fits, Grown, Copy;
      WroteRefines(cfg, f, c, n, ch, r);
    case Forked(p, child, trunk, kind) =>
      hide Ok, Refines, Perform, Copy, ForkPoint;
      ForkedRefines(cfg, f, c, p, child, trunk, kind);
    case Removed(gone) =>
      hide Ok, Refines, Closed, Pruned, Copy;
      RemovedRefines(cfg, f, c, gone);
  }

  // ---- whole runs ----

  function After(cfg: Config, f: Forest, run: seq<Step>): Forest {
    if run == [] then f else Next(cfg, After(cfg, f, run[..|run| - 1]), run[|run| - 1])
  }

  lemma {:induction false} RunOk(cfg: Config, f: Forest, run: seq<Step>)
    requires Ok(cfg, f)
    ensures Ok(cfg, After(cfg, f, run))
  {
    if run != [] {
      hide Ok, Perform, ActOf, Allowed, ActOk;
      var g := After(cfg, f, run[..|run| - 1]);
      RunOk(cfg, f, run[..|run| - 1]);
      if Allowed(cfg, g, run[|run| - 1]) {
        ActIsOk(cfg, g, run[|run| - 1]);
        PerformKeepsOk(cfg, g, ActOf(cfg, g, run[|run| - 1]));
      }
    }
  }

  // ---- a store this build created ----

  const EMPTY: Bytes := [0x7b, 0x7d]

  /** The root after creation: the genesis on main, stamped before anything else is
      written, and one empty patch on every reducible channel. */
  function Created(cfg: Config, genesis: Bytes): Forest {
    var parts := map ch | ch in cfg.Names() ::
        Part(1, if ch == cfg.main then [Record("", 1, genesis, Stamps(cfg, Forest(map[], 0), ""))]
                else if ch in cfg.related && cfg.related[ch].reducible then
                  [Record("", if cfg.related[ch].unkeyed then 0 else 1, EMPTY, map[])]
                else []);
    Forest(map["" := Node("", "", "null", 0, parts)], 1)
  }

  lemma CreatedView(cfg: Config, genesis: Bytes, ch: string)
    requires ch in cfg.Names() && cfg.Valid()
    ensures var f := Created(cfg, genesis);
            && f.nodes.Keys == {""} && View(f, "", ch) == PartOf(f, "", ch).own && PartOf(f, "", ch).base == 1
            && |View(f, "", ch)| <= 1 && (ch == cfg.main ==> |View(f, "", ch)| == 1)
            && (forall r :: r in View(f, "", ch) ==> r.writer == "")
            && (ch == cfg.main ==> forall c :: Cursor(View(f, "", ch)[0], c) == 0)
  {
  }

  lemma CreatedShape(cfg: Config, genesis: Bytes)
    requires cfg.Valid()
    ensures Shaped(cfg, Created(cfg, genesis))
  {
  }

  lemma CreatedChannel(cfg: Config, genesis: Bytes, ch: string)
    requires cfg.Valid() && ch in cfg.Names()
    ensures ChannelOk(cfg, Created(cfg, genesis), ch) && View(Created(cfg, genesis), "", cfg.main) != []
  {
    hide Created, View, PartOf, Cursor;
    MainNamed(cfg);
    CreatedView(cfg, genesis, cfg.main);
    CreatedView(cfg, genesis, ch);
  }

  lemma CreatedOk(cfg: Config, genesis: Bytes)
    requires cfg.Valid()
    ensures Ok(cfg, Created(cfg, genesis))
  {
    hide *;
    var f := Created(cfg, genesis);
    CreatedShape(cfg, genesis);
    MainNamed(cfg);
    CreatedView(cfg, genesis, cfg.main);
    forall ch | ch in cfg.Names() ensures ChannelOk(cfg, f, ch) {
      CreatedChannel(cfg, genesis, ch);
    }
    OkFrom(cfg, f);
  }
}
