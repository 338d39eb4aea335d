/**
 The flat forest. A node is one directory per channel with a fork base; everything
 below the base is read through the parent. Forking writes only the child. This
 module says what every node then reads: exactly the history it would have had as a
 full copy, whatever the others appended, forked or removed in between.
 */
module FlatForest {
  import opened Basics

  /** A record: who appended it, the main LT it belongs to, its payload, and (on the
      main channel) where every unkeyed channel stood when it was written. */
  datatype Record = Record(writer: string, key: nat, payload: Bytes, cursors: map<string, nat>)

  type History = seq<Record>

  datatype Channel = Channel(unkeyed: bool, reducible: bool)

  datatype Config = Config(main: string, related: map<string, Channel>) {
    predicate Valid() {
      main !in related
    }

    function Names(): set<string> {
      {main} + related.Keys
    }

    predicate Unkeyed(ch: string) {
      ch in related && related[ch].unkeyed
    }

    predicate Keyed(ch: string) {
      ch in related && !related[ch].unkeyed
    }
  }

  /** One node's own share of one channel. */
  datatype Part = Part(base: nat, own: History)

  /** `born` counts the nodes made before this one; it only orders the lineage. */
  datatype Node = Node(parent: string, trunk: string, kind: string, born: nat, parts: map<string, Part>)

  /** The root is keyed "". */
  datatype Forest = Forest(nodes: map<string, Node>, made: nat)

  function PartOf(f: Forest, n: string, ch: string): Part {
    if n in f.nodes && ch in f.nodes[n].parts then f.nodes[n].parts[ch] else Part(1, [])
  }

  predicate HasParent(f: Forest, n: string) {
    && n in f.nodes && n != "" && f.nodes[n].parent in f.nodes
    && f.nodes[f.nodes[n].parent].born < f.nodes[n].born
  }

  function Parent(f: Forest, n: string): string
    requires HasParent(f, n)
  {
    f.nodes[n].parent
  }

  function Rank(f: Forest, n: string): nat {
    if n in f.nodes then f.nodes[n].born else 0
  }

  /** What a node reads: its parent's records below its base, then its own. */
  function View(f: Forest, n: string, ch: string): History
    decreases Rank(f, n)
  {
    var p := PartOf(f, n, ch);
    if HasParent(f, n) then Take(View(f, Parent(f, n), ch), p.base - 1) + p.own else p.own
  }

  function Last(f: Forest, n: string, ch: string): nat {
    var p := PartOf(f, n, ch);
    if p.base + |p.own| >= 1 then p.base + |p.own| - 1 else 0
  }

  /** The first visible index: the outermost ancestor that has one. */
  function FirstIndex(f: Forest, n: string, ch: string): nat
    decreases Rank(f, n)
  {
    var above := if HasParent(f, n) then FirstIndex(f, Parent(f, n), ch) else 0;
    if above != 0 then above
    else if PartOf(f, n, ch).own != [] then PartOf(f, n, ch).base
    else 0
  }

  ghost predicate Sorted(h: History) {
    forall i, j :: 0 <= i < j < |h| ==> h[i].key <= h[j].key
  }

  /** Where a main record says an unkeyed channel stood; 0 if it does not say. */
  function Cursor(r: Record, ch: string): nat {
    if ch in r.cursors then r.cursors[ch] else 0
  }

  // ---- the invariant ----

  /** A channel's base is inside, or one past, what the parent shows. */
  ghost predicate Based(f: Forest, n: string, ch: string) {
    var p := PartOf(f, n, ch);
    && p.base >= 1 && (n == "" || HasParent(f, n))
    && (n == "" ==> p.base == 1)
    && (HasParent(f, n) ==> p.base - 1 <= |View(f, Parent(f, n), ch)|)
    && (forall i :: 0 <= i < |p.own| ==> p.own[i].writer == n)
  }

  ghost predicate AllBased(f: Forest, ch: string) {
    forall n :: n in f.nodes ==> Based(f, n, ch)
  }

  /** Inherited main records stamp no more of an unkeyed channel than is inherited of
      it; own ones at least that, in order, and never more than there is. */
  ghost predicate Stamped(main: History, mainBase: nat, ch: string, base: nat, length: nat) {
    && (forall i :: 0 <= i < |main| ==> Cursor(main[i], ch) <= length)
    && (forall i :: 0 <= i < |main| && i < mainBase - 1 ==> Cursor(main[i], ch) <= base - 1)
    && (forall i :: 0 <= i < |main| && i >= mainBase - 1 ==> Cursor(main[i], ch) >= base - 1)
    && (forall i, j :: 0 <= i < j < |main| ==> Cursor(main[i], ch) <= Cursor(main[j], ch))
  }

  ghost predicate StampedAt(cfg: Config, f: Forest, n: string, ch: string) {
    Stamped(View(f, n, cfg.main), PartOf(f, n, cfg.main).base, ch, PartOf(f, n, ch).base, |View(f, n, ch)|)
  }

  ghost predicate AllStamped(cfg: Config, f: Forest, ch: string) {
    forall n :: n in f.nodes ==> StampedAt(cfg, f, n, ch)
  }

  ghost predicate AllSorted(f: Forest, ch: string) {
    forall n :: n in f.nodes ==> Sorted(View(f, n, ch))
  }

  /** Every node has every channel, and `born` is below the count of nodes made. */
  ghost predicate Shaped(cfg: Config, f: Forest) {
    && cfg.Valid() && "" in f.nodes
    && forall n :: n in f.nodes ==> f.nodes[n].born < f.made && f.nodes[n].parts.Keys == cfg.Names()
  }

  ghost predicate ChannelOk(cfg: Config, f: Forest, ch: string) {
    AllBased(f, ch) && (cfg.Keyed(ch) ==> AllSorted(f, ch)) && (cfg.Unkeyed(ch) ==> AllStamped(cfg, f, ch))
  }

  ghost predicate Ok(cfg: Config, f: Forest) {
    && Shaped(cfg, f)
    && (forall ch :: ch in cfg.Names() ==> ChannelOk(cfg, f, ch))
    && (forall n :: n in f.nodes ==> View(f, n, cfg.main) != [])
  }

  lemma LastIsLength(f: Forest, n: string, ch: string)
    requires Based(f, n, ch)
    ensures Last(f, n, ch) == |View(f, n, ch)|
  {
  }

  /** Numbering starts at 1 wherever anything is visible. */
  lemma {:induction false} FirstIsOne(f: Forest, n: string, ch: string)
    requires AllBased(f, ch) && n in f.nodes
    ensures FirstIndex(f, n, ch) <= 1 && (View(f, n, ch) != [] ==> FirstIndex(f, n, ch) == 1)
    decreases Rank(f, n)
  {
    assert Based(f, n, ch);
    if HasParent(f, n) {
      FirstIsOne(f, Parent(f, n), ch);
    }
  }

  // ---- appending ----

  function Grown(f: Forest, n: string, ch: string, r: Record): Forest
    requires n in f.nodes
  {
    var p := PartOf(f, n, ch);
    f.(nodes := f.nodes[n := f.nodes[n].(parts := f.nodes[n].parts[ch := p.(own := p.own + [r])])])
  }

  lemma GrownFacts(f: Forest, n: string, ch: string, r: Record, m: string, c: string)
    requires n in f.nodes && m in f.nodes
    ensures m in Grown(f, n, ch, r).nodes && Rank(Grown(f, n, ch, r), m) == Rank(f, m)
    ensures HasParent(Grown(f, n, ch, r), m) == HasParent(f, m)
    ensures HasParent(f, m) ==> Parent(Grown(f, n, ch, r), m) == Parent(f, m)
    ensures var p, q := PartOf(f, m, c), PartOf(Grown(f, n, ch, r), m, c);
            q == if m == n && c == ch then p.(own := p.own + [r]) else p
  {
  }

  lemma ViewIs(f: Forest, n: string, ch: string)
    ensures var p := PartOf(f, n, ch);
            View(f, n, ch) == if HasParent(f, n) then Take(View(f, Parent(f, n), ch), p.base - 1) + p.own else p.own
  {
  }

  /** A prefix the child takes is not changed by what the parent appends after it. */
  lemma TakeKept(h: History, more: History, n: int)
    requires n <= |h|
    ensures Take(h + more, n) == Take(h, n)
  {
  }

  /** Appending to one node changes that node's view of that channel, by one record,
      and no other view at all. */
  lemma {:induction false} AppendIsolated(f: Forest, n: string, ch: string, r: Record, m: string, c: string)
    requires AllBased(f, c) && n in f.nodes && m in f.nodes
    ensures View(Grown(f, n, ch, r), m, c) == View(f, m, c) + (if m == n && c == ch then [r] else [])
    decreases Rank(f, m)
  {
    var g := Grown(f, n, ch, r);
    assert Based(f, m, c);
    ViewIs(f, m, c);
    ViewIs(g, m, c);
    GrownFacts(f, n, ch, r, m, c);
    hide AllBased, View, Grown, PartOf;
    if HasParent(f, m) {
      var p := Parent(f, m);
      AppendIsolated(f, n, ch, r, p, c);
      TakeKept(View(f, p, c), if p == n && c == ch then [r] else [], PartOf(f, m, c).base - 1);
    }
  }

  lemma OkIs(cfg: Config, f: Forest, ch: string)
    requires Ok(cfg, f) && ch in cfg.Names()
    ensures AllBased(f, ch)
    ensures cfg.Keyed(ch) ==> AllSorted(f, ch)
    ensures cfg.Unkeyed(ch) ==> AllStamped(cfg, f, ch)
  {
  }

  lemma OkAt(cfg: Config, f: Forest, n: string, ch: string)
    requires Ok(cfg, f) && ch in cfg.Names() && n in f.nodes
    ensures cfg.Valid() && cfg.main in cfg.Names() && Based(f, n, ch) && Last(f, n, ch) == |View(f, n, ch)|
    ensures View(f, n, cfg.main) != [] && (HasParent(f, n) ==> Parent(f, n) in f.nodes)
    ensures cfg.Keyed(ch) ==> Sorted(View(f, n, ch))
    ensures cfg.Unkeyed(ch) ==>
              Stamped(View(f, n, cfg.main), PartOf(f, n, cfg.main).base, ch, PartOf(f, n, ch).base, |View(f, n, ch)|)
  {
    hide View, Stamped, Sorted;
    OkIs(cfg, f, ch);
    LastIsLength(f, n, ch);
  }

  /** A record the code would accept at this point of this channel. */
  ghost predicate Fits(cfg: Config, f: Forest, n: string, ch: string, r: Record) {
    && r.writer == n
    && (cfg.Keyed(ch) && View(f, n, ch) != [] ==> View(f, n, ch)[|View(f, n, ch)| - 1].key <= r.key)
    && (ch == cfg.main ==> forall c :: c in cfg.Names() && cfg.Unkeyed(c) ==> Cursor(r, c) == |View(f, n, c)|)
  }

  lemma SortedGrows(h: History, r: Record)
    requires Sorted(h) && (h != [] ==> h[|h| - 1].key <= r.key)
    ensures Sorted(h + [r])
  {
  }

  lemma StampedGrows(main: History, mainBase: nat, ch: string, base: nat, length: nat, r: Record, more: nat)
    requires Stamped(main, mainBase, ch, base, length) && more >= length && base - 1 <= length
    ensures Stamped(main, mainBase, ch, base, more)
    ensures Cursor(r, ch) == length && mainBase - 1 <= |main| ==> Stamped(main + [r], mainBase, ch, base, length)
  {
    var h := main + [r];
    forall i, j | 0 <= i < j < |h| && Cursor(r, ch) == length ensures Cursor(h[i], ch) <= Cursor(h[j], ch) {
    }
  }

  lemma SameNodes(f: Forest, n: string, ch: string, r: Record)
    requires n in f.nodes
    ensures Grown(f, n, ch, r).nodes.Keys == f.nodes.Keys && Grown(f, n, ch, r).made == f.made
  {
  }

  lemma BasedIs(f: Forest, m: string, c: string)
    requires AllBased(f, c) && m in f.nodes
    ensures Based(f, m, c)
  {
  }

  lemma BasedGrows(f: Forest, n: string, ch: string, r: Record, m: string, c: string)
    requires AllBased(f, c) && n in f.nodes && m in f.nodes && r.writer == n
    ensures Based(Grown(f, n, ch, r), m, c)
  {
    hide AllBased, View, Grown, PartOf;
    BasedIs(f, m, c);
    GrownFacts(f, n, ch, r, m, c);
    if HasParent(f, m) {
      AppendIsolated(f, n, ch, r, Parent(f, m), c);
    }
  }

  lemma AppendBased(f: Forest, n: string, ch: string, r: Record, c: string)
    requires AllBased(f, c) && n in f.nodes && r.writer == n
    ensures AllBased(Grown(f, n, ch, r), c)
  {
    var g := Grown(f, n, ch, r);
    SameNodes(f, n, ch, r);
    hide Based, Grown;
    forall m | m in g.nodes ensures Based(g, m, c) {
      hide AllBased;
      BasedGrows(f, n, ch, r, m, c);
    }
  }

  lemma AppendSorted(cfg: Config, f: Forest, n: string, ch: string, r: Record, c: string)
    requires AllBased(f, c) && AllSorted(f, c) && n in f.nodes && Fits(cfg, f, n, ch, r) && cfg.Keyed(c)
    ensures AllSorted(Grown(f, n, ch, r), c)
  {
    var g := Grown(f, n, ch, r);
    SameNodes(f, n, ch, r);
    hide View, Grown, Sorted, AllBased;
    forall m | m in g.nodes ensures Sorted(View(g, m, c)) {
      AppendIsolated(f, n, ch, r, m, c);
      if m == n && c == ch {
        SortedGrows(View(f, m, c), r);
      } else {
        assert View(f, m, c) + [] == View(f, m, c);
      }
    }
  }

  lemma FitsIs(cfg: Config, f: Forest, n: string, ch: string, r: Record, c: string)
    requires Fits(cfg, f, n, ch, r) && cfg.Unkeyed(c)
    ensures r.writer == n && (ch == cfg.main ==> Cursor(r, c) == |View(f, n, c)|)
  {
    assert c in cfg.Names();
  }

  lemma AppendStampedAt(cfg: Config, f: Forest, n: string, ch: string, r: Record, m: string, c: string)
    requires AllBased(f, c) && AllBased(f, cfg.main) && StampedAt(cfg, f, m, c) && cfg.Valid()
    requires n in f.nodes && m in f.nodes && Fits(cfg, f, n, ch, r) && cfg.Unkeyed(c)
    ensures StampedAt(cfg, Grown(f, n, ch, r), m, c)
  {
    var g, main := Grown(f, n, ch, r), cfg.main;
    assert c != main;
    FitsIs(cfg, f, n, ch, r, c);
    hide View, Grown, PartOf, AllBased, Based, Fits, Stamped, Cursor;
    BasedIs(f, m, c);
    BasedIs(f, m, main);
    GrownFacts(f, n, ch, r, m, main);
    GrownFacts(f, n, ch, r, m, c);
    AppendIsolated(f, n, ch, r, m, main);
    AppendIsolated(f, n, ch, r, m, c);
    LengthIs(f, m, main);
    LengthIs(f, m, c);
    StampedGrows(View(f, m, main), PartOf(f, m, main).base, c, PartOf(f, m, c).base, |View(f, m, c)|, r,
        |View(g, m, c)|);
    assert View(f, m, main) + [] == View(f, m, main);
    assert View(f, m, c) + [] == View(f, m, c);
  }

  lemma AppendStamped(cfg: Config, f: Forest, n: string, ch: string, r: Record, c: string)
    requires AllBased(f, c) && AllBased(f, cfg.main) && AllStamped(cfg, f, c) && cfg.Valid()
    requires n in f.nodes && Fits(cfg, f, n, ch, r) && cfg.Unkeyed(c)
    ensures AllStamped(cfg, Grown(f, n, ch, r), c)
  {
    var g := Grown(f, n, ch, r);
    SameNodes(f, n, ch, r);
    hide AllBased, Fits, Grown, StampedAt;
    forall m | m in g.nodes ensures StampedAt(cfg, g, m, c) {
      AppendStampedAt(cfg, f, n, ch, r, m, c);
    }
  }

  lemma LengthIs(f: Forest, n: string, ch: string)
    requires Based(f, n, ch)
    ensures PartOf(f, n, ch).base >= 1
    ensures |View(f, n, ch)| == PartOf(f, n, ch).base - 1 + |PartOf(f, n, ch).own|
  {
  }

  lemma AppendMain(cfg: Config, f: Forest, n: string, ch: string, r: Record, m: string)
    requires AllBased(f, cfg.main) && View(f, m, cfg.main) != [] && n in f.nodes && m in f.nodes
    ensures View(Grown(f, n, ch, r), m, cfg.main) != []
  {
    hide View, Grown, AllBased;
    AppendIsolated(f, n, ch, r, m, cfg.main);
  }

  lemma AppendChannelOk(cfg: Config, f: Forest, n: string, ch: string, r: Record, c: string)
    requires Ok(cfg, f) && n in f.nodes && Fits(cfg, f, n, ch, r) && c in cfg.Names()
    ensures ChannelOk(cfg, Grown(f, n, ch, r), c)
  {
    OkIs(cfg, f, c);
    OkIs(cfg, f, cfg.main);
    assert cfg.Valid() && r.writer == n;
    hide Ok, Grown, Fits, AllBased, AllSorted, AllStamped;
    AppendBased(f, n, ch, r, c);
    if cfg.Keyed(c) {
      AppendSorted(cfg, f, n, ch, r, c);
    }
    if cfg.Unkeyed(c) {
      AppendStamped(cfg, f, n, ch, r, c);
    }
  }

  lemma GrownShaped(cfg: Config, f: Forest, n: string, ch: string, r: Record)
    requires Shaped(cfg, f) && n in f.nodes && ch in cfg.Names()
    ensures Shaped(cfg, Grown(f, n, ch, r))
  {
  }

  lemma AppendKeepsOk(cfg: Config, f: Forest, n: string, ch: string, r: Record)
    requires Ok(cfg, f) && n in f.nodes && ch in cfg.Names() && Fits(cfg, f, n, ch, r)
    ensures Ok(cfg, Grown(f, n, ch, r))
  {
    hide View, ChannelOk, Grown, Fits, Shaped;
    var g := Grown(f, n, ch, r);
    OkIs(cfg, f, cfg.main);
    GrownShaped(cfg, f, n, ch, r);
    SameNodes(f, n, ch, r);
    forall c | c in cfg.Names() ensures ChannelOk(cfg, g, c) {
      AppendChannelOk(cfg, f, n, ch, r, c);
    }
    forall m | m in g.nodes ensures View(g, m, cfg.main) != [] {
      AppendMain(cfg, f, n, ch, r, m);
    }
  }

  // ---- forking ----

  function Sprouted(f: Forest, child: string, parent: string, trunk: string, kind: string,
                    bases: map<string, nat>): Forest {
    Forest(f.nodes[child := Node(parent, trunk, kind, f.made, map ch | ch in bases :: Part(bases[ch], []))], f.made + 1)
  }

  lemma SproutedFacts(f: Forest, child: string, parent: string, trunk: string, kind: string,
                      bases: map<string, nat>, m: string, c: string)
    requires child !in f.nodes && m in f.nodes && (m == "" || HasParent(f, m))
    ensures var g := Sprouted(f, child, parent, trunk, kind, bases);
            && (m != "" ==> HasParent(g, m) && Parent(g, m) == Parent(f, m))
            && HasParent(g, m) == HasParent(f, m) && PartOf(g, m, c) == PartOf(f, m, c)
  {
  }

  /** Nobody's view changes when a node is forked. */
  lemma {:induction false} ForkIsolated(f: Forest, child: string, parent: string, trunk: string, kind: string,
                                        bases: map<string, nat>, m: string, c: string)
    requires AllBased(f, c) && child !in f.nodes && m in f.nodes
    ensures View(Sprouted(f, child, parent, trunk, kind, bases), m, c) == View(f, m, c)
    decreases Rank(f, m)
  {
    hide AllBased, View, Sprouted, PartOf;
    BasedIs(f, m, c);
    SproutedFacts(f, child, parent, trunk, kind, bases, m, c);
    ViewIs(f, m, c);
    ViewIs(Sprouted(f, child, parent, trunk, kind, bases), m, c);
    if HasParent(f, m) {
      ForkIsolated(f, child, parent, trunk, kind, bases, Parent(f, m), c);
    }
  }

  lemma SproutedChild(f: Forest, child: string, parent: string, trunk: string, kind: string, bases: map<string, nat>,
                      c: string)
    requires child !in f.nodes && child != "" && parent in f.nodes && f.nodes[parent].born < f.made && c in bases
    ensures var g := Sprouted(f, child, parent, trunk, kind, bases);
            HasParent(g, child) && Parent(g, child) == parent && PartOf(g, child, c) == Part(bases[c], [])
  {
  }

  /** The child's view is the prefix of the parent's below its base. */
  lemma ChildView(f: Forest, child: string, parent: string, trunk: string, kind: string, bases: map<string, nat>,
                  c: string)
    requires AllBased(f, c) && child !in f.nodes && child != "" && parent in f.nodes && f.nodes[parent].born < f.made
    requires c in bases
    ensures View(Sprouted(f, child, parent, trunk, kind, bases), child, c) ==
              Take(View(f, parent, c), bases[c] as int - 1)
  {
    var g := Sprouted(f, child, parent, trunk, kind, bases);
    hide View, AllBased, Sprouted, PartOf;
    ForkIsolated(f, child, parent, trunk, kind, bases, parent, c);
    SproutedChild(f, child, parent, trunk, kind, bases, c);
    ViewIs(g, child, c);
    assert Take(View(f, parent, c), bases[c] as int - 1) + [] == Take(View(f, parent, c), bases[c] as int - 1);
  }

  /** Bases a child may start from: inside what the parent shows, main not empty, and
      no inherited main record stamping past an unkeyed base. */
  ghost predicate BasesFit(cfg: Config, f: Forest, parent: string, bases: map<string, nat>) {
    && bases.Keys == cfg.Names() && bases[cfg.main] >= 2
    && forall ch :: ch in cfg.Names() ==> BaseFits(cfg, f, parent, bases, ch)
  }

  ghost predicate BaseFits(cfg: Config, f: Forest, parent: string, bases: map<string, nat>, ch: string)
    requires ch in bases && cfg.main in bases
  {
    && 1 <= bases[ch] <= |View(f, parent, ch)| + 1
    && bases[cfg.main] <= |View(f, parent, cfg.main)| + 1
    && (cfg.Unkeyed(ch) ==> forall i :: 0 <= i < bases[cfg.main] as int - 1 ==>
          Cursor(View(f, parent, cfg.main)[i], ch) <= bases[ch] as int - 1)
  }

  lemma PrefixSorted(h: History, n: int)
    requires Sorted(h)
    ensures Sorted(Take(h, n))
  {
  }

  lemma PrefixStamped(main: History, mainBase: nat, ch: string, base: nat, length: nat, newMain: nat, newBase: nat)
    requires Stamped(main, mainBase, ch, base, length) && 1 <= newMain <= |main| + 1 && newBase >= 1
    requires forall i :: 0 <= i < newMain - 1 ==> Cursor(main[i], ch) <= newBase - 1
    ensures Stamped(Take(main, newMain as int - 1), newMain, ch, newBase, newBase - 1)
  {
  }

  lemma SproutedBased(f: Forest, child: string, parent: string, trunk: string, kind: string, bases: map<string, nat>,
                      c: string)
    requires AllBased(f, c) && child !in f.nodes && child != "" && parent in f.nodes && f.nodes[parent].born < f.made
    requires c in bases && 1 <= bases[c] <= |View(f, parent, c)| + 1
    ensures AllBased(Sprouted(f, child, parent, trunk, kind, bases), c)
  {
    var g := Sprouted(f, child, parent, trunk, kind, bases);
    assert g.nodes.Keys == f.nodes.Keys + {child};
    hide AllBased, Sprouted, View, PartOf;
    forall m | m in f.nodes ensures Based(g, m, c) {
      BasedIs(f, m, c);
      SproutedFacts(f, child, parent, trunk, kind, bases, m, c);
      if m != "" {
        ForkIsolated(f, child, parent, trunk, kind, bases, Parent(f, m), c);
      }
    }
    SproutedChild(f, child, parent, trunk, kind, bases, c);
    ForkIsolated(f, child, parent, trunk, kind, bases, parent, c);
    assert Based(g, child, c);
    AllBasedIs(f, child, g, c);
  }

  lemma AllBasedIs(f: Forest, child: string, g: Forest, c: string)
    requires g.nodes.Keys == f.nodes.Keys + {child} && Based(g, child, c) && forall m :: m in f.nodes ==> Based(g, m, c)
    ensures AllBased(g, c)
  {
  }

  lemma FitIs(cfg: Config, f: Forest, parent: string, bases: map<string, nat>, c: string)
    requires BasesFit(cfg, f, parent, bases) && c in cfg.Names()
    ensures c in bases && cfg.main in bases && bases[cfg.main] >= 2 && 1 <= bases[c] <= |View(f, parent, c)| + 1
    ensures bases[cfg.main] <= |View(f, parent, cfg.main)| + 1
    ensures cfg.Unkeyed(c) ==> forall i :: 0 <= i < bases[cfg.main] as int - 1 ==>
              Cursor(View(f, parent, cfg.main)[i], c) <= bases[c] as int - 1
  {
    assert BaseFits(cfg, f, parent, bases, c);
    hide View, Cursor;
  }

  lemma Sprouts(cfg: Config, f: Forest, child: string, parent: string, trunk: string, kind: string,
                bases: map<string, nat>)
    requires Shaped(cfg, f) && child !in f.nodes && child != "" && parent in f.nodes && bases.Keys == cfg.Names()
    ensures var g := Sprouted(f, child, parent, trunk, kind, bases);
            g.nodes.Keys == f.nodes.Keys + {child} && Shaped(cfg, g) && f.nodes[parent].born < f.made
  {
  }

  lemma ForkSorted(f: Forest, child: string, parent: string, trunk: string, kind: string, bases: map<string, nat>,
                   c: string)
    requires AllBased(f, c) && AllSorted(f, c)
    requires child !in f.nodes && child != "" && parent in f.nodes && f.nodes[parent].born < f.made && c in bases
    ensures AllSorted(Sprouted(f, child, parent, trunk, kind, bases), c)
  {
    var g := Sprouted(f, child, parent, trunk, kind, bases);
    assert g.nodes.Keys == f.nodes.Keys + {child};
    hide Sprouted, View, AllBased, Sorted;
    forall m | m in g.nodes ensures Sorted(View(g, m, c)) {
      if m == child {
        ChildView(f, child, parent, trunk, kind, bases, c);
        PrefixSorted(View(f, parent, c), bases[c] as int - 1);
      } else {
        ForkIsolated(f, child, parent, trunk, kind, bases, m, c);
      }
    }
  }

  lemma StampedIs(cfg: Config, f: Forest, n: string, c: string)
    requires AllStamped(cfg, f, c) && n in f.nodes
    ensures StampedAt(cfg, f, n, c)
  {
  }

  lemma ForkStampedAt(cfg: Config, f: Forest, child: string, parent: string, trunk: string, kind: string,
                      bases: map<string, nat>, c: string, m: string)
    requires AllBased(f, c) && AllBased(f, cfg.main) && AllStamped(cfg, f, c) && cfg.Unkeyed(c) && c in cfg.Names()
    requires child !in f.nodes && child != "" && parent in f.nodes && f.nodes[parent].born < f.made
    requires BasesFit(cfg, f, parent, bases) && (m == child || m in f.nodes)
    ensures StampedAt(cfg, Sprouted(f, child, parent, trunk, kind, bases), m, c)
  {
    hide *;
    var g, main := Sprouted(f, child, parent, trunk, kind, bases), cfg.main;
    FitIs(cfg, f, parent, bases, c);
    if m == child {
      StampedIs(cfg, f, parent, c);
      StampOpen(cfg, f, parent, c);
      ChildView(f, child, parent, trunk, kind, bases, c);
      ChildView(f, child, parent, trunk, kind, bases, main);
      SproutedChild(f, child, parent, trunk, kind, bases, c);
      SproutedChild(f, child, parent, trunk, kind, bases, main);
      PrefixStamped(View(f, parent, main), PartOf(f, parent, main).base, c, PartOf(f, parent, c).base,
                    |View(f, parent, c)|, bases[main], bases[c]);
      TakeLength(View(f, parent, c), bases[c] as int - 1);
      StampClose(cfg, g, m, c);
    } else {
      StampedIs(cfg, f, m, c);
      StampOpen(cfg, f, m, c);
      BasedIs(f, m, c);
      BasedParent(f, m, c);
      SproutedFacts(f, child, parent, trunk, kind, bases, m, c);
      SproutedFacts(f, child, parent, trunk, kind, bases, m, main);
      ForkIsolated(f, child, parent, trunk, kind, bases, m, c);
      ForkIsolated(f, child, parent, trunk, kind, bases, m, main);
      StampClose(cfg, g, m, c);
    }
  }

  lemma StampOpen(cfg: Config, f: Forest, n: string, c: string)
    requires StampedAt(cfg, f, n, c)
    ensures Stamped(View(f, n, cfg.main), PartOf(f, n, cfg.main).base, c, PartOf(f, n, c).base, |View(f, n, c)|)
  {
  }

  lemma StampClose(cfg: Config, f: Forest, n: string, c: string)
    requires Stamped(View(f, n, cfg.main), PartOf(f, n, cfg.main).base, c, PartOf(f, n, c).base, |View(f, n, c)|)
    ensures StampedAt(cfg, f, n, c)
  {
  }

  lemma BasedParent(f: Forest, n: string, c: string)
    requires Based(f, n, c)
    ensures n == "" || HasParent(f, n)
  {
  }

  lemma TakeLength(h: History, n: int)
    requires 0 <= n <= |h|
    ensures |Take(h, n)| == n
  {
  }

  lemma ForkChannelOk(cfg: Config, f: Forest, child: string, parent: string, trunk: string, kind: string,
                      bases: map<string, nat>, c: string)
    requires Ok(cfg, f) && child !in f.nodes && child != "" && parent in f.nodes && BasesFit(cfg, f, parent, bases)
    requires c in cfg.Names()
    ensures ChannelOk(cfg, Sprouted(f, child, parent, trunk, kind, bases), c)
  {
    var g, main := Sprouted(f, child, parent, trunk, kind, bases), cfg.main;
    assert bases.Keys == cfg.Names() && main in cfg.Names();
    OkIs(cfg, f, c);
    OkIs(cfg, f, main);
    Sprouts(cfg, f, child, parent, trunk, kind, bases);
    FitIs(cfg, f, parent, bases, c);
    hide Ok, BasesFit, Shaped, Sprouted, View, AllBased, AllSorted, StampedAt;
    SproutedBased(f, child, parent, trunk, kind, bases, c);
    if cfg.Keyed(c) {
      ForkSorted(f, child, parent, trunk, kind, bases, c);
    }
    if cfg.Unkeyed(c) {
      forall m | m in g.nodes ensures StampedAt(cfg, g, m, c) {
        hide AllStamped;
        ForkStampedAt(cfg, f, child, parent, trunk, kind, bases, c, m);
      }
    }
  }

  lemma MainNamed(cfg: Config)
    ensures cfg.main in cfg.Names()
  {
  }

  lemma OkMain(cfg: Config, f: Forest, m: string)
    requires Ok(cfg, f) && m in f.nodes
    ensures View(f, m, cfg.main) != []
  {
  }

  lemma FitKeys(cfg: Config, f: Forest, parent: string, bases: map<string, nat>)
    requires BasesFit(cfg, f, parent, bases) && Ok(cfg, f)
    ensures bases.Keys == cfg.Names() && cfg.main in cfg.Names() && Shaped(cfg, f) && AllBased(f, cfg.main)
  {
    OkIs(cfg, f, cfg.main);
  }

  lemma ForkMain(cfg: Config, f: Forest, child: string, parent: string, trunk: string, kind: string,
                 bases: map<string, nat>, m: string)
    requires Ok(cfg, f) && BasesFit(cfg, f, parent, bases)
    requires child !in f.nodes && child != "" && parent in f.nodes && (m == child || m in f.nodes)
    ensures View(Sprouted(f, child, parent, trunk, kind, bases), m, cfg.main) != []
  {
    hide *;
    FitKeys(cfg, f, parent, bases);
    FitIs(cfg, f, parent, bases, cfg.main);
    Sprouts(cfg, f, child, parent, trunk, kind, bases);
    if m == child {
      ChildView(f, child, parent, trunk, kind, bases, cfg.main);
      TakeSome(View(f, parent, cfg.main), bases[cfg.main] as int - 1);
    } else {
      OkMain(cfg, f, m);
      ForkIsolated(f, child, parent, trunk, kind, bases, m, cfg.main);
    }
  }

  lemma TakeSome(h: History, n: int)
    requires 1 <= n <= |h|
    ensures Take(h, n) != []
  {
  }

  lemma OkFrom(cfg: Config, g: Forest)
    requires Shaped(cfg, g) && (forall c :: c in cfg.Names() ==> ChannelOk(cfg, g, c))
    requires forall m :: m in g.nodes ==> View(g, m, cfg.main) != []
    ensures Ok(cfg, g)
  {
  }

  lemma ForkKeepsOk(cfg: Config, f: Forest, child: string, parent: string, trunk: string, kind: string,
                    bases: map<string, nat>)
    requires Ok(cfg, f) && child !in f.nodes && child != "" && parent in f.nodes && BasesFit(cfg, f, parent, bases)
    ensures Ok(cfg, Sprouted(f, child, parent, trunk, kind, bases))
  {
    hide *;
    var g := Sprouted(f, child, parent, trunk, kind, bases);
    FitKeys(cfg, f, parent, bases);
    Sprouts(cfg, f, child, parent, trunk, kind, bases);
    forall c | c in cfg.Names() ensures ChannelOk(cfg, g, c) {
      ForkChannelOk(cfg, f, child, parent, trunk, kind, bases, c);
    }
    forall m | m in g.nodes ensures View(g, m, cfg.main) != [] {
      ForkMain(cfg, f, child, parent, trunk, kind, bases, m);
    }
    OkFrom(cfg, g);
  }

  // ---- removing ----

  /** `m` is `n` or forks from something below `n`. */
  predicate Below(f: Forest, n: string, m: string)
    decreases Rank(f, m)
  {
    m == n || (HasParent(f, m) && Below(f, n, Parent(f, m)))
  }

  function Pruned(f: Forest, gone: set<string>): Forest {
    f.(nodes := f.nodes - gone)
  }

  /** Nothing that stays forks from something that goes. */
  ghost predicate Closed(f: Forest, gone: set<string>) {
    "" !in gone && forall m :: m in f.nodes && m !in gone && HasParent(f, m) ==> Parent(f, m) !in gone
  }

  lemma PrunedFacts(f: Forest, gone: set<string>, m: string, c: string)
    requires Closed(f, gone) && m in f.nodes && m !in gone && (m == "" || HasParent(f, m))
    ensures var g := Pruned(f, gone);
            && m in g.nodes && g.nodes[m] == f.nodes[m] && PartOf(g, m, c) == PartOf(f, m, c)
            && HasParent(g, m) == HasParent(f, m) && (HasParent(f, m) ==> Parent(g, m) == Parent(f, m))
  {
  }

  /** Removing a whole subtree changes nothing the survivors read. */
  lemma {:induction false} RemoveIsolated(f: Forest, gone: set<string>, m: string, c: string)
    requires AllBased(f, c) && Closed(f, gone) && m in f.nodes && m !in gone
    ensures View(Pruned(f, gone), m, c) == View(f, m, c)
    decreases Rank(f, m)
  {
    BasedIs(f, m, c);
    PrunedFacts(f, gone, m, c);
    assert HasParent(f, m) ==> Parent(f, m) !in gone;
    hide AllBased, View, Pruned, PartOf, Closed;
    ViewIs(f, m, c);
    ViewIs(Pruned(f, gone), m, c);
    if HasParent(f, m) {
      RemoveIsolated(f, gone, Parent(f, m), c);
    }
  }

  lemma RemoveChannelOk(cfg: Config, f: Forest, gone: set<string>, c: string)
    requires ChannelOk(cfg, f, c) && AllBased(f, cfg.main) && Closed(f, gone)
    ensures ChannelOk(cfg, Pruned(f, gone), c)
  {
    var g := Pruned(f, gone);
    assert g.nodes.Keys == f.nodes.Keys - gone;
    hide Pruned, View, PartOf, AllBased, Sorted, Stamped;
    forall m | m in g.nodes
      ensures Based(g, m, c) && (cfg.Keyed(c) ==> Sorted(View(g, m, c))) && (cfg.Unkeyed(c) ==> StampedAt(cfg, g, m, c))
    {
      BasedIs(f, m, c);
      PrunedFacts(f, gone, m, c);
      PrunedFacts(f, gone, m, cfg.main);
      RemoveIsolated(f, gone, m, c);
      RemoveIsolated(f, gone, m, cfg.main);
      if HasParent(f, m) {
        RemoveIsolated(f, gone, Parent(f, m), c);
      }
    }
    RemovedBased(g, c);
  }

  lemma RemovedBased(g: Forest, c: string)
    requires forall m :: m in g.nodes ==> Based(g, m, c)
    ensures AllBased(g, c)
  {
  }

  lemma RemoveKeepsOk(cfg: Config, f: Forest, gone: set<string>)
    requires Ok(cfg, f) && Closed(f, gone)
    ensures Ok(cfg, Pruned(f, gone))
  {
    var g := Pruned(f, gone);
    assert g.nodes.Keys == f.nodes.Keys - gone && Shaped(cfg, g);
    OkIs(cfg, f, cfg.main);
    hide Pruned, View, ChannelOk, AllBased, Shaped, Closed;
    forall c | c in cfg.Names() ensures ChannelOk(cfg, g, c) {
      RemoveChannelOk(cfg, f, gone, c);
    }
    forall m | m in g.nodes ensures View(g, m, cfg.main) != [] {
      RemoveIsolated(f, gone, m, cfg.main);
    }
  }

  function Subtree(f: Forest, n: string): set<string> {
    set m | m in f.nodes && Below(f, n, m)
  }

  lemma SubtreeClosed(f: Forest, n: string)
    requires n != "" && (forall m :: m in f.nodes ==> m == "" || HasParent(f, m))
    ensures Closed(f, Subtree(f, n))
  {
  }

  // ---- what a node of a good forest is ----

  lemma NodeFacts(cfg: Config, f: Forest, n: string, ch: string)
    requires Ok(cfg, f) && n in f.nodes && ch in cfg.Names()
    ensures "" in f.nodes && cfg.main in cfg.Names() && (n == "" || HasParent(f, n)) && PartOf(f, n, ch).base >= 1
    ensures |View(f, n, ch)| == PartOf(f, n, ch).base - 1 + |PartOf(f, n, ch).own|
    ensures HasParent(f, n) ==>
              && Parent(f, n) in f.nodes && Rank(f, Parent(f, n)) < Rank(f, n)
              && PartOf(f, n, ch).base - 1 <= |View(f, Parent(f, n), ch)|
              && View(f, n, ch) == Take(View(f, Parent(f, n), ch), PartOf(f, n, ch).base - 1) + PartOf(f, n, ch).own
    ensures !HasParent(f, n) ==> View(f, n, ch) == PartOf(f, n, ch).own
    ensures cfg.Keyed(ch) ==> Sorted(View(f, n, ch))
  {
    OkAt(cfg, f, n, ch);
    LengthIs(f, n, ch);
    ViewIs(f, n, ch);
    assert "" in f.nodes;
    hide Ok, View, Sorted, Stamped;
  }

  /** Below its base a node reads its parent's records. */
  lemma Inherited(up: History, base: int, own: History, k: int)
    requires k <= base - 1 <= |up|
    ensures Take(Take(up, base - 1) + own, k) == Take(up, k)
    ensures forall i :: 0 <= i < base - 1 ==> (Take(up, base - 1) + own)[i] == up[i]
  {
  }

  lemma OwnWritten(cfg: Config, f: Forest, n: string, ch: string, j: nat)
    requires Ok(cfg, f) && n in f.nodes && ch in cfg.Names() && j < |PartOf(f, n, ch).own|
    ensures PartOf(f, n, ch).own[j].writer == n
  {
    OkIs(cfg, f, ch);
    BasedIs(f, n, ch);
    hide Ok, View, AllBased, PartOf;
  }

  lemma OwnAt(up: History, base: int, own: History, i: int)
    requires 0 <= base - 1 <= |up| && base - 1 <= i < base - 1 + |own|
    ensures (Take(up, base - 1) + own)[i] == own[i - (base - 1)]
  {
  }

  lemma OwnWriter(cfg: Config, f: Forest, n: string, ch: string, i: nat)
    requires Ok(cfg, f) && n in f.nodes && ch in cfg.Names() && PartOf(f, n, ch).base - 1 <= i < |View(f, n, ch)|
    ensures View(f, n, ch)[i].writer == n
  {
    hide *;
    NodeFacts(cfg, f, n, ch);
    OwnWritten(cfg, f, n, ch, i - (PartOf(f, n, ch).base - 1));
    if HasParent(f, n) {
      OwnAt(View(f, Parent(f, n), ch), PartOf(f, n, ch).base, PartOf(f, n, ch).own, i);
    }
  }
}
