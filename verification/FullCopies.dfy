/**
 The reference the flat forest is compared with: every node keeps a complete copy of
 its own history and the names of its ancestors, and every step is decided and carried
 out from those alone. There are no bases, and nobody reads through anybody.
 */
module FullCopies {
  import opened Basics
  import opened FlatForest
  import opened ForestRuns

  /** The ancestors of a node, and the labels it was made with. */
  datatype Tag = Tag(elders: set<string>, trunk: string, kind: string)

  datatype Shelf = Shelf(copies: Copies, tags: map<string, Tag>)

  function Held(s: Shelf, n: string, ch: string): History {
    if n in s.copies && ch in s.copies[n] then s.copies[n][ch] else []
  }

  function TagOf(s: Shelf, n: string): Tag {
    if n in s.tags then s.tags[n] else Tag({}, "", "")
  }

  function Lengths(cfg: Config, s: Shelf, n: string): map<string, nat> {
    map ch | ch in cfg.related && cfg.related[ch].unkeyed :: |Held(s, n, ch)|
  }

  function Family(s: Shelf, n: string): set<string> {
    set m | m in s.tags && (m == n || n in s.tags[m].elders)
  }

  /** An interior fork is taken from whoever wrote the record it is taken at. */
  function PointBy(main: History, n: string, at: nat): Point {
    if at == 0 || at >= |main| then Point(n, |main|, true) else Point(main[at - 1].writer, at, false)
  }

  predicate Permits(cfg: Config, s: Shelf, step: Step) {
    match step
    case AppendMain(n, _, extra) => n in s.copies && extra.Keys !! cfg.Names()
    case Append(n, ch, key, _) =>
      var h := Held(s, n, ch);
      n in s.copies && ch in cfg.related && (cfg.Unkeyed(ch) || h == [] || h[|h| - 1].key <= key)
    case ForkAt(n, _, child, _, _) => n in s.copies && child !in s.copies && child != ""
    case CreateStump(child) => child !in s.copies && StumpName(child)
    case Remove(n, recursive) =>
      && n in s.copies && n != ""
      && (recursive || forall m :: m in Family(s, n) ==> TagOf(s, m).trunk in {"", TagOf(s, n).trunk})
    case RemoveStump(n) => n in s.copies && n != "" && TagOf(s, n).kind == "loadout" && Family(s, n) <= {n}
  }

  function Meant(cfg: Config, s: Shelf, step: Step): Act {
    match step
    case AppendMain(n, payload, extra) =>
      Wrote(n, cfg.main, Record(n, |Held(s, n, cfg.main)| + 1, payload, Lengths(cfg, s, n) + extra))
    case Append(n, ch, key, payload) => Wrote(n, ch, Record(n, if cfg.Unkeyed(ch) then 0 else key, payload, map[]))
    case ForkAt(n, at, child, trunk, kind) => Forked(PointBy(Held(s, n, cfg.main), n, at), child, trunk, kind)
    case CreateStump(child) => Forked(PointBy(Held(s, "", cfg.main), "", 0), child, "", "loadout")
    case Remove(n, _) => Removed(Family(s, n))
    case RemoveStump(n) => Removed({n})
  }

  function Tagged(s: Shelf, a: Act): map<string, Tag> {
    match a
    case Wrote(_, _, _) => s.tags
    case Forked(p, child, trunk, kind) => s.tags[child := Tag(TagOf(s, p.from).elders + {p.from}, trunk, kind)]
    case Removed(gone) => s.tags - gone
  }

  /** One step of the reference; one it does not permit changes nothing. */
  ghost function Advanced(cfg: Config, s: Shelf, step: Step): Shelf {
    if Permits(cfg, s, step) && Whole(cfg, s.copies) then
      Shelf(Copy(cfg, s.copies, Meant(cfg, s, step)), Tagged(s, Meant(cfg, s, step)))
    else s
  }

  ghost function Shelved(cfg: Config, s: Shelf, run: seq<Step>): Shelf {
    if run == [] then s else Advanced(cfg, Shelved(cfg, s, run[..|run| - 1]), run[|run| - 1])
  }

  // ---- the family ----

  /** The tags name exactly the ancestors. */
  ghost predicate Kin(f: Forest, s: Shelf) {
    && s.tags.Keys == f.nodes.Keys
    && (forall m :: m in f.nodes ==> s.tags[m].trunk == f.nodes[m].trunk && s.tags[m].kind == f.nodes[m].kind)
    && (forall m, n :: m in f.nodes ==> (n in s.tags[m].elders <==> n != m && Below(f, n, m)))
  }

  ghost predicate Matches(cfg: Config, f: Forest, s: Shelf) {
    Refines(cfg, f, s.copies) && Kin(f, s)
  }

  lemma BelowIs(f: Forest, n: string, m: string)
    ensures Below(f, n, m) <==> m == n || (HasParent(f, m) && Below(f, n, Parent(f, m)))
  {
  }

  lemma {:induction false} BelowIn(f: Forest, n: string, m: string)
    requires m in f.nodes && Below(f, n, m)
    ensures n in f.nodes
    decreases Rank(f, m)
  {
    if m != n {
      BelowIn(f, n, Parent(f, m));
    }
  }

  /** Whoever has a descendant has a child. */
  lemma {:induction false} SomeChild(f: Forest, n: string, m: string)
    requires m in f.nodes && Below(f, n, m) && m != n
    ensures !Childless(f, n)
    decreases Rank(f, m)
  {
    if Parent(f, m) != n {
      SomeChild(f, n, Parent(f, m));
    }
  }

  /** The nodes of `keep` have the same parents in both, and those are kept too. */
  ghost predicate SameParents(f: Forest, g: Forest, keep: set<string>) {
    forall m :: m in keep ==>
      && m in f.nodes && m in g.nodes && HasParent(f, m) == HasParent(g, m)
      && (HasParent(f, m) ==> Parent(f, m) == Parent(g, m) && Parent(f, m) in keep)
  }

  lemma {:induction false} SameBelow(f: Forest, g: Forest, keep: set<string>, n: string, m: string)
    requires SameParents(f, g, keep) && m in keep
    ensures Below(f, n, m) <==> Below(g, n, m)
    decreases Rank(f, m)
  {
    BelowIs(f, n, m);
    BelowIs(g, n, m);
    if HasParent(f, m) {
      SameBelow(f, g, keep, n, Parent(f, m));
    }
  }

  lemma KinAt(f: Forest, s: Shelf, m: string, n: string)
    requires Kin(f, s) && m in f.nodes
    ensures m in s.tags && s.tags[m].trunk == f.nodes[m].trunk && s.tags[m].kind == f.nodes[m].kind
    ensures n in s.tags[m].elders <==> n != m && Below(f, n, m)
  {
  }

  lemma FamilyIs(f: Forest, s: Shelf, n: string)
    requires Kin(f, s)
    ensures Family(s, n) == Subtree(f, n)
  {
    forall m | m in f.nodes ensures m in Family(s, n) <==> m in Subtree(f, n) {
      KinAt(f, s, m, n);
      BelowIs(f, n, m);
    }
  }

  lemma KinFrom(f: Forest, s: Shelf)
    requires s.tags.Keys == f.nodes.Keys
    requires forall m :: m in f.nodes ==> s.tags[m].trunk == f.nodes[m].trunk && s.tags[m].kind == f.nodes[m].kind
    requires forall m, n :: m in f.nodes ==> (n in s.tags[m].elders <==> n != m && Below(f, n, m))
    ensures Kin(f, s)
  {
  }

  lemma GrownKin(f: Forest, s: Shelf, t: Shelf, n: string, ch: string, r: Record)
    requires Kin(f, s) && n in f.nodes && t.tags == s.tags
    ensures Kin(Grown(f, n, ch, r), t)
  {
    var g := Grown(f, n, ch, r);
    assert g.nodes.Keys == f.nodes.Keys == t.tags.Keys;
    hide Grown, Kin, PartOf;
    forall m | m in f.nodes
      ensures HasParent(f, m) == HasParent(g, m) && (HasParent(f, m) ==> Parent(f, m) == Parent(g, m))
      ensures t.tags[m].trunk == g.nodes[m].trunk && t.tags[m].kind == g.nodes[m].kind
    {
      GrownFacts(f, n, ch, r, m, ch);
      GrownLabels(f, n, ch, r, m);
      KinAt(f, s, m, m);
    }
    forall m, k | m in g.nodes ensures k in t.tags[m].elders <==> k != m && Below(g, k, m) {
      KinAt(f, s, m, k);
      SameBelow(f, g, f.nodes.Keys, k, m);
    }
    KinFrom(g, t);
  }

  lemma GrownLabels(f: Forest, n: string, ch: string, r: Record, m: string)
    requires n in f.nodes && m in f.nodes
    ensures var g := Grown(f, n, ch, r);
            m in g.nodes && g.nodes[m].trunk == f.nodes[m].trunk && g.nodes[m].kind == f.nodes[m].kind
  {
  }

  lemma SproutedKin(f: Forest, s: Shelf, t: Shelf, child: string, from: string, trunk: string, kind: string,
                    bases: map<string, nat>)
    requires Kin(f, s) && from in f.nodes && child !in f.nodes && child != "" && f.nodes[from].born < f.made
    requires forall m :: m in f.nodes ==> m == "" || HasParent(f, m)
    requires t.tags == s.tags[child := Tag(TagOf(s, from).elders + {from}, trunk, kind)]
    ensures Kin(Sprouted(f, child, from, trunk, kind, bases), t)
  {
    var g := Sprouted(f, child, from, trunk, kind, bases);
    assert g.nodes.Keys == f.nodes.Keys + {child};
    assert HasParent(g, child) && Parent(g, child) == from;
    assert SameParents(f, g, f.nodes.Keys);
    hide Sprouted, Kin;
    KinAt(f, s, from, from);
    forall m, k | m in g.nodes ensures k in t.tags[m].elders <==> k != m && Below(g, k, m) {
      if m == child {
        BelowIs(g, k, child);
        KinAt(f, s, from, k);
        BelowIs(f, k, from);
        SameBelow(f, g, f.nodes.Keys, k, from);
        if Below(f, k, from) {
          BelowIn(f, k, from);
        }
      } else {
        KinAt(f, s, m, k);
        SameBelow(f, g, f.nodes.Keys, k, m);
      }
    }
    forall m | m in g.nodes
      ensures t.tags[m].trunk == g.nodes[m].trunk && t.tags[m].kind == g.nodes[m].kind
    {
      SproutedLabels(f, child, from, trunk, kind, bases, m);
      if m != child {
        KinAt(f, s, m, m);
      }
    }
    KinFrom(g, t);
  }

  lemma SproutedLabels(f: Forest, child: string, from: string, trunk: string, kind: string, bases: map<string, nat>,
                       m: string)
    requires m == child || m in f.nodes
    ensures var g := Sprouted(f, child, from, trunk, kind, bases);
            && m in g.nodes && (m != child ==> g.nodes[m] == f.nodes[m])
            && (m == child ==> g.nodes[m].trunk == trunk && g.nodes[m].kind == kind)
  {
  }

  lemma PrunedKin(f: Forest, s: Shelf, t: Shelf, gone: set<string>)
    requires Kin(f, s) && Closed(f, gone) && t.tags == s.tags - gone
    requires forall m :: m in f.nodes ==> m == "" || HasParent(f, m)
    ensures Kin(Pruned(f, gone), t)
  {
    var g, keep := Pruned(f, gone), f.nodes.Keys - gone;
    assert g.nodes.Keys == keep == t.tags.Keys;
    forall m | m in keep
      ensures HasParent(f, m) == HasParent(g, m)
      ensures HasParent(f, m) ==> Parent(f, m) == Parent(g, m) && Parent(f, m) in keep
    {
      PrunedFacts(f, gone, m, "");
    }
    assert SameParents(f, g, keep);
    forall m, k | m in g.nodes ensures k in t.tags[m].elders <==> k != m && Below(g, k, m) {
      KinAt(f, s, m, k);
      SameBelow(f, g, keep, k, m);
    }
    KinFrom(g, t);
  }

  // ---- the reference decides as the forest does ----

  /** The record a fork is taken at was written by the node it is redirected to. */
  lemma {:induction false} OwnerWrote(cfg: Config, f: Forest, n: string, at: nat)
    requires Ok(cfg, f) && n in f.nodes && 1 <= at <= |View(f, n, cfg.main)|
    ensures View(f, n, cfg.main)[at - 1].writer == OwnerOf(cfg, f, n, at)
    decreases Rank(f, n)
  {
    hide *;
    MainNamed(cfg);
    NodeFacts(cfg, f, n, cfg.main);
    OwnerIs(cfg, f, n, at);
    if n != "" && PartOf(f, n, cfg.main).base > at {
      Inherited(View(f, Parent(f, n), cfg.main), PartOf(f, n, cfg.main).base, PartOf(f, n, cfg.main).own, at);
      OwnerWrote(cfg, f, Parent(f, n), at);
    } else {
      if n == "" {
        RootBase(cfg, f);
      }
      OwnWriter(cfg, f, n, cfg.main, at - 1);
    }
  }

  lemma PointByIs(cfg: Config, f: Forest, n: string, at: nat)
    requires Ok(cfg, f) && n in f.nodes
    ensures PointBy(View(f, n, cfg.main), n, at) == PointOf(cfg, f, n, at)
  {
    hide Ok, View, OwnerOf, PartOf;
    Rooted(cfg, f);
    if 1 <= at < |View(f, n, cfg.main)| {
      OwnerWrote(cfg, f, n, at);
      OwnerIs(cfg, f, n, at);
      if n == "" {
        RootBase(cfg, f);
      }
    }
  }

  lemma HeldIs(cfg: Config, f: Forest, s: Shelf, n: string, ch: string)
    requires Ok(cfg, f) && Matches(cfg, f, s) && n in f.nodes && ch in cfg.Names()
    ensures Held(s, n, ch) == View(f, n, ch) && |Held(s, n, ch)| == Last(f, n, ch)
  {
    RefinesAt(cfg, f, s.copies, n, ch);
    OkAt(cfg, f, n, ch);
    hide Ok, View, Last, Refines, Kin, Stamped, Sorted;
  }

  lemma LengthsAre(cfg: Config, f: Forest, s: Shelf, n: string)
    requires Ok(cfg, f) && Matches(cfg, f, s) && n in f.nodes
    ensures Lengths(cfg, s, n) == Stamps(cfg, f, n)
  {
    hide Ok, Matches, View, Last, Held;
    forall ch | ch in cfg.related && cfg.related[ch].unkeyed ensures |Held(s, n, ch)| == Standing(cfg, f, n, ch) {
      HeldIs(cfg, f, s, n, ch);
    }
  }

  lemma MatchedParts(cfg: Config, f: Forest, s: Shelf)
    requires Matches(cfg, f, s)
    ensures Refines(cfg, f, s.copies) && Kin(f, s) && Whole(cfg, s.copies) && s.copies.Keys == f.nodes.Keys
  {
    hide Kin;
  }

  lemma TrunksAgree(f: Forest, s: Shelf, n: string)
    requires Kin(f, s) && n in f.nodes
    ensures (forall m :: m in Family(s, n) ==> TagOf(s, m).trunk in {"", TagOf(s, n).trunk}) <==> !Branched(f, n)
  {
    KinAt(f, s, n, n);
    FamilyIs(f, s, n);
    forall m | m in f.nodes ensures TagOf(s, m).trunk == f.nodes[m].trunk {
      KinAt(f, s, m, m);
    }
    hide Kin, Below, Family;
  }

  lemma AloneAgrees(f: Forest, s: Shelf, n: string)
    requires Kin(f, s) && n in f.nodes && forall m :: m in f.nodes ==> m == "" || HasParent(f, m)
    ensures Family(s, n) <= {n} <==> Childless(f, n)
  {
    FamilyIs(f, s, n);
    hide Kin, Family;
    if !Childless(f, n) {
      var m :| m in f.nodes && m != "" && f.nodes[m].parent == n;
      BelowIs(f, n, m);
      BelowIs(f, n, n);
      assert m in Subtree(f, n) && m != n;
    } else {
      forall m | m in Subtree(f, n) ensures m == n {
        if m != n {
          SomeChild(f, n, m);
        }
      }
    }
  }

  /** Whether a step goes ahead, and what it comes down to, the copies and tags tell as
      the forest's bases and parents do. */
  lemma SameAct(cfg: Config, f: Forest, s: Shelf, step: Step)
    requires Ok(cfg, f) && Matches(cfg, f, s)
    ensures Permits(cfg, s, step) <==> Allowed(cfg, f, step)
    ensures Allowed(cfg, f, step) ==> Meant(cfg, s, step) == ActOf(cfg, f, step)
  {
    hide Ok, Matches, View, Last, Family, Subtree, Branched, Childless, PointBy, PointOf, Stamps, Lengths, Held;
    MatchedParts(cfg, f, s);
    Rooted(cfg, f);
    MainNamed(cfg);
    match step
    case AppendMain(n, payload, extra) =>
      if n in f.nodes {
        HeldIs(cfg, f, s, n, cfg.main);
        LengthsAre(cfg, f, s, n);
      }
    case Append(n, ch, key, payload) =>
      if n in f.nodes && ch in cfg.related {
        HeldIs(cfg, f, s, n, ch);
      }
    case ForkAt(n, at, child, trunk, kind) =>
      if n in f.nodes {
        HeldIs(cfg, f, s, n, cfg.main);
        PointByIs(cfg, f, n, at);
      }
    case CreateStump(child) =>
      HeldIs(cfg, f, s, "", cfg.main);
      PointByIs(cfg, f, "", 0);
    case Remove(n, recursive) =>
      if n in f.nodes {
        FamilyIs(f, s, n);
        TrunksAgree(f, s, n);
      }
    case RemoveStump(n) =>
      if n in f.nodes {
        KinAt(f, s, n, n);
        AloneAgrees(f, s, n);
      }
  }

  lemma ActKin(cfg: Config, f: Forest, s: Shelf, t: Shelf, a: Act)
    requires Ok(cfg, f) && Kin(f, s) && ActOk(cfg, f, a) && t.tags == Tagged(s, a)
    ensures Kin(Perform(cfg, f, a), t)
  {
    hide Ok, Kin, Fits, Closed, ForkPoint, Bases, Grown, Sprouted, Pruned;
    Rooted(cfg, f);
    match a
    case Wrote(n, ch, r) => GrownKin(f, s, t, n, ch, r);
    case Forked(p, child, trunk, kind) =>
      PointIn(cfg, f, p.from, p.at, p.tail);
      OkShape(cfg, f);
      SproutedKin(f, s, t, child, p.from, trunk, kind, Bases(cfg, f, p.from, p.at, p.tail));
    case Removed(gone) => PrunedKin(f, s, t, gone);
  }

  lemma StepMatches(cfg: Config, f: Forest, s: Shelf, step: Step)
    requires Ok(cfg, f) && Matches(cfg, f, s)
    ensures Matches(cfg, Next(cfg, f, step), Advanced(cfg, s, step))
  {
    hide Ok, Refines, Kin, Perform, ActOf, Allowed, ActOk, Copy, Whole, Permits, Meant, Tagged;
    SameAct(cfg, f, s, step);
    if Allowed(cfg, f, step) {
      var a := ActOf(cfg, f, step);
      ActIsOk(cfg, f, step);
      ActRefines(cfg, f, s.copies, a);
      ActKin(cfg, f, s, Advanced(cfg, s, step), a);
    }
  }

  /** Over every run, every surviving node reads exactly its full copy. */
  lemma {:induction false} RunRefines(cfg: Config, f: Forest, s: Shelf, run: seq<Step>)
    requires Ok(cfg, f) && Matches(cfg, f, s)
    ensures Matches(cfg, After(cfg, f, run), Shelved(cfg, s, run))
  {
    if run != [] {
      hide Ok, Matches, Next, Advanced;
      var front := run[..|run| - 1];
      RunRefines(cfg, f, s, front);
      RunOk(cfg, f, front);
      StepMatches(cfg, After(cfg, f, front), Shelved(cfg, s, front), run[|run| - 1]);
    }
  }

  /** What a new store's root holds: the genesis as main record 1, stamped 0 for every
      unkeyed channel, and an empty object as the first patch of a reducible channel. */
  function Birth(cfg: Config, genesis: Bytes, ch: string): History {
    if ch == cfg.main then
      [Record("", 1, genesis, map c | c in cfg.related && cfg.related[c].unkeyed :: 0)]
    else if ch in cfg.related && cfg.related[ch].reducible then
      [Record("", if cfg.related[ch].unkeyed then 0 else 1, ['{' as int as Byte, '}' as int as Byte], map[])]
    else []
  }

  /** The reference for a new store: the root alone. */
  function Start(cfg: Config, genesis: Bytes): Shelf {
    Shelf(map["" := map ch | ch in cfg.Names() :: Birth(cfg, genesis, ch)], map["" := Tag({}, "", "null")])
  }

  lemma BirthIs(cfg: Config, genesis: Bytes, ch: string)
    requires cfg.Valid() && ch in cfg.Names()
    ensures PartOf(Created(cfg, genesis), "", ch).own == Birth(cfg, genesis, ch)
  {
    assert (map c | c in cfg.related && cfg.related[c].unkeyed :: 0) == Stamps(cfg, Forest(map[], 0), "");
    assert ['{' as int as Byte, '}' as int as Byte] == EMPTY;
  }

  lemma StartMatches(cfg: Config, genesis: Bytes)
    requires cfg.Valid()
    ensures Matches(cfg, Created(cfg, genesis), Start(cfg, genesis))
  {
    hide *;
    var f, s := Created(cfg, genesis), Start(cfg, genesis);
    MainNamed(cfg);
    CreatedView(cfg, genesis, cfg.main);
    StartIs(cfg, genesis);
    forall n, ch | n in f.nodes && ch in cfg.Names() ensures s.copies[n][ch] == View(f, n, ch) {
      CreatedView(cfg, genesis, ch);
      BirthIs(cfg, genesis, ch);
    }
    RefinesFrom(cfg, f, s.copies);
    RootKin(cfg, genesis);
    MatchesFrom(cfg, f, s);
  }

  lemma MatchesFrom(cfg: Config, f: Forest, s: Shelf)
    requires Refines(cfg, f, s.copies) && Kin(f, s)
    ensures Matches(cfg, f, s)
  {
  }

  lemma StartIs(cfg: Config, genesis: Bytes)
    ensures var s := Start(cfg, genesis);
            && s.copies.Keys == {""} && s.copies[""].Keys == cfg.Names()
            && forall ch :: ch in cfg.Names() ==> s.copies[""][ch] == Birth(cfg, genesis, ch)
  {
    hide Birth;
  }

  lemma RootKin(cfg: Config, genesis: Bytes)
    ensures Kin(Created(cfg, genesis), Start(cfg, genesis))
  {
    hide Birth;
  }

  /** From creation on, whatever the run, reading through parents is reading a full
      copy that only its own appends and its own fork ever touched. */
  lemma ForestRefines(cfg: Config, genesis: Bytes, run: seq<Step>, n: string, ch: string)
    requires cfg.Valid() && ch in cfg.Names()
    ensures var g, s := After(cfg, Created(cfg, genesis), run), Shelved(cfg, Start(cfg, genesis), run);
            && g.nodes.Keys == s.copies.Keys
            && (n in g.nodes ==> View(g, n, ch) == Held(s, n, ch))
  {
    hide *;
    CreatedOk(cfg, genesis);
    StartMatches(cfg, genesis);
    RunRefines(cfg, Created(cfg, genesis), Start(cfg, genesis), run);
    RunOk(cfg, Created(cfg, genesis), run);
    var g, s := After(cfg, Created(cfg, genesis), run), Shelved(cfg, Start(cfg, genesis), run);
    MatchedParts(cfg, g, s);
    if n in g.nodes {
      HeldIs(cfg, g, s, n, ch);
    }
  }
}
