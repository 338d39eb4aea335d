/**
 The forest as the store keeps it: a table of nodes updated in place, climbed and
 scanned by loops. Every operation is proved to be the step it stands for.
 */
module TrunkStore {
  import opened Basics
  import opened FlatForest
  import opened ForestRuns
  import Resplit

  /** The nodes no younger than `n`. */
  function Elders(f: Forest, n: string): set<string> {
    set m | m in f.nodes && Rank(f, m) <= Rank(f, n)
  }

  lemma FewerElders(f: Forest, n: string)
    requires HasParent(f, n)
    ensures |Elders(f, Parent(f, n))| < |Elders(f, n)|
  {
    var up, here := Elders(f, Parent(f, n)), Elders(f, n);
    assert up <= here - {n};
    SubsetSize(up, here - {n});
  }

  lemma AllElders(f: Forest, n: string)
    ensures |Elders(f, n)| <= |f.nodes|
  {
    SubsetSize(Elders(f, n), f.nodes.Keys);
  }

  /** A walk from `n` that has finished with the children in `done`. */
  ghost predicate Walked(f: Forest, n: string, done: set<string>, keys: set<string>) {
    && n in keys
    && (forall m :: m in keys && m != n ==> exists k :: k in done && m in f.nodes && Below(f, k, m))
    && (forall k, m :: k in done && m in f.nodes && Below(f, k, m) ==> m in keys)
  }

  lemma {:induction false} BelowChild(f: Forest, n: string, m: string)
    requires forall k :: k in f.nodes ==> k == "" || HasParent(f, k)
    requires m in f.nodes && Below(f, n, m) && m != n
    ensures exists k :: k in f.nodes && k != "" && f.nodes[k].parent == n && Below(f, k, m)
    decreases Rank(f, m)
  {
    if Parent(f, m) == n {
      assert Below(f, m, m);
    } else {
      BelowChild(f, n, Parent(f, m));
    }
  }

  lemma {:induction false} BelowThrough(f: Forest, n: string, k: string, m: string)
    requires HasParent(f, k) && Parent(f, k) == n && Below(f, k, m)
    ensures Below(f, n, m)
    decreases Rank(f, m)
  {
    if m != k {
      BelowThrough(f, n, k, Parent(f, m));
    }
  }

  /** `order` lists every channel once. */
  ghost predicate Lists(cfg: Config, order: seq<string>) {
    forall ch :: ch in order <==> ch in cfg.Names()
  }

  lemma InOrder(cfg: Config, order: seq<string>, i: nat)
    requires Lists(cfg, order) && i < |order|
    ensures order[i] in cfg.Names()
  {
    assert order[i] in order;
  }

  lemma NothingBelow(h: History, at: nat)
    ensures AtOrBelow(h[..0], at) == 0
  {
  }

  lemma BelowStep(h: History, lt: nat, at: nat)
    requires 0 < lt <= |h|
    ensures AtOrBelow(h[..lt], at) == if h[lt - 1].key <= at then lt else AtOrBelow(h[..lt - 1], at)
  {
    assert h[..lt][..lt - 1] == h[..lt - 1];
  }

  lemma BaseIs(cfg: Config, f: Forest, n: string, ch: string, at: nat, tail: bool)
    requires ForkPoint(cfg, f, n, at, tail)
    ensures 1 <= at <= |View(f, n, cfg.main)|
    ensures BaseOf(cfg, f, n, ch, at, tail) ==
            var last, first := Last(f, n, ch), FirstIndex(f, n, ch);
            var stamp := Cursor(View(f, n, cfg.main)[at - 1], ch);
            var lt := AtOrBelow(View(f, n, ch), at);
            var base := if ch == cfg.main then at + 1
                        else if cfg.Unkeyed(ch) && tail then last + 1
                        else if cfg.Unkeyed(ch) then (if stamp > last then last + 1 else stamp + 1)
                        else if lt > last then last + 1 else lt + 1;
            if base < first then first else base
  {
    hide View, Last, FirstIndex, Cursor, AtOrBelow;
  }

  lemma BasesFrom(cfg: Config, f: Forest, n: string, at: nat, tail: bool, order: seq<string>, bases: map<string, nat>)
    requires Lists(cfg, order) && (forall ch :: ch in bases <==> ch in order)
    requires forall ch :: ch in bases ==> bases[ch] == BaseOf(cfg, f, n, ch, at, tail)
    ensures bases == Bases(cfg, f, n, at, tail)
  {
    hide BaseOf;
  }

  lemma StampsFrom(cfg: Config, f: Forest, n: string, order: seq<string>, out: map<string, nat>)
    requires Lists(cfg, order)
    requires forall ch :: ch in out <==> ch in order && cfg.Unkeyed(ch)
    requires forall ch :: ch in out ==> out[ch] == Last(f, n, ch)
    ensures out == Stamps(cfg, f, n)
  {
    hide Last;
  }

  class Trunks {
    const cfg: Config
    const order: seq<string>
    var nodes: map<string, Node>
    var made: nat

    function Now(): Forest
      reads this
    {
      Forest(nodes, made)
    }

    ghost predicate Valid()
      reads this
    {
      Ok(cfg, Now()) && Lists(cfg, order)
    }

    constructor Create(cfg: Config, order: seq<string>, genesis: Bytes)
      requires cfg.Valid() && Lists(cfg, order)
      ensures this.cfg == cfg && this.order == order && Valid() && Now() == Created(cfg, genesis)
    {
      var f := Created(cfg, genesis);
      this.cfg, this.order := cfg, order;
      nodes, made := f.nodes, f.made;
      new;
      CreatedOk(cfg, genesis);
      assert Now() == f;
    }

    /** Read through the parents: below a node's base, ask the parent. */
    method Read(n: string, ch: string, idx: nat) returns (r: Option<Record>)
      requires Valid() && n in nodes && ch in cfg.Names()
      ensures r == if 1 <= idx <= |View(Now(), n, ch)| then Some(View(Now(), n, ch)[idx - 1]) else None
    {
      hide *;
      var f := Now();
      NowIs();
      var cur := n;
      NodeFacts(cfg, f, cur, ch);
      while HasParent(f, cur) && idx < PartOf(f, cur, ch).base
        invariant cur in f.nodes
        invariant idx <= |View(f, n, ch)| <==> idx <= |View(f, cur, ch)|
        invariant 1 <= idx <= |View(f, n, ch)| ==> View(f, n, ch)[idx - 1] == View(f, cur, ch)[idx - 1]
        decreases Rank(f, cur)
      {
        NodeFacts(cfg, f, cur, ch);
        Inherited(View(f, Parent(f, cur), ch), PartOf(f, cur, ch).base, PartOf(f, cur, ch).own, 0);
        cur := Parent(f, cur);
      }
      NodeFacts(cfg, f, cur, ch);
      if !HasParent(f, cur) {
        RootBase(f, cur, ch);
      }
      var p := PartOf(f, cur, ch);
      if idx < p.base || idx - p.base >= |p.own| {
        return None;
      }
      if HasParent(f, cur) {
        OwnAt(View(f, Parent(f, cur), ch), p.base, p.own, idx - 1);
      }
      return Some(p.own[idx - p.base]);
    }

    lemma NowIs()
      requires Valid()
      ensures Ok(cfg, Now()) && Lists(cfg, order) && Now().nodes == nodes && Now().made == made
                && cfg.main in cfg.Names()
    {
    }

    lemma RootBase(f: Forest, n: string, ch: string)
      requires Ok(cfg, f) && n in f.nodes && ch in cfg.Names() && !HasParent(f, n)
      ensures PartOf(f, n, ch).base == 1
    {
      OkIs(cfg, f, ch);
      BasedIs(f, n, ch);
    }

    /** Scan from the end for the last record keyed at or below `at`. */
    method LookupAtOrBelow(n: string, ch: string, at: nat) returns (lt: nat)
      requires Valid() && n in nodes && ch in cfg.Names()
      ensures lt == AtOrBelow(View(Now(), n, ch), at)
    {
      hide *;
      ghost var h := View(Now(), n, ch);
      NowIs();
      OkAt(cfg, Now(), n, ch);
      lt := Last(Now(), n, ch);
      assert h[..|h|] == h;
      NothingBelow(h, at);
      while lt > 0
        invariant lt <= |h| && AtOrBelow(h, at) == AtOrBelow(h[..lt], at)
      {
        var r := Read(n, ch, lt);
        BelowStep(h, lt, at);
        if r.value.key <= at {
          return;
        }
        lt := lt - 1;
      }
    }

    method CursorAt(n: string, at: nat, ch: string) returns (cur: nat)
      requires Valid() && n in nodes && 1 <= at <= |View(Now(), n, cfg.main)|
      ensures cur == Cursor(View(Now(), n, cfg.main)[at - 1], ch)
    {
      NowIs();
      hide Valid, View;
      var r := Read(n, cfg.main, at);
      return Cursor(r.value, ch);
    }

    method ChannelBase(n: string, ch: string, at: nat, tail: bool) returns (base: nat)
      requires Valid() && ch in cfg.Names() && ForkPoint(cfg, Now(), n, at, tail)
      ensures base == BaseOf(cfg, Now(), n, ch, at, tail)
    {
      hide *;
      NowIs();
      PointIn(cfg, Now(), n, at, tail);
      BaseIs(cfg, Now(), n, ch, at, tail);
      var last, first := Last(Now(), n, ch), FirstIndex(Now(), n, ch);
      if ch == cfg.main {
        base := at + 1;
      } else if cfg.Unkeyed(ch) && tail {
        base := last + 1;
      } else if cfg.Unkeyed(ch) {
        var cur := CursorAt(n, at, ch);
        base := cur + 1;
        if base > last + 1 {
          base := last + 1;
        }
      } else {
        var lt := LookupAtOrBelow(n, ch, at);
        base := lt + 1;
        if base > last + 1 {
          base := last + 1;
        }
      }
      if base < first {
        base := first;
      }
    }

    /** The fork base of every channel; `at == 0` stands for the tail. Everything below
        a base is the cut at the fork point, and the parent has it. */
    method ChannelBases(n: string, at: nat) returns (bases: map<string, nat>)
      requires Valid() && n in nodes && at <= |View(Now(), n, cfg.main)|
      ensures at == 0 ==> bases == Bases(cfg, Now(), n, |View(Now(), n, cfg.main)|, true)
      ensures at > 0 ==> bases == Bases(cfg, Now(), n, at, false)
    {
      hide *;
      NowIs();
      LastMain(Now(), n);
      Forkable(Now(), n, at);
      var tail := at == 0;
      var point := if tail then Last(Now(), n, cfg.main) else at;
      bases := map[];
      var i := 0;
      while i < |order|
        invariant 0 <= i <= |order|
        invariant forall ch :: ch in bases <==> ch in order[..i]
        invariant forall ch :: ch in bases ==> bases[ch] == BaseOf(cfg, Now(), n, ch, point, tail)
      {
        InOrder(cfg, order, i);
        var b := ChannelBase(n, order[i], point, tail);
        bases := bases[order[i] := b];
        assert order[..i + 1] == order[..i] + [order[i]];
        i := i + 1;
      }
      assert order[..|order|] == order;
      BasesFrom(cfg, Now(), n, point, tail, order, bases);
    }

    /** Climb the lineage to the node whose own main range covers `at`. The bound on the
        climb is never reached. */
    method FindOwner(n: string, at: nat) returns (owner: Option<string>)
      requires Valid() && n in nodes
      ensures owner == Some(OwnerOf(cfg, Now(), n, at))
    {
      hide *;
      NowIs();
      var f := Now();
      var cur, hops := n, |nodes|;
      AllElders(f, n);
      while cur != ""
        invariant cur in f.nodes && OwnerOf(cfg, f, n, at) == OwnerOf(cfg, f, cur, at) && hops >= |Elders(f, cur)|
        decreases Rank(f, cur)
      {
        NodeFacts(cfg, f, cur, cfg.main);
        OwnerIs(cfg, f, cur, at);
        FewerElders(f, cur);
        if hops == 0 {
          return None;
        }
        hops := hops - 1;
        if PartOf(f, cur, cfg.main).base <= at {
          return Some(cur);
        }
        cur := Parent(f, cur);
      }
      OwnerIs(cfg, f, "", at);
      return Some("");
    }

    /** Write the child's bases and its marker; nothing of the parent. */
    method ForkFlat(parent: string, at: nat, child: string, trunk: string, kind: string)
      requires Valid() && parent in nodes && at <= |View(Now(), parent, cfg.main)| && child !in nodes && child != ""
      modifies this
      ensures Valid()
      ensures var p := if at == 0 then Point(parent, |View(old(Now()), parent, cfg.main)|, true)
                else Point(parent, at, false);
              Now() == Perform(cfg, old(Now()), Forked(p, child, trunk, kind))
    {
      hide *;
      NowIs();
      ghost var f := Now();
      ghost var p := if at == 0 then Point(parent, |View(f, parent, cfg.main)|, true) else Point(parent, at, false);
      Forkable(f, parent, at);
      var bases := ChannelBases(parent, at);
      PerformFork(cfg, f, p, child, trunk, kind);
      ActIsFork(f, p, child, trunk, kind);
      PerformKeepsOk(cfg, f, Forked(p, child, trunk, kind));
      SproutedIs(f, child, parent, trunk, kind, bases);
      nodes := nodes[child := Node(parent, trunk, kind, made, map ch | ch in bases :: Part(bases[ch], []))];
      made := made + 1;
      Settled(Perform(cfg, f, Forked(p, child, trunk, kind)));
    }

    lemma Forkable(f: Forest, n: string, at: nat)
      requires Ok(cfg, f) && n in f.nodes && at <= |View(f, n, cfg.main)|
      ensures at == 0 ==> ForkPoint(cfg, f, n, |View(f, n, cfg.main)|, true)
      ensures at > 0 ==> ForkPoint(cfg, f, n, at, false)
    {
      OkAt(cfg, f, n, cfg.main);
    }

    lemma ActIsFork(f: Forest, p: Point, child: string, trunk: string, kind: string)
      requires ForkPoint(cfg, f, p.from, p.at, p.tail) && child !in f.nodes && child != ""
      ensures ActOk(cfg, f, Forked(p, child, trunk, kind))
    {
    }

    lemma SproutedIs(f: Forest, child: string, parent: string, trunk: string, kind: string, bases: map<string, nat>)
      ensures Sprouted(f, child, parent, trunk, kind, bases).nodes ==
              f.nodes[child := Node(parent, trunk, kind, f.made, map ch | ch in bases :: Part(bases[ch], []))]
      ensures Sprouted(f, child, parent, trunk, kind, bases).made == f.made + 1
    {
    }

    lemma Settled(f: Forest)
      requires f.nodes == nodes && f.made == made && Ok(cfg, f) && Lists(cfg, order)
      ensures Valid() && Now() == f
    {
    }

    /** Fork where the tail, the branch itself, or the owner of the point says. */
    method Fork(n: string, at: nat, child: string, trunk: string, kind: string)
      requires Valid() && n in nodes && child !in nodes && child != ""
      modifies this
      ensures Valid() && Now() == Next(cfg, old(Now()), ForkAt(n, at, child, trunk, kind))
    {
      hide *;
      NowIs();
      ghost var f := Now();
      LastMain(f, n);
      PointIs(cfg, f, n, at);
      NextIsFork(f, n, at, child, trunk, kind);
      var tail, ownFirst := Last(Now(), n, cfg.main), PartOf(Now(), n, cfg.main).base;
      if at == 0 || at >= tail {
        ForkFlat(n, 0, child, trunk, kind);
      } else if at < ownFirst {
        var owner := FindOwner(n, at);
        OwnerHas(cfg, f, n, at);
        ForkFlat(owner.value, at, child, trunk, kind);
      } else {
        ForkFlat(n, at, child, trunk, kind);
      }
    }

    lemma LastMain(f: Forest, n: string)
      requires Ok(cfg, f) && n in f.nodes
      ensures Last(f, n, cfg.main) == |View(f, n, cfg.main)| >= 1
    {
      OkAt(cfg, f, n, cfg.main);
    }

    lemma NextIsFork(f: Forest, n: string, at: nat, child: string, trunk: string, kind: string)
      requires n in f.nodes && child !in f.nodes && child != ""
      ensures Next(cfg, f, ForkAt(n, at, child, trunk, kind)) ==
                Perform(cfg, f, Forked(PointOf(cfg, f, n, at), child, trunk, kind))
    {
      hide PointOf, Perform;
    }
  
    /** Write one record at the end of one channel of one node. */
    method Push(n: string, ch: string, r: Record)
      requires Valid() && n in nodes && ch in cfg.Names() && Fits(cfg, Now(), n, ch, r)
      modifies this
      ensures Valid() && Now() == Grown(old(Now()), n, ch, r)
    {
      hide *;
      NowIs();
      ghost var f := Now();
      AppendKeepsOk(cfg, f, n, ch, r);
      GrownIs(f, n, ch, r);
      var p := PartOf(Now(), n, ch);
      nodes := nodes[n := nodes[n].(parts := nodes[n].parts[ch := p.(own := p.own + [r])])];
      Settled(Grown(f, n, ch, r));
    }

    /** Append to main, stamped with where every unkeyed channel stands. */
    method AddMain(n: string, payload: Bytes, extra: map<string, nat>) returns (lt: nat)
      requires Valid() && n in nodes && extra.Keys !! cfg.Names()
      modifies this
      ensures Valid() && Now() == Next(cfg, old(Now()), AppendMain(n, payload, extra))
      ensures lt == |View(old(Now()), n, cfg.main)| + 1
    {
      hide *;
      NowIs();
      ghost var f := Now();
      LastMain(f, n);
      var cursors := UnkeyedCursors(n);
      var next := Last(Now(), n, cfg.main) + 1;
      var r := Record(n, next, payload, cursors + extra);
      MainFits(f, n, payload, extra);
      Push(n, cfg.main, r);
      return next;
    }

    /** Where every unkeyed channel stands, gathered in a loop over the channels. */
    method UnkeyedCursors(n: string) returns (out: map<string, nat>)
      requires Valid() && n in nodes
      ensures out == Stamps(cfg, Now(), n)
    {
      hide *;
      NowIs();
      out := map[];
      var i := 0;
      while i < |order|
        invariant 0 <= i <= |order|
        invariant forall ch :: ch in out <==> ch in order[..i] && cfg.Unkeyed(ch)
        invariant forall ch :: ch in out ==> out[ch] == Last(Now(), n, ch)
      {
        if cfg.Unkeyed(order[i]) {
          out := out[order[i] := Last(Now(), n, order[i])];
        }
        assert order[..i + 1] == order[..i] + [order[i]];
        i := i + 1;
      }
      assert order[..|order|] == order;
      StampsFrom(cfg, Now(), n, order, out);
    }

    lemma MainFits(f: Forest, n: string, payload: Bytes, extra: map<string, nat>)
      requires Ok(cfg, f) && n in f.nodes && extra.Keys !! cfg.Names()
      ensures var r := Record(n, Last(f, n, cfg.main) + 1, payload, Stamps(cfg, f, n) + extra);
              && Fits(cfg, f, n, cfg.main, r)
              && Next(cfg, f, AppendMain(n, payload, extra)) == Grown(f, n, cfg.main, r)
    {
      hide Ok, Fits, Grown, Last, Stamps;
      AppendMainFits(cfg, f, n, payload, extra);
    }

    lemma GrownIs(f: Forest, n: string, ch: string, r: Record)
      requires n in f.nodes
      ensures var p := PartOf(f, n, ch);
              Grown(f, n, ch, r).nodes ==
                  f.nodes[n := f.nodes[n].(parts := f.nodes[n].parts[ch := p.(own := p.own + [r])])]
      ensures Grown(f, n, ch, r).made == f.made
    {
    }

    /** Whether a key may follow what the channel holds. */
    method Follows(n: string, ch: string, key: nat) returns (ok: bool)
      requires Valid() && n in nodes && ch in cfg.Names()
      ensures var h := View(Now(), n, ch); ok == (cfg.Unkeyed(ch) || h == [] || h[|h| - 1].key <= key)
    {
      hide *;
      NowIs();
      OkAt(cfg, Now(), n, ch);
      FirstAt(Now(), n, ch);
      if cfg.Unkeyed(ch) {
        return true;
      }
      var last, first := Last(Now(), n, ch), FirstIndex(Now(), n, ch);
      if first == 0 || last < first {
        return true;
      }
      var tail := Read(n, ch, last);
      return key >= tail.value.key;
    }

    /** Append to a related channel. A keyed one takes no key below its last. */
    method Add(n: string, ch: string, key: nat, payload: Bytes) returns (ok: bool)
      requires Valid() && n in nodes && ch in cfg.related
      modifies this
      ensures Valid() && Now() == Next(cfg, old(Now()), Append(n, ch, key, payload))
      ensures ok == Allowed(cfg, old(Now()), Append(n, ch, key, payload))
    {
      assert ch in cfg.Names();
      hide *;
      NowIs();
      ghost var f := Now();
      OkAt(cfg, f, n, ch);
      AppendChoice(f, n, ch, key, payload);
      var fits := Follows(n, ch, key);
      if !fits {
        return false;
      }
      var r := Record(n, if cfg.Unkeyed(ch) then 0 else key, payload, map[]);
      AppendFits(cfg, f, n, ch, key, payload);
      Push(n, ch, r);
      return true;
    }

    lemma FirstAt(f: Forest, n: string, ch: string)
      requires Ok(cfg, f) && n in f.nodes && ch in cfg.Names()
      ensures FirstIndex(f, n, ch) <= 1 && (View(f, n, ch) != [] ==> FirstIndex(f, n, ch) == 1)
    {
      OkIs(cfg, f, ch);
      FirstIsOne(f, n, ch);
    }

    lemma AppendChoice(f: Forest, n: string, ch: string, key: nat, payload: Bytes)
      requires n in f.nodes && ch in cfg.related
      ensures var s, h := Append(n, ch, key, payload), View(f, n, ch);
              var r := Record(n, if cfg.Unkeyed(ch) then 0 else key, payload, map[]);
              && (Allowed(cfg, f, s) <==> cfg.Unkeyed(ch) || h == [] || h[|h| - 1].key <= key)
              && (ActOk(cfg, f, ActOf(cfg, f, s)) ==> Fits(cfg, f, n, ch, r))
              && Next(cfg, f, s) == if Allowed(cfg, f, s) then Grown(f, n, ch, r) else f
    {
      hide View, Fits, Grown;
    }

    /** A node and everything below it, child by child. */
    method Walk(n: string) returns (keys: set<string>)
      requires Valid() && n in nodes && n != ""
      ensures keys == Subtree(Now(), n)
      decreases made - Rank(Now(), n)
    {
      hide *;
      NowIs();
      var f := Now();
      var kids := set m | m in nodes && m != "" && nodes[m].parent == n;
      var todo := kids;
      keys := {n};
      ghost var done: set<string> := {};
      StartWalk(f, n);
      while todo != {}
        invariant todo <= kids && done == kids - todo && Walked(f, n, done, keys)
      {
        var k :| k in todo;
        KidFacts(f, n, k);
        var more := Walk(k);
        WalkedOn(f, n, done, keys, k);
        keys, done := keys + more, done + {k};
        todo := todo - {k};
      }
      assert done == kids;
      EndWalk(f, n, kids, keys);
    }

    lemma KidFacts(f: Forest, n: string, k: string)
      requires Ok(cfg, f) && k in f.nodes && k != "" && f.nodes[k].parent == n
      ensures HasParent(f, k) && Parent(f, k) == n && Rank(f, n) < Rank(f, k) < f.made
    {
      Rooted(cfg, f);
    }

    lemma WalkedOn(f: Forest, n: string, done: set<string>, keys: set<string>, k: string)
      requires Walked(f, n, done, keys)
      ensures Walked(f, n, done + {k}, keys + Subtree(f, k))
    {
      hide Below;
    }

    lemma StartWalk(f: Forest, n: string)
      ensures Walked(f, n, {}, {n})
    {
    }

    lemma EndWalk(f: Forest, n: string, kids: set<string>, keys: set<string>)
      requires Ok(cfg, f) && n in f.nodes && n != "" && Walked(f, n, kids, keys)
      requires kids == set m | m in f.nodes && m != "" && f.nodes[m].parent == n
      ensures keys == Subtree(f, n)
    {
      Rooted(cfg, f);
      hide Ok;
      forall m | m in keys ensures m in Subtree(f, n) {
        if m != n {
          var k :| k in kids && m in f.nodes && Below(f, k, m);
          BelowThrough(f, n, k, m);
        }
      }
      forall m | m in Subtree(f, n) ensures m in keys {
        if m != n {
          BelowChild(f, n, m);
        }
      }
    }

    /** Remove a trunk's founding node with its whole subtree, unless it is the root or
        still hosts other trunks. */
    method RemoveTrunk(n: string, recursive: bool) returns (ok: bool)
      requires Valid() && n in nodes
      modifies this
      ensures Valid() && Now() == Next(cfg, old(Now()), Remove(n, recursive))
      ensures ok == Allowed(cfg, old(Now()), Remove(n, recursive))
    {
      hide *;
      NowIs();
      ghost var f := Now();
      RemoveChoice(f, n, recursive);
      if n == "" {
        return false;
      }
      var keys := Walk(n);
      var branches := set m | m in keys && m in nodes && nodes[m].trunk != "" && nodes[m].trunk != nodes[n].trunk;
      BranchesAre(f, n, branches);
      if branches != {} && !recursive {
        return false;
      }
      Rooted(cfg, f);
      SubtreeClosed(f, n);
      RemoveKeepsOk(cfg, f, keys);
      PrunedIs(f, keys);
      nodes := nodes - keys;
      Settled(Pruned(f, keys));
      return true;
    }

    lemma RemoveChoice(f: Forest, n: string, recursive: bool)
      requires n in f.nodes
      ensures Allowed(cfg, f, Remove(n, recursive)) <==> n != "" && (recursive || !Branched(f, n))
      ensures Next(cfg, f, Remove(n, recursive)) ==
              if Allowed(cfg, f, Remove(n, recursive)) then Pruned(f, Subtree(f, n)) else f
    {
      hide Branched, Pruned, Subtree;
    }

    lemma BranchesAre(f: Forest, n: string, branches: set<string>)
      requires n in f.nodes
      requires branches == set m | m in Subtree(f, n) && m in f.nodes && f.nodes[m].trunk != ""
                 && f.nodes[m].trunk != f.nodes[n].trunk
      ensures Branched(f, n) <==> branches != {}
    {
      hide Below;
      if Branched(f, n) {
        var m :| m in f.nodes && Below(f, n, m) && f.nodes[m].trunk != "" && f.nodes[m].trunk != f.nodes[n].trunk;
        assert m in branches;
      }
    }

    lemma PrunedIs(f: Forest, gone: set<string>)
      ensures Pruned(f, gone).nodes == f.nodes - gone && Pruned(f, gone).made == f.made
    {
    }
  }
}
