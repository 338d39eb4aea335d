/**
 Forking at a point the branch inherited. The code forks the ancestor that owns the
 point, not the branch, so the child is cut from the owner's history. For the main
 channel and for unkeyed channels that is the branch's own history up to the point.
 For a keyed channel it is so exactly when neither the owner nor the branch holds a
 record keyed at or below the point that the other does not share.
 */
module Resplit {
  import opened Basics
  import opened FlatForest
  import opened ForestRuns

  lemma StampBound(cfg: Config, f: Forest, n: string, at: nat, ch: string)
    requires Ok(cfg, f) && n in f.nodes && ch in cfg.Names() && cfg.Unkeyed(ch)
    requires 1 <= at <= |View(f, n, cfg.main)| && PartOf(f, n, cfg.main).base > at
    ensures Cursor(View(f, n, cfg.main)[at - 1], ch) <= PartOf(f, n, ch).base - 1
  {
    OkAt(cfg, f, n, ch);
    hide Ok, View, PartOf, Cursor, Sorted, Based, Last;
  }

  /** An unkeyed channel, up to the stamp at the fork point, is the same at the owner. */
  lemma {:induction false} UnkeyedShared(cfg: Config, f: Forest, n: string, at: nat, ch: string)
    requires Ok(cfg, f) && n in f.nodes && ch in cfg.Names() && cfg.Unkeyed(ch) && 1 <= at <= |View(f, n, cfg.main)|
    ensures var o := OwnerOf(cfg, f, n, at);
            && at <= |View(f, o, cfg.main)|
            && View(f, o, cfg.main)[at - 1] == View(f, n, cfg.main)[at - 1]
            && Take(View(f, o, ch), Cursor(View(f, n, cfg.main)[at - 1], ch)) ==
               Take(View(f, n, ch), Cursor(View(f, n, cfg.main)[at - 1], ch))
    decreases Rank(f, n)
  {
    hide *;
    NodeFacts(cfg, f, n, ch);
    NodeFacts(cfg, f, n, cfg.main);
    OwnerIs(cfg, f, n, at);
    if n != "" && PartOf(f, n, cfg.main).base > at {
      StampBound(cfg, f, n, at, ch);
      var p, cur := Parent(f, n), Cursor(View(f, n, cfg.main)[at - 1], ch);
      Inherited(View(f, p, cfg.main), PartOf(f, n, cfg.main).base, PartOf(f, n, cfg.main).own, at);
      Inherited(View(f, p, ch), PartOf(f, n, ch).base, PartOf(f, n, ch).own, cur);
      UnkeyedShared(cfg, f, p, at, ch);
    }
  }

  /** How much of a channel a branch shares with the owner of `at`: the least of the
      bases on the way up. */
  function Shared(cfg: Config, f: Forest, n: string, at: nat, ch: string): nat
    decreases Rank(f, n)
  {
    if n == "" || !HasParent(f, n) || PartOf(f, n, cfg.main).base <= at then |View(f, n, ch)|
    else
      var above, base := Shared(cfg, f, Parent(f, n), at, ch), PartOf(f, n, ch).base;
      if 1 <= base <= above then base - 1 else above
  }

  lemma SharedIs(cfg: Config, f: Forest, n: string, at: nat, ch: string)
    requires (n == "" || HasParent(f, n)) && PartOf(f, n, ch).base >= 1
    ensures Shared(cfg, f, n, at, ch) ==
            if n == "" || PartOf(f, n, cfg.main).base <= at then |View(f, n, ch)|
            else if PartOf(f, n, ch).base - 1 < Shared(cfg, f, Parent(f, n), at, ch) then PartOf(f, n, ch).base - 1
            else Shared(cfg, f, Parent(f, n), at, ch)
  {
    hide View;
  }

  lemma PrefixThrough(a: History, b: History, c: History, s: nat, t: nat)
    requires s <= t <= |b| && t <= |c| && b[..t] == c[..t] && s <= |a| && a[..s] == b[..s]
    ensures a[..s] == c[..s]
  {
    assert b[..t][..s] == b[..s] && c[..t][..s] == c[..s];
  }

  lemma {:induction false} SharedPrefix(cfg: Config, f: Forest, n: string, at: nat, ch: string)
    requires Ok(cfg, f) && n in f.nodes && ch in cfg.Names()
    ensures var o, s := OwnerOf(cfg, f, n, at), Shared(cfg, f, n, at, ch);
            && o in f.nodes && Rank(f, o) <= Rank(f, n)
            && s <= |View(f, o, ch)| && s <= |View(f, n, ch)|
            && View(f, n, ch)[..s] == View(f, o, ch)[..s]
    decreases Rank(f, n)
  {
    hide *;
    NodeFacts(cfg, f, n, ch);
    OwnerIs(cfg, f, n, at);
    SharedIs(cfg, f, n, at, ch);
    if n != "" && PartOf(f, n, cfg.main).base > at {
      var p, b, s := Parent(f, n), PartOf(f, n, ch).base, Shared(cfg, f, n, at, ch);
      SharedPrefix(cfg, f, p, at, ch);
      Inherited(View(f, p, ch), b, PartOf(f, n, ch).own, s);
      assert View(f, n, ch)[..s] == View(f, p, ch)[..s];
      PrefixThrough(View(f, n, ch), View(f, p, ch), View(f, OwnerOf(cfg, f, p, at), ch), s, Shared(cfg, f, p, at, ch));
    }
  }

  lemma {:induction false} WritersAbove(cfg: Config, f: Forest, n: string, ch: string, i: nat)
    requires Ok(cfg, f) && n in f.nodes && ch in cfg.Names() && i < |View(f, n, ch)|
    ensures Rank(f, View(f, n, ch)[i].writer) <= Rank(f, n)
    decreases Rank(f, n)
  {
    hide *;
    NodeFacts(cfg, f, n, ch);
    if i >= PartOf(f, n, ch).base - 1 {
      OwnWriter(cfg, f, n, ch, i);
    } else if HasParent(f, n) {
      Inherited(View(f, Parent(f, n), ch), PartOf(f, n, ch).base, PartOf(f, n, ch).own, 0);
      WritersAbove(cfg, f, Parent(f, n), ch, i);
    }
  }

  /** Past what is shared, the branch's records were written below the owner. */
  lemma {:induction false} PastShared(cfg: Config, f: Forest, n: string, at: nat, ch: string, i: nat)
    requires Ok(cfg, f) && n in f.nodes && ch in cfg.Names() && Shared(cfg, f, n, at, ch) <= i < |View(f, n, ch)|
    ensures Rank(f, View(f, n, ch)[i].writer) > Rank(f, OwnerOf(cfg, f, n, at))
    decreases Rank(f, n)
  {
    hide *;
    NodeFacts(cfg, f, n, ch);
    OwnerIs(cfg, f, n, at);
    SharedIs(cfg, f, n, at, ch);
    if n != "" && PartOf(f, n, cfg.main).base > at {
      var p := Parent(f, n);
      SharedPrefix(cfg, f, p, at, ch);
      if i >= PartOf(f, n, ch).base - 1 {
        OwnWriter(cfg, f, n, ch, i);
      } else {
        Inherited(View(f, p, ch), PartOf(f, n, ch).base, PartOf(f, n, ch).own, 0);
        PastShared(cfg, f, p, at, ch, i);
      }
    }
  }

  /** A keyed channel, cut at the owner, is what the branch holds up to `at` exactly
      when neither has a record keyed at or below `at` past what the two share. */
  lemma ResplitKeyed(cfg: Config, f: Forest, n: string, at: nat, ch: string)
    requires Ok(cfg, f) && n in f.nodes && ch in cfg.Names() && cfg.Keyed(ch)
    ensures var o, s := OwnerOf(cfg, f, n, at), Shared(cfg, f, n, at, ch);
            KeyedBelow(View(f, o, ch), at) == KeyedBelow(View(f, n, ch), at) <==>
            AtOrBelow(View(f, o, ch), at) <= s && AtOrBelow(View(f, n, ch), at) <= s
  {
    var o, s := OwnerOf(cfg, f, n, at), Shared(cfg, f, n, at, ch);
    SharedPrefix(cfg, f, n, at, ch);
    NodeFacts(cfg, f, n, ch);
    NodeFacts(cfg, f, o, ch);
    hide Ok, View, PartOf, OwnerOf, Shared;
    var mine, theirs := View(f, n, ch), View(f, o, ch);
    KeyedIsPrefix(mine, at);
    KeyedIsPrefix(theirs, at);
    if s < |mine| && s < |theirs| {
      PastShared(cfg, f, n, at, ch, s);
      WritersAbove(cfg, f, o, ch, s);
    }
    hide Rank;
    PrefixesEqual(mine, theirs, s, at);
  }

  lemma PrefixesEqual(a: History, b: History, s: nat, at: nat)
    requires s <= |a| && s <= |b| && a[..s] == b[..s]
    requires s < |a| && s < |b| ==> a[s].writer != b[s].writer
    ensures Take(b, AtOrBelow(b, at)) == Take(a, AtOrBelow(a, at)) <==> AtOrBelow(b, at) <= s && AtOrBelow(a, at) <= s
  {
    var i, j := AtOrBelow(a, at), AtOrBelow(b, at);
    AtOrBelowIs(a, at);
    AtOrBelowIs(b, at);
    hide AtOrBelow;
    assert forall k :: 0 <= k < s ==> a[..s][k] == b[..s][k];
    if i <= s && j <= s {
      assert a[..i] == a[..s][..i] && b[..j] == b[..s][..j];
    } else if i == j {
      assert a[..i][s] != b[..j][s];
    } else {
      assert |Take(a, i)| != |Take(b, j)|;
    }
  }

  lemma CutIsBelow(cfg: Config, ch: string, h: History, main: History, at: nat)
    requires 1 <= at <= |main| && ch in cfg.Names() && !cfg.Keyed(ch)
    ensures CutOne(cfg, ch, h, main, at, false) == Take(h, if ch == cfg.main then at else Cursor(main[at - 1], ch))
  {
    hide Cursor;
  }

  /** Redirecting a fork to the owner loses nothing of main or of an unkeyed channel. */
  lemma ResplitExact(cfg: Config, f: Forest, n: string, at: nat, ch: string)
    requires Ok(cfg, f) && n in f.nodes && ch in cfg.Names() && !cfg.Keyed(ch)
    ensures var p := PointOf(cfg, f, n, at);
            && p.from in f.nodes
            && CutOne(cfg, ch, View(f, p.from, ch), View(f, p.from, cfg.main), p.at, p.tail) ==
               CutOne(cfg, ch, View(f, n, ch), View(f, n, cfg.main), p.at, p.tail)
  {
    assert ch == cfg.main || cfg.Unkeyed(ch);
    hide *;
    PointIs(cfg, f, n, at);
    if 1 <= at < |View(f, n, cfg.main)| && at < PartOf(f, n, cfg.main).base {
      var o := OwnerOf(cfg, f, n, at);
      OwnerHas(cfg, f, n, at);
      CutIsBelow(cfg, ch, View(f, o, ch), View(f, o, cfg.main), at);
      CutIsBelow(cfg, ch, View(f, n, ch), View(f, n, cfg.main), at);
      if ch != cfg.main {
        UnkeyedShared(cfg, f, n, at, ch);
      }
    }
  }

  lemma AppendIs(cfg: Config, f: Forest, n: string, ch: string, at: nat, payload: Bytes)
    requires cfg.Keyed(ch) && Allowed(cfg, f, Append(n, ch, at, payload))
    ensures n in f.nodes && Next(cfg, f, Append(n, ch, at, payload)) == Grown(f, n, ch, Record(n, at, payload, map[]))
  {
    hide View, Grown;
  }

  /** Two histories that part at `s` do not come together in one more record. */
  lemma Parted(mine: History, theirs: History, r: Record, at: nat, s: nat)
    requires Sorted(mine) && s <= |theirs|
    requires s < |mine| ==> mine[s].writer != (theirs + [r])[s].writer
    ensures KeyedBelow(mine, at) != theirs + [r]
  {
    KeyedIsPrefix(mine, at);
    var k := AtOrBelow(mine, at);
    if k == |theirs| + 1 {
      assert mine[..k][s] != (theirs + [r])[s];
    }
  }

  /** Any record the owner appends late, keyed at the fork point, is inherited by the
      child though the branch itself does not have it. */
  lemma LateRecord(cfg: Config, f: Forest, n: string, at: nat, ch: string, payload: Bytes)
    requires Ok(cfg, f) && n in f.nodes && ch in cfg.Names() && cfg.Keyed(ch)
    requires n != "" && PartOf(f, n, cfg.main).base > at
    requires Allowed(cfg, f, Append(OwnerOf(cfg, f, n, at), ch, at, payload))
    requires var h := View(f, OwnerOf(cfg, f, n, at), ch); forall i :: 0 <= i < |h| ==> h[i].key <= at
    ensures var o := OwnerOf(cfg, f, n, at);
            var g := Next(cfg, f, Append(o, ch, at, payload));
            && View(g, n, ch) == View(f, n, ch)
            && KeyedBelow(View(g, o, ch), at) == View(f, o, ch) + [Record(o, at, payload, map[])]
            && KeyedBelow(View(g, o, ch), at) != KeyedBelow(View(g, n, ch), at)
  {
    hide *;
    var o := OwnerOf(cfg, f, n, at);
    var r := Record(o, at, payload, map[]);
    var s := Shared(cfg, f, n, at, ch);
    AppendIs(cfg, f, o, ch, at, payload);
    OkIs(cfg, f, ch);
    NodeFacts(cfg, f, n, ch);
    OwnerIs(cfg, f, n, at);
    SharedPrefix(cfg, f, Parent(f, n), at, ch);
    assert Rank(f, o) < Rank(f, n);
    AppendIsolated(f, o, ch, r, n, ch);
    AppendIsolated(f, o, ch, r, o, ch);
    assert View(f, n, ch) + [] == View(f, n, ch);
    KeyedAll(View(f, o, ch) + [r], at);
    SharedPrefix(cfg, f, n, at, ch);
    if s < |View(f, n, ch)| {
      PastShared(cfg, f, n, at, ch, s);
      if s < |View(f, o, ch)| {
        WritersAbove(cfg, f, o, ch, s);
      }
    }
    Parted(View(f, n, ch), View(f, o, ch), r, at, s);
  }

  // ---- a run that shows it ----

  lemma NextFork(cfg: Config, f: Forest, child: string, trunk: string)
    requires Ok(cfg, f) && child !in f.nodes && child != ""
    ensures var p := Point("", |View(f, "", cfg.main)|, true);
            && ForkPoint(cfg, f, p.from, p.at, p.tail)
            && Next(cfg, f, ForkAt("", 0, child, trunk, "conversation")) ==
                Perform(cfg, f, Forked(p, child, trunk, "conversation"))
            && ActOk(cfg, f, Forked(p, child, trunk, "conversation"))
  {
    assert "" in f.nodes && View(f, "", cfg.main) != [];
    hide Ok, View, Perform;
  }

  lemma NextMain(cfg: Config, g: Forest, n: string, payload: Bytes)
    requires Ok(cfg, g) && n in g.nodes
    ensures exists r :: Next(cfg, g, AppendMain(n, payload, map[])) == Grown(g, n, cfg.main, r)
              && Fits(cfg, g, n, cfg.main, r)
  {
    hide Ok, View, Grown, Fits, Last, Stamps;
    var s := AppendMain(n, payload, map[]);
    var none: map<string, nat> := map[];
    assert none.Keys !! cfg.Names();
    AppendMainFits(cfg, g, n, payload, map[]);
    assert Allowed(cfg, g, s);
  }

  /** After a tail fork of the root, the child's first own main record is the next one. */
  lemma Forks(cfg: Config, f: Forest, child: string, trunk: string)
    requires Ok(cfg, f) && child !in f.nodes && child != ""
    ensures var g := Next(cfg, f, ForkAt("", 0, child, trunk, "conversation"));
            && Ok(cfg, g) && child in g.nodes && "" in g.nodes && HasParent(g, child) && Parent(g, child) == ""
            && PartOf(g, child, cfg.main).base == |View(f, "", cfg.main)| + 1
            && |View(g, child, cfg.main)| == |View(f, "", cfg.main)|
            && forall ch :: ch in cfg.Names() ==> View(g, "", ch) == View(f, "", ch)
  {
    assert cfg.main in cfg.Names() && "" in f.nodes;
    hide *;
    var p := Point("", |View(f, "", cfg.main)|, true);
    NextFork(cfg, f, child, trunk);
    PerformFork(cfg, f, p, child, trunk, "conversation");
    PerformKeepsOk(cfg, f, Forked(p, child, trunk, "conversation"));
    var bases := Bases(cfg, f, "", p.at, true);
    BasesAre(cfg, f, "", cfg.main, p.at, true);
    BaseExact(cfg, f, "", cfg.main, p.at, true);
    OkShape(cfg, f);
    Sprouts(cfg, f, child, "", trunk, "conversation", bases);
    SproutedChild(f, child, "", trunk, "conversation", bases, cfg.main);
    forall ch | ch in cfg.Names()
      ensures View(Next(cfg, f, ForkAt("", 0, child, trunk, "conversation")), "", ch) == View(f, "", ch)
    {
      ForkedView(cfg, f, p, child, trunk, "conversation", "", ch);
    }
    OkIs(cfg, f, cfg.main);
    ChildView(f, child, "", trunk, "conversation", bases, cfg.main);
    TakeAll(View(f, "", cfg.main));
  }

  lemma TakeAll(h: History)
    ensures Take(h, |h|) == h
  {
  }

  /** ... and once it has one, forking it at the root's last record forks the root. */
  lemma Moves(cfg: Config, g: Forest, n: string, payload: Bytes, at: nat)
    requires Ok(cfg, g) && n in g.nodes && HasParent(g, n) && Parent(g, n) == "" && n != ""
    requires PartOf(g, n, cfg.main).base == at + 1 && |View(g, n, cfg.main)| == at >= 1
    ensures var h := Next(cfg, g, AppendMain(n, payload, map[]));
            && Ok(cfg, h) && n in h.nodes && HasParent(h, n) && Parent(h, n) == ""
            && PartOf(h, n, cfg.main).base == at + 1 && |View(h, n, cfg.main)| == at + 1
            && "" in h.nodes && forall ch :: ch in cfg.Names() ==> View(h, "", ch) == View(g, "", ch)
  {
    assert cfg.main in cfg.Names() && "" in g.nodes;
    hide *;
    NextMain(cfg, g, n, payload);
    var r :| Next(cfg, g, AppendMain(n, payload, map[])) == Grown(g, n, cfg.main, r) && Fits(cfg, g, n, cfg.main, r);
    AppendKeepsOk(cfg, g, n, cfg.main, r);
    GrownFacts(g, n, cfg.main, r, n, cfg.main);
    GrownFacts(g, n, cfg.main, r, "", cfg.main);
    OkIs(cfg, g, cfg.main);
    AppendIsolated(g, n, cfg.main, r, n, cfg.main);
    forall ch | ch in cfg.Names() ensures View(Grown(g, n, cfg.main, r), "", ch) == View(g, "", ch) {
      OkIs(cfg, g, ch);
      AppendIsolated(g, n, cfg.main, r, "", ch);
      assert View(g, "", ch) + [] == View(g, "", ch);
    }
  }

  lemma PointAtRoot(cfg: Config, h: Forest, n: string, at: nat)
    requires n != "" && HasParent(h, n) && Parent(h, n) == ""
    requires PartOf(h, n, cfg.main).base == at + 1 && |View(h, n, cfg.main)| == at + 1 && at >= 1
    ensures OwnerOf(cfg, h, n, at) == "" && PointOf(cfg, h, n, at) == Point("", at, false)
  {
    hide View, PartOf;
  }

  function Late(child: string, trunk: string, ch: string, at: nat): seq<Step> {
    [ForkAt("", 0, child, trunk, "conversation"), AppendMain(child, [], map[]), Append("", ch, at, [])]
  }

  lemma ThreeSteps(cfg: Config, f: Forest, run: seq<Step>)
    requires |run| == 3
    ensures After(cfg, f, run) == Next(cfg, Next(cfg, Next(cfg, f, run[0]), run[1]), run[2])
  {
    hide Next;
    assert run[..2][..1] == run[..1] && run[..1][..0] == [];
    assert After(cfg, f, run[..1]) == Next(cfg, f, run[0]);
    assert After(cfg, f, run[..2]) == Next(cfg, After(cfg, f, run[..1]), run[1]);
  }

  lemma CanAppend(cfg: Config, f: Forest, ch: string, at: nat)
    requires "" in f.nodes && cfg.Keyed(ch) && forall i :: 0 <= i < |View(f, "", ch)| ==> View(f, "", ch)[i].key <= at
    ensures Allowed(cfg, f, Append("", ch, at, []))
  {
    hide View;
  }

  /** Fork the root, let the child move on, append late at the root: forking the child
      at its inherited point now takes a record the child does not have. */
  lemma ResplitDiffers(cfg: Config, f: Forest, child: string, trunk: string, ch: string)
    requires Ok(cfg, f) && child !in f.nodes && child != "" && ch in cfg.Names() && cfg.Keyed(ch)
    requires forall i :: 0 <= i < |View(f, "", ch)| ==> View(f, "", ch)[i].key <= |View(f, "", cfg.main)|
    ensures var at := |View(f, "", cfg.main)|;
            var g := After(cfg, f, Late(child, trunk, ch, at));
            && child in g.nodes && PointOf(cfg, g, child, at) == Point("", at, false)
            && KeyedBelow(View(g, "", ch), at) != KeyedBelow(View(g, child, ch), at)
  {
    var at := |View(f, "", cfg.main)|;
    var run := Late(child, trunk, ch, at);
    assert cfg.main in cfg.Names() && at >= 1;
    assert run == [ForkAt("", 0, child, trunk, "conversation"), AppendMain(child, [], map[]), Append("", ch, at, [])];
    hide *;
    var g := Next(cfg, f, run[0]);
    var h := Next(cfg, g, run[1]);
    ThreeSteps(cfg, f, run);
    Forks(cfg, f, child, trunk);
    Moves(cfg, g, child, [], at);
    PointAtRoot(cfg, h, child, at);
    CanAppend(cfg, h, ch, at);
    LateRecord(cfg, h, child, at, ch, []);
    StillThere(cfg, h, child, ch, at);
  }

  lemma StillThere(cfg: Config, h: Forest, n: string, ch: string, at: nat)
    requires Ok(cfg, h) && n in h.nodes && n != "" && HasParent(h, n) && Parent(h, n) == "" && "" in h.nodes
    requires PartOf(h, n, cfg.main).base == at + 1 && |View(h, n, cfg.main)| == at + 1 && at >= 1
    requires cfg.Keyed(ch) && ch in cfg.Names() && Allowed(cfg, h, Append("", ch, at, []))
    ensures n in Next(cfg, h, Append("", ch, at, [])).nodes
    ensures PointOf(cfg, Next(cfg, h, Append("", ch, at, [])), n, at) == Point("", at, false)
  {
    assert cfg.Valid() && cfg.main in cfg.Names() && ch != cfg.main;
    hide *;
    var r := Record("", at, [], map[]);
    AppendIs(cfg, h, "", ch, at, []);
    GrownFacts(h, "", ch, r, n, cfg.main);
    OkIs(cfg, h, cfg.main);
    AppendIsolated(h, "", ch, r, n, cfg.main);
    PointAtRoot(cfg, Grown(h, "", ch, r), n, at);
  }

  /** The shortest such store: one keyed channel, a root with nothing but its genesis. */
  lemma ResplitExample()
    ensures var cfg := Config("ir", map["k" := Channel(false, false)]);
            var g := After(cfg, Created(cfg, []), Late("n0", "t0", "k", 1));
            && "n0" in g.nodes && PointOf(cfg, g, "n0", 1) == Point("", 1, false)
            && KeyedBelow(View(g, "", "k"), 1) != KeyedBelow(View(g, "n0", "k"), 1)
  {
    var cfg := Config("ir", map["k" := Channel(false, false)]);
    assert "k" in cfg.Names() && cfg.Keyed("k") && cfg.Valid() && cfg.main == "ir";
    CreatedOk(cfg, []);
    CreatedView(cfg, [], "ir");
    assert View(Created(cfg, []), "", "k") == [];
    hide Created, View, After, Late;
    ResplitDiffers(cfg, Created(cfg, []), "n0", "t0", "k");
  }
}
