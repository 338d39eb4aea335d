/**
 Migration of a nested store to the flat layout. Nesting is lineage until a node
 has moved; its `.node` marker is lineage afterwards. Planning reads whichever of
 the two a node has, so a run killed between any two file-system steps can be
 planned again and finished: this module proves it, with no journal in the model
 either.
 */
module Flatten {
  import opened Basics

  /** Directory names from the channel directory down to the node itself. */
  type Path = seq<string>

  datatype Marker = Marker(from: string, kind: string, trunk: string)

  /** The pre-marker `.from` file. */
  datatype LegacyFrom = LegacyFrom(from: string, kind: string)

  /** One node directory: where it sits, what identity files it holds, and whether
      its log says where it begins (a fork marker, or a segment at 1). */
  datatype NodeDir = NodeDir(path: Path, marker: Option<Marker>, trunkFile: Option<string>,
                             fromFile: Option<LegacyFrom>, based: bool)

  /** One channel's directories, by leaf name. Two directories with one leaf name
      are refused before anything else is read. */
  type Tree = map<string, NodeDir>

  ghost predicate InPlace(t: Tree, n: string)
    requires n in t
  {
    var p := t[n].path;
    && n != "" && |p| >= 1 && p[|p| - 1] == n
    && forall i :: 0 <= i < |p| ==> p[i] in t && t[p[i]].path == p[..i + 1]
  }

  /** Every directory's ancestors are directories too. */
  ghost predicate WellFormed(t: Tree) {
    forall n :: n in t ==> InPlace(t, n)
  }

  function ParentLeaf(p: Path): string {
    if |p| > 1 then p[|p| - 2] else ""
  }

  /** A node's parent, from its nesting while nested, from its marker once moved. */
  function ParentOf(t: Tree, n: string): string
    requires n in t
  {
    if ParentLeaf(t[n].path) != "" then ParentLeaf(t[n].path)
    else if t[n].marker.Some? then t[n].marker.value.from
    else ""
  }

  /** The node `k` steps up, or "" past the top. */
  function Up(t: Tree, n: string, k: nat): string {
    if k == 0 then n
    else
      var m := Up(t, n, k - 1);
      if m in t then ParentOf(t, m) else ""
  }

  ghost predicate Ancestor(t: Tree, a: string, d: string) {
    a in t && exists k: nat :: k > 0 && Up(t, d, k) == a
  }

  // ---- what planning decides for the main channel ----

  function TrunkOf(nd: NodeDir): string {
    if nd.trunkFile.Some? then nd.trunkFile.value else ""
  }

  /** The marker derived for a node that has none. */
  function Derived(nd: NodeDir): Marker {
    if nd.fromFile.Some? then Marker(nd.fromFile.value.from, nd.fromFile.value.kind, TrunkOf(nd))
    else Marker(ParentLeaf(nd.path), if TrunkOf(nd) != "" then "conversation" else "loadout", TrunkOf(nd))
  }

  /** What the files of a directory without a marker say of its node. A legacy pair is
      taken as written; otherwise the parent is the directory above, and the node is a
      conversation exactly if its trunk file is there and not empty. */
  ghost predicate FromFiles(nd: NodeDir, from: string, kind: string, trunk: string) {
    && trunk == (match nd.trunkFile case Some(id) => id case None => "")
    && match nd.fromFile
       case Some(legacy) => from == legacy.from && kind == legacy.kind
       case None =>
         && (if |nd.path| <= 1 then from == "" else from == nd.path[|nd.path| - 2])
         && kind in {"conversation", "loadout"}
         && (kind == "conversation" <==> nd.trunkFile.Some? && nd.trunkFile.value != "")
  }

  lemma DerivedIs(nd: NodeDir, m: Marker)
    ensures m == Derived(nd) <==> FromFiles(nd, m.from, m.kind, m.trunk)
  {
  }

  /** The trunk a node lays claim to: its marker's once it has one. */
  function Claim(nd: NodeDir): string {
    if nd.marker.Some? then nd.marker.value.trunk else Derived(nd).trunk
  }

  ghost predicate Rivals(t: Tree, a: string, b: string) {
    a in t && b in t && a != b && Claim(t[a]) != "" && Claim(t[a]) == Claim(t[b])
  }

  /** Nodes that claim one trunk lie on one line of descent. */
  ghost predicate OneLine(t: Tree) {
    forall a, b :: Rivals(t, a, b) ==> Ancestor(t, a, b) || Ancestor(t, b, a)
  }

  ghost predicate Outranked(t: Tree, n: string) {
    exists b :: Rivals(t, n, b) && Ancestor(t, n, b)
  }

  function Demoted(m: Marker): Marker {
    m.(trunk := "")
  }

  ghost function MarkerFor(t: Tree, n: string): Marker
    requires n in t
  {
    var m := if t[n].marker.Some? then t[n].marker.value else Derived(t[n]);
    if Outranked(t, n) then Demoted(m) else m
  }

  /** The markers still to be written: one for each node without, and a demotion for
      each node that a deeper node of the same trunk outranks. */
  ghost function PlanMarkers(t: Tree): map<string, Marker> {
    map n | n in t && (t[n].marker.None? || Outranked(t, n)) :: MarkerFor(t, n)
  }

  // ---- the nested store a migration starts from ----

  ghost predicate Nested(t: Tree) {
    WellFormed(t) && forall n :: n in t ==> t[n].marker.None? && t[n].fromFile.None?
  }

  lemma ParentOnPath(t: Tree, d: string, i: nat)
    requires Nested(t) && d in t && i < |t[d].path|
    ensures "" !in t && t[d].path[i] in t && ParentOf(t, t[d].path[i]) == if i > 0 then t[d].path[i - 1] else ""
  {
    var p := t[d].path;
    assert InPlace(t, d);
    assert InPlace(t, p[i]);
    if i > 0 {
      assert InPlace(t, p[i - 1]);
    }
    forall m | m in t ensures m != "" {
      assert InPlace(t, m);
    }
  }

  lemma UpStep(t: Tree, n: string, k: nat)
    requires k > 0
    ensures Up(t, n, k) == var m := Up(t, n, k - 1); if m in t then ParentOf(t, m) else ""
  {
  }

  /** In a nested tree the ancestors of a node are its path. */
  lemma {:induction false} UpIsPath(t: Tree, n: string, k: nat)
    requires Nested(t) && n in t
    ensures Up(t, n, k) == if k < |t[n].path| then t[n].path[|t[n].path| - 1 - k] else ""
  {
    hide Nested, ParentOf;
    PathOf(t, n);
    ParentOnPath(t, n, 0);
    if k > 0 {
      UpIsPath(t, n, k - 1);
      UpStep(t, n, k);
      if k <= |t[n].path| {
        ParentOnPath(t, n, |t[n].path| - k);
      }
    }
  }

  lemma PathOf(t: Tree, n: string)
    requires Nested(t) && n in t
    ensures n != "" && |t[n].path| >= 1 && t[n].path[|t[n].path| - 1] == n
  {
    assert InPlace(t, n);
  }

  lemma AncestorIsOnPath(t: Tree, a: string, d: string)
    requires Nested(t) && d in t
    ensures Ancestor(t, a, d) <==> exists i :: 0 <= i < |t[d].path| - 1 && t[d].path[i] == a
  {
    hide Nested, Up;
    var p := t[d].path;
    PathOf(t, d);
    if Ancestor(t, a, d) {
      var k: nat :| k > 0 && Up(t, d, k) == a;
      UpIsPath(t, d, k);
      PathOf(t, a);
      assert p[|p| - 1 - k] == a;
    }
    if i :| 0 <= i < |p| - 1 && p[i] == a {
      UpIsPath(t, d, |p| - 1 - i);
      OnPath(t, d, i);
    }
  }

  lemma OnPath(t: Tree, d: string, i: nat)
    requires Nested(t) && d in t && i < |t[d].path|
    ensures t[d].path[i] in t && t[d].path[i] != ""
  {
    assert InPlace(t, d);
    assert InPlace(t, t[d].path[i]);
  }

  /** A descendant sits deeper. */
  lemma AncestorIsShallower(t: Tree, a: string, d: string)
    requires Nested(t) && d in t && Ancestor(t, a, d)
    ensures a in t && |t[a].path| < |t[d].path|
  {
    AncestorIsOnPath(t, a, d);
    assert InPlace(t, d);
  }

  // ---- what every interrupted state keeps ----

  /** The trunk's one head in the original store: the node no other outranks. */
  ghost predicate Head(t: Tree, n: string) {
    n in t && Claim(t[n]) != "" && !Outranked(t, n)
  }

  ghost predicate GoodMarker(t0: Tree, n: string, m: Marker)
    requires n in t0
  {
    var d := Derived(t0[n]);
    && m.from == d.from && m.kind == d.kind
    && (m.trunk == d.trunk || m.trunk == "")
    && (Head(t0, n) ==> m.trunk == d.trunk)
  }

  /** Every node is where it was or at depth 1, and its ancestors likewise. */
  ghost predicate Placed(t0: Tree, t: Tree) {
    && t.Keys == t0.Keys && WellFormed(t)
    && forall n :: n in t ==> Stays(t0[n], t[n], n)
  }

  ghost predicate Stays(before: NodeDir, after: NodeDir, n: string) {
    (after.path == before.path || after.path == [n]) && after.based == before.based
  }

  ghost predicate Identified(t0: Tree, t: Tree, n: string)
    requires n in t0 && n in t
  {
    && t[n].fromFile.None?
    && (if t[n].marker.Some? then GoodMarker(t0, n, t[n].marker.value)
        else t[n].path == t0[n].path && t[n].trunkFile == t0[n].trunkFile)
  }

  /** A state a migration of `t0` can be found in. */
  ghost predicate Midway(t0: Tree, t: Tree) {
    Placed(t0, t) && forall n :: n in t ==> Identified(t0, t, n)
  }

  lemma StartsMidway(t0: Tree)
    requires Nested(t0)
    ensures Midway(t0, t0)
  {
  }

  /** Lineage is the same whichever record it is read from. */
  lemma ParentKept(t0: Tree, t: Tree, n: string)
    requires Nested(t0) && Midway(t0, t) && n in t
    ensures ParentOf(t, n) == ParentOf(t0, n) == Derived(t0[n]).from
  {
    assert InPlace(t0, n) && InPlace(t, n) && Identified(t0, t, n);
    var p := t0[n].path;
    if |p| > 1 {
      assert InPlace(t0, p[|p| - 2]);
    }
  }

  lemma SameNodes(t0: Tree, t: Tree)
    requires Midway(t0, t)
    ensures t.Keys == t0.Keys
  {
  }

  lemma {:induction false} UpKept(t0: Tree, t: Tree, n: string, k: nat)
    requires Nested(t0) && Midway(t0, t)
    ensures Up(t, n, k) == Up(t0, n, k)
  {
    hide Midway, Nested, ParentOf;
    if k > 0 {
      SameNodes(t0, t);
      UpKept(t0, t, n, k - 1);
      var m := Up(t, n, k - 1);
      if m in t {
        ParentKept(t0, t, m);
      }
    }
  }

  lemma AncestorKept(t0: Tree, t: Tree, a: string, d: string)
    requires Nested(t0) && Midway(t0, t)
    ensures Ancestor(t, a, d) <==> Ancestor(t0, a, d)
  {
    forall k: nat ensures Up(t, d, k) == Up(t0, d, k) {
      UpKept(t0, t, d, k);
    }
  }

  lemma ClaimKept(t0: Tree, t: Tree, n: string)
    requires Nested(t0) && Midway(t0, t) && n in t
    ensures Claim(t[n]) == Claim(t0[n]) || Claim(t[n]) == ""
    ensures Head(t0, n) ==> Claim(t[n]) == Claim(t0[n])
  {
    assert Identified(t0, t, n);
  }

  lemma RivalsKept(t0: Tree, t: Tree, a: string, b: string)
    requires Nested(t0) && Midway(t0, t) && Rivals(t, a, b)
    ensures Rivals(t0, a, b)
  {
    ClaimKept(t0, t, a);
    ClaimKept(t0, t, b);
  }

  /** Planning an interrupted store never finds a tangle the original did not have. */
  lemma StaysOneLine(t0: Tree, t: Tree)
    requires Nested(t0) && OneLine(t0) && Midway(t0, t)
    ensures OneLine(t)
  {
    forall a, b | Rivals(t, a, b) ensures Ancestor(t, a, b) || Ancestor(t, b, a) {
      RivalsKept(t0, t, a, b);
      AncestorKept(t0, t, a, b);
      AncestorKept(t0, t, b, a);
    }
  }

  lemma OutrankedBefore(t0: Tree, t: Tree, n: string)
    requires Nested(t0) && Midway(t0, t) && Outranked(t, n)
    ensures Outranked(t0, n)
  {
    var b :| Rivals(t, n, b) && Ancestor(t, n, b);
    RivalsKept(t0, t, n, b);
    AncestorKept(t0, t, n, b);
  }

  /** Among the nodes of a set that claim `trunk` there is a deepest. */
  lemma {:induction false} Deepest(t: Tree, names: set<string>, trunk: string) returns (h: string)
    requires names <= t.Keys && exists n :: n in names && Claim(t[n]) == trunk
    ensures h in names && Claim(t[h]) == trunk
    ensures forall n :: n in names && Claim(t[n]) == trunk ==> |t[n].path| <= |t[h].path|
    decreases |names|
  {
    var n :| n in names && Claim(t[n]) == trunk;
    var rest := names - {n};
    if exists m :: m in rest && Claim(t[m]) == trunk {
      var g := Deepest(t, rest, trunk);
      h := if |t[g].path| >= |t[n].path| then g else n;
    } else {
      h := n;
    }
  }

  /** A trunk on one line of descent has a head, and every other claimant is above it. */
  lemma HeadOf(t: Tree, n: string) returns (h: string)
    requires Nested(t) && OneLine(t) && n in t && Claim(t[n]) != ""
    ensures Head(t, h) && Claim(t[h]) == Claim(t[n])
    ensures h != n ==> Rivals(t, n, h) && Ancestor(t, n, h)
  {
    h := Deepest(t, t.Keys, Claim(t[n]));
    forall b | Rivals(t, h, b) ensures !Ancestor(t, h, b) {
      if Ancestor(t, h, b) {
        AncestorIsShallower(t, h, b);
      }
    }
    if h != n {
      assert Rivals(t, n, h);
      if Ancestor(t, h, n) {
        AncestorIsShallower(t, h, n);
      }
    }
  }

  /** There is exactly one head per trunk. */
  lemma HeadUnique(t: Tree, a: string, b: string)
    requires OneLine(t) && Head(t, a) && Head(t, b) && Claim(t[a]) == Claim(t[b])
    ensures a == b
  {
    if a != b {
      assert Rivals(t, a, b) && Rivals(t, b, a);
    }
  }

  /** In any interrupted state a node is outranked, or already demoted, exactly when
      it was outranked to begin with. */
  lemma OutrankedStill(t0: Tree, t: Tree, n: string)
    requires Nested(t0) && OneLine(t0) && Midway(t0, t) && n in t
    ensures Outranked(t0, n) <==> Outranked(t, n) || (Claim(t[n]) == "" && Claim(t0[n]) != "")
  {
    ClaimKept(t0, t, n);
    if Outranked(t, n) {
      OutrankedBefore(t0, t, n);
    }
    if Outranked(t0, n) && Claim(t[n]) != "" {
      var h := HeadOf(t0, n);
      ClaimKept(t0, t, h);
      AncestorKept(t0, t, n, h);
      assert Rivals(t, n, h) && Ancestor(t, n, h);
    }
    if Claim(t[n]) == "" && Claim(t0[n]) != "" {
      assert !Head(t0, n);
    }
  }

  /** The marker every node ends up with, decided by the original store alone. */
  ghost function FinalMarker(t0: Tree, n: string): Marker
    requires n in t0
  {
    if Outranked(t0, n) then Demoted(Derived(t0[n])) else Derived(t0[n])
  }

  lemma FinalIsGood(t0: Tree, n: string)
    requires n in t0
    ensures GoodMarker(t0, n, FinalMarker(t0, n))
  {
  }

  /** Whatever state planning runs in, it decides on the same markers. */
  lemma PlanIsFinal(t0: Tree, t: Tree, n: string)
    requires Nested(t0) && OneLine(t0) && Midway(t0, t) && n in t
    ensures if n in PlanMarkers(t) then PlanMarkers(t)[n] == FinalMarker(t0, n)
            else t[n].marker == Some(FinalMarker(t0, n))
  {
    assert Identified(t0, t, n);
    OutrankedStill(t0, t, n);
    ClaimKept(t0, t, n);
  }

  // ---- the file-system steps of one channel ----

  datatype Op = Mark(n: string, m: Marker) | DropTrunk(n: string) | DropFrom(n: string) | Move(n: string)

  /** A rename carries the whole directory, so everything below moves along. */
  function Renamed(t: Tree, n: string): Tree
    requires n in t
  {
    map m | m in t ::
      if t[n].path <= t[m].path then t[m].(path := [n] + t[m].path[|t[n].path|..]) else t[m]
  }

  function Do(t: Tree, op: Op): Tree {
    if op.n !in t then t
    else match op
      case Mark(n, m) => t[n := t[n].(marker := Some(m))]
      case DropTrunk(n) => t[n := t[n].(trunkFile := None)]
      case DropFrom(n) => t[n := t[n].(fromFile := None)]
      case Move(n) => Renamed(t, n)
  }

  function DoAll(t: Tree, ops: seq<Op>): Tree {
    if ops == [] then t else DoAll(Do(t, ops[0]), ops[1..])
  }

  /** One node: its marker if one is planned, its legacy files after that, and its
      move unless it is already at depth 1. */
  function NodeOps(t: Tree, plan: map<string, Marker>, n: string): seq<Op>
    requires n in t
  {
    (if n in plan then [Mark(n, plan[n]), DropTrunk(n), DropFrom(n)] else [])
    + (if |t[n].path| > 1 then [Move(n)] else [])
  }

  function Ops(t: Tree, plan: map<string, Marker>, order: seq<string>): seq<Op>
    requires forall i :: 0 <= i < |order| ==> order[i] in t
  {
    if order == [] then [] else NodeOps(t, plan, order[0]) + Ops(t, plan, order[1..])
  }

  /** A listing of the channel, deepest directories first. */
  ghost predicate DeepestFirst(t: Tree, order: seq<string>) {
    && (forall i :: 0 <= i < |order| ==> order[i] in t)
    && (forall n :: n in t ==> n in order)
    && (forall i, j :: 0 <= i < j < |order| ==> order[i] != order[j] && |t[order[i]].path| >= |t[order[j]].path|)
  }

  ghost predicate Leafmost(t: Tree, n: string)
    requires n in t
  {
    forall m :: m in t && t[n].path <= t[m].path ==> m == n
  }

  lemma RenamedOne(t: Tree, n: string)
    requires n in t && Leafmost(t, n)
    ensures Renamed(t, n) == t[n := t[n].(path := [n])]
  {
    var u := t[n := t[n].(path := [n])];
    assert [n] + t[n].path[|t[n].path|..] == [n];
    assert forall m :: m in t ==> Renamed(t, n)[m] == u[m];
  }

  lemma MovedInPlace(t: Tree, n: string, u: Tree, m: string)
    requires WellFormed(t) && n in t && m in t && Leafmost(t, n) && u == t[n := t[n].(path := [n])]
    ensures InPlace(u, m)
  {
    assert InPlace(t, m) && InPlace(t, n);
    if m != n {
      var p := t[m].path;
      forall i | 0 <= i < |p| ensures p[i] in u && u[p[i]].path == p[..i + 1] {
        assert t[p[i]].path == p[..i + 1] <= p;
      }
    }
  }

  /** Moving a directory that holds no other node moves that node only. */
  lemma MoveOne(t0: Tree, t: Tree, n: string)
    requires Placed(t0, t) && n in t && Leafmost(t, n)
    ensures Renamed(t, n) == t[n := t[n].(path := [n])]
    ensures Placed(t0, Renamed(t, n))
  {
    RenamedOne(t, n);
    var u := t[n := t[n].(path := [n])];
    hide Renamed, InPlace, Leafmost;
    assert WellFormed(u) by {
      forall m | m in u ensures InPlace(u, m) {
        MovedInPlace(t, n, u, m);
      }
    }
  }

  /** When a step cannot hurt. */
  ghost predicate Safe(t0: Tree, t: Tree, op: Op) {
    op.n in t && op.n in t0 &&
    match op
    case Mark(n, m) => GoodMarker(t0, n, m)
    case DropTrunk(n) => t[n].marker.Some?
    case DropFrom(n) => true
    case Move(n) => t[n].marker.Some? && Leafmost(t, n)
  }

  lemma ChangeOne(t0: Tree, t: Tree, n: string, nd: NodeDir)
    requires Midway(t0, t) && n in t && Placed(t0, t[n := nd]) && Identified(t0, t[n := nd], n)
    ensures Midway(t0, t[n := nd])
  {
    var u := t[n := nd];
    assert u.Keys == t.Keys == t0.Keys;
    hide GoodMarker, Placed;
    forall m | m in u ensures m in t0 && Identified(t0, u, m) {
      assert m != n ==> Identified(t0, t, m);
    }
  }

  lemma SafeMove(t0: Tree, t: Tree, n: string)
    requires Nested(t0) && Midway(t0, t) && n in t && Safe(t0, t, Move(n))
    ensures Midway(t0, Do(t, Move(n)))
    ensures Do(t, Move(n)) == t[n := t[n].(path := [n])]
  {
    hide GoodMarker, WellFormed, Renamed, Leafmost;
    MoveOne(t0, t, n);
    assert Identified(t0, t, n);
    ChangeOne(t0, t, n, t[n].(path := [n]));
  }

  /** Any step but a move touches one node's identity files only. */
  lemma SafeFiles(t0: Tree, t: Tree, op: Op)
    requires Nested(t0) && Midway(t0, t) && Safe(t0, t, op) && !op.Move?
    ensures Midway(t0, Do(t, op))
    ensures Do(t, op) == t[op.n := Do(t, op)[op.n]] && Do(t, op)[op.n].path == t[op.n].path
  {
    var n := op.n;
    var nd := Do(t, op)[n];
    assert Do(t, op) == t[n := nd] && nd.path == t[n].path && nd.based == t[n].based;
    assert Identified(t0, t, n) && Identified(t0, t[n := nd], n);
    hide GoodMarker, Do, Nested, Identified, Safe;
    FilesPlaced(t0, t, n, nd);
    ChangeOne(t0, t, n, nd);
  }

  lemma FilesPlaced(t0: Tree, t: Tree, n: string, nd: NodeDir)
    requires Placed(t0, t) && n in t && nd.path == t[n].path && nd.based == t[n].based
    ensures Placed(t0, t[n := nd])
  {
    var u := t[n := nd];
    hide InPlace;
    assert u.Keys == t.Keys;
    SamePaths(t, u);
  }

  lemma SamePaths(t: Tree, u: Tree)
    requires WellFormed(t) && u.Keys == t.Keys && forall m :: m in t ==> u[m].path == t[m].path
    ensures WellFormed(u)
  {
    forall m | m in u ensures InPlace(u, m) {
      assert InPlace(t, m);
    }
  }

  ghost predicate Finished(t0: Tree, t: Tree, n: string)
    requires n in t0
  {
    n in t && t[n].path == [n] && t[n].marker == Some(FinalMarker(t0, n))
  }

  /** The files a marker replaces are gone. */
  ghost predicate Retired(t: Tree, n: string) {
    n in t && t[n].trunkFile.None? && t[n].fromFile.None?
  }

  /** In the middle of applying a plan made in `s`: the nodes before `i` are done,
      the others are as they were. */
  ghost predicate Applying(t0: Tree, s: Tree, order: seq<string>, i: nat, t: Tree) {
    && Midway(t0, t) && i <= |order| && DeepestFirst(s, order) && s.Keys == t0.Keys
    && (forall j :: 0 <= j < i ==> Finished(t0, t, order[j]))
    && (forall j :: 0 <= j < i && order[j] in PlanMarkers(s) ==> Retired(t, order[j]))
    && (forall j :: i <= j < |order| ==> order[j] in t && t[order[j]] == s[order[j]])
  }

  /** A node listed before another sits no higher, so it is not above it. */
  lemma NotAbove(s: Tree, n: string, m: string)
    requires WellFormed(s) && n in s && m in s && s[n].path <= s[m].path && |s[n].path| >= |s[m].path|
    ensures m == n
  {
    assert InPlace(s, n) && InPlace(s, m);
  }

  lemma PlacedOf(t0: Tree, s: Tree)
    requires Midway(t0, s)
    ensures WellFormed(s)
  {
  }

  lemma NoneBelow(t0: Tree, s: Tree, order: seq<string>, i: nat, t: Tree)
    requires Applying(t0, s, order, i, t) && i < |order| && |s[order[i]].path| > 1 && Midway(t0, s)
    requires forall m :: m in s ==> m in t && (m == order[i] ==> t[m].path == s[m].path)
    ensures Leafmost(t, order[i])
  {
    hide Midway, WellFormed, Finished;
    PlacedOf(t0, s);
    SameNodes(t0, t);
    var n := order[i];
    forall m | m in t && t[n].path <= t[m].path ensures m == n {
      assert m in order;
      var j :| 0 <= j < |order| && order[j] == m;
      if j < i {
        FinishedPath(t0, t, m);
      } else {
        assert s[m].path == t[m].path;
        NotAbove(s, n, m);
      }
    }
  }

  lemma FinishedPath(t0: Tree, t: Tree, m: string)
    requires m in t0 && m in t && Finished(t0, t, m)
    ensures |t[m].path| == 1
  {
  }

  ghost predicate SafeAll(t0: Tree, t: Tree, ops: seq<Op>)
    decreases |ops|
  {
    ops != [] ==> Safe(t0, t, ops[0]) && SafeAll(t0, Do(t, ops[0]), ops[1..])
  }

  lemma {:induction false} SafeJoin(t0: Tree, t: Tree, a: seq<Op>, b: seq<Op>)
    requires SafeAll(t0, t, a) && SafeAll(t0, DoAll(t, a), b)
    ensures SafeAll(t0, t, a + b) && DoAll(t, a + b) == DoAll(DoAll(t, a), b)
    decreases |a|
  {
    hide Safe, Do;
    if a == [] {
      assert a + b == b;
    } else {
      assert (a + b)[1..] == a[1..] + b;
      SafeJoin(t0, Do(t, a[0]), a[1..], b);
    }
  }

  lemma SafeStep(t0: Tree, t: Tree, op: Op)
    requires Nested(t0) && Midway(t0, t) && Safe(t0, t, op)
    ensures Midway(t0, Do(t, op))
  {
    hide Midway, Nested;
    if op.Move? {
      SafeMove(t0, t, op.n);
    } else {
      SafeFiles(t0, t, op);
    }
  }

  /** Killed after any number of safe steps, the store is still a state a migration
      can be found in. */
  lemma {:induction false} SafePrefix(t0: Tree, t: Tree, ops: seq<Op>, k: nat)
    requires Nested(t0) && Midway(t0, t) && SafeAll(t0, t, ops) && k <= |ops|
    ensures Midway(t0, DoAll(t, ops[..k]))
    decreases k
  {
    hide Safe, Do, Midway, Nested;
    if k > 0 {
      SafeStep(t0, t, ops[0]);
      SafePrefix(t0, Do(t, ops[0]), ops[1..], k - 1);
      assert ops[..k][1..] == ops[1..][..k - 1];
    }
  }

  lemma FilesSafe(t0: Tree, t: Tree, n: string, m: Marker)
    requires Nested(t0) && Midway(t0, t) && n in t && n in t0 && GoodMarker(t0, n, m)
    ensures var ops := [Mark(n, m), DropTrunk(n), DropFrom(n)];
            SafeAll(t0, t, ops) &&
            DoAll(t, ops) == t[n := t[n].(marker := Some(m), trunkFile := None, fromFile := None)]
  {
    var ops := [Mark(n, m), DropTrunk(n), DropFrom(n)];
    hide GoodMarker, Midway, Nested;
    var t1 := Do(t, ops[0]);
    var t2 := Do(t1, DropTrunk(n));
    var t3 := Do(t2, DropFrom(n));
    assert t3 == t[n := t[n].(marker := Some(m), trunkFile := None, fromFile := None)];
    assert Safe(t0, t, ops[0]) && Safe(t0, t1, DropTrunk(n)) && Safe(t0, t2, DropFrom(n));
    hide Safe, Do;
    OneSafe(t0, t2, DropFrom(n), []);
    OneSafe(t0, t1, DropTrunk(n), [DropFrom(n)]);
    OneSafe(t0, t, Mark(n, m), [DropTrunk(n), DropFrom(n)]);
    assert ops == [Mark(n, m)] + [DropTrunk(n), DropFrom(n)];
    assert [DropTrunk(n)] + [DropFrom(n)] == [DropTrunk(n), DropFrom(n)];
    assert [DropFrom(n)] + [] == [DropFrom(n)];
  }

  lemma OneSafe(t0: Tree, t: Tree, op: Op, rest: seq<Op>)
    requires Safe(t0, t, op) && SafeAll(t0, Do(t, op), rest)
    ensures SafeAll(t0, t, [op] + rest) && DoAll(t, [op] + rest) == DoAll(Do(t, op), rest)
  {
    assert ([op] + rest)[1..] == rest;
  }

  lemma AppliedOne(t0: Tree, s: Tree, order: seq<string>, i: nat, t: Tree, v: Tree)
    requires Applying(t0, s, order, i, t) && i < |order| && Midway(t0, v)
    requires order[i] in v && v == t[order[i] := v[order[i]]] && Finished(t0, v, order[i])
    requires order[i] in PlanMarkers(s) ==> Retired(v, order[i])
    ensures Applying(t0, s, order, i + 1, v)
  {
    hide Midway, FinalMarker, PlanMarkers;
    forall j | 0 <= j < i + 1 && order[j] in PlanMarkers(s) ensures Retired(v, order[j]) {
      assert j < i ==> Retired(t, order[j]) && order[j] != order[i];
    }
    forall j | 0 <= j < i + 1 ensures order[j] in t0 && Finished(t0, v, order[j]) {
      assert j < i ==> Finished(t0, t, order[j]) && order[j] != order[i];
    }
  }

  lemma ApplyingFacts(t0: Tree, s: Tree, order: seq<string>, i: nat, t: Tree)
    requires Applying(t0, s, order, i, t)
    ensures Midway(t0, t) && t.Keys == s.Keys == t0.Keys && i <= |order|
    ensures forall j :: 0 <= j < |order| ==> order[j] in s
    ensures i < |order| ==> t[order[i]] == s[order[i]]
  {
    SameNodes(t0, t);
  }

  lemma FinishedIs(t0: Tree, t: Tree, n: string)
    requires n in t0 && n in t && t[n].path == [n] && t[n].marker == Some(FinalMarker(t0, n))
    ensures Finished(t0, t, n)
  {
  }

  lemma RetiredIs(t: Tree, n: string)
    ensures Retired(t, n) <==> n in t && t[n].trunkFile.None? && t[n].fromFile.None?
  {
  }

  lemma MoveSafe(t0: Tree, u: Tree, n: string)
    requires Midway(t0, u) && Nested(t0) && n in u && u[n].marker.Some? && Leafmost(u, n)
    ensures Safe(t0, u, Move(n)) && SafeAll(t0, u, [Move(n)]) && DoAll(u, [Move(n)]) == Do(u, Move(n))
  {
    SameNodes(t0, u);
    OneSafe(t0, u, Move(n), []);
    assert [Move(n)] + [] == [Move(n)];
  }

  lemma NoOps(t0: Tree, t: Tree)
    ensures SafeAll(t0, t, []) && DoAll(t, []) == t
  {
  }

  lemma MoveLast(t0: Tree, s: Tree, order: seq<string>, i: nat, t: Tree, u: Tree, n: string)
    requires Nested(t0) && Midway(t0, s) && Applying(t0, s, order, i, t) && i < |order| && n == order[i]
    requires n in s && n in t0 && Midway(t0, u)
    requires n in u && u == t[n := u[n]] && u[n].path == s[n].path && u[n].marker == Some(FinalMarker(t0, n))
    requires n in PlanMarkers(s) ==> Retired(u, n)
    ensures var move := if |s[n].path| > 1 then [Move(n)] else [];
            SafeAll(t0, u, move) && Applying(t0, s, order, i + 1, DoAll(u, move))
  {
    hide *;
    ShapeAt(t0, s, n);
    if |s[n].path| > 1 {
      NoneBelowNow(t0, s, order, i, t, u);
      MoveSafe(t0, u, n);
      SafeMove(t0, u, n);
      FinishedIs(t0, Do(u, Move(n)), n);
      RetiredIs(u, n);
      RetiredIs(Do(u, Move(n)), n);
      AppliedOne(t0, s, order, i, t, Do(u, Move(n)));
    } else {
      NoOps(t0, u);
      FinishedIs(t0, u, n);
      AppliedOne(t0, s, order, i, t, u);
    }
  }

  lemma ShapeAt(t0: Tree, s: Tree, n: string)
    requires Midway(t0, s) && n in s
    ensures |s[n].path| >= 1 && s[n].path[|s[n].path| - 1] == n
    ensures |s[n].path| == 1 ==> s[n].path == [n]
  {
    assert InPlace(s, n);
  }

  /** The plan's steps for the next node are safe, and finish it. */
  lemma NodeSafe(t0: Tree, s: Tree, order: seq<string>, i: nat, t: Tree)
    requires Nested(t0) && OneLine(t0) && Midway(t0, s) && Applying(t0, s, order, i, t) && i < |order|
    ensures SafeAll(t0, t, NodeOps(s, PlanMarkers(s), order[i]))
    ensures Applying(t0, s, order, i + 1, DoAll(t, NodeOps(s, PlanMarkers(s), order[i])))
  {
    hide *;
    var n, plan := order[i], PlanMarkers(s);
    ApplyingFacts(t0, s, order, i, t);
    PlanIsFinal(t0, s, n);
    FinalIsGood(t0, n);
    var files := if n in plan then [Mark(n, plan[n]), DropTrunk(n), DropFrom(n)] else [];
    if n in plan {
      FilesSafe(t0, t, n, plan[n]);
    } else {
      NoOps(t0, t);
    }
    var u := DoAll(t, files);
    assert u == t[n := u[n]] && u[n].path == s[n].path && u[n].marker == Some(FinalMarker(t0, n));
    RetiredIs(u, n);
    SafePrefix(t0, t, files, |files|);
    assert files[..|files|] == files;
    MoveLast(t0, s, order, i, t, u, n);
    SafeJoin(t0, t, files, if |s[n].path| > 1 then [Move(n)] else []);
    NodeOpsIs(s, plan, n);
  }

  lemma NodeOpsIs(t: Tree, plan: map<string, Marker>, n: string)
    requires n in t
    ensures NodeOps(t, plan, n) == (if n in plan then [Mark(n, plan[n]), DropTrunk(n), DropFrom(n)] else [])
                                   + (if |t[n].path| > 1 then [Move(n)] else [])
  {
  }

  lemma OpsIs(t: Tree, plan: map<string, Marker>, order: seq<string>)
    requires forall i :: 0 <= i < |order| ==> order[i] in t
    ensures order == [] ==> Ops(t, plan, order) == []
    ensures order != [] ==> Ops(t, plan, order) == NodeOps(t, plan, order[0]) + Ops(t, plan, order[1..])
  {
  }

  lemma NoneBelowNow(t0: Tree, s: Tree, order: seq<string>, i: nat, t: Tree, u: Tree)
    requires Applying(t0, s, order, i, t) && i < |order| && |s[order[i]].path| > 1 && Midway(t0, s)
    requires order[i] in u && u == t[order[i] := u[order[i]]] && u[order[i]].path == s[order[i]].path
    ensures Leafmost(u, order[i])
  {
    var n := order[i];
    assert t[n] == s[n];
    SameNodes(t0, t);
    NoneBelow(t0, s, order, i, t);
    hide Applying, Midway;
    assert forall m :: m in u ==> u[m].path == t[m].path;
  }

  /** Applying a whole plan, made in any interrupted state, is a run of safe steps. */
  lemma {:induction false} RestSafe(t0: Tree, s: Tree, order: seq<string>, i: nat, t: Tree)
    requires Nested(t0) && OneLine(t0) && Midway(t0, s) && Applying(t0, s, order, i, t)
    ensures (forall j :: 0 <= j < |order| ==> order[j] in s)
    ensures SafeAll(t0, t, Ops(s, PlanMarkers(s), order[i..]))
    ensures Applying(t0, s, order, |order|, DoAll(t, Ops(s, PlanMarkers(s), order[i..])))
    decreases |order| - i
  {
    hide *;
    ApplyingFacts(t0, s, order, i, t);
    OpsIs(s, PlanMarkers(s), order[i..]);
    if i < |order| {
      var ops := NodeOps(s, PlanMarkers(s), order[i]);
      NodeSafe(t0, s, order, i, t);
      RestSafe(t0, s, order, i + 1, DoAll(t, ops));
      assert order[i..][0] == order[i] && order[i..][1..] == order[i + 1..];
      SafeJoin(t0, t, ops, Ops(s, PlanMarkers(s), order[i + 1..]));
    } else {
      NoOps(t0, t);
    }
  }

  // ---- the main channel ----

  ghost predicate AllFinished(t0: Tree, t: Tree) {
    t.Keys == t0.Keys && forall n :: n in t0 ==> Finished(t0, t, n)
  }

  /** The main channel, cut anywhere: still a state to resume from, and after the
      last step finished. */
  lemma MainResumes(t0: Tree, s: Tree, order: seq<string>, k: nat)
    requires Nested(t0) && OneLine(t0) && Midway(t0, s) && DeepestFirst(s, order)
    requires k <= |Ops(s, PlanMarkers(s), order)|
    ensures var ops := Ops(s, PlanMarkers(s), order);
            && Midway(t0, DoAll(s, ops[..k]))
            && AllFinished(t0, DoAll(s, ops))
            && forall n :: n in PlanMarkers(s) ==> Retired(DoAll(s, ops), n)
  {
    var ops := Ops(s, PlanMarkers(s), order);
    SameNodes(t0, s);
    assert order[0..] == order;
    assert Applying(t0, s, order, 0, s);
    RestSafe(t0, s, order, 0, s);
    SafePrefix(t0, s, ops, k);
    ApplyingFacts(t0, s, order, |order|, DoAll(s, ops));
    forall n | n in PlanMarkers(s) ensures Retired(DoAll(s, ops), n) {
      assert n in order;
    }
  }

  // ---- a related channel: directories only, no identity files ----

  ghost predicate Bare(t: Tree) {
    forall n :: n in t ==> t[n].marker.None? && t[n].fromFile.None? && t[n].trunkFile.None?
  }

  /** The same tree with the marker its nodes would have, were they in the main channel. */
  ghost function Marked(t0: Tree, t: Tree): Tree
    requires t.Keys <= t0.Keys
  {
    map n | n in t :: t[n].(marker := Some(Derived(t0[n])))
  }

  ghost predicate MovesOnly(ops: seq<Op>) {
    forall i :: 0 <= i < |ops| ==> ops[i].Move?
  }

  lemma MarkedOne(t0: Tree, t: Tree, n: string, m: string)
    requires t.Keys == t0.Keys && n in t && m in t
    ensures n in Marked(t0, t) && m in Renamed(Marked(t0, t), n) && m in Marked(t0, Renamed(t, n))
    ensures Renamed(Marked(t0, t), n)[m] == Marked(t0, Renamed(t, n))[m]
  {
  }

  lemma MarkedMove(t0: Tree, t: Tree, n: string)
    requires t.Keys == t0.Keys
    ensures Do(t, Move(n)).Keys == t0.Keys
    ensures Do(Marked(t0, t), Move(n)) == Marked(t0, Do(t, Move(n)))
  {
    if n in t {
      var a, b := Renamed(Marked(t0, t), n), Marked(t0, Renamed(t, n));
      assert a.Keys == b.Keys;
      forall m | m in a ensures a[m] == b[m] {
        MarkedOne(t0, t, n, m);
      }
      assert a == b;
    }
  }

  lemma {:induction false} MarkedCommutes(t0: Tree, t: Tree, ops: seq<Op>)
    requires MovesOnly(ops) && t.Keys == t0.Keys
    ensures DoAll(t, ops).Keys == t0.Keys
    ensures DoAll(Marked(t0, t), ops) == Marked(t0, DoAll(t, ops))
    decreases |ops|
  {
    hide Do, Marked;
    if ops != [] {
      assert ops[0] == Move(ops[0].n);
      MarkedMove(t0, t, ops[0].n);
      MarkedCommutes(t0, Do(t, ops[0]), ops[1..]);
    }
  }

  lemma NoClaims(t: Tree)
    requires forall n :: n in t ==> Claim(t[n]) == ""
    ensures OneLine(t) && forall n :: !Outranked(t, n)
  {
  }

  lemma BareClaims(t0: Tree, t: Tree)
    requires Bare(t0) && t.Keys == t0.Keys
    ensures forall n :: n in t0 ==> Claim(t0[n]) == "" && Claim(Marked(t0, t)[n]) == ""
  {
  }

  lemma MarkedIdentified(t0: Tree, t: Tree, n: string)
    requires Bare(t0) && Bare(t) && t.Keys == t0.Keys && n in t
    ensures Identified(t0, Marked(t0, t), n)
  {
  }

  lemma MarkedPlaced(t0: Tree, t: Tree)
    requires Placed(t0, t)
    ensures Placed(t0, Marked(t0, t))
  {
    var u := Marked(t0, t);
    SamePaths(t, u);
    hide WellFormed;
    assert forall n :: n in t ==> Stays(t0[n], t[n], n);
  }

  lemma MarkedMidway(t0: Tree, t: Tree)
    requires Nested(t0) && Bare(t0) && Placed(t0, t) && Bare(t)
    ensures Midway(t0, Marked(t0, t)) && OneLine(t0) && PlanMarkers(Marked(t0, t)) == map[]
  {
    hide *;
    PlacedKeys(t0, t);
    var u := Marked(t0, t);
    MarkedPlaced(t0, t);
    BareClaims(t0, t);
    MarkedNodes(t0, t);
    NoClaims(t0);
    NoClaims(u);
    NothingPlanned(u);
    forall n | n in u ensures Identified(t0, u, n) {
      MarkedIdentified(t0, t, n);
    }
    MidwayIs(t0, u);
  }

  lemma MarkedNodes(t0: Tree, t: Tree)
    requires t.Keys == t0.Keys
    ensures Marked(t0, t).Keys == t0.Keys && forall n :: n in t0 ==> Marked(t0, t)[n].marker.Some?
  {
  }

  lemma NothingPlanned(t: Tree)
    requires (forall n :: n in t ==> t[n].marker.Some?) && forall n :: !Outranked(t, n)
    ensures PlanMarkers(t) == map[]
  {
  }

  lemma MidwayIs(t0: Tree, t: Tree)
    requires Placed(t0, t) && t.Keys == t0.Keys && forall n :: n in t ==> Identified(t0, t, n)
    ensures Midway(t0, t)
  {
  }

  lemma {:induction false} BareOps(t0: Tree, t: Tree, order: seq<string>)
    requires t.Keys == t0.Keys && forall i :: 0 <= i < |order| ==> order[i] in t
    ensures Ops(Marked(t0, t), map[], order) == Ops(t, map[], order) && MovesOnly(Ops(t, map[], order))
    decreases |order|
  {
    if order != [] {
      BareOps(t0, t, order[1..]);
    }
  }

  lemma {:induction false} MovesKeepBare(t: Tree, ops: seq<Op>)
    requires Bare(t) && MovesOnly(ops)
    ensures Bare(DoAll(t, ops))
    decreases |ops|
  {
    if ops != [] {
      MovesKeepBare(Do(t, ops[0]), ops[1..]);
    }
  }

  ghost predicate AllFlat(t0: Tree, t: Tree) {
    t.Keys == t0.Keys && forall n :: n in t ==> t[n].path == [n]
  }

  lemma OtherResumes(t0: Tree, s: Tree, order: seq<string>, k: nat)
    requires Nested(t0) && Bare(t0) && Placed(t0, s) && Bare(s) && DeepestFirst(s, order)
    requires k <= |Ops(s, map[], order)|
    ensures var ops := Ops(s, map[], order);
            && Placed(t0, DoAll(s, ops[..k])) && Bare(DoAll(s, ops[..k]))
            && AllFlat(t0, DoAll(s, ops))
  {
    hide *;
    PlacedKeys(t0, s);
    MarkedOrder(t0, s, order);
    var ops, v := Ops(s, map[], order), Marked(t0, s);
    MarkedMidway(t0, s);
    BareOps(t0, s, order);
    MainResumes(t0, v, order, k);
    FewerMoves(ops, k);
    MarkedCommutes(t0, s, ops[..k]);
    MarkedCommutes(t0, s, ops);
    MovesKeepBare(s, ops[..k]);
    MidwayPlaced(t0, DoAll(v, ops[..k]));
    UnmarkedPlaced(t0, DoAll(s, ops[..k]));
    UnmarkedFlat(t0, DoAll(s, ops));
  }

  lemma PlacedKeys(t0: Tree, t: Tree)
    requires Placed(t0, t)
    ensures t.Keys == t0.Keys
  {
  }

  lemma MidwayPlaced(t0: Tree, t: Tree)
    requires Midway(t0, t)
    ensures Placed(t0, t)
  {
  }

  lemma MarkedOrder(t0: Tree, t: Tree, order: seq<string>)
    requires DeepestFirst(t, order) && t.Keys == t0.Keys
    ensures DeepestFirst(Marked(t0, t), order)
    ensures forall i :: 0 <= i < |order| ==> order[i] in t
  {
  }

  lemma FewerMoves(ops: seq<Op>, k: nat)
    requires MovesOnly(ops) && k <= |ops|
    ensures MovesOnly(ops[..k])
  {
  }

  lemma UnmarkedFlat(t0: Tree, t: Tree)
    requires t.Keys == t0.Keys && AllFinished(t0, Marked(t0, t))
    ensures AllFlat(t0, t)
  {
    assert forall n :: n in t0 ==> Finished(t0, Marked(t0, t), n);
  }

  lemma UnmarkedPlaced(t0: Tree, t: Tree)
    requires t.Keys == t0.Keys && Placed(t0, Marked(t0, t))
    ensures Placed(t0, t)
  {
    var u := Marked(t0, t);
    SamePaths(u, t);
    hide WellFormed;
    assert forall n :: n in t ==> Stays(t0[n], u[n], n);
  }
}
