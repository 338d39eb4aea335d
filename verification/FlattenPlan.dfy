/**
 Planning as the code does it: bounded climbs, carriers collected per trunk and
 ranked by lineage depth, a check of adjacent pairs, and demotions. Proved equal to
 the plan that speaks of ancestors only.
 */
module FlattenPlan {
  import opened Basics
  import opened Flatten

  // ---- climbing, and why a bound of the node count loses nothing ----

  ghost predicate Acyclic(t: Tree) {
    forall n :: n in t ==> !Ancestor(t, n, n)
  }

  lemma {:induction false} UpShift(t: Tree, a: string, i: nat, b: string, j: nat, m: nat)
    requires Up(t, a, i) == Up(t, b, j)
    ensures Up(t, a, i + m) == Up(t, b, j + m)
  {
    if m > 0 {
      UpShift(t, a, i, b, j, m - 1);
    }
  }

  lemma UpCompose(t: Tree, n: string, i: nat, j: nat)
    ensures Up(t, Up(t, n, i), j) == Up(t, n, i + j)
  {
    UpShift(t, Up(t, n, i), 0, n, i, j);
  }

  lemma AncestorTransitive(t: Tree, a: string, b: string, c: string)
    requires Ancestor(t, a, b) && Ancestor(t, b, c)
    ensures Ancestor(t, a, c)
  {
    var i: nat :| i > 0 && Up(t, b, i) == a;
    var j: nat :| j > 0 && Up(t, c, j) == b;
    UpCompose(t, c, j, i);
  }

  /** Once the climb leaves the tree it does not come back. */
  lemma {:induction false} StaysOut(t: Tree, n: string, i: nat, j: nat)
    requires "" !in t && i <= j && Up(t, n, j) in t
    ensures Up(t, n, i) in t
    decreases j
  {
    if i < j {
      assert Up(t, n, j - 1) in t;
      StaysOut(t, n, i, j - 1);
    }
  }

  ghost predicate DistinctClimb(t: Tree, n: string, k: nat) {
    forall i, j :: 0 <= i < j < k ==> Up(t, n, i) != Up(t, n, j)
  }

  ghost function Climbed(t: Tree, n: string, k: nat): set<string> {
    if k == 0 then {} else Climbed(t, n, k - 1) + {Up(t, n, k - 1)}
  }

  lemma {:induction false} ClimbedFrom(t: Tree, n: string, k: nat, x: string)
    requires x in Climbed(t, n, k)
    ensures exists i: nat :: i < k && Up(t, n, i) == x
  {
    if x != Up(t, n, k - 1) {
      ClimbedFrom(t, n, k - 1, x);
    }
  }

  lemma {:induction false} ClimbedSize(t: Tree, n: string, k: nat)
    requires DistinctClimb(t, n, k) && forall i :: 0 <= i < k ==> Up(t, n, i) in t
    ensures |Climbed(t, n, k)| == k && Climbed(t, n, k) <= t.Keys
  {
    if k > 0 {
      hide Up;
      ClimbedSize(t, n, k - 1);
      if Up(t, n, k - 1) in Climbed(t, n, k - 1) {
        ClimbedFrom(t, n, k - 1, Up(t, n, k - 1));
      }
    }
  }

  /** A climb through distinct nodes is no longer than the tree has nodes. */
  lemma ClimbBound(t: Tree, n: string, k: nat)
    requires DistinctClimb(t, n, k) && forall i :: 0 <= i < k ==> Up(t, n, i) in t
    ensures k <= |t|
  {
    ClimbedSize(t, n, k);
    SubsetSize(Climbed(t, n, k), t.Keys);
  }

  /** The first time the climb meets `a` comes within the node count. */
  lemma {:induction false} FirstMeeting(t: Tree, a: string, d: string, k: nat) returns (j: nat)
    requires "" !in t && a in t && k > 0 && Up(t, d, k) == a
    ensures 0 < j <= |t| && Up(t, d, j) == a
    decreases k
  {
    if exists i :: 0 < i < k && Up(t, d, i) == a {
      var i :| 0 < i < k && Up(t, d, i) == a;
      j := FirstMeeting(t, a, d, i);
    } else {
      forall i, m | 0 <= i < m < k ensures Up(t, d, i) != Up(t, d, m) {
        assert Up(t, d, i + (k - m)) != a;
        if Up(t, d, i) == Up(t, d, m) {
          UpShift(t, d, i, d, m, k - m);
        }
      }
      forall i | 0 <= i < k ensures Up(t, d, i) in t {
        StaysOut(t, d, i, k);
      }
      ClimbBound(t, d, k);
      j := k;
    }
  }

  method IsAncestorOf(t: Tree, anc: string, desc: string) returns (r: bool)
    requires "" !in t && anc in t && desc in t
    ensures r <==> Ancestor(t, anc, desc)
  {
    var cur, i := desc, 0;
    while i < |t|
      invariant 0 <= i <= |t| && cur in t && cur == Up(t, desc, i)
      invariant forall k :: 0 < k <= i ==> Up(t, desc, k) != anc
    {
      var parent := ParentOf(t, cur);
      assert parent == Up(t, desc, i + 1);
      if parent == anc {
        return true;
      }
      if parent !in t {
        forall k: nat | k > 0 ensures Up(t, desc, k) != anc {
          if k > i {
            if Up(t, desc, k) == anc {
              StaysOut(t, desc, i + 1, k);
            }
          }
        }
        return false;
      }
      cur, i := parent, i + 1;
    }
    if k: nat :| k > 0 && Up(t, desc, k) == anc {
      var j := FirstMeeting(t, anc, desc, k);
    }
    return false;
  }

  /** How many ancestors a bounded climb counts. */
  ghost predicate Counts(t: Tree, n: string, d: nat) {
    && d <= |t| && (forall k :: 0 <= k <= d ==> Up(t, n, k) in t)
    && (d < |t| ==> Up(t, n, d + 1) !in t)
  }

  method LineageDepth(t: Tree, n: string) returns (d: nat)
    requires n in t
    ensures Counts(t, n, d)
  {
    d := 0;
    var cur := n;
    while d < |t|
      invariant d <= |t| && cur in t && cur == Up(t, n, d)
      invariant forall k :: 0 <= k <= d ==> Up(t, n, k) in t
    {
      var next := ParentOf(t, cur);
      assert next == Up(t, n, d + 1);
      if next !in t {
        return;
      }
      d, cur := d + 1, next;
    }
  }

  lemma AcyclicCount(t: Tree, n: string, d: nat)
    requires Acyclic(t) && Counts(t, n, d)
    ensures d < |t|
  {
    forall i, j | 0 <= i < j < d + 1 ensures Up(t, n, i) != Up(t, n, j) {
      UpCompose(t, n, i, j - i);
      assert !Ancestor(t, Up(t, n, i), Up(t, n, i));
    }
    ClimbBound(t, n, d + 1);
  }

  /** In an acyclic tree an ancestor counts fewer. */
  lemma AncestorCountsLess(t: Tree, a: string, b: string, da: nat, db: nat)
    requires "" !in t && Acyclic(t) && b in t && Ancestor(t, a, b) && Counts(t, a, da) && Counts(t, b, db)
    ensures da < db
  {
    hide Acyclic;
    var k: nat :| k > 0 && Up(t, b, k) == a;
    AcyclicCount(t, a, da);
    AcyclicCount(t, b, db);
    UpCompose(t, b, k, da);
    UpCompose(t, b, k, da + 1);
    if db < k + da {
      StaysOut(t, b, db + 1, k + da);
    }
  }

  // ---- ranking the nodes that claim one trunk ----

  ghost predicate Ranked(depth: map<string, nat>, rels: seq<string>) {
    && (forall i :: 0 <= i < |rels| ==> rels[i] in depth)
    && (forall i, j :: 0 <= i < j < |rels| ==> depth[rels[i]] <= depth[rels[j]])
  }

  ghost predicate Distinct(rels: seq<string>) {
    forall i, j :: 0 <= i < j < |rels| ==> rels[i] != rels[j]
  }

  /** Insert `x` before the first node that lies deeper. */
  method InsertByDepth(depth: map<string, nat>, rels: seq<string>, x: string) returns (r: seq<string>)
    requires Ranked(depth, rels) && x in depth && Distinct(rels) && x !in rels
    ensures Ranked(depth, r) && Distinct(r) && |r| == |rels| + 1
    ensures forall n :: n in r <==> n == x || n in rels
  {
    var i := 0;
    while i < |rels| && depth[rels[i]] <= depth[x]
      invariant 0 <= i <= |rels|
      invariant forall k :: 0 <= k < i ==> depth[rels[k]] <= depth[x]
    {
      i := i + 1;
    }
    r := rels[..i] + [x] + rels[i..];
  }

  method SortByDepth(depth: map<string, nat>, rels: seq<string>) returns (r: seq<string>)
    requires Distinct(rels) && forall i :: 0 <= i < |rels| ==> rels[i] in depth
    ensures Ranked(depth, r) && Distinct(r) && |r| == |rels|
    ensures forall n :: n in r <==> n in rels
  {
    r := [];
    var i := 0;
    while i < |rels|
      invariant 0 <= i <= |rels| && |r| == i && Ranked(depth, r) && Distinct(r)
      invariant forall n :: n in r <==> n in rels[..i]
    {
      assert rels[..i + 1] == rels[..i] + [rels[i]];
      r := InsertByDepth(depth, r, rels[i]);
      i := i + 1;
    }
    assert rels[..|rels|] == rels;
  }

  ghost predicate Chain(t: Tree, rels: seq<string>) {
    forall i, j :: 0 <= i < |rels| && j == i + 1 && j < |rels| ==> Ancestor(t, rels[i], rels[j])
  }

  method IsLineageChain(t: Tree, rels: seq<string>) returns (r: bool)
    requires "" !in t && forall i :: 0 <= i < |rels| ==> rels[i] in t
    ensures r <==> Chain(t, rels)
  {
    var i := 1;
    while i < |rels|
      invariant 1 <= i && (i <= |rels| || |rels| == 0)
      invariant forall k, m :: 0 <= k && m == k + 1 && m < i && m < |rels| ==> Ancestor(t, rels[k], rels[m])
    {
      var up := IsAncestorOf(t, rels[i - 1], rels[i]);
      if !up {
        return false;
      }
      i := i + 1;
    }
    return true;
  }

  lemma {:induction false} ChainAll(t: Tree, rels: seq<string>, i: nat, j: nat)
    requires Chain(t, rels) && i < j < |rels|
    ensures Ancestor(t, rels[i], rels[j])
    decreases j
  {
    hide Ancestor;
    assert Ancestor(t, rels[j - 1], rels[j]);
    if i < j - 1 {
      ChainAll(t, rels, i, j - 1);
      AncestorTransitive(t, rels[i], rels[j - 1], rels[j]);
    }
  }

  ghost predicate Comparable(t: Tree, rels: seq<string>) {
    forall i, j :: 0 <= i < j < |rels| ==> Ancestor(t, rels[i], rels[j]) || Ancestor(t, rels[j], rels[i])
  }

  /** Ranked by depth, comparable nodes form a chain of adjacent pairs. */
  lemma ComparableChain(t: Tree, depth: map<string, nat>, rels: seq<string>)
    requires "" !in t && Acyclic(t) && Ranked(depth, rels) && Comparable(t, rels)
    requires forall i :: 0 <= i < |rels| ==> rels[i] in t && Counts(t, rels[i], depth[rels[i]])
    ensures Chain(t, rels)
  {
    hide Ancestor, Counts, Acyclic;
    forall i, j | 0 <= i < |rels| && j == i + 1 && j < |rels| ensures Ancestor(t, rels[i], rels[j]) {
      if Ancestor(t, rels[j], rels[i]) {
        AncestorCountsLess(t, rels[j], rels[i], depth[rels[j]], depth[rels[i]]);
      }
    }
  }

  /** The last of a chain is below all the others, and above none of them. */
  lemma ChainLast(t: Tree, rels: seq<string>)
    requires Chain(t, rels) && rels != []
    ensures forall i :: 0 <= i < |rels| - 1 ==> Ancestor(t, rels[i], rels[|rels| - 1])
    ensures Acyclic(t) && (forall i :: 0 <= i < |rels| ==> rels[i] in t) ==>
              forall i :: 0 <= i < |rels| ==> !Ancestor(t, rels[|rels| - 1], rels[i])
  {
    var last := |rels| - 1;
    hide Ancestor;
    forall i | 0 <= i < last ensures Ancestor(t, rels[i], rels[last]) {
      ChainAll(t, rels, i, last);
    }
    if Acyclic(t) && forall i :: 0 <= i < |rels| ==> rels[i] in t {
      forall i | 0 <= i < |rels| ensures !Ancestor(t, rels[last], rels[i]) {
        assert !Ancestor(t, rels[last], rels[last]);
        if i < last && Ancestor(t, rels[last], rels[i]) {
          AncestorTransitive(t, rels[last], rels[i], rels[last]);
        }
      }
    }
  }

  lemma ComparableSame(t: Tree, a: seq<string>, b: seq<string>)
    requires Comparable(t, a) && Distinct(b) && forall n :: n in b ==> n in a
    ensures Comparable(t, b)
  {
    hide Ancestor;
    forall i, j | 0 <= i < j < |b| ensures Ancestor(t, b[i], b[j]) || Ancestor(t, b[j], b[i]) {
      assert b[i] in a && b[j] in a && b[i] != b[j];
    }
  }

  lemma ChainComparable(t: Tree, rels: seq<string>)
    requires Chain(t, rels)
    ensures Comparable(t, rels)
  {
    hide Ancestor;
    forall i, j | 0 <= i < j < |rels| ensures Ancestor(t, rels[i], rels[j]) || Ancestor(t, rels[j], rels[i]) {
      ChainAll(t, rels, i, j);
    }
  }

  /** Rank one trunk's claimants: refuse a tangle, or name everyone but the head. */
  method RankTrunk(t: Tree, rels: seq<string>, depth: map<string, nat>) returns (ok: bool, demoted: seq<string>)
    requires "" !in t && Distinct(rels) && rels != []
    requires forall n :: n in rels ==> n in t && n in depth && Counts(t, n, depth[n])
    ensures ok ==> Comparable(t, rels)
    ensures Acyclic(t) && Comparable(t, rels) ==> ok
    ensures forall n :: n in demoted ==> n in rels
    ensures ok ==> forall n :: n in demoted ==> exists b :: b in rels && b != n && Ancestor(t, n, b)
    ensures ok && Acyclic(t) ==> forall n :: n in rels && n !in demoted ==> forall b :: b in rels ==> !Ancestor(t, n, b)
  {
    hide Ancestor, Counts, Acyclic, Comparable, Chain;
    if |rels| < 2 {
      SingleRank(t, rels);
      return true, [];
    }
    var sorted := SortByDepth(depth, rels);
    ok := IsLineageChain(t, sorted);
    demoted := sorted[..|sorted| - 1];
    if Acyclic(t) && Comparable(t, rels) {
      ComparableSame(t, rels, sorted);
      ComparableChain(t, depth, sorted);
    }
    if ok {
      ChainComparable(t, sorted);
      ComparableSame(t, sorted, rels);
      ChainLast(t, sorted);
      assert forall n :: n in rels && n !in demoted ==> n == sorted[|sorted| - 1];
    }
  }

  lemma SingleRank(t: Tree, rels: seq<string>)
    requires |rels| == 1
    ensures Comparable(t, rels)
    ensures Acyclic(t) && rels[0] in t ==> !Ancestor(t, rels[0], rels[0])
  {
  }

  // ---- the whole plan ----

  ghost predicate ListOf(t: Tree, seen: seq<string>, trunk: string, rels: seq<string>)
    requires forall n :: n in seen ==> n in t
  {
    Distinct(rels) && rels != [] && forall n :: n in rels <==> n in seen && Claim(t[n]) == trunk
  }

  ghost predicate Collected(t: Tree, seen: seq<string>, carriers: map<string, seq<string>>)
    requires forall n :: n in seen ==> n in t
  {
    && (forall trunk :: trunk in carriers ==> trunk != "" && ListOf(t, seen, trunk, carriers[trunk]))
    && (forall n :: n in seen && Claim(t[n]) != "" ==> Claim(t[n]) in carriers)
  }

  ghost predicate Listing(t: Tree, paths: seq<string>) {
    Distinct(paths) && forall n :: n in paths <==> n in t
  }

  method Collect(t: Tree, paths: seq<string>) returns (markers: map<string, Marker>, carriers: map<string, seq<string>>)
    requires Listing(t, paths)
    ensures markers == map n | n in t && t[n].marker.None? :: Derived(t[n])
    ensures forall n :: n in t && t[n].marker.None? ==>
              n in markers && FromFiles(t[n], markers[n].from, markers[n].kind, markers[n].trunk)
    ensures Collected(t, paths, carriers)
  {
    hide FromFiles, Collected, ListOf, Derived, Claim;
    markers, carriers := map[], map[];
    NoneCollected(t);
    var i := 0;
    while i < |paths|
      invariant 0 <= i <= |paths|
      invariant forall n :: n in markers <==> n in paths[..i] && t[n].marker.None?
      invariant forall n :: n in markers ==> markers[n] == Derived(t[n])
      invariant Collected(t, paths[..i], carriers)
    {
      var n := paths[i];
      assert paths[..i + 1] == paths[..i] + [n];
      var m := Derived(t[n]);
      var trunk := if t[n].marker.Some? then t[n].marker.value.trunk else m.trunk;
      ClaimIs(t[n]);
      if t[n].marker.None? {
        markers := markers[n := m];
      }
      CollectOne(t, paths[..i], carriers, n);
      if trunk != "" {
        carriers := carriers[trunk := (if trunk in carriers then carriers[trunk] else []) + [n]];
      }
      i := i + 1;
    }
    assert paths[..|paths|] == paths;
    CollectedFrom(t, markers);
  }

  lemma ClaimIs(nd: NodeDir)
    ensures Claim(nd) == if nd.marker.Some? then nd.marker.value.trunk else Derived(nd).trunk
  {
  }

  lemma NoneCollected(t: Tree)
    ensures Collected(t, [], map[])
  {
  }

  lemma CollectedFrom(t: Tree, markers: map<string, Marker>)
    requires forall n :: n in t && t[n].marker.None? ==> n in markers && markers[n] == Derived(t[n])
    ensures forall n :: n in t && t[n].marker.None? ==>
              n in markers && FromFiles(t[n], markers[n].from, markers[n].kind, markers[n].trunk)
  {
    forall n | n in t && t[n].marker.None?
      ensures n in markers && FromFiles(t[n], markers[n].from, markers[n].kind, markers[n].trunk)
    {
      DerivedIs(t[n], markers[n]);
    }
  }

  lemma CollectOne(t: Tree, seen: seq<string>, carriers: map<string, seq<string>>, n: string)
    requires (forall m :: m in seen ==> m in t) && n in t && n !in seen && Collected(t, seen, carriers)
    ensures var trunk := Claim(t[n]);
            Collected(t, seen + [n],
                      if trunk == "" then carriers
                      else carriers[trunk := (if trunk in carriers then carriers[trunk] else []) + [n]])
  {
    var trunk := Claim(t[n]);
    var more := if trunk == "" then carriers
                else carriers[trunk := (if trunk in carriers then carriers[trunk] else []) + [n]];
    forall k | k in more ensures k != "" && ListOf(t, seen + [n], k, more[k]) {
      assert k in carriers ==> ListOf(t, seen, k, carriers[k]);
    }
  }

  method Depths(t: Tree, paths: seq<string>) returns (depth: map<string, nat>)
    requires Listing(t, paths)
    ensures depth.Keys == t.Keys && forall n :: n in t ==> Counts(t, n, depth[n])
  {
    hide Counts;
    depth := map[];
    var i := 0;
    while i < |paths|
      invariant 0 <= i <= |paths|
      invariant forall n :: n in depth <==> n in paths[..i]
      invariant forall n :: n in depth ==> n in t && Counts(t, n, depth[n])
    {
      assert paths[..i + 1] == paths[..i] + [paths[i]];
      var d := LineageDepth(t, paths[i]);
      depth := depth[paths[i] := d];
      i := i + 1;
    }
    assert paths[..|paths|] == paths;
  }

  /** Markers once the nodes in `demoted` have given up their trunk. */
  ghost predicate MarkersAre(t: Tree, markers: map<string, Marker>, demoted: set<string>) {
    && demoted <= t.Keys
    && (forall n :: n in markers <==> n in t && (t[n].marker.None? || n in demoted))
    && (forall n :: n in markers ==>
          var m := if t[n].marker.Some? then t[n].marker.value else Derived(t[n]);
          markers[n] == if n in demoted then Demoted(m) else m)
  }

  method Demote(t: Tree, markers: map<string, Marker>, names: seq<string>, ghost demoted: set<string>)
    returns (r: map<string, Marker>)
    requires MarkersAre(t, markers, demoted) && forall n :: n in names ==> n in t
    ensures MarkersAre(t, r, demoted + set n | n in names)
  {
    r := markers;
    ghost var done := demoted;
    var i := 0;
    while i < |names|
      invariant 0 <= i <= |names| && done == demoted + (set n | n in names[..i]) && MarkersAre(t, r, done)
    {
      var n := names[i];
      assert names[..i + 1] == names[..i] + [n];
      var m := if n in r then r[n] else t[n].marker.value;
      r := r[n := Demoted(m)];
      done := done + {n};
      i := i + 1;
    }
    assert names[..|names|] == names;
  }

  /** What is known once the trunks outside `todo` have been ranked. */
  ghost predicate RankedSoFar(t: Tree, carriers: map<string, seq<string>>, todo: set<string>, demoted: set<string>,
                              tangled: bool) {
    && (!tangled ==> forall k :: k in carriers && k !in todo ==> Comparable(t, carriers[k]))
    && (tangled && Acyclic(t) ==> exists k :: k in carriers && !Comparable(t, carriers[k]))
    && (!tangled ==> forall n :: n in demoted ==> Outranked(t, n))
    && (!tangled && Acyclic(t) ==>
          forall n :: n in t && Claim(t[n]) in carriers && Claim(t[n]) !in todo && n !in demoted ==> !Outranked(t, n))
  }

  lemma DemotedAreOutranked(t: Tree, paths: seq<string>, trunk: string, rels: seq<string>, n: string)
    requires Listing(t, paths) && trunk != "" && ListOf(t, paths, trunk, rels) && n in rels
    ensures (exists b :: b in rels && b != n && Ancestor(t, n, b)) <==> Outranked(t, n)
  {
    hide Ancestor;
    if Outranked(t, n) {
      var b :| Rivals(t, n, b) && Ancestor(t, n, b);
      assert b in rels;
    }
    if b :| b in rels && b != n && Ancestor(t, n, b) {
      assert Rivals(t, n, b);
    }
  }

  lemma RankOne(t: Tree, paths: seq<string>, carriers: map<string, seq<string>>, todo: set<string>,
                demoted: set<string>,
                tangled: bool, k: string, ok: bool, names: seq<string>)
    requires Listing(t, paths) && Collected(t, paths, carriers) && RankedSoFar(t, carriers, todo, demoted, tangled)
    requires k in todo && todo <= carriers.Keys
    requires ok ==> Comparable(t, carriers[k])
    requires Acyclic(t) && Comparable(t, carriers[k]) ==> ok
    requires forall n :: n in names ==> n in carriers[k]
    requires ok ==> forall n :: n in names ==> exists b :: b in carriers[k] && b != n && Ancestor(t, n, b)
    requires ok && Acyclic(t) ==>
               forall n :: n in carriers[k] && n !in names ==> forall b :: b in carriers[k] ==> !Ancestor(t, n, b)
    ensures RankedSoFar(t, carriers, todo - {k}, if ok then demoted + (set n | n in names) else demoted, tangled || !ok)
  {
    hide Ancestor, Acyclic, Comparable, Outranked;
    assert k in carriers && k != "" && ListOf(t, paths, k, carriers[k]);
    forall n | n in carriers[k]
      ensures (exists b :: b in carriers[k] && b != n && Ancestor(t, n, b)) <==> Outranked(t, n)
    {
      DemotedAreOutranked(t, paths, k, carriers[k], n);
    }
    hide ListOf, Listing;
    forall n | n in t && Claim(t[n]) == k ensures n in carriers[k] {
      InList(t, paths, k, carriers[k], n);
    }
  }

  lemma InList(t: Tree, paths: seq<string>, trunk: string, rels: seq<string>, n: string)
    requires Listing(t, paths) && ListOf(t, paths, trunk, rels) && n in t && Claim(t[n]) == trunk
    ensures n in rels
  {
  }

  /** Plan the main channel: refuse exactly the tangled trees, and otherwise plan
      exactly the missing markers and the demotions. */
  method PlanMainMarkers(t: Tree, paths: seq<string>) returns (plan: Option<map<string, Marker>>)
    requires Listing(t, paths) && "" !in t
    ensures plan.Some? ==> OneLine(t)
    ensures Acyclic(t) ==> (plan.Some? <==> OneLine(t))
    ensures Acyclic(t) && plan.Some? ==> plan.value == PlanMarkers(t)
    ensures plan.Some? ==> forall n :: n in t && t[n].marker.None? ==> n in plan.value && Planned(t[n], plan.value[n])
  {
    hide Ancestor, Acyclic, Comparable, Outranked, Counts, OneLine, PlanMarkers, RankedSoFar;
    var markers, carriers := Collect(t, paths);
    var depth := Depths(t, paths);
    var todo, tangled := carriers.Keys, false;
    ghost var demoted: set<string> := {};
    NothingRanked(t, carriers);
    while todo != {}
      invariant todo <= carriers.Keys && RankedSoFar(t, carriers, todo, demoted, tangled)
      invariant MarkersAre(t, markers, demoted)
    {
      var k :| k in todo;
      assert ListOf(t, paths, k, carriers[k]);
      var ok, names := RankTrunk(t, carriers[k], depth);
      RankOne(t, paths, carriers, todo, demoted, tangled, k, ok, names);
      if ok {
        markers := Demote(t, markers, names, demoted);
        demoted := demoted + set n | n in names;
      } else {
        tangled := true;
      }
      todo := todo - {k};
    }
    PlanDone(t, paths, carriers, demoted, tangled, markers);
    if tangled {
      return None;
    }
    PlannedAll(t, markers, demoted);
    return Some(markers);
  }

  /** A planned marker says what the files say, but may have given up the trunk. */
  ghost predicate Planned(nd: NodeDir, m: Marker) {
    FromFiles(nd, m.from, m.kind, TrunkOf(nd)) && m.trunk in {TrunkOf(nd), ""}
  }

  lemma PlannedAll(t: Tree, markers: map<string, Marker>, demoted: set<string>)
    requires MarkersAre(t, markers, demoted)
    ensures forall n :: n in t && t[n].marker.None? ==> n in markers && Planned(t[n], markers[n])
  {
    forall n | n in t && t[n].marker.None? ensures n in markers && Planned(t[n], markers[n]) {
      DerivedIs(t[n], Derived(t[n]));
    }
  }

  lemma NothingRanked(t: Tree, carriers: map<string, seq<string>>)
    ensures RankedSoFar(t, carriers, carriers.Keys, {}, false)
  {
  }

  lemma ComparableIsOneLine(t: Tree, paths: seq<string>, carriers: map<string, seq<string>>)
    requires Listing(t, paths) && Collected(t, paths, carriers)
    ensures OneLine(t) <==> forall k :: k in carriers ==> Comparable(t, carriers[k])
  {
    hide Ancestor;
    if OneLine(t) {
      forall k | k in carriers ensures Comparable(t, carriers[k]) {
        assert ListOf(t, paths, k, carriers[k]);
        forall i, j | 0 <= i < j < |carriers[k]|
          ensures Ancestor(t, carriers[k][i], carriers[k][j]) || Ancestor(t, carriers[k][j], carriers[k][i])
        {
          assert carriers[k][i] in carriers[k] && carriers[k][j] in carriers[k];
          assert Rivals(t, carriers[k][i], carriers[k][j]);
        }
      }
    }
    if forall k :: k in carriers ==> Comparable(t, carriers[k]) {
      forall a, b | Rivals(t, a, b) ensures Ancestor(t, a, b) || Ancestor(t, b, a) {
        var k := Claim(t[a]);
        assert k in carriers && ListOf(t, paths, k, carriers[k]) && a in carriers[k] && b in carriers[k];
      }
    }
  }

  lemma PlanDone(t: Tree, paths: seq<string>, carriers: map<string, seq<string>>, demoted: set<string>, tangled: bool,
                 markers: map<string, Marker>)
    requires Listing(t, paths) && Collected(t, paths, carriers)
    requires RankedSoFar(t, carriers, {}, demoted, tangled) && MarkersAre(t, markers, demoted)
    ensures !tangled ==> OneLine(t)
    ensures tangled && Acyclic(t) ==> !OneLine(t)
    ensures !tangled && Acyclic(t) ==> markers == PlanMarkers(t)
  {
    hide Ancestor, Acyclic, Comparable;
    ComparableIsOneLine(t, paths, carriers);
    if !tangled && Acyclic(t) {
      forall n | n in t ensures Outranked(t, n) <==> n in demoted {
        if Claim(t[n]) == "" {
          UnclaimedNotOutranked(t, n);
        }
      }
      hide Outranked, OneLine, Collected;
    }
  }

  lemma UnclaimedNotOutranked(t: Tree, n: string)
    requires n in t && Claim(t[n]) == ""
    ensures !Outranked(t, n)
  {
  }

  // ---- refusing colliding names ----

  function Leaf(p: Path): string
    requires p != []
  {
    p[|p| - 1]
  }

  /** The directory at `j` would land on a name an earlier one took. */
  ghost predicate Collides(paths: seq<Path>, j: nat)
    requires forall i :: 0 <= i < |paths| ==> paths[i] != []
  {
    j < |paths| && exists i :: 0 <= i < j && Leaf(paths[i]) == Leaf(paths[j])
  }

  /** Report every directory that would land on a taken name, and accept exactly the
      channels whose leaf names are distinct. */
  method CheckLeafCollisions(paths: seq<Path>) returns (clashes: seq<nat>)
    requires forall i :: 0 <= i < |paths| ==> paths[i] != []
    ensures forall j :: j in clashes <==> Collides(paths, j)
    ensures clashes == [] <==> forall i, j :: 0 <= i < j < |paths| ==> Leaf(paths[i]) != Leaf(paths[j])
  {
    hide Collides;
    clashes := [];
    var claimed: map<string, nat> := map[];
    for j := 0 to |paths|
      invariant forall l :: l in claimed ==> claimed[l] < j && Leaf(paths[claimed[l]]) == l
      invariant forall i :: 0 <= i < j ==> Leaf(paths[i]) in claimed
      invariant forall k: nat :: k in clashes <==> k < j && Collides(paths, k)
    {
      var leaf := Leaf(paths[j]);
      CollidesWhen(paths, claimed, j);
      if leaf in claimed {
        clashes := clashes + [j];
      } else {
        claimed := claimed[leaf := j];
      }
    }
    CollidesBelow(paths);
    if clashes != [] {
      assert clashes[0] in clashes;
    }
  }

  lemma CollidesWhen(paths: seq<Path>, claimed: map<string, nat>, j: nat)
    requires j < |paths| && forall i :: 0 <= i < |paths| ==> paths[i] != []
    requires forall l :: l in claimed ==> claimed[l] < j && Leaf(paths[claimed[l]]) == l
    requires forall i :: 0 <= i < j ==> Leaf(paths[i]) in claimed
    ensures Collides(paths, j) <==> Leaf(paths[j]) in claimed
  {
  }

  lemma CollidesBelow(paths: seq<Path>)
    requires forall i :: 0 <= i < |paths| ==> paths[i] != []
    ensures forall j: nat :: Collides(paths, j) ==> j < |paths|
    ensures (forall j: nat :: !Collides(paths, j)) <==>
            forall i, j :: 0 <= i < j < |paths| ==> Leaf(paths[i]) != Leaf(paths[j])
  {
    if forall j: nat :: !Collides(paths, j) {
      forall i, j | 0 <= i < j < |paths| ensures Leaf(paths[i]) != Leaf(paths[j]) {
        assert !Collides(paths, j);
      }
    }
  }

  // ---- one channel's migration, step by step ----

  lemma MidwayAcyclic(t0: Tree, t: Tree)
    requires Nested(t0) && Midway(t0, t)
    ensures Acyclic(t) && "" !in t
  {
    SameNodes(t0, t);
    forall n | n in t ensures n != "" && !Ancestor(t, n, n) {
      assert InPlace(t0, n);
      AncestorKept(t0, t, n, n);
      if Ancestor(t0, n, n) {
        AncestorIsShallower(t0, n, n);
      }
    }
  }

  lemma {:induction false} DoJoin(t: Tree, a: seq<Op>, b: seq<Op>)
    ensures DoAll(t, a + b) == DoAll(DoAll(t, a), b)
  {
    if a == [] {
      assert a + b == b;
    } else {
      assert (a + b)[1..] == a[1..] + b;
      DoJoin(Do(t, a[0]), a[1..], b);
    }
  }

  lemma DoOne(t: Tree, op: Op)
    ensures DoAll(t, [op]) == Do(t, op)
  {
    assert DoAll(Do(t, op), [op][1..]) == Do(t, op);
  }

  lemma {:induction false} OpsJoin(t: Tree, plan: map<string, Marker>, a: seq<string>, b: seq<string>)
    requires forall i :: 0 <= i < |a + b| ==> (a + b)[i] in t
    ensures forall i :: 0 <= i < |a| ==> a[i] in t
    ensures forall i :: 0 <= i < |b| ==> b[i] in t
    ensures Ops(t, plan, a + b) == Ops(t, plan, a) + Ops(t, plan, b)
  {
    forall i | 0 <= i < |b| ensures b[i] in t {
      assert (a + b)[|a| + i] == b[i];
    }
    forall i | 0 <= i < |a| ensures a[i] in t {
      assert (a + b)[i] == a[i];
    }
    hide NodeOps;
    if a == [] {
      assert a + b == b;
    } else {
      assert (a + b)[1..] == a[1..] + b;
      OpsJoin(t, plan, a[1..], b);
    }
  }

  /** One channel's directories on disk. */
  class Channel {
    var tree: Tree

    constructor (t: Tree)
      ensures tree == t
    {
      tree := t;
    }

    /** Perform one step if the process is still alive. */
    method Perform(op: Op, budget: nat) returns (left: nat)
      modifies this
      ensures tree == DoAll(old(tree), Take([op], budget))
      ensures left == if budget == 0 then 0 else budget - 1
    {
      if budget == 0 {
        return 0;
      }
      DoOne(tree, op);
      tree := Do(tree, op);
      return budget - 1;
    }

    /** Marker, then the legacy files, then the rename; dying after `budget` steps. */
    method ApplyNode(t: Tree, plan: map<string, Marker>, n: string, budget: nat) returns (left: nat)
      requires n in t
      modifies this
      ensures tree == DoAll(old(tree), Take(NodeOps(t, plan, n), budget))
      ensures left == if budget < |NodeOps(t, plan, n)| then 0 else budget - |NodeOps(t, plan, n)|
    {
      hide DoAll, Do;
      left := budget;
      ghost var done: seq<Op> := [];
      Nothing(tree);
      if n in plan {
        left := Perform(Mark(n, plan[n]), left);
        left := Perform(DropTrunk(n), left);
        left := Perform(DropFrom(n), left);
        Three(old(tree), Mark(n, plan[n]), DropTrunk(n), DropFrom(n), budget);
        done := [Mark(n, plan[n]), DropTrunk(n), DropFrom(n)];
      }
      assert tree == DoAll(old(tree), Take(done, budget));
      if |t[n].path| > 1 {
        BudgetJoin(old(tree), done, [Move(n)], budget);
        left := Perform(Move(n), left);
        done := done + [Move(n)];
      }
      assert NodeOps(t, plan, n) == done;
    }

    /** Walk the plan in order; a process killed after `budget` steps has performed
        exactly the first `budget` of them. */
    method Apply(plan: map<string, Marker>, order: seq<string>, budget: nat) returns (left: nat)
      requires forall i :: 0 <= i < |order| ==> order[i] in tree
      modifies this
      ensures tree == DoAll(old(tree), Take(Ops(old(tree), plan, order), budget))
    {
      hide DoAll, Do, NodeOps;
      ghost var t := tree;
      var snapshot := tree;
      left := budget;
      Nothing(tree);
      var i := 0;
      while i < |order|
        invariant 0 <= i <= |order| && snapshot == t
        invariant forall j :: 0 <= j < |order| ==> order[j] in t
        invariant tree == DoAll(t, Take(Ops(t, plan, order[..i]), budget))
        invariant left == if budget < |Ops(t, plan, order[..i])| then 0 else budget - |Ops(t, plan, order[..i])|
      {
        assert order[..i + 1] == order[..i] + [order[i]];
        OpsJoin(t, plan, order[..i], [order[i]]);
        assert Ops(t, plan, [order[i]]) == NodeOps(t, plan, order[i]);
        BudgetJoin(t, Ops(t, plan, order[..i]), NodeOps(t, plan, order[i]), budget);
        left := ApplyNode(snapshot, plan, order[i], left);
        i := i + 1;
      }
      assert order[..|order|] == order;
    }

    /** Plan, then apply, on a main channel that a migration of `t0` left in any state:
        never refused, every node identified at whatever step it dies, done if it does not. */
    method MigrateMain(ghost t0: Tree, paths: seq<string>, order: seq<string>, budget: nat) returns (ok: bool)
      requires Nested(t0) && OneLine(t0) && Midway(t0, tree)
      requires Listing(tree, paths) && DeepestFirst(tree, order)
      modifies this
      ensures ok && Midway(t0, tree)
      ensures budget >= |Ops(old(tree), PlanMarkers(old(tree)), order)| ==>
                AllFinished(t0, tree) && forall n :: n in PlanMarkers(old(tree)) ==> Retired(tree, n)
    {
      hide *;
      MidwayAcyclic(t0, tree);
      StaysOneLine(t0, tree);
      OrderIn(tree, order);
      var plan := PlanMainMarkers(tree, paths);
      ghost var s := tree;
      ok := plan.Some?;
      if plan.Some? {
        var _ := Apply(plan.value, order, budget);
        ghost var ops := Ops(s, PlanMarkers(s), order);
        TakeIs(ops, budget);
        assert ops[..|ops|] == ops;
        MainResumes(t0, s, order, if budget < |ops| then budget else |ops|);
      }
    }
  }

  lemma Nothing(t: Tree)
    ensures forall b: nat :: DoAll(t, Take([], b)) == t
  {
  }

  lemma TakeIs(ops: seq<Op>, budget: nat)
    ensures Take(ops, budget) == ops[..if budget < |ops| then budget else |ops|]
  {
  }

  lemma OrderIn(t: Tree, order: seq<string>)
    requires DeepestFirst(t, order)
    ensures forall i :: 0 <= i < |order| ==> order[i] in t
  {
  }

  /** Stopping after `budget` steps of `a + b` is stopping in `a`, or finishing it and
      stopping in `b`. */
  lemma BudgetJoin(t: Tree, a: seq<Op>, b: seq<Op>, budget: nat)
    ensures DoAll(t, Take(a + b, budget)) ==
            DoAll(DoAll(t, Take(a, budget)), Take(b, if budget < |a| then 0 else budget - |a|))
  {
    var rest := if budget < |a| then 0 else budget - |a|;
    assert Take(a + b, budget) == Take(a, budget) + Take(b, rest);
    DoJoin(t, Take(a, budget), Take(b, rest));
  }

  lemma Three(t: Tree, a: Op, b: Op, c: Op, budget: nat)
    ensures DoAll(t, Take([a, b, c], budget)) ==
            DoAll(DoAll(DoAll(t, Take([a], budget)), Take([b], if budget < 1 then 0 else budget - 1)),
                  Take([c], if budget < 2 then 0 else budget - 2))
  {
    assert [a, b, c] == [a] + [b] + [c];
    BudgetJoin(t, [a] + [b], [c], budget);
    BudgetJoin(t, [a], [b], budget);
  }
}
