/**
 The whole migration: main channel first, then each related channel, then the
 layout stamp. A store killed after any number of steps, any number of times, is
 accepted again, keeps its lineage, and finishes the way an uninterrupted run does.
 */
module FlattenStore {
  import opened Basics
  import opened Flatten

  const LAYOUT := 4

  datatype Store = Store(main: Tree, others: seq<Tree>, layout: nat)

  /** The order in which one run visits each channel's nodes. */
  datatype Orders = Orders(main: seq<string>, others: seq<seq<string>>)

  ghost predicate AllBased(t: Tree) {
    forall n :: n in t ==> t[n].based
  }

  /** No node of a related channel is nested under anything but its main-channel parent. */
  ghost predicate Agrees(main: Tree, t: Tree) {
    forall n :: n in t && n in main && |t[n].path| > 1 ==> ParentLeaf(t[n].path) == ParentOf(main, n)
  }

  /** Planning refuses none of this. */
  ghost predicate Accepted(s: Store) {
    && OneLine(s.main) && AllBased(s.main)
    && forall i :: 0 <= i < |s.others| ==> AllBased(s.others[i]) && Agrees(s.main, s.others[i])
  }

  /** A store in the nested layout, untouched by any migration. */
  ghost predicate Original(s: Store) {
    && Nested(s.main) && s.layout < LAYOUT
    && forall i :: 0 <= i < |s.others| ==> Nested(s.others[i]) && Bare(s.others[i])
  }

  ghost predicate OrdersFor(s: Store, o: Orders) {
    && DeepestFirst(s.main, o.main) && |o.others| == |s.others|
    && forall i :: 0 <= i < |s.others| ==> DeepestFirst(s.others[i], o.others[i])
  }

  ghost function MainOps(s: Store, o: Orders): seq<Op>
    requires OrdersFor(s, o)
  {
    Ops(s.main, PlanMarkers(s.main), o.main)
  }

  ghost function OtherOps(t: Tree, order: seq<string>): seq<Op>
    requires DeepestFirst(t, order)
  {
    Ops(t, map[], order)
  }

  /** The related channels from the `i`th on, and the stamp, killed after `k` steps. */
  ghost function KilledOthers(s: Store, o: Orders, i: nat, k: nat): Store
    requires |o.others| == |s.others| && forall j :: i <= j < |s.others| ==> DeepestFirst(s.others[j], o.others[j])
    decreases |s.others| - i
  {
    if i >= |s.others| then if k == 0 then s else s.(layout := LAYOUT)
    else
      var ops := OtherOps(s.others[i], o.others[i]);
      if k < |ops| then s.(others := s.others[i := DoAll(s.others[i], ops[..k])])
      else KilledOthers(s.(others := s.others[i := DoAll(s.others[i], ops)]), o, i + 1, k - |ops|)
  }

  /** One run, killed after `k` file-system steps. */
  ghost function Killed(s: Store, o: Orders, k: nat): Store
    requires OrdersFor(s, o)
  {
    var ops := MainOps(s, o);
    if k < |ops| then s.(main := DoAll(s.main, ops[..k]))
    else KilledOthers(s.(main := DoAll(s.main, ops)), o, 0, k - |ops|)
  }

  ghost predicate OthersOk(s0: Store, s: Store) {
    && |s.others| == |s0.others|
    && forall i :: 0 <= i < |s.others| ==> Placed(s0.others[i], s.others[i]) && Bare(s.others[i])
  }

  ghost predicate Complete(s0: Store, s: Store) {
    && AllFinished(s0.main, s.main) && |s.others| == |s0.others| && s.layout == LAYOUT
    && forall i :: 0 <= i < |s.others| ==> AllFlat(s0.others[i], s.others[i])
  }

  /** The stamp is there exactly when everything else is. */
  ghost predicate Resumable(s0: Store, s: Store) {
    && Midway(s0.main, s.main) && OthersOk(s0, s)
    && (s.layout == s0.layout || Complete(s0, s))
  }

  lemma AcceptedAgain(s0: Store, s: Store)
    requires Original(s0) && Accepted(s0) && Resumable(s0, s)
    ensures Accepted(s)
  {
    StaysOneLine(s0.main, s.main);
    SameNodes(s0.main, s.main);
    forall n | n in s.main ensures s.main[n].based {
      assert Stays(s0.main[n], s.main[n], n);
    }
    forall i | 0 <= i < |s.others| ensures AllBased(s.others[i]) && Agrees(s.main, s.others[i]) {
      OtherAccepted(s0.main, s.main, s0.others[i], s.others[i]);
    }
  }

  lemma OtherAccepted(main0: Tree, main: Tree, t0: Tree, t: Tree)
    requires Nested(main0) && Midway(main0, main) && Placed(t0, t) && AllBased(t0) && Agrees(main0, t0)
    ensures AllBased(t) && Agrees(main, t)
  {
    SameNodes(main0, main);
    forall n | n in t
      ensures t[n].based && (n in main && |t[n].path| > 1 ==> ParentLeaf(t[n].path) == ParentOf(main, n))
    {
      assert Stays(t0[n], t[n], n);
      if n in main {
        ParentKept(main0, main, n);
      }
    }
  }

  // ---- a finished store plans nothing ----

  lemma {:induction false} NoWork(t: Tree, plan: map<string, Marker>, order: seq<string>)
    requires forall i :: 0 <= i < |order| ==> order[i] in t && order[i] !in plan && |t[order[i]].path| == 1
    ensures Ops(t, plan, order) == []
    decreases |order|
  {
    if order != [] {
      NoWork(t, plan, order[1..]);
    }
  }

  lemma FinishedPlansNothing(t0: Tree, t: Tree, order: seq<string>)
    requires Nested(t0) && OneLine(t0) && Midway(t0, t) && AllFinished(t0, t) && DeepestFirst(t, order)
    ensures PlanMarkers(t) == map[] && Ops(t, PlanMarkers(t), order) == []
  {
    forall n | n in t ensures n !in PlanMarkers(t) && |t[n].path| == 1 {
      assert Finished(t0, t, n);
      if Outranked(t, n) {
        OutrankedBefore(t0, t, n);
      }
    }
    NoWork(t, PlanMarkers(t), order);
  }

  // ---- cuts ----

  ghost function OthersSteps(others: seq<Tree>, orders: seq<seq<string>>, i: nat): nat
    requires |orders| == |others| && forall j :: i <= j < |others| ==> DeepestFirst(others[j], orders[j])
    decreases |others| - i
  {
    if i >= |others| then 1 else |OtherOps(others[i], orders[i])| + OthersSteps(others, orders, i + 1)
  }

  /** How many steps a whole run takes: every main-channel step, every move, the stamp. */
  ghost function Steps(s: Store, o: Orders): nat
    requires OrdersFor(s, o)
  {
    |MainOps(s, o)| + OthersSteps(s.others, o.others, 0)
  }

  lemma {:induction false} StepsUnaffected(others: seq<Tree>, orders: seq<seq<string>>, i: nat, at: nat, t: Tree)
    requires |orders| == |others| && at < i && at < |others|
    requires forall j :: i <= j < |others| ==> DeepestFirst(others[j], orders[j])
    ensures OthersSteps(others[at := t], orders, i) == OthersSteps(others, orders, i)
    decreases |others| - i
  {
    hide DeepestFirst, OtherOps;
    if i < |others| {
      StepsUnaffected(others, orders, i + 1, at, t);
    }
  }

  ghost predicate OthersFrom(s0: Store, s: Store, o: Orders, i: nat) {
    && AllFinished(s0.main, s.main) && Midway(s0.main, s.main) && OthersOk(s0, s) && |o.others| == |s.others|
    && (forall j :: 0 <= j < i && j < |s.others| ==> AllFlat(s0.others[j], s.others[j]))
    && (forall j :: i <= j < |s.others| ==> DeepestFirst(s.others[j], o.others[j]))
  }

  lemma FromFacts(s0: Store, s: Store, o: Orders, i: nat)
    requires OthersFrom(s0, s, o, i)
    ensures |s.others| == |s0.others| == |o.others|
    ensures forall j :: i <= j < |s.others| ==> DeepestFirst(s.others[j], o.others[j])
    ensures i < |s.others| ==> Placed(s0.others[i], s.others[i]) && Bare(s.others[i])
  {
  }

  lemma OriginalOther(s0: Store, i: nat)
    requires Original(s0) && i < |s0.others|
    ensures Nested(s0.others[i]) && Bare(s0.others[i])
  {
  }

  /** Replacing one related channel by a state of its own migration. */
  lemma OtherCut(s0: Store, s: Store, o: Orders, i: nat, t: Tree)
    requires OthersFrom(s0, s, o, i) && i < |s.others| && s.layout == s0.layout
    requires Placed(s0.others[i], t) && Bare(t)
    ensures Resumable(s0, s.(others := s.others[i := t]))
  {
    hide Placed, Bare, AllFlat, Midway, AllFinished, DeepestFirst;
  }

  lemma OtherWhole(s0: Store, s: Store, o: Orders, i: nat, t: Tree)
    requires OthersFrom(s0, s, o, i) && i < |s.others| && (s.layout == s0.layout || Complete(s0, s))
    requires Placed(s0.others[i], t) && Bare(t) && AllFlat(s0.others[i], t)
    ensures var s' := s.(others := s.others[i := t]);
            OthersFrom(s0, s', o, i + 1) && (s'.layout == s0.layout || Complete(s0, s'))
  {
    hide Placed, Bare, AllFlat, Midway, AllFinished, DeepestFirst;
  }

  lemma OthersDone(s0: Store, s: Store, o: Orders, k: nat)
    requires OthersFrom(s0, s, o, |s.others|) && (s.layout == s0.layout || Complete(s0, s))
    ensures Resumable(s0, KilledOthers(s, o, |s.others|, k))
    ensures k >= 1 ==> Complete(s0, KilledOthers(s, o, |s.others|, k))
  {
    hide Placed, Bare, AllFlat, Midway, AllFinished, DeepestFirst;
  }

  lemma FlatStays(s0: Store, s: Store, o: Orders, i: nat)
    requires OthersFrom(s0, s, o, i) && i < |s.others| && Complete(s0, s)
    ensures OtherOps(s.others[i], o.others[i]) == []
  {
    NoWork(s.others[i], map[], o.others[i]);
  }

  lemma KilledAt(s: Store, o: Orders, i: nat, k: nat)
    requires |o.others| == |s.others| && i < |s.others|
    requires forall j :: i <= j < |s.others| ==> DeepestFirst(s.others[j], o.others[j])
    ensures var ops := OtherOps(s.others[i], o.others[i]);
            && OthersSteps(s.others, o.others, i) == |ops| + OthersSteps(s.others, o.others, i + 1)
            && KilledOthers(s, o, i, k) ==
               if k < |ops| then s.(others := s.others[i := DoAll(s.others[i], ops[..k])])
               else KilledOthers(s.(others := s.others[i := DoAll(s.others[i], ops)]), o, i + 1, k - |ops|)
  {
    hide DeepestFirst, DoAll;
  }

  lemma {:induction false} OthersKilled(s0: Store, s: Store, o: Orders, i: nat, k: nat)
    requires Original(s0) && OthersFrom(s0, s, o, i) && i <= |s.others|
    requires s.layout == s0.layout || Complete(s0, s)
    ensures |o.others| == |s.others| && forall j :: i <= j < |s.others| ==> DeepestFirst(s.others[j], o.others[j])
    ensures Resumable(s0, KilledOthers(s, o, i, k))
    ensures k >= OthersSteps(s.others, o.others, i) ==> Complete(s0, KilledOthers(s, o, i, k))
    decreases |s.others| - i
  {
    hide *;
    FromFacts(s0, s, o, i);
    if i == |s.others| {
      OthersDone(s0, s, o, k);
      LastStep(s.others, o.others);
    } else {
      var t0, t, order := s0.others[i], s.others[i], o.others[i];
      OriginalOther(s0, i);
      KilledAt(s, o, i, k);
      OtherOpsAre(t, order);
      var ops := OtherOps(t, order);
      if k < |ops| {
        OtherResumes(t0, t, order, k);
        if Complete(s0, s) {
          FlatStays(s0, s, o, i);
        }
        OtherCut(s0, s, o, i, DoAll(t, ops[..k]));
      } else {
        OtherResumes(t0, t, order, |ops|);
        assert ops[..|ops|] == ops;
        OtherWhole(s0, s, o, i, DoAll(t, ops));
        OthersKilled(s0, s.(others := s.others[i := DoAll(t, ops)]), o, i + 1, k - |ops|);
        StepsUnaffected(s.others, o.others, i + 1, i, DoAll(t, ops));
      }
    }
  }

  lemma LastStep(others: seq<Tree>, orders: seq<seq<string>>)
    requires |orders| == |others|
    ensures OthersSteps(others, orders, |others|) == 1
  {
  }

  lemma OtherOpsAre(t: Tree, order: seq<string>)
    requires DeepestFirst(t, order)
    ensures OtherOps(t, order) == Ops(t, map[], order)
  {
  }

  lemma MainCut(s0: Store, s: Store, t: Tree)
    requires Resumable(s0, s) && s.layout == s0.layout && Midway(s0.main, t)
    ensures Resumable(s0, s.(main := t))
  {
    hide Midway, Placed, Bare;
  }

  lemma MainWhole(s0: Store, s: Store, o: Orders, t: Tree)
    requires Resumable(s0, s) && OrdersFor(s, o) && Midway(s0.main, t) && AllFinished(s0.main, t)
    ensures var s' := s.(main := t);
            OthersFrom(s0, s', o, 0) && (s'.layout == s0.layout || Complete(s0, s'))
  {
    hide Midway, AllFinished, DeepestFirst;
  }

  lemma OrderFacts(s: Store, o: Orders)
    requires OrdersFor(s, o)
    ensures DeepestFirst(s.main, o.main) && |o.others| == |s.others|
    ensures forall i :: 0 <= i < |s.others| ==> DeepestFirst(s.others[i], o.others[i])
    ensures MainOps(s, o) == Ops(s.main, PlanMarkers(s.main), o.main)
  {
  }

  lemma ResumeFacts(s0: Store, s: Store)
    requires Original(s0) && Resumable(s0, s)
    ensures Nested(s0.main) && Midway(s0.main, s.main)
    ensures s.layout == s0.layout || (Complete(s0, s) && AllFinished(s0.main, s.main))
  {
  }

  lemma KilledIs(s: Store, o: Orders, k: nat)
    requires OrdersFor(s, o)
    ensures |o.others| == |s.others| && forall i :: 0 <= i < |s.others| ==> DeepestFirst(s.others[i], o.others[i])
    ensures Steps(s, o) == |MainOps(s, o)| + OthersSteps(s.others, o.others, 0)
    ensures Killed(s, o, k) ==
            var ops := MainOps(s, o);
            if k < |ops| then s.(main := DoAll(s.main, ops[..k]))
            else KilledOthers(s.(main := DoAll(s.main, ops)), o, 0, k - |ops|)
  {
    hide DoAll, MainOps, DeepestFirst;
  }

  /** One run, killed anywhere. */
  lemma KilledResumable(s0: Store, s: Store, o: Orders, k: nat)
    requires Original(s0) && OneLine(s0.main) && Resumable(s0, s) && OrdersFor(s, o)
    ensures Resumable(s0, Killed(s, o, k))
    ensures k >= Steps(s, o) ==> Complete(s0, Killed(s, o, k))
  {
    hide *;
    OrderFacts(s, o);
    ResumeFacts(s0, s);
    KilledIs(s, o, k);
    var ops := MainOps(s, o);
    if k < |ops| {
      MainResumes(s0.main, s.main, o.main, k);
      if s.layout != s0.layout {
        FinishedPlansNothing(s0.main, s.main, o.main);
      }
      MainCut(s0, s, DoAll(s.main, ops[..k]));
    } else {
      MainResumes(s0.main, s.main, o.main, |ops|);
      assert ops[..|ops|] == ops;
      MainWhole(s0, s, o, DoAll(s.main, ops));
      OthersKilled(s0, s.(main := DoAll(s.main, ops)), o, 0, k - |ops|);
    }
  }

  // ---- any number of interrupted runs ----

  datatype Run = Run(orders: Orders, steps: nat)

  ghost predicate RunsOk(s0: Store, runs: seq<Run>) {
    runs != [] ==>
      RunsOk(s0, runs[..|runs| - 1]) && OrdersFor(After(s0, runs[..|runs| - 1]), runs[|runs| - 1].orders)
  }

  /** The store after a sequence of runs, each killed where it was killed. */
  ghost function After(s0: Store, runs: seq<Run>): Store {
    if runs == [] then s0
    else
      var before, last := After(s0, runs[..|runs| - 1]), runs[|runs| - 1];
      if OrdersFor(before, last.orders) then Killed(before, last.orders, last.steps) else before
  }

  lemma {:induction false} RunsResumable(s0: Store, runs: seq<Run>)
    requires Original(s0) && OneLine(s0.main) && RunsOk(s0, runs)
    ensures Resumable(s0, After(s0, runs))
    decreases |runs|
  {
    if runs == [] {
      StartsMidway(s0.main);
    } else {
      var front, last := runs[..|runs| - 1], runs[|runs| - 1];
      RunsResumable(s0, front);
      hide Original, OneLine, Resumable, OrdersFor, Killed;
      KilledResumable(s0, After(s0, front), last.orders, last.steps);
    }
  }

  /** Flatten resumes from any interrupted state: after any runs of a store planning
      accepted, planning accepts again, every node still has its parent, and a run
      that is not killed completes the migration. */
  lemma FlattenResumes(s0: Store, runs: seq<Run>, n: string, o: Orders, k: nat)
    requires Original(s0) && Accepted(s0) && RunsOk(s0, runs) && n in s0.main
    requires OrdersFor(After(s0, runs), o) && k >= Steps(After(s0, runs), o)
    ensures var s := After(s0, runs);
            && Accepted(s)
            && n in s.main && ParentOf(s.main, n) == ParentOf(s0.main, n)
            && Complete(s0, Killed(s, o, k)) && Killed(s, o, k).layout == 4
  {
    var s := After(s0, runs);
    RunsResumable(s0, runs);
    AcceptedAgain(s0, s);
    SameNodes(s0.main, s.main);
    ParentKept(s0.main, s.main, n);
    hide After, RunsOk, Killed, Steps;
    KilledResumable(s0, s, o, k);
  }

  /** Completion is unique: what an interrupted migration ends with is what an
      uninterrupted one ends with, node by node. */
  lemma OneOutcome(s0: Store, a: Store, b: Store, n: string)
    requires Complete(s0, a) && Complete(s0, b) && n in s0.main
    ensures a.main.Keys == b.main.Keys == s0.main.Keys
    ensures a.main[n].path == b.main[n].path == [n] && a.main[n].marker == b.main[n].marker
    ensures a.main[n].marker.Some? && ParentOf(a.main, n) == a.main[n].marker.value.from == Derived(s0.main[n]).from
    ensures forall i, m :: 0 <= i < |s0.others| && m in s0.others[i] ==>
              m in a.others[i] && m in b.others[i] && a.others[i][m].path == b.others[i][m].path == [m]
  {
    assert Finished(s0.main, a.main, n) && Finished(s0.main, b.main, n);
  }

  /** A directory below another whose trunk file holds the same id. */
  ghost predicate Superseded(t: Tree, n: string) {
    exists b :: b in t && n in t && b != n && t[b].trunkFile == t[n].trunkFile && t[n].path <= t[b].path
  }

  lemma SupersededIs(t: Tree, n: string)
    requires Nested(t) && n in t && t[n].trunkFile.Some? && t[n].trunkFile.value != ""
    ensures Superseded(t, n) <==> Outranked(t, n)
  {
    if Superseded(t, n) {
      var b :| b in t && b != n && t[b].trunkFile == t[n].trunkFile && t[n].path <= t[b].path;
      BelowIs(t, n, b);
      assert Rivals(t, n, b);
    }
    if Outranked(t, n) {
      var b :| Rivals(t, n, b) && Ancestor(t, n, b);
      BelowIs(t, n, b);
      assert t[b].trunkFile == t[n].trunkFile;
    }
  }

  /** In a nested tree, being an ancestor is being a directory above. */
  lemma BelowIs(t: Tree, a: string, d: string)
    requires Nested(t) && a in t && d in t && a != d
    ensures Ancestor(t, a, d) <==> t[a].path <= t[d].path
  {
    AncestorIsOnPath(t, a, d);
    assert InPlace(t, a) && InPlace(t, d);
    var p, q := t[a].path, t[d].path;
    if p <= q {
      assert q[|p| - 1] == p[|p| - 1] == a;
    }
    if i :| 0 <= i < |q| - 1 && q[i] == a {
      assert t[q[i]].path == q[..i + 1];
    }
  }

  /** What every node of a nested store is after the migration, from the files of its
      directory: its parent is the directory above it; it is a conversation exactly if its
      trunk file was there and not empty, and a loadout otherwise; it carries that trunk
      unless a directory below it holds the same one. Who gives up a trunk stays a
      conversation. */
  lemma MigratedMarker(s0: Store, s: Store, n: string)
    requires Original(s0) && Complete(s0, s) && n in s0.main
    ensures n in s.main && s.main[n].marker.Some?
    ensures var d, m := s0.main[n], s.main[n].marker.value;
            && (m.from == if |d.path| <= 1 then "" else d.path[|d.path| - 2])
            && (m.kind == if d.trunkFile.Some? && d.trunkFile.value != "" then "conversation" else "loadout")
            && (m.trunk == if d.trunkFile.Some? && !Superseded(s0.main, n) then d.trunkFile.value else "")
  {
    var t0, d := s0.main, s0.main[n];
    assert Finished(t0, s.main, n);
    DerivedIs(d, Derived(d));
    if d.trunkFile.Some? && d.trunkFile.value != "" {
      SupersededIs(t0, n);
    }
  }

  /** Each trunk ends with exactly one carrier, the deepest node that claimed it. */
  lemma OneCarrier(s0: Store, s: Store, n: string) returns (h: string)
    requires Original(s0) && OneLine(s0.main) && Complete(s0, s)
    requires n in s0.main && Claim(s0.main[n]) != ""
    ensures h in s.main && Claim(s.main[h]) == Claim(s0.main[n])
    ensures forall m :: m in s.main && Claim(s.main[m]) == Claim(s0.main[n]) ==> m == h
    ensures forall m :: m in s0.main && Claim(s0.main[m]) == Claim(s0.main[n]) && m != h ==>
              Ancestor(s0.main, m, h) && |s0.main[m].path| < |s0.main[h].path|
  {
    var t0, trunk := s0.main, Claim(s0.main[n]);
    h := HeadOf(t0, n);
    assert Finished(t0, s.main, h);
    forall m | m in s.main && Claim(s.main[m]) == trunk ensures m == h {
      assert Finished(t0, s.main, m);
      assert Head(t0, m);
      HeadUnique(t0, m, h);
    }
    forall m | m in t0 && Claim(t0[m]) == trunk && m != h
      ensures Ancestor(t0, m, h) && |t0[m].path| < |t0[h].path|
    {
      var g := HeadOf(t0, m);
      HeadUnique(t0, g, h);
      AncestorIsShallower(t0, m, h);
    }
  }

  /** Running Flatten on a finished store does nothing. */
  lemma FlattenOnce(s0: Store, s: Store, o: Orders)
    requires Original(s0) && OneLine(s0.main) && Resumable(s0, s) && Complete(s0, s) && OrdersFor(s, o)
    ensures MainOps(s, o) == [] && forall i :: 0 <= i < |s.others| ==> OtherOps(s.others[i], o.others[i]) == []
  {
    FinishedPlansNothing(s0.main, s.main, o.main);
    forall i | 0 <= i < |s.others| ensures OtherOps(s.others[i], o.others[i]) == [] {
      NoWork(s.others[i], map[], o.others[i]);
    }
  }
}
