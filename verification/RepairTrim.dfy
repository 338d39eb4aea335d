/**
 Open-time repair of a related channel: drop the tail that refers past the main
 channel's last record. The walk goes backwards over segment files and over the
 frames of each, truncating or removing files as it goes.
 */
module RepairTrim {
  import opened Basics
  import opened FlatForest
  import opened ForestRuns

  /** A segment file: its base from its name, and its frames. In a headered channel the
      first frame, if there is one, is the header. */
  datatype File = File(base: nat, frames: History)

  function Start(headered: bool, f: File): nat {
    if headered && f.frames != [] then 1 else 0
  }

  function Entries(headered: bool, f: File): History {
    f.frames[Start(headered, f)..]
  }

  function Contents(headered: bool, files: seq<File>): History {
    if files == [] then []
    else Contents(headered, files[..|files| - 1]) + Entries(headered, files[|files| - 1])
  }

  function Cut(headered: bool, f: File, k: nat): File
    requires k <= |Entries(headered, f)|
  {
    f.(frames := f.frames[..Start(headered, f) + k])
  }

  /** What the walk leaves of one file: the file up to its last entry within the limit.
      A file left without entries is removed, unless it holds a header or is the first. */
  function Leave(headered: bool, f: File, limit: nat, first: bool): seq<File> {
    var e := Entries(headered, f);
    var k := AtOrBelow(e, limit);
    if k == |e| then [f]
    else if k > 0 || headered || first then [Cut(headered, f, k)]
    else []
  }

  /** What the walk leaves, newest file first, until it has seen an entry within the limit. */
  function Trimmed(headered: bool, files: seq<File>, limit: nat): seq<File> {
    if files == [] then []
    else
      var f, front := files[|files| - 1], files[..|files| - 1];
      var left := Leave(headered, f, limit, front == []);
      if AtOrBelow(Entries(headered, f), limit) > 0 then front + left else Trimmed(headered, front, limit) + left
  }

  lemma CutEntries(headered: bool, f: File, k: nat)
    requires k <= |Entries(headered, f)|
    ensures Entries(headered, Cut(headered, f, k)) == Take(Entries(headered, f), k)
  {
  }

  lemma AtOrBelowJoin(a: History, b: History, limit: nat)
    ensures AtOrBelow(a + b, limit) ==
              if AtOrBelow(b, limit) > 0 then |a| + AtOrBelow(b, limit) else AtOrBelow(a, limit)
  {
    AtOrBelowIs(a, limit);
    AtOrBelowIs(b, limit);
    hide AtOrBelow;
    AtOrBelowUnique(a + b, limit, if AtOrBelow(b, limit) > 0 then |a| + AtOrBelow(b, limit) else AtOrBelow(a, limit));
  }

  lemma {:induction false} ContentsOne(headered: bool, files: seq<File>, f: File)
    ensures Contents(headered, files + [f]) == Contents(headered, files) + Entries(headered, f)
  {
    assert (files + [f])[..|files|] == files;
  }

  /** One file of the walk: what it does to the files, the contents and the boundary. */
  lemma LastFile(headered: bool, files: seq<File>, limit: nat)
    requires files != []
    ensures var f, front := files[|files| - 1], files[..|files| - 1];
            var e := Entries(headered, f);
            var k := AtOrBelow(e, limit);
            && Contents(headered, files) == Contents(headered, front) + e
            && AtOrBelow(Contents(headered, files), limit) ==
               (if k > 0 then |Contents(headered, front)| + k else AtOrBelow(Contents(headered, front), limit))
            && Trimmed(headered, files, limit) ==
               (if k > 0 then front else Trimmed(headered, front, limit)) + Leave(headered, f, limit, front == [])
  {
    var f, front := files[|files| - 1], files[..|files| - 1];
    AtOrBelowJoin(Contents(headered, front), Entries(headered, f), limit);
    hide AtOrBelow, Leave;
  }

  lemma Shorter(a: History, e: History, k: nat)
    ensures k <= |e| ==> Take(a + e, |a| + k) == a + Take(e, k)
    ensures k <= |a| ==> Take(a + e, k) == Take(a, k)
    ensures Take(e, |e|) == e && Take(e, 0) == [] && a + [] == a
  {
  }

  lemma LeaveContents(headered: bool, files: seq<File>, f: File, limit: nat, first: bool)
    ensures Contents(headered, files + Leave(headered, f, limit, first)) ==
            Contents(headered, files) + Take(Entries(headered, f), AtOrBelow(Entries(headered, f), limit))
  {
    var e := Entries(headered, f);
    var k := AtOrBelow(e, limit);
    Shorter(Contents(headered, files), e, k);
    if k == |e| {
      ContentsOne(headered, files, f);
    } else if k > 0 || headered || first {
      ContentsOne(headered, files, Cut(headered, f, k));
      CutEntries(headered, f, k);
    } else {
      assert files + [] == files;
    }
  }

  lemma NothingLeft(headered: bool, limit: nat)
    ensures Contents(headered, Trimmed(headered, [], limit)) ==
              Take(Contents(headered, []), AtOrBelow(Contents(headered, []), limit))
  {
  }

  /** The repaired channel is the longest prefix whose last record is within the limit. */
  lemma {:induction false} TrimmedContents(headered: bool, files: seq<File>, limit: nat)
    ensures Contents(headered, Trimmed(headered, files, limit)) ==
            Take(Contents(headered, files), AtOrBelow(Contents(headered, files), limit))
    decreases |files|
  {
    hide *;
    if files == [] {
      NothingLeft(headered, limit);
    } else {
      var f, front := files[|files| - 1], files[..|files| - 1];
      var e, before := Entries(headered, f), Contents(headered, front);
      var k := AtOrBelow(e, limit);
      LastFile(headered, files, limit);
      TrimmedContents(headered, front, limit);
      if k > 0 {
        LeaveContents(headered, front, f, limit, front == []);
        Shorter(before, e, k);
      } else {
        LeaveContents(headered, Trimmed(headered, front, limit), f, limit, front == []);
        BelowBound(before, limit);
        Shorter(before, e, AtOrBelow(before, limit));
        Shorter(Contents(headered, Trimmed(headered, front, limit)), e, 0);
      }
    }
  }

  lemma BelowBound(h: History, limit: nat)
    ensures AtOrBelow(h, limit) <= |h|
  {
  }

  /** In key order, that prefix is exactly the records within the limit. */
  lemma TrimmedIsCoherent(headered: bool, files: seq<File>, limit: nat)
    requires Sorted(Contents(headered, files))
    ensures Contents(headered, Trimmed(headered, files, limit)) == KeyedBelow(Contents(headered, files), limit)
  {
    TrimmedContents(headered, files, limit);
    KeyedIsPrefix(Contents(headered, files), limit);
  }

  lemma {:induction false} NothingToTrim(headered: bool, files: seq<File>, limit: nat)
    requires var h := Contents(headered, files); h == [] || h[|h| - 1].key <= limit
    ensures Trimmed(headered, files, limit) == files
  {
    if files != [] {
      var f, front := files[|files| - 1], files[..|files| - 1];
      var e := Entries(headered, f);
      assert files == front + [f];
      if e == [] {
        assert Contents(headered, files) == Contents(headered, front);
        NothingToTrim(headered, front, limit);
      } else {
        assert Contents(headered, files)[|Contents(headered, files)| - 1] == e[|e| - 1];
      }
    }
  }

  /** Repairing a repaired channel changes nothing. */
  lemma TrimIsIdempotent(headered: bool, files: seq<File>, limit: nat)
    ensures var once := Trimmed(headered, files, limit); Trimmed(headered, once, limit) == once
  {
    hide *;
    TrimmedContents(headered, files, limit);
    LastWithin(Contents(headered, files), limit);
    NothingToTrim(headered, Trimmed(headered, files, limit), limit);
  }

  lemma LastWithin(h: History, limit: nat)
    ensures var kept := Take(h, AtOrBelow(h, limit)); kept == [] || kept[|kept| - 1].key <= limit
  {
    AtOrBelowIs(h, limit);
    hide AtOrBelow;
  }

  // ---- the walk itself ----

  class Node {
    var files: seq<File>

    constructor (files: seq<File>)
      ensures this.files == files
    {
      this.files := files;
    }

    /** How many frames of one file stay: back over the entries past the limit. */
    method Keep(headered: bool, f: File, limit: nat) returns (keep: nat)
      ensures keep == Start(headered, f) + AtOrBelow(Entries(headered, f), limit)
    {
      var start := Start(headered, f);
      keep := |f.frames|;
      var j := |f.frames| - 1;
      while j >= start && f.frames[j].key > limit
        invariant start - 1 <= j && keep == j + 1 <= |f.frames|
        invariant forall i :: keep <= i < |f.frames| ==> f.frames[i].key > limit
      {
        keep := j;
        j := j - 1;
      }
      AtOrBelowUnique(Entries(headered, f), limit, keep - start);
    }

    /** Trim the file at `i`; report how many entries went and whether one stayed. */
    method TrimFile(headered: bool, i: nat, limit: nat) returns (dropped: nat, stop: bool)
      requires i < |files|
      modifies this
      ensures var e := Entries(headered, old(files)[i]);
              && files == old(files)[..i] + Leave(headered, old(files)[i], limit, i == 0) + old(files)[i + 1..]
              && dropped == |e| - AtOrBelow(e, limit) && stop == (AtOrBelow(e, limit) > 0)
    {
      hide AtOrBelow;
      var f := files[i];
      var start := Start(headered, f);
      var keep := Keep(headered, f, limit);
      if keep == |f.frames| {
        return 0, |f.frames| > start;
      }
      dropped := |f.frames| - keep;
      if keep == start && !headered && i > 0 {
        files := files[..i] + files[i + 1..];
        return dropped, false;
      }
      files := files[i := f.(frames := f.frames[..keep])];
      return dropped, keep > start;
    }

    /** Backwards over the files until a record within the limit is found. */
    method Trim(headered: bool, mainTail: nat) returns (trimmed: nat)
      modifies this
      ensures var limit := if headered then mainTail + 1 else mainTail;
              && files == Trimmed(headered, old(files), limit)
              && trimmed == |Contents(headered, old(files))| - |Contents(headered, files)|
    {
      hide *;
      ghost var all, front, rest: seq<File> := files, files, [];
      var limit := if headered then mainTail + 1 else mainTail;
      trimmed := 0;
      var i := |files|;
      TrimmedLength(headered, all, limit);
      NoFiles(headered, all, limit);
      while i > 0
        invariant i == |front| && files == front + rest
        invariant Trimmed(headered, all, limit) == Trimmed(headered, front, limit) + rest
        invariant trimmed == |Contents(headered, all)| - |Contents(headered, front)|
        invariant AtOrBelow(Contents(headered, all), limit) == AtOrBelow(Contents(headered, front), limit)
      {
        ghost var f, left := front[i - 1], Leave(headered, front[i - 1], limit, i == 1);
        LastFile(headered, front, limit);
        Split(front, rest);
        var dropped, stop := TrimFile(headered, i - 1, limit);
        trimmed := trimmed + dropped;
        if stop {
          assert front[..i - 1] + left + rest == Trimmed(headered, all, limit);
          return;
        }
        Regroup(front[..i - 1], left, rest);
        Regroup(Trimmed(headered, front[..i - 1], limit), left, rest);
        front, rest := front[..i - 1], left + rest;
        i := i - 1;
      }
      assert front == [] && all[..0] == front;
      assert [] + rest == rest;
    }
  }

  lemma Split(front: seq<File>, rest: seq<File>)
    requires front != []
    ensures (front + rest)[..|front| - 1] == front[..|front| - 1] && (front + rest)[|front| - 1] == front[|front| - 1]
    ensures (front + rest)[|front|..] == rest
  {
  }

  lemma Regroup(a: seq<File>, b: seq<File>, c: seq<File>)
    ensures a + b + c == a + (b + c)
  {
  }

  lemma NoFiles(headered: bool, all: seq<File>, limit: nat)
    ensures Trimmed(headered, all[..0], limit) == [] && Contents(headered, all[..0]) == []
    ensures AtOrBelow(Contents(headered, all[..0]), limit) == 0
    ensures Trimmed(headered, all, limit) + [] == Trimmed(headered, all, limit)
  {
  }

  lemma TrimmedLength(headered: bool, all: seq<File>, limit: nat)
    ensures |Contents(headered, Trimmed(headered, all, limit))| == AtOrBelow(Contents(headered, all), limit)
  {
    TrimmedContents(headered, all, limit);
    BelowBound(Contents(headered, all), limit);
  }

  // ---- numbering across the files ----

  function End(headered: bool, f: File): nat {
    f.base + |Entries(headered, f)|
  }

  /** Each file starts where the one before it ends, and no two have one name. */
  ghost predicate Contiguous(headered: bool, files: seq<File>) {
    |files| >= 2 ==>
      && Contiguous(headered, files[..|files| - 1])
      && files[|files| - 2].base < files[|files| - 1].base == End(headered, files[|files| - 2])
  }

  lemma {:induction false} EndIs(headered: bool, files: seq<File>)
    requires files != [] && Contiguous(headered, files)
    ensures End(headered, files[|files| - 1]) == files[0].base + |Contents(headered, files)|
  {
    if |files| >= 2 {
      EndIs(headered, files[..|files| - 1]);
    } else {
      assert files[..0] == [];
    }
  }

  lemma {:induction false} FirstStays(headered: bool, files: seq<File>, limit: nat)
    requires files != []
    ensures Trimmed(headered, files, limit) != [] && Trimmed(headered, files, limit)[0].base == files[0].base
  {
    hide AtOrBelow, Entries;
    if |files| >= 2 {
      FirstStays(headered, files[..|files| - 1], limit);
    }
  }

  function Dropped(headered: bool, files: seq<File>, limit: nat): nat {
    |Contents(headered, files)| - AtOrBelow(Contents(headered, files), limit)
  }

  /** Numbering survives if nothing is dropped, or if the newest file has entries and,
      in a headered channel, nothing of an older file is dropped with them. */
  predicate Closes(headered: bool, files: seq<File>, limit: nat) {
    || Dropped(headered, files, limit) == 0
    || (files != [] && Entries(headered, files[|files| - 1]) != []
        && (headered ==> Dropped(headered, files, limit) <= |Entries(headered, files[|files| - 1])|))
  }

  lemma NoneDropped(headered: bool, files: seq<File>, limit: nat)
    requires Dropped(headered, files, limit) == 0
    ensures Trimmed(headered, files, limit) == files
  {
    AtOrBelowIs(Contents(headered, files), limit);
    NothingToTrim(headered, files, limit);
  }

  /** A file left behind a shortened one no longer starts where that one ends. */
  lemma GapBehind(headered: bool, front: seq<File>, limit: nat, f: File)
    requires front != [] && Contiguous(headered, front) && f.base == End(headered, front[|front| - 1])
    ensures Contiguous(headered, Trimmed(headered, front, limit) + [f]) ==> Dropped(headered, front, limit) == 0
  {
    var t := Trimmed(headered, front, limit);
    if Contiguous(headered, t + [f]) {
      FirstStays(headered, front, limit);
      assert (t + [f])[..|t|] == t;
      EndIs(headered, t);
      EndIs(headered, front);
      TrimmedLength(headered, front, limit);
    }
  }

  lemma DroppedOne(headered: bool, files: seq<File>, limit: nat)
    requires files != [] && AtOrBelow(Entries(headered, files[|files| - 1]), limit) == 0
    ensures Dropped(headered, files, limit) ==
            |Entries(headered, files[|files| - 1])| + Dropped(headered, files[..|files| - 1], limit)
  {
    LastFile(headered, files, limit);
  }

  lemma Appended(headered: bool, files: seq<File>, f: File)
    requires files != []
    ensures Contiguous(headered, files + [f]) <==>
            Contiguous(headered, files) && files[|files| - 1].base < f.base == End(headered, files[|files| - 1])
  {
    assert (files + [f])[..|files|] == files;
  }

  /** A repaired channel is numbered without gaps exactly in those cases. A trailing file
      without entries stays, and then numbers past the shortened file before it. */
  lemma {:induction false} TrimKeepsNumbering(headered: bool, files: seq<File>, limit: nat)
    requires Contiguous(headered, files)
    ensures Contiguous(headered, Trimmed(headered, files, limit)) <==> Closes(headered, files, limit)
  {
    if Dropped(headered, files, limit) == 0 {
      NoneDropped(headered, files, limit);
    } else if |files| == 1 {
      OneFile(headered, files, limit);
    } else {
      var f, front := files[|files| - 1], files[..|files| - 1];
      var e := Entries(headered, f);
      var k := AtOrBelow(e, limit);
      assert files == front + [f];
      Appended(headered, front, f);
      LastFile(headered, files, limit);
      if k > 0 {
        KeptSome(headered, files, limit);
      } else {
        DroppedOne(headered, files, limit);
        NoneAbove(headered, f, limit);
        if e == [] {
          GapBehind(headered, front, limit, f);
        } else if !headered {
          assert Trimmed(headered, files, limit) == Trimmed(headered, front, limit);
          TrimKeepsNumbering(headered, front, limit);
        } else {
          var cut := Cut(headered, f, 0);
          GapBehind(headered, front, limit, cut);
          if Dropped(headered, front, limit) == 0 {
            NoneDropped(headered, front, limit);
            Appended(headered, front, cut);
          }
        }
      }
    }
  }

  lemma OneFile(headered: bool, files: seq<File>, limit: nat)
    requires |files| == 1 && Dropped(headered, files, limit) > 0
    ensures Contiguous(headered, Trimmed(headered, files, limit)) && Closes(headered, files, limit)
  {
    assert files[..0] == [];
    LastFile(headered, files, limit);
    hide AtOrBelow;
  }

  /** What a file leaves when none of its entries are within the limit. */
  lemma NoneAbove(headered: bool, f: File, limit: nat)
    requires AtOrBelow(Entries(headered, f), limit) == 0
    ensures Leave(headered, f, limit, false) ==
            if Entries(headered, f) == [] then [f] else if headered then [Cut(headered, f, 0)] else []
  {
    hide AtOrBelow;
  }

  lemma KeptSome(headered: bool, files: seq<File>, limit: nat)
    requires |files| >= 2 && Contiguous(headered, files)
    requires AtOrBelow(Entries(headered, files[|files| - 1]), limit) > 0
    ensures Contiguous(headered, Trimmed(headered, files, limit)) && Closes(headered, files, limit)
  {
    var f, front := files[|files| - 1], files[..|files| - 1];
    LastFile(headered, files, limit);
    assert files == front + [f];
    Appended(headered, front, f);
    Appended(headered, front, Leave(headered, f, limit, false)[0]);
  }

  /** The last index of a node: from its newest file with entries, wherever its files begin
      (at 1 for one that has absorbed its prefix), or from where it forks. */
  method NodeMainTail(files: seq<File>, fork: Option<nat>) returns (tail: int)
    requires Contiguous(false, files) && (fork.Some? ==> fork.value >= 1)
    ensures Contents(false, files) == [] ==> tail == (if fork.Some? then fork.value else 1) - 1
    ensures Contents(false, files) != [] ==> files != [] && tail == files[0].base - 1 + |Contents(false, files)|
  {
    var i := |files|;
    ghost var front := files;
    while i > 0
      invariant 0 <= i == |front| <= |files| && front == files[..i] && Contiguous(false, front)
      invariant Contents(false, files) == Contents(false, front)
    {
      assert front[..i - 1] == files[..i - 1];
      if files[i - 1].frames != [] {
        EndIs(false, front);
        return files[i - 1].base + |files[i - 1].frames| - 1;
      }
      assert Contents(false, front) == Contents(false, front[..i - 1]);
      front := front[..i - 1];
      i := i - 1;
    }
    return if fork.Some? then fork.value - 1 else 0;
  }

  // ---- one leaf ----

  function LimitOf(headered: bool, tail: nat): nat {
    if headered then tail + 1 else tail
  }

  lemma {:induction false} BelowMembers(h: History, at: nat)
    ensures forall r :: r in KeyedBelow(h, at) <==> r in h && r.key <= at
  {
    if h != [] {
      BelowMembers(h[..|h| - 1], at);
      assert h == h[..|h| - 1] + [h[|h| - 1]];
    }
  }

  /** In key order, a repaired channel holds all and only the records within the limit. */
  ghost predicate Repaired(headered: bool, before: seq<File>, after: seq<File>, tail: nat) {
    && after == Trimmed(headered, before, LimitOf(headered, tail))
    && (Sorted(Contents(headered, before)) ==>
          && Contents(headered, after) <= Contents(headered, before)
          && forall r :: r in Contents(headered, after) <==>
                         r in Contents(headered, before) && r.key <= LimitOf(headered, tail))
  }

  lemma TrimRepairs(headered: bool, before: seq<File>, tail: nat)
    ensures Repaired(headered, before, Trimmed(headered, before, LimitOf(headered, tail)), tail)
  {
    var limit := LimitOf(headered, tail);
    if Sorted(Contents(headered, before)) {
      TrimmedIsCoherent(headered, before, limit);
      TrimmedContents(headered, before, limit);
      BelowMembers(Contents(headered, before), limit);
      hide Contents, Trimmed, AtOrBelow, KeyedBelow;
    }
  }

  /** Repair one leaf: find the last main index, then trim every other channel to it. */
  method RepairLeaf(main: seq<File>, fork: Option<nat>, headered: seq<bool>, channels: seq<Node>)
    returns (tail: nat)
    requires Contiguous(false, main) && (fork.Some? ==> fork.value >= 1) && |headered| == |channels|
    requires forall i, j :: 0 <= i < j < |channels| ==> channels[i] != channels[j]
    modifies channels
    ensures Contents(false, main) == [] ==> tail == (if fork.Some? then fork.value else 1) - 1
    ensures Contents(false, main) != [] ==> main != [] && tail == main[0].base - 1 + |Contents(false, main)|
    ensures forall i :: 0 <= i < |channels| ==> Repaired(headered[i], old(channels[i].files), channels[i].files, tail)
  {
    hide Repaired, Contents, Trimmed, Contiguous;
    var last := NodeMainTail(main, fork);
    tail := last;
    var i := 0;
    while i < |channels|
      invariant 0 <= i <= |channels|
      invariant forall k :: 0 <= k < i ==> Repaired(headered[k], old(channels[k].files), channels[k].files, tail)
      invariant forall k :: i <= k < |channels| ==> channels[k].files == old(channels[k].files)
    {
      var trimmed := channels[i].Trim(headered[i], tail);
      TrimRepairs(headered[i], old(channels[i].files), tail);
      i := i + 1;
    }
  }

  /** Two records, the second one too new, and a file just opened after them: the repair
      leaves record 1 and a file that starts at 3. */
  lemma TrimLeavesGap(old1: Record, late: Record)
    requires old1.key == 1 && late.key == 2
    ensures var files := [File(1, [old1, late]), File(3, [])];
            && Contiguous(false, files)
            && Trimmed(false, files, 1) == [File(1, [old1]), File(3, [])]
            && !Contiguous(false, Trimmed(false, files, 1))
  {
    var a, b := File(1, [old1, late]), File(3, []);
    var files := [a, b];
    assert files[..1] == [a] && [a][..0] == [];
    assert [old1, late][..1] == [old1] && a.frames[0..] == a.frames;
    assert Contiguous(false, [a]) && Contiguous(false, files);
    assert AtOrBelow([old1, late], 1) == 1;
    LastFile(false, files, 1);
    LastFile(false, [a], 1);
    assert Trimmed(false, [a], 1) == [] + [Cut(false, a, 1)] == [File(1, [old1])];
    TrimKeepsNumbering(false, files, 1);
    DroppedOne(false, files, 1);
    assert Contents(false, [a]) == [] + a.frames == a.frames;
  }
}
