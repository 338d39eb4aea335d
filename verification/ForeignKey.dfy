/**
 The foreign-key view of a keyed channel. The index is built lazily from the tail, as
 far back as lookups have needed, and appends extend it; a lookup must answer as if
 the whole channel had been searched. A read can fail in the middle of a scan.
 */
module ForeignKey {
  import opened Basics
  import opened FlatForest

  /** The last record keyed `m`: search everything, newest first. */
  function Naive(h: History, m: nat): (r: Option<nat>)
    ensures r.Some? ==> 1 <= r.value <= |h| && h[r.value - 1].key == m
    ensures r.Some? ==> forall i :: r.value <= i < |h| ==> h[i].key != m
    ensures r.None? ==> forall i :: 0 <= i < |h| ==> h[i].key != m
  {
    if h == [] then None
    else if h[|h| - 1].key == m then Some(|h|)
    else Naive(h[..|h| - 1], m)
  }

  lemma NaiveIs(h: History, m: nat, i: nat)
    requires 1 <= i <= |h| && h[i - 1].key == m && forall j :: i <= j < |h| ==> h[j].key != m
    ensures Naive(h, m) == Some(i)
  {
  }

  lemma NaiveNone(h: History, m: nat)
    requires forall j :: 0 <= j < |h| ==> h[j].key != m
    ensures Naive(h, m) == None
  {
  }

  datatype Answer = Found(lt: nat) | Absent | Failed

  function Reply(r: Option<nat>): Answer {
    if r.Some? then Found(r.value) else Absent
  }

  /** Every entry of the index is the last record of its key. */
  ghost predicate Exact(h: History, fk: map<nat, nat>) {
    forall m :: m in fk ==> Naive(h, m) == Some(fk[m])
  }

  /** Every key used after position `next` is in the index. */
  ghost predicate Covers(h: History, fk: map<nat, nat>, next: nat) {
    forall i :: next <= i < |h| ==> h[i].key in fk
  }

  lemma ExactOne(h: History, fk: map<nat, nat>, i: nat)
    requires Exact(h, fk) && 1 <= i <= |h| && h[i - 1].key !in fk && Covers(h, fk, i)
    ensures Exact(h, fk[h[i - 1].key := i])
  {
    NaiveIs(h, h[i - 1].key, i);
  }

  lemma ExactAppend(h: History, fk: map<nat, nat>, r: Record)
    requires Exact(h, fk)
    ensures Exact(h + [r], fk[r.key := |h| + 1])
  {
    var g := h + [r];
    assert g[..|g| - 1] == h;
  }

  lemma Extended(h: History, fk: map<nat, nat>, r: Record, next: nat)
    requires Exact(h, fk)
    ensures Exact(h + [r], fk[r.key := |h| + 1]) && Exact(h + [r], map[])
    ensures Covers(h, fk, next) ==> Covers(h + [r], fk[r.key := |h| + 1], next)
  {
    ExactAppend(h, fk, r);
  }

  /** Nothing below the floor's position can carry a key above it. */
  lemma AboveFloor(h: History, fk: map<nat, nat>, next: nat, m: nat)
    requires Sorted(h) && Covers(h, fk, next) && next < |h| && h[next].key <= m && m !in fk
    ensures Naive(h, m) == None
  {
    forall i | 0 <= i < |h| ensures h[i].key != m {
      if i < next {
        assert h[i].key <= h[next].key;
        assert h[next].key in fk;
      }
    }
    NaiveNone(h, m);
  }

  class Channel {
    var log: History
    var fk: map<nat, nat>
    var fkBuilt: bool
    var fkNext: nat
    var fkFloor: nat
    var fkScan: bool

    ghost predicate Valid()
      reads this
    {
      && Sorted(log) && Exact(log, fk)
      && (!fkScan && !fkBuilt ==> fk == map[])
      && (fkBuilt ==> Covers(log, fk, 0))
      && (fkScan && !fkBuilt ==> Covers(log, fk, fkNext) && (Floored() || fkFloor == 0))
      && (!fkScan ==> fkFloor == 0)
    }

    /** The floor is the key of the lowest indexed record, as long as one was indexed. */
    ghost predicate Floored()
      reads this
    {
      fkScan && !fkBuilt ==> fkNext < |log| && fkFloor == log[fkNext].key
    }

    constructor (log: History)
      requires Sorted(log)
      ensures Valid() && Floored() && this.log == log && !fkScan && !fkBuilt
    {
      this.log, fk, fkBuilt, fkNext, fkFloor, fkScan := log, map[], false, 0, 0, false;
    }

    /** Append one record, keyed at or above the last one. */
    method Append(r: Record) returns (ok: bool)
      requires Valid()
      modifies this
      ensures Valid() && (old(Floored()) ==> Floored())
      ensures ok == (old(log) == [] || old(log)[|old(log)| - 1].key <= r.key)
      ensures log == if ok then old(log) + [r] else old(log)
    {
      hide Sorted, Exact, Covers;
      if log != [] && r.key < log[|log| - 1].key {
        return false;
      }
      SortedGrows(log, r);
      Extended(log, fk, r, if fkBuilt then 0 else fkNext);
      if fkScan || fkBuilt {
        fk := fk[r.key := |log| + 1];
      }
      log := log + [r];
      return true;
    }

    /** The first scan fails before it has indexed anything. */
    ghost predicate Spoils(budget: nat)
      reads this
    {
      !fkScan && !fkBuilt && log != [] && budget == 0
    }

    /** Search for `m`, reading at most `budget` records before a read fails. Answers
        like the whole search unless it fails. Failing is harmless too, except for a
        first scan that fails at once: that leaves the floor unset. */
    method Lookup(m: nat, budget: nat) returns (r: Answer)
      requires Valid()
      modifies this
      ensures Valid() && log == old(log)
      ensures old(Floored()) ==> r == Failed || r == Reply(Naive(log, m))
      ensures old(Floored()) ==> (Floored() <==> !old(Spoils(budget)))
      ensures budget >= |log| || (old(fkScan) && 0 < old(fkNext) <= budget) ==> r != Failed
      ensures forall k :: k in old(fk) ==> k in fk && fk[k] == old(fk)[k]
      ensures old(Spoils(budget)) ==> r == Failed && fk == map[] && fkScan && !fkBuilt && fkFloor == 0
      ensures old(fkScan && !fkBuilt && fkFloor == 0) ==>
                fk == old(fk) && r == if m in fk then Found(fk[m]) else Absent
    {
      hide Sorted, Covers;
      if m in fk {
        return Found(fk[m]);
      }
      if fkBuilt {
        NaiveNoneCovered(log, fk, m);
        return Absent;
      }
      if fkScan && m >= fkFloor {
        if fkNext < |log| && fkFloor == log[fkNext].key {
          AboveFloor(log, fk, fkNext, m);
        }
        return Absent;
      }
      if !fkScan {
        fkNext := |log|;
        fkScan := true;
        NothingAbove(log, fk);
      }
      r := Scan(m, budget);
    }

    /** The backward scan from the lowest position not yet indexed, or from the tail. */
    method Scan(m: nat, budget: nat) returns (r: Answer)
      requires Valid() && fkScan && !fkBuilt && m !in fk
      requires if fkNext == |log| then fkFloor == 0 else fkNext < |log| && fkFloor == log[fkNext].key && fkFloor > m
      modifies this
      ensures Valid() && log == old(log) && fkScan
      ensures r == Failed || r == Reply(Naive(log, m))
      ensures Floored() <==> !(old(fkNext) == |log| && log != [] && budget == 0)
      ensures budget >= |log| || (0 < old(fkNext) <= budget) ==> r != Failed
      ensures forall k :: k in old(fk) ==> k in fk && fk[k] == old(fk)[k]
      ensures old(fkNext) == |log| && log != [] && budget == 0 ==>
                r == Failed && fk == old(fk) && !fkBuilt && fkFloor == 0
    {
      hide Sorted, Exact;
      var left := budget;
      var idx := if fkNext == 0 || fkNext > |log| then |log| else fkNext;
      ghost var from := idx;
      assert Covers(log, fk, idx);
      var stopped := false;
      while idx > 0 && !stopped
        invariant log == old(log) && fkScan && !fkBuilt && 0 <= idx <= from <= |log| && (idx == from ==> fk == old(fk))
        invariant Exact(log, fk) && Sorted(log) && Covers(log, fk, fkNext) && Covers(log, fk, idx)
        invariant forall i :: idx <= i < from && !stopped ==> log[i].key > m
        invariant idx == from ==> fkNext == old(fkNext) && fkFloor == old(fkFloor) && left == budget && !stopped
        invariant idx < from ==> fkNext == idx && fkFloor == log[idx].key && (stopped <==> log[idx].key <= m)
        invariant left == budget - (from - idx)
        invariant forall k :: k in old(fk) ==> k in fk && fk[k] == old(fk)[k]
      {
        if left == 0 {
          return Failed;
        }
        left := left - 1;
        var key := log[idx - 1].key;
        if key !in fk {
          ExactOne(log, fk, idx);
          fk := fk[key := idx];
        }
        fkFloor := key;
        fkNext := idx - 1;
        idx := idx - 1;
        if key <= m {
          stopped := true;
        }
      }
      if !stopped {
        fkBuilt := true;
      }
      Settled(log, fk, idx, m, stopped);
      return if m in fk then Found(fk[m]) else Absent;
    }
  }

  lemma NothingAbove(h: History, fk: map<nat, nat>)
    ensures Covers(h, fk, |h|)
  {
  }

  lemma NaiveNoneCovered(h: History, fk: map<nat, nat>, m: nat)
    requires Covers(h, fk, 0) && m !in fk
    ensures Naive(h, m) == None
  {
    NaiveNone(h, m);
  }

  lemma Settled(h: History, fk: map<nat, nat>, next: nat, m: nat, stopped: bool)
    requires Sorted(h) && Exact(h, fk) && Covers(h, fk, next)
    requires if stopped then next < |h| && h[next].key <= m else next == 0
    ensures if m in fk then Naive(h, m) == Some(fk[m]) else Naive(h, m) == None
  {
    if m !in fk {
      if stopped {
        AboveFloor(h, fk, next, m);
      } else {
        NaiveNoneCovered(h, fk, m);
      }
    }
  }

  /** A first scan that fails at once hides every record there was: whatever is looked
      up afterwards, and however much can be read, the answer is that there is none. */
  method SpoiledChannel(log: History, m: nat, n: nat, budget: nat) returns (c: Channel, first: Answer, later: Answer)
    requires Sorted(log) && log != []
    ensures fresh(c) && c.log == log && first == Failed && later == Absent
  {
    c := new Channel(log);
    first := c.Lookup(m, 0);
    later := c.Lookup(n, budget);
  }

  // ---- the records of a range of main ----

  function Numbered(h: History, from: nat): seq<(nat, Record)> {
    if h == [] then []
    else
      var front := Numbered(h[..|h| - 1], from);
      if h[|h| - 1].key >= from then front + [(|h|, h[|h| - 1])] else front
  }

  /** The records keyed at or above `from`, in order, at most `limit` of them unless
      `limit` is 0. */
  function Wanted(h: History, from: nat, limit: nat): seq<(nat, Record)> {
    if limit == 0 then Numbered(h, from) else Take(Numbered(h, from), limit)
  }

  lemma {:induction false} NumberedBelow(h: History, from: nat, first: nat, k: nat)
    requires first <= k <= |h| && forall i :: 0 <= i < first ==> h[i].key < from
    ensures |Numbered(h[..k], from)| <= k - first
    ensures k == first ==> Numbered(h[..k], from) == []
    decreases k
  {
    if k > 0 {
      assert h[..k][..k - 1] == h[..k - 1];
      if k > first {
        NumberedBelow(h, from, first, k - 1);
      } else {
        NumberedBelow(h, from, first - 1, k - 1);
      }
    }
  }

  lemma {:induction false} NumberedGrows(h: History, from: nat, j: nat, k: nat)
    requires j <= k <= |h|
    ensures Numbered(h[..j], from) <= Numbered(h[..k], from)
    decreases k - j
  {
    if j < k {
      NumberedGrows(h, from, j, k - 1);
      assert h[..k][..k - 1] == h[..k - 1];
    }
  }

  /** Walk back while records are keyed at or above `from`; 0 if there are none. */
  method Boundary(h: History, from: nat) returns (first: nat)
    requires Sorted(h)
    ensures first <= |h| && (forall i :: 0 <= i < first - 1 ==> h[i].key < from)
    ensures first == 0 ==> forall i :: 0 <= i < |h| ==> h[i].key < from
    ensures first > 0 ==> h[first - 1].key >= from
  {
    first := 0;
    var idx := |h|;
    while idx > 0 && h[idx - 1].key >= from
      invariant 0 <= idx <= |h| && (if first == 0 then idx == |h| else first == idx + 1)
      invariant first > 0 ==> first <= |h| && h[first - 1].key >= from
    {
      first := idx;
      idx := idx - 1;
    }
    forall i | 0 <= i < idx ensures h[i].key < from {
      assert i < idx - 1 ==> h[i].key <= h[idx - 1].key;
    }
  }

  /** Walk back to the boundary, then read forward until the limit: the same as
      filtering the whole history. */
  method RecordsFrom(h: History, from: nat, limit: int) returns (r: Option<seq<(nat, Record)>>)
    requires Sorted(h)
    ensures r == if limit < 0 then None else Some(Wanted(h, from, limit))
  {
    if limit < 0 {
      return None;
    }
    var first := Boundary(h, from);
    hide Sorted;
    assert h[..|h|] == h;
    if first == 0 {
      NumberedBelow(h, from, |h|, |h|);
      return Some([]);
    }
    NumberedBelow(h, from, first - 1, first - 1);
    var out: seq<(nat, Record)> := [];
    var at := first - 1;
    while at < |h|
      invariant first - 1 <= at <= |h| && out == Numbered(h[..at], from)
      invariant limit > 0 ==> |out| < limit
    {
      NumberedOne(h, from, at);
      if h[at].key >= from {
        out := out + [(at + 1, h[at])];
        if limit > 0 && |out| == limit {
          NumberedGrows(h, from, at + 1, |h|);
          assert Take(Numbered(h, from), limit) == out;
          return Some(out);
        }
      }
      at := at + 1;
    }
    return Some(out);
  }

  lemma NumberedOne(h: History, from: nat, at: nat)
    requires at < |h|
    ensures Numbered(h[..at + 1], from) == Numbered(h[..at], from) + if h[at].key >= from then [(at + 1, h[at])] else []
  {
    assert h[..at + 1][..at] == h[..at];
  }
}
