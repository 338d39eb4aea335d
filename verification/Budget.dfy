/**
 The accountant shared by every cache: one meter, one epoch, and the sweep that
 hollows the globally coldest runs until the meter is within its limit.
 */
module Accountant {
  import opened Basics

  /** A run as the accountant sees it. `used` is the layer below's last-read epoch. */
  datatype Run = Run(bytes: nat, epoch: int, used: int, pinned: bool, resident: bool)

  function Age(r: Run): int {
    if r.used > r.epoch then r.used else r.epoch
  }

  predicate Evictable(r: Run) {
    r.resident && !r.pinned
  }

  function Weight(r: Run): nat {
    if r.resident then r.bytes else 0
  }

  function Hollow(r: Run): Run {
    r.(resident := false)
  }

  function Sum(runs: seq<Run>): nat {
    if runs == [] then 0 else Sum(runs[..|runs| - 1]) + Weight(runs[|runs| - 1])
  }

  function Total(caches: seq<seq<Run>>): nat {
    if caches == [] then 0 else Total(caches[..|caches| - 1]) + Sum(caches[|caches| - 1])
  }

  lemma {:induction false} SumUpdate(runs: seq<Run>, i: nat, r: Run)
    requires i < |runs|
    ensures Sum(runs[i := r]) == Sum(runs) - Weight(runs[i]) + Weight(r)
  {
    var n := |runs| - 1;
    if i == n {
      assert runs[i := r][..n] == runs[..n];
    } else {
      SumUpdate(runs[..n], i, r);
      assert runs[i := r][..n] == runs[..n][i := r];
    }
  }

  lemma SumAppend(runs: seq<Run>, r: Run)
    ensures Sum(runs + [r]) == Sum(runs) + Weight(r)
  {
    assert (runs + [r])[..|runs|] == runs;
  }

  lemma {:induction false} TotalUpdate(caches: seq<seq<Run>>, o: nat, runs: seq<Run>)
    requires o < |caches|
    ensures Total(caches[o := runs]) == Total(caches) - Sum(caches[o]) + Sum(runs)
  {
    var n := |caches| - 1;
    if o == n {
      assert caches[o := runs][..n] == caches[..n];
    } else {
      TotalUpdate(caches[..n], o, runs);
      assert caches[o := runs][..n] == caches[..n][o := runs];
    }
  }

  function Live(runs: seq<Run>): nat {
    if runs == [] then 0 else Live(runs[..|runs| - 1]) + if Evictable(runs[|runs| - 1]) then 1 else 0
  }

  function AllLive(caches: seq<seq<Run>>): nat {
    if caches == [] then 0 else AllLive(caches[..|caches| - 1]) + Live(caches[|caches| - 1])
  }

  lemma {:induction false} LiveUpdate(runs: seq<Run>, i: nat, r: Run)
    requires i < |runs|
    ensures Live(runs[i := r]) == Live(runs) - (if Evictable(runs[i]) then 1 else 0) + (if Evictable(r) then 1 else 0)
  {
    var n := |runs| - 1;
    if i == n {
      assert runs[i := r][..n] == runs[..n];
    } else {
      LiveUpdate(runs[..n], i, r);
      assert runs[i := r][..n] == runs[..n][i := r];
    }
  }

  lemma {:induction false} AllLiveUpdate(caches: seq<seq<Run>>, o: nat, runs: seq<Run>)
    requires o < |caches|
    ensures AllLive(caches[o := runs]) == AllLive(caches) - Live(caches[o]) + Live(runs)
  {
    var n := |caches| - 1;
    if o == n {
      assert caches[o := runs][..n] == caches[..n];
    } else {
      AllLiveUpdate(caches[..n], o, runs);
      assert caches[o := runs][..n] == caches[..n][o := runs];
    }
  }

  /** The coldest evictable run of one cache. */
  ghost predicate IsColdest(runs: seq<Run>, i: nat) {
    && i < |runs| && Evictable(runs[i])
    && forall j :: 0 <= j < |runs| && Evictable(runs[j]) ==> Age(runs[i]) <= Age(runs[j])
  }

  ghost predicate NoneEvictable(runs: seq<Run>) {
    forall j :: 0 <= j < |runs| ==> !Evictable(runs[j])
  }

  method Coldest(runs: seq<Run>) returns (best: Option<nat>)
    ensures best.Some? ==> IsColdest(runs, best.value)
    ensures best.None? ==> NoneEvictable(runs)
  {
    best := None;
    for i := 0 to |runs|
      invariant best.Some? ==> best.value < i && Evictable(runs[best.value])
      invariant best.Some? ==> forall j :: 0 <= j < i && Evictable(runs[j]) ==> Age(runs[best.value]) <= Age(runs[j])
      invariant best.None? ==> forall j :: 0 <= j < i ==> !Evictable(runs[j])
    {
      if Evictable(runs[i]) && (best.None? || Age(runs[i]) < Age(runs[best.value])) {
        best := Some(i);
      }
    }
  }

  ghost predicate OnlyHollowed(before: Run, after: Run) {
    after == before || (Evictable(before) && after == Hollow(before))
  }

  /** Runs were only hollowed, and never pinned ones. */
  ghost predicate Swept(before: seq<seq<Run>>, after: seq<seq<Run>>) {
    && |before| == |after|
    && (forall o :: 0 <= o < |before| ==> |before[o]| == |after[o]|)
    && (forall o, i :: 0 <= o < |before| && 0 <= i < |before[o]| ==> OnlyHollowed(before[o][i], after[o][i]))
  }

  ghost predicate Positive(caches: seq<seq<Run>>) {
    forall o, i :: 0 <= o < |caches| && 0 <= i < |caches[o]| && Evictable(caches[o][i]) ==> caches[o][i].bytes > 0
  }

  ghost predicate OnlyPins(caches: seq<seq<Run>>) {
    forall o :: 0 <= o < |caches| ==> NoneEvictable(caches[o])
  }

  ghost predicate GloballyColdest(caches: seq<seq<Run>>, o: nat, i: nat) {
    && o < |caches| && i < |caches[o]| && Evictable(caches[o][i])
    && forall p, j :: 0 <= p < |caches| && 0 <= j < |caches[p]| && Evictable(caches[p][j]) ==>
        Age(caches[o][i]) <= Age(caches[p][j])
  }

  /** Nothing hollowed is warmer than anything still evictable. */
  ghost predicate ColdFirst(before: seq<seq<Run>>, after: seq<seq<Run>>) {
    && |before| == |after| && (forall o :: 0 <= o < |before| ==> |before[o]| == |after[o]|)
    && forall o, i, p, j ::
         0 <= o < |before| && 0 <= i < |before[o]| && before[o][i] != after[o][i] &&
         0 <= p < |after| && 0 <= j < |after[p]| && Evictable(after[p][j]) ==>
           Age(before[o][i]) <= Age(after[p][j])
  }

  /** A sweep in terms of the runs: it only takes resident runs that are not pinned, changes
      nothing else of them, and leaves none such behind that is older, by its own epoch and
      by its last use, than one it took. */
  lemma SweepIs(before: seq<seq<Run>>, after: seq<seq<Run>>, o: nat, i: nat, p: nat, j: nat)
    requires Swept(before, after) && ColdFirst(before, after)
    requires o < |before| && i < |before[o]| && p < |before| && j < |before[p]|
    ensures |after| == |before| && |after[o]| == |before[o]| && |after[p]| == |before[p]|
    ensures var was, now := before[o][i], after[o][i];
            now == was || (was.resident && !was.pinned && now == was.(resident := false))
    ensures var gone, stays := before[o][i], after[p][j];
            after[o][i] != gone && stays.resident && !stays.pinned ==>
              (gone.epoch <= stays.epoch || gone.epoch <= stays.used) &&
              (gone.used <= stays.epoch || gone.used <= stays.used)
  {
  }

  lemma OnlyPinsIs(caches: seq<seq<Run>>)
    ensures OnlyPins(caches) <==>
            forall o, i :: 0 <= o < |caches| && 0 <= i < |caches[o]| && caches[o][i].resident ==> caches[o][i].pinned
  {
    if OnlyPins(caches) {
      forall o, i | 0 <= o < |caches| && 0 <= i < |caches[o]| && caches[o][i].resident ensures caches[o][i].pinned {
        assert NoneEvictable(caches[o]);
      }
    }
  }

  /** Nothing weightless was hollowed. */
  ghost predicate Paid(before: seq<seq<Run>>, after: seq<seq<Run>>)
    requires Swept(before, after)
  {
    forall o, i :: 0 <= o < |before| && 0 <= i < |before[o]| && before[o][i] != after[o][i] ==> before[o][i].bytes > 0
  }

  // ---- where a sweep ends ----

  /** The evictable bytes of runs older than `x`. */
  function Colder(runs: seq<Run>, x: int): nat {
    if runs == [] then 0
    else
      var r := runs[|runs| - 1];
      Colder(runs[..|runs| - 1], x) + if Evictable(r) && Age(r) < x then r.bytes else 0
  }

  function AllColder(caches: seq<seq<Run>>, x: int): nat {
    if caches == [] then 0 else AllColder(caches[..|caches| - 1], x) + Colder(caches[|caches| - 1], x)
  }

  /** The coldest of the evictable runs that weigh nothing. */
  ghost predicate FirstWeightless(caches: seq<seq<Run>>, o: nat, i: nat) {
    && o < |caches| && i < |caches[o]| && Evictable(caches[o][i]) && caches[o][i].bytes == 0
    && forall p, j ::
         0 <= p < |caches| && 0 <= j < |caches[p]| && Evictable(caches[p][j]) && caches[p][j].bytes == 0 ==>
           Age(caches[o][i]) <= Age(caches[p][j])
  }

  /** What is left when everything older than run (o, i) is gone. */
  function Floor(caches: seq<seq<Run>>, o: nat, i: nat): int
    requires o < |caches| && i < |caches[o]|
  {
    Total(caches) - AllColder(caches, Age(caches[o][i]))
  }

  /** The same, when everything exactly as old is gone too. */
  function Bottom(caches: seq<seq<Run>>, o: nat, i: nat): int
    requires o < |caches| && i < |caches[o]|
  {
    Total(caches) - AllColder(caches, Age(caches[o][i]) + 1)
  }

  /** A sweep stops at the coldest weightless run, before or after the runs exactly as
      old: it gets under the limit if it can without those, it does not if it cannot
      even with them, and it ends between the two. */
  ghost predicate StopsAt(caches: seq<seq<Run>>, limit: int, bytes: int) {
    forall o: nat, i: nat :: FirstWeightless(caches, o, i) ==>
      && Bottom(caches, o, i) <= bytes
      && (bytes > limit ==> bytes <= Floor(caches, o, i))
  }

  lemma {:induction false} OneDrained(a: seq<Run>, b: seq<Run>, x: int)
    requires |a| == |b| && forall i :: 0 <= i < |a| ==> OnlyHollowed(a[i], b[i])
    ensures (forall i :: 0 <= i < |b| && Evictable(b[i]) ==> Age(b[i]) >= x) ==> Sum(b) <= Sum(a) - Colder(a, x)
    ensures (forall i :: 0 <= i < |a| && a[i] != b[i] ==> Age(a[i]) < x || a[i].bytes == 0) ==>
              Sum(b) >= Sum(a) - Colder(a, x)
  {
    if a != [] {
      var n := |a| - 1;
      assert OnlyHollowed(a[n], b[n]);
      OneDrained(a[..n], b[..n], x);
    }
  }

  lemma {:induction false} Drained(a: seq<seq<Run>>, b: seq<seq<Run>>, x: int)
    requires Swept(a, b)
    ensures (forall o, i :: 0 <= o < |b| && 0 <= i < |b[o]| && Evictable(b[o][i]) ==> Age(b[o][i]) >= x) ==>
              Total(b) <= Total(a) - AllColder(a, x)
    ensures (forall o, i :: 0 <= o < |a| && 0 <= i < |a[o]| && a[o][i] != b[o][i] ==>
              Age(a[o][i]) < x || a[o][i].bytes == 0) ==>
              Total(b) >= Total(a) - AllColder(a, x)
  {
    if a != [] {
      var n := |a| - 1;
      OneDrained(a[n], b[n], x);
      Drained(a[..n], b[..n], x);
    }
  }

  /** Whatever is still evictable is at least as old as before, and unchanged. */
  lemma StillThere(a: seq<seq<Run>>, b: seq<seq<Run>>, o: nat, i: nat)
    requires Swept(a, b) && o < |a| && i < |a[o]|
    ensures o < |b| && i < |b[o]| && (b[o][i] == a[o][i] || (Evictable(a[o][i]) && b[o][i] == Hollow(a[o][i])))
    ensures Evictable(b[o][i]) ==> b[o][i] == a[o][i]
  {
    assert OnlyHollowed(a[o][i], b[o][i]);
  }

  /** Until the sweep stops, nothing hollowed is warmer than the first weightless run. */
  lemma AboveBottom(a: seq<seq<Run>>, b: seq<seq<Run>>, o: nat, i: nat)
    requires Swept(a, b) && ColdFirst(a, b) && Paid(a, b) && FirstWeightless(a, o, i)
    ensures Total(b) >= Bottom(a, o, i)
  {
    hide Total, AllColder, Swept;
    StillThere(a, b, o, i);
    assert b[o][i] == a[o][i];
    Drained(a, b, Age(a[o][i]) + 1);
    forall p, j | 0 <= p < |a| && 0 <= j < |a[p]| && a[p][j] != b[p][j] ensures Age(a[p][j]) < Age(a[o][i]) + 1 {
      StillThere(a, b, p, j);
      assert Age(a[p][j]) <= Age(b[o][i]);
    }
  }

  /** A sweep that ran out, or came to a weightless run, has hollowed all that is older. */
  lemma AtFloor(a: seq<seq<Run>>, b: seq<seq<Run>>, o: nat, i: nat)
    requires Swept(a, b) && FirstWeightless(a, o, i)
    requires OnlyPins(b) || exists p: nat, j: nat :: GloballyColdest(b, p, j) && b[p][j].bytes == 0
    ensures Total(b) <= Floor(a, o, i)
  {
    hide Total, AllColder, Swept;
    Drained(a, b, Age(a[o][i]));
    if !OnlyPins(b) {
      var p: nat, j: nat :| GloballyColdest(b, p, j) && b[p][j].bytes == 0;
      SweptShape(a, b);
      StillThere(a, b, p, j);
      assert Age(a[o][i]) <= Age(b[p][j]);
    }
  }

  lemma SweptShape(a: seq<seq<Run>>, b: seq<seq<Run>>)
    requires Swept(a, b)
    ensures |a| == |b| && forall o :: 0 <= o < |a| ==> |a[o]| == |b[o]|
  {
  }

  lemma Stopped(a: seq<seq<Run>>, b: seq<seq<Run>>, limit: int)
    requires Swept(a, b) && ColdFirst(a, b) && Paid(a, b)
    requires Total(b) <= limit || OnlyPins(b) || exists p: nat, j: nat :: GloballyColdest(b, p, j) && b[p][j].bytes == 0
    ensures StopsAt(a, limit, Total(b))
  {
    hide Total, AllColder, Swept, ColdFirst, Paid, OnlyPins, GloballyColdest;
    forall o: nat, i: nat | FirstWeightless(a, o, i)
      ensures Bottom(a, o, i) <= Total(b) && (Total(b) > limit ==> Total(b) <= Floor(a, o, i))
    {
      if Total(b) > limit {
        AtFloor(a, b, o, i);
      }
      AboveBottom(a, b, o, i);
    }
  }

  lemma {:induction false} NoneAsOld(runs: seq<Run>, x: int)
    requires forall j :: 0 <= j < |runs| && Evictable(runs[j]) && Age(runs[j]) == x ==> runs[j].bytes == 0
    ensures Colder(runs, x + 1) == Colder(runs, x)
  {
    if runs != [] {
      NoneAsOld(runs[..|runs| - 1], x);
    }
  }

  /** Where no run with bytes is exactly as old, the two bounds meet, so the sweep gets
      under the limit if and only if it does before the coldest weightless run. */
  lemma {:induction false} UntiedMeets(caches: seq<seq<Run>>, x: int)
    requires forall p, j ::
               0 <= p < |caches| && 0 <= j < |caches[p]| && Evictable(caches[p][j]) && Age(caches[p][j]) == x ==>
                 caches[p][j].bytes == 0
    ensures AllColder(caches, x + 1) == AllColder(caches, x)
  {
    if caches != [] {
      NoneAsOld(caches[|caches| - 1], x);
      UntiedMeets(caches[..|caches| - 1], x);
    }
  }

  /** One more eviction of the coldest run keeps the order. */
  lemma ColdestNext(a: seq<seq<Run>>, b: seq<seq<Run>>, c: seq<seq<Run>>, o: nat, i: nat)
    requires Swept(a, b) && ColdFirst(a, b) && GloballyColdest(b, o, i) && c == b[o := b[o][i := Hollow(b[o][i])]]
    ensures ColdFirst(a, c)
    ensures Swept(a, c) && Paid(a, b) && b[o][i].bytes > 0 ==> Paid(a, c)
  {
    SweptShape(a, b);
    hide Swept;
    StillThere(a, b, o, i);
    forall p, j, q, k | 0 <= p < |a| && 0 <= j < |a[p]| && a[p][j] != c[p][j] &&
                        0 <= q < |c| && 0 <= k < |c[q]| && Evictable(c[q][k])
      ensures Age(a[p][j]) <= Age(c[q][k])
    {
      assert Evictable(b[q][k]) && b[q][k] == c[q][k];
    }
  }

  lemma SelfCold(c: seq<seq<Run>>)
    ensures Swept(c, c) && ColdFirst(c, c) && Paid(c, c)
  {
  }

  class Budget {
    var limit: int
    var bytes: int
    var epoch: int
    var evictions: nat
    var caches: seq<seq<Run>>

    /** The meter is the sum of what is resident, in every cache. */
    ghost predicate Valid()
      reads this
    {
      bytes == Total(caches)
    }

    constructor (limit: int)
      ensures Valid() && caches == [] && this.limit == limit && bytes == 0
    {
      this.limit, bytes, epoch, evictions, caches := limit, 0, 0, 0, [];
    }

    /** Hollow run `i` of cache `o`; the meter is the caller's to settle. */
    method HollowRun(o: nat, i: nat) returns (freed: nat)
      requires o < |caches| && i < |caches[o]| && Evictable(caches[o][i])
      modifies `caches
      ensures Swept(old(caches), caches) && freed == old(caches)[o][i].bytes
      ensures caches == old(caches)[o := old(caches)[o][i := Hollow(old(caches)[o][i])]]
      ensures Total(caches) == Total(old(caches)) - freed && AllLive(caches) == AllLive(old(caches)) - 1
    {
      var runs := caches[o];
      freed := runs[i].bytes;
      SumUpdate(runs, i, Hollow(runs[i]));
      LiveUpdate(runs, i, Hollow(runs[i]));
      TotalUpdate(caches, o, runs[i := Hollow(runs[i])]);
      AllLiveUpdate(caches, o, runs[i := Hollow(runs[i])]);
      caches := caches[o := runs[i := Hollow(runs[i])]];
    }

    /** The owner whose coldest run is coldest. */
    method Victim() returns (v: Option<(nat, nat)>)
      ensures v.None? ==> OnlyPins(caches)
      ensures v.Some? ==> GloballyColdest(caches, v.value.0, v.value.1)
    {
      v := None;
      for o := 0 to |caches|
        invariant v.Some? ==> v.value.0 < o && IsColdest(caches[v.value.0], v.value.1)
        invariant v.Some? ==> forall p, j :: 0 <= p < o && 0 <= j < |caches[p]| && Evictable(caches[p][j]) ==>
                    Age(caches[v.value.0][v.value.1]) <= Age(caches[p][j])
        invariant v.None? ==> forall p :: 0 <= p < o ==> NoneEvictable(caches[p])
      {
        var c := Coldest(caches[o]);
        if c.Some? && (v.None? || Age(caches[o][c.value]) < Age(caches[v.value.0][v.value.1])) {
          v := Some((o, c.value));
        }
      }
    }

    /** Admit `delta` bytes that a cache has just put in place, then hollow the coldest
        runs until the meter is within the limit. It stops early only at a run of no
        bytes, so with none of those it ends within the limit or with pins alone. */
    method Charge(delta: int)
      requires bytes + delta == Total(caches)
      modifies this
      ensures Valid() && limit == old(limit) && epoch == old(epoch)
      ensures Swept(old(caches), caches) && ColdFirst(old(caches), caches)
      ensures limit <= 0 || old(bytes) + delta <= limit ==> caches == old(caches)
      ensures Positive(old(caches)) && limit > 0 ==> bytes <= limit || OnlyPins(caches)
      ensures limit > 0 ==> StopsAt(old(caches), limit, bytes)
      ensures var taken := AllLive(old(caches)) - AllLive(caches);
              evictions == old(evictions) + taken || evictions + 1 == old(evictions) + taken
      ensures Positive(old(caches)) ==> evictions == old(evictions) + AllLive(old(caches)) - AllLive(caches)
    {
      hide GloballyColdest, Positive, OnlyHollowed, Swept, ColdFirst, Paid, OnlyPins, AllLive, Total, StopsAt;
      bytes := bytes + delta;
      SelfCold(caches);
      if limit <= 0 {
        return;
      }
      while bytes > limit
        invariant Valid() && limit == old(limit) && epoch == old(epoch)
        invariant Swept(old(caches), caches) && ColdFirst(old(caches), caches) && Paid(old(caches), caches)
        invariant old(bytes) + delta <= limit ==> caches == old(caches)
        invariant evictions == old(evictions) + AllLive(old(caches)) - AllLive(caches)
        decreases AllLive(caches)
      {
        var v := Victim();
        if v.None? {
          Stopped(old(caches), caches, limit);
          return;
        }
        ColdestIs(caches, v.value.0, v.value.1);
        PositiveStays(old(caches), caches, v.value.0, v.value.1);
        ghost var before := caches;
        if caches[v.value.0][v.value.1].bytes == 0 {
          Stopped(old(caches), caches, limit);
        }
        var freed := HollowRun(v.value.0, v.value.1);
        SweptTwice(old(caches), before, caches);
        ColdestNext(old(caches), before, caches, v.value.0, v.value.1);
        if freed > 0 {
          bytes := bytes - freed;
          evictions := evictions + 1;
        } else {
          return;
        }
      }
      Stopped(old(caches), caches, limit);
    }

    /** Put a run in place as the youngest, over the one it replaces or behind the others. */
    method Put(o: nat, at: Option<nat>, run: Run)
      requires Valid() && o < |caches| && run.resident && (at.Some? ==> at.value < |caches[o]|)
      modifies this
      ensures Valid() && limit == old(limit) && epoch == old(epoch) + 1
      ensures Swept(Placed(old(caches), o, at, run.(epoch := epoch)), caches)
      ensures Positive(Placed(old(caches), o, at, run.(epoch := epoch))) && limit > 0 ==>
                bytes <= limit || OnlyPins(caches)
    {
      hide Swept, Placed, Positive, OnlyPins, Total;
      epoch := epoch + 1;
      Admit(o, at, run.(epoch := epoch));
    }

    method Admit(o: nat, at: Option<nat>, run: Run)
      requires Valid() && o < |caches| && run.resident && (at.Some? ==> at.value < |caches[o]|)
      modifies this
      ensures Valid() && limit == old(limit) && epoch == old(epoch)
      ensures Swept(Placed(old(caches), o, at, run), caches)
      ensures Positive(Placed(old(caches), o, at, run)) && limit > 0 ==> bytes <= limit || OnlyPins(caches)
    {
      PlacedTotal(caches, o, at, run);
      var delta := run.bytes;
      if at.Some? && caches[o][at.value].resident {
        delta := delta - caches[o][at.value].bytes;
      }
      caches := caches[o := if at.Some? then caches[o][at.value := run] else caches[o] + [run]];
      hide Positive, OnlyPins, Total;
      Charge(delta);
    }

    /** Refill a hollow run. Its own charge still finds it at its old age, and may take
        it again; only then does it become the youngest. */
    method Refill(o: nat, i: nat, size: nat) returns (ghost swept: seq<seq<Run>>)
      requires Valid() && o < |caches| && i < |caches[o]| && !caches[o][i].resident
      modifies this
      ensures Valid() && limit == old(limit) && epoch == old(epoch) + 1
      ensures Swept(Placed(old(caches), o, Some(i), old(caches)[o][i].(bytes := size, resident := true)), swept)
      ensures Positive(Placed(old(caches), o, Some(i), old(caches)[o][i].(bytes := size, resident := true)))
                && limit > 0 ==>
                bytes <= limit || OnlyPins(swept)
      ensures o < |swept| && i < |swept[o]| && caches == swept[o := swept[o][i := swept[o][i].(epoch := epoch)]]
    {
      var full := caches[o][i].(bytes := size, resident := true);
      ghost var before := Placed(caches, o, Some(i), full);
      Admit(o, Some(i), full);
      hide Positive, OnlyPins, Total;
      swept := caches;
      SweptShape(before, caches);
      epoch := epoch + 1;
      var young := caches[o][i].(epoch := epoch);
      SumUpdate(caches[o], i, young);
      TotalUpdate(caches, o, caches[o][i := young]);
      caches := caches[o := caches[o][i := young]];
    }

    /** The owner lets go of a run, pinned or not. */
    method Drop(o: nat, i: nat)
      requires Valid() && o < |caches| && i < |caches[o]|
      modifies this
      ensures Valid() && limit == old(limit) && epoch == old(epoch) && evictions == old(evictions)
      ensures caches == if old(caches)[o][i].resident
                        then old(caches)[o := old(caches)[o][i :=
                            old(caches)[o][i].(resident := false, pinned := false)]]
                        else old(caches)
    {
      var r := caches[o][i];
      if r.resident {
        PlacedTotal(caches, o, Some(i), r.(resident := false, pinned := false));
        caches := caches[o := caches[o][i := r.(resident := false, pinned := false)]];
        bytes := bytes - r.bytes;
      }
    }

    /** A cache is closed: every byte it counted goes back. */
    method Close(o: nat)
      requires Valid() && o < |caches|
      modifies this
      ensures Valid() && limit == old(limit) && epoch == old(epoch) && evictions == old(evictions)
      ensures caches == old(caches)[o := []]
    {
      var runs, freed, i := caches[o], 0, 0;
      while i < |runs|
        invariant 0 <= i <= |runs| && freed == Sum(runs[..i])
      {
        assert runs[..i + 1][..i] == runs[..i];
        if runs[i].resident {
          freed := freed + runs[i].bytes;
        }
        i := i + 1;
      }
      assert runs[..|runs|] == runs;
      TotalUpdate(caches, o, []);
      caches := caches[o := []];
      bytes := bytes - freed;
    }

    /** Sweep one cache of the runs older than `cutoff`. */
    method TrimOwner(o: nat, cutoff: int) returns (dropped: nat, freed: nat)
      requires Valid() && o < |caches|
      modifies `bytes, `evictions, `caches
      ensures Valid() && |caches| == |old(caches)| && Swept(old(caches), caches)
      ensures evictions == old(evictions) + dropped
      ensures forall p :: 0 <= p < |caches| && p != o ==> caches[p] == old(caches)[p]
      ensures freed == old(bytes) - bytes
      ensures TrimEnds(old(caches)[o], caches[o], cutoff)
      ensures Positive(old(caches)) ==> dropped == AllLive(old(caches)) - AllLive(caches)
    {
      hide *;
      dropped, freed := 0, 0;
      ValidIs();
      SweptSelf(caches);
      TrimmedSelf(caches[o], cutoff);
      while true
        invariant bytes == Total(caches) && |caches| == |old(caches)| && Swept(old(caches), caches)
        invariant forall p :: 0 <= p < |caches| && p != o ==> caches[p] == old(caches)[p]
        invariant freed == old(bytes) - bytes && dropped == AllLive(old(caches)) - AllLive(caches)
        invariant evictions == old(evictions) + dropped
        invariant Trimming(old(caches)[o], caches[o], cutoff) && InOrder(old(caches)[o], caches[o])
        decreases AllLive(caches)
      {
        var c := Coldest(caches[o]);
        if c.None? || Age(caches[o][c.value]) >= cutoff {
          TrimmedNow(old(caches)[o], caches[o], cutoff, c);
          TrimmedEnds(old(caches)[o], caches[o], cutoff);
          ValidIs();
          return;
        }
        PositiveStays(old(caches), caches, o, c.value);
        TrimmingOne(old(caches)[o], caches[o], cutoff, c.value);
        ghost var before := caches;
        var f := HollowRun(o, c.value);
        SweptTwice(old(caches), before, caches);
        if f <= 0 {
          CutShort(old(caches)[o], before[o], cutoff, c.value);
          ValidIs();
          return;
        }
        bytes := bytes - f;
        evictions := evictions + 1;
        dropped, freed := dropped + 1, freed + f;
      }
    }

    lemma ValidIs()
      ensures Valid() <==> bytes == Total(caches)
    {
    }

    /** The idle sweep: hollow every evictable run older than the epoch minus `keep`, in
        every cache, and advance the epoch. A weightless run among them ends its cache's
        sweep, so exactly those are hollowed unless something older than the cutoff
        comes after it. */
    method TrimIdle(keep: int) returns (dropped: nat, freed: nat)
      requires Valid()
      modifies this
      ensures Valid() && limit == old(limit) && epoch == old(epoch) + 1 && Swept(old(caches), caches)
      ensures freed == old(bytes) - bytes && evictions == old(evictions) + dropped
      ensures Positive(old(caches)) ==> dropped == AllLive(old(caches)) - AllLive(caches)
      ensures forall o :: 0 <= o < |caches| ==> TrimEnds(old(caches)[o], caches[o], old(epoch) - keep)
    {
      hide OnlyHollowed, Positive, TrimEnds, AllLive, Total;
      epoch := epoch + 1;
      var cutoff := epoch - 1 - keep;
      dropped, freed := 0, 0;
      SweptSelf(caches);
      var o := 0;
      while o < |caches|
        invariant 0 <= o <= |caches| == |old(caches)| && Valid() && limit == old(limit) && epoch == old(epoch) + 1
        invariant Swept(old(caches), caches) && freed == old(bytes) - bytes && evictions == old(evictions) + dropped
        invariant forall p :: o <= p < |caches| ==> caches[p] == old(caches)[p]
        invariant Positive(old(caches)) ==> Positive(caches) && dropped == AllLive(old(caches)) - AllLive(caches)
        invariant forall p :: 0 <= p < o ==> TrimEnds(old(caches)[p], caches[p], cutoff)
      {
        ghost var before := caches;
        var d, f := TrimOwner(o, cutoff);
        SweptTwice(old(caches), before, caches);
        PositiveAfter(before, caches);
        dropped, freed := dropped + d, freed + f;
        o := o + 1;
      }
    }
  }

  /** Exactly the evictable runs older than the cutoff are gone. */
  ghost predicate Trimmed(before: seq<Run>, after: seq<Run>, cutoff: int) {
    && |after| == |before|
    && forall i :: 0 <= i < |before| ==>
         after[i] == if Evictable(before[i]) && Age(before[i]) < cutoff then Hollow(before[i]) else before[i]
  }

  /** The coldest weightless run older than the cutoff, with no heavier one as old. */
  ghost predicate FirstIdle(runs: seq<Run>, i: nat, cutoff: int) {
    && i < |runs| && Evictable(runs[i]) && runs[i].bytes == 0 && Age(runs[i]) < cutoff
    && forall j :: 0 <= j < |runs| && Evictable(runs[j]) ==>
         if runs[j].bytes == 0 then Age(runs[i]) <= Age(runs[j]) else Age(runs[i]) != Age(runs[j])
  }

  /** Of the runs older than the cutoff, none but `i` is as warm as `i`. */
  ghost predicate Last(runs: seq<Run>, i: nat, cutoff: int)
    requires i < |runs|
  {
    forall j :: 0 <= j < |runs| && j != i && Evictable(runs[j]) ==>
        Age(runs[j]) < Age(runs[i]) || Age(runs[j]) >= cutoff
  }

  /** Only runs older than the cutoff are gone. With no weightless one among them, all
      are; with one, all are exactly when the coldest weightless one comes last. */
  ghost predicate TrimEnds(before: seq<Run>, after: seq<Run>, cutoff: int) {
    && Trimming(before, after, cutoff)
    && ((forall i :: 0 <= i < |before| && Evictable(before[i]) && Age(before[i]) < cutoff ==> before[i].bytes > 0) ==>
          Trimmed(before, after, cutoff))
    && forall i: nat :: FirstIdle(before, i, cutoff) ==> (Trimmed(before, after, cutoff) <==> Last(before, i, cutoff))
  }

  /** Everything hollowed weighed something and is no warmer than what is left. */
  ghost predicate InOrder(before: seq<Run>, after: seq<Run>) {
    && |after| == |before|
    && (forall i :: 0 <= i < |before| && before[i] != after[i] ==> before[i].bytes > 0)
    && (forall i, j :: 0 <= i < |before| && before[i] != after[i] && 0 <= j < |after| && Evictable(after[j]) ==>
          Age(before[i]) <= Age(after[j]))
  }

  lemma TrimmedEnds(before: seq<Run>, after: seq<Run>, cutoff: int)
    requires Trimmed(before, after, cutoff) && InOrder(before, after)
    ensures TrimEnds(before, after, cutoff)
  {
  }

  lemma CutShort(a: seq<Run>, b: seq<Run>, cutoff: int, v: nat)
    requires Trimming(a, b, cutoff) && InOrder(a, b) && IsColdest(b, v) && b[v].bytes == 0 && Age(b[v]) < cutoff
    ensures TrimEnds(a, b[v := Hollow(b[v])], cutoff)
  {
    var c := b[v := Hollow(b[v])];
    assert a[v] == b[v];
    forall i: nat | FirstIdle(a, i, cutoff) ensures Trimmed(a, c, cutoff) <==> Last(a, i, cutoff) {
      CutShortAt(a, b, cutoff, v, i);
    }
  }

  lemma CutShortAt(a: seq<Run>, b: seq<Run>, cutoff: int, v: nat, i: nat)
    requires Trimming(a, b, cutoff) && InOrder(a, b) && IsColdest(b, v) && b[v].bytes == 0 && Age(b[v]) < cutoff
    requires FirstIdle(a, i, cutoff)
    ensures Trimmed(a, b[v := Hollow(b[v])], cutoff) <==> Last(a, i, cutoff)
  {
    var c := b[v := Hollow(b[v])];
    assert a[v] == b[v] && a[i] == b[i] && Age(a[v]) == Age(a[i]);
    if Last(a, i, cutoff) {
      assert v == i;
      forall j | 0 <= j < |a| ensures c[j] == if Evictable(a[j]) && Age(a[j]) < cutoff then Hollow(a[j]) else a[j] {
      }
    }
    if Trimmed(a, c, cutoff) {
      assert v == i;
      forall j | 0 <= j < |a| && j != i && Evictable(a[j]) ensures Age(a[j]) < Age(a[i]) || Age(a[j]) >= cutoff {
        if Age(a[j]) < cutoff {
          assert a[j] != b[j];
        }
      }
    }
  }

  ghost predicate Trimming(before: seq<Run>, after: seq<Run>, cutoff: int) {
    && |after| == |before|
    && forall i :: 0 <= i < |before| ==>
         after[i] == before[i] || (Evictable(before[i]) && Age(before[i]) < cutoff && after[i] == Hollow(before[i]))
  }

  lemma TrimmedSelf(runs: seq<Run>, cutoff: int)
    ensures Trimming(runs, runs, cutoff) && InOrder(runs, runs)
  {
  }

  lemma TrimmingOne(before: seq<Run>, now: seq<Run>, cutoff: int, i: nat)
    requires Trimming(before, now, cutoff) && InOrder(before, now) && IsColdest(now, i) && Age(now[i]) < cutoff
    ensures Trimming(before, now[i := Hollow(now[i])], cutoff)
    ensures now[i].bytes > 0 ==> InOrder(before, now[i := Hollow(now[i])])
  {
  }

  lemma TrimmedNow(before: seq<Run>, now: seq<Run>, cutoff: int, coldest: Option<nat>)
    requires Trimming(before, now, cutoff)
    requires if coldest.None? then NoneEvictable(now)
               else IsColdest(now, coldest.value) && Age(now[coldest.value]) >= cutoff
    ensures Trimmed(before, now, cutoff)
  {
  }

  function Placed(caches: seq<seq<Run>>, o: nat, at: Option<nat>, run: Run): seq<seq<Run>>
    requires o < |caches| && (at.Some? ==> at.value < |caches[o]|)
  {
    caches[o := if at.Some? then caches[o][at.value := run] else caches[o] + [run]]
  }

  lemma PlacedTotal(caches: seq<seq<Run>>, o: nat, at: Option<nat>, run: Run)
    requires o < |caches| && (at.Some? ==> at.value < |caches[o]|)
    ensures Total(Placed(caches, o, at, run)) ==
            Total(caches) + Weight(run) - if at.Some? then Weight(caches[o][at.value]) else 0
  {
    if at.Some? {
      SumUpdate(caches[o], at.value, run);
      TotalUpdate(caches, o, caches[o][at.value := run]);
    } else {
      SumAppend(caches[o], run);
      TotalUpdate(caches, o, caches[o] + [run]);
    }
  }

  lemma ColdestIs(caches: seq<seq<Run>>, o: nat, i: nat)
    requires GloballyColdest(caches, o, i)
    ensures o < |caches| && i < |caches[o]| && Evictable(caches[o][i])
  {
  }

  lemma SweptSelf(c: seq<seq<Run>>)
    ensures Swept(c, c)
  {
  }

  lemma SweptTwice(a: seq<seq<Run>>, b: seq<seq<Run>>, c: seq<seq<Run>>)
    requires Swept(a, b) && Swept(b, c)
    ensures Swept(a, c)
  {
  }

  lemma PositiveStays(a: seq<seq<Run>>, b: seq<seq<Run>>, o: nat, i: nat)
    requires Swept(a, b) && o < |b| && i < |b[o]| && Evictable(b[o][i])
    ensures Positive(a) ==> b[o][i].bytes > 0
  {
  }

  lemma PositiveAfter(a: seq<seq<Run>>, b: seq<seq<Run>>)
    requires Swept(a, b)
    ensures Positive(a) ==> Positive(b)
  {
    if Positive(a) {
      forall o, i | 0 <= o < |b| && 0 <= i < |b[o]| && Evictable(b[o][i]) ensures b[o][i].bytes > 0 {
        assert OnlyHollowed(a[o][i], b[o][i]);
      }
    }
  }

  lemma TwoRuns(a: Run, b: Run)
    ensures Sum([a, b]) == Weight(a) + Weight(b) == Total([[a, b]])
    ensures AllLive([[a, b]]) == (if Evictable(a) then 1 else 0) + (if Evictable(b) then 1 else 0)
  {
    assert [a, b][..1] == [a] && [a][..0] == [] && [[a, b]][..0] == [];
    assert Sum([a]) == Sum([]) + Weight(a);
    assert Sum([a, b]) == Sum([a]) + Weight(b);
    assert Total([[a, b]]) == Total([]) + Sum([a, b]);
    assert Live([a]) == Live([]) + if Evictable(a) then 1 else 0;
    assert Live([a, b]) == Live([a]) + if Evictable(b) then 1 else 0;
    assert AllLive([[a, b]]) == AllLive([]) + Live([a, b]);
  }

  lemma FirstStops(a: Run, b: Run)
    requires Evictable(a) && Evictable(b) && Age(a) < Age(b) && a.bytes == 0 < b.bytes
    ensures var c := [[a, b]]; FirstWeightless(c, 0, 0) && Bottom(c, 0, 0) == b.bytes
  {
    TwoRuns(a, b);
    var x := Age(a) + 1;
    assert [a, b][..1] == [a] && [a][..0] == [] && [[a, b]][..0] == [];
    assert Colder([a], x) == Colder([], x) + 0;
    assert Colder([a, b], x) == Colder([a], x);
    assert AllColder([[a, b]], x) == AllColder([], x) + Colder([a, b], x);
  }

  /** A run of no bytes, colder than the rest, ends the sweep: the meter stays over the
      limit with evictable bytes in memory. An empty gap leaves just such a run. */
  method WeightlessRunStopsSweep(empty: Run, full: Run, limit: int) returns (b: Budget)
    requires Evictable(empty) && Evictable(full) && Age(empty) < Age(full) && empty.bytes == 0 < limit < full.bytes
    ensures fresh(b) && b.Valid() && b.limit == limit < b.bytes && !OnlyPins(b.caches)
  {
    b := new Budget(limit);
    b.caches := [[empty, full]];
    TwoRuns(empty, full);
    FirstStops(empty, full);
    hide Total, AllLive, AllColder, FirstWeightless, Bottom, OnlyPins, Swept, Positive, ColdFirst;
    b.Charge(full.bytes);
    if OnlyPins(b.caches) {
      BothGone(empty, full, b.caches);
    }
  }

  lemma BothGone(x: Run, y: Run, c: seq<seq<Run>>)
    requires Evictable(x) && Evictable(y) && Swept([[x, y]], c) && OnlyPins(c)
    ensures Total(c) == 0
  {
    StillThere([[x, y]], c, 0, 0);
    StillThere([[x, y]], c, 0, 1);
    assert NoneEvictable(c[0]);
    assert |[[x, y]][0]| == 2 && |c[0]| == 2;
    assert c[0] == [Hollow(x), Hollow(y)];
    assert c == [[Hollow(x), Hollow(y)]];
    TwoRuns(Hollow(x), Hollow(y));
  }
}
