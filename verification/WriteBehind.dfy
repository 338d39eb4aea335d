/**
 The caller-facing log: a pending buffer over a disk log. A record lives in the
 buffer until it has been written and synced; a flush copies a prefix of the
 buffer, writes it record by record without the writer's lock, and trims the
 buffer only at the end. The module shows that, whatever interleaves and whatever
 fails, the two places together are the one sequence of acknowledged writes.
 */
module WriteBehind {
  import opened Basics
  import opened Lineage
  import opened DiskLog
  import opened ForkTree
  import opened NodeLog

  /** The published window of records not known to be on disk. */
  datatype View = View(first: nat, entries: seq<Bytes>)

  function Holding(pend: Option<View>): bool {
    pend.Some? && pend.value.entries != []
  }

  function TotalBytes(entries: seq<Bytes>): nat {
    if entries == [] then 0 else TotalBytes(entries[..|entries| - 1]) + |entries[|entries| - 1]|
  }

  lemma {:induction false} TotalSplit(entries: seq<Bytes>, n: nat)
    requires n <= |entries|
    ensures TotalBytes(entries) == TotalBytes(entries[..n]) + TotalBytes(entries[n..])
    decreases |entries|
  {
    if n == |entries| {
      assert entries[..n] == entries;
    } else {
      var m := |entries| - 1;
      TotalSplit(entries[..m], n);
      assert entries[..m][..n] == entries[..n];
      assert entries[n..][..m - n] == entries[..m][n..];
    }
  }

  /** Disk and buffer overlap in agreement and together make `acked`. */
  ghost predicate Agree(disk: seq<Bytes>, pend: Option<View>, acked: seq<Bytes>) {
    if Holding(pend) then
      var f, e := pend.value.first, pend.value.entries;
      && 1 <= f && f - 1 <= |disk| <= f - 1 + |e|
      && acked == disk[..f - 1] + e
      && disk == acked[..|disk|]
    else acked == disk
  }

  // ---- reads, as functions of the two places ----

  function ViewAt(pend: Option<View>, idx: nat): Option<Bytes> {
    if !Holding(pend) || idx < pend.value.first || idx - pend.value.first >= |pend.value.entries| then None
    else Some(pend.value.entries[idx - pend.value.first])
  }

  function DiskAt(disk: seq<Bytes>, idx: nat): Option<Bytes> {
    if 1 <= idx <= |disk| then Some(disk[idx - 1]) else None
  }

  function LastOf(disk: seq<Bytes>, pend: Option<View>): nat {
    if Holding(pend) then pend.value.first + |pend.value.entries| - 1 else |disk|
  }

  /** Buffer first, then disk, reads the acknowledged sequence. */
  lemma ReadAgrees(disk: seq<Bytes>, pend: Option<View>, acked: seq<Bytes>, idx: nat)
    requires Agree(disk, pend, acked)
    ensures (if ViewAt(pend, idx).Some? then ViewAt(pend, idx) else DiskAt(disk, idx)) == DiskAt(acked, idx)
    ensures LastOf(disk, pend) == |acked|
  {
    if Holding(pend) && 1 <= idx < pend.value.first {
      assert disk[idx - 1] == acked[..|disk|][idx - 1];
    }
  }

  /** The records of a captured window from `from` on. */
  function WindowFrom(w: View, from: nat): seq<(nat, Bytes)> {
    var lo := if from <= w.first then 0 else if from - w.first <= |w.entries| then from - w.first else |w.entries|;
    seq(|w.entries| - lo, k requires 0 <= k < |w.entries| - lo => (w.first + lo + k, w.entries[lo + k]))
  }

  /** Range with a window captured earlier: the disk as it is now, below the window,
      then the window. */
  function RangeWith(disk: seq<Bytes>, window: Option<View>, from: nat): seq<(nat, Bytes)> {
    if Holding(window)
    then Numbered(disk, from, window.value.first) + WindowFrom(window.value, from)
    else Numbered(disk, from, |disk| + 1)
  }

  lemma WindowAt(acked: seq<Bytes>, w: View, k: nat)
    requires 1 <= w.first <= |acked| + 1 && acked[w.first - 1..] == w.entries && k < |w.entries|
    ensures w.entries[k] == acked[w.first - 1 + k]
  {
    assert acked[w.first - 1..][k] == acked[w.first - 1 + k];
  }

  lemma WindowJoins(acked: seq<Bytes>, w: View, from: nat)
    requires 1 <= w.first <= |acked| + 1 && acked[w.first - 1..] == w.entries
    ensures Numbered(acked, from, w.first) + WindowFrom(w, from) == Numbered(acked, from, |acked| + 1)
  {
    assert |w.entries| == |acked| - (w.first - 1);
    var whole := Numbered(acked, from, |acked| + 1);
    var parts := Numbered(acked, from, w.first) + WindowFrom(w, from);
    forall k | 0 <= k < |w.entries| ensures w.entries[k] == acked[w.first - 1 + k] {
      WindowAt(acked, w, k);
    }
    assert |whole| == |parts|;
    assert forall k :: 0 <= k < |whole| ==> whole[k] == parts[k];
  }

  // ---- the protocol, one step per critical section or disk call ----

  datatype Phase = Idle | Flushing(first: nat, batch: seq<Bytes>, durable: nat, next: nat)

  datatype State = State(disk: seq<Bytes>, pend: Option<View>, bytes: int, phase: Phase)

  datatype Step =
    | Write(payload: Bytes)
    | Begin(target: nat)   // take the flush lock and capture a batch
    | PutOne               // skip a record already on disk, or write it
    | Fail                 // a disk write or the fsync fails: the flush ends
    | Finish               // fsync done: trim the buffer

  predicate Enabled(s: State, step: Step) {
    match step
    case Write(_) => true
    case Begin(_) => s.phase.Idle?
    case PutOne => s.phase.Flushing? && s.phase.next < |s.phase.batch|
    case Fail => s.phase.Flushing?
    case Finish => s.phase.Flushing? && s.phase.next == |s.phase.batch|
  }

  function Pushed(disk: seq<Bytes>, pend: Option<View>, payload: Bytes): View {
    if Holding(pend) then View(pend.value.first, pend.value.entries + [payload])
    else View(|disk| + 1, [payload])
  }

  /** How many buffered records a flush up to `target` takes. */
  function BatchSize(pend: Option<View>, target: nat): nat {
    if !Holding(pend) || target < pend.value.first then 0
    else if target - pend.value.first + 1 < |pend.value.entries| then target - pend.value.first + 1
    else |pend.value.entries|
  }

  function Apply(s: State, step: Step): State {
    match step
    case Write(payload) => s.(pend := Some(Pushed(s.disk, s.pend, payload)), bytes := s.bytes + |payload|)
    case Begin(target) =>
      var n := BatchSize(s.pend, target);
      if n == 0 then s
      else s.(phase := Flushing(s.pend.value.first, s.pend.value.entries[..n], |s.disk|, 0))
    case PutOne =>
      if s.phase.Idle? || s.phase.next >= |s.phase.batch| then s
      else if s.phase.first + s.phase.next <= s.phase.durable then s.(phase := s.phase.(next := s.phase.next + 1))
      else s.(disk := s.disk + [s.phase.batch[s.phase.next]], phase := s.phase.(next := s.phase.next + 1))
    case Fail => s.(phase := Idle)
    case Finish =>
      if s.phase.Idle? then s
      else
        var n := |s.phase.batch|;
        s.(pend := if s.pend.Some? && s.pend.value.first == s.phase.first && n <= |s.pend.value.entries|
                   then Some(View(s.phase.first + n, s.pend.value.entries[n..])) else s.pend,
           bytes := s.bytes - TotalBytes(s.phase.batch), phase := Idle)
  }

  function Ack(acked: seq<Bytes>, step: Step): seq<Bytes> {
    if step.Write? then acked + [step.payload] else acked
  }

  ghost predicate FlushOk(s: State) {
    s.phase.Flushing? ==>
      var p := s.phase;
      && Holding(s.pend) && s.pend.value.first == p.first && 0 < |p.batch|
      && p.batch <= s.pend.value.entries && p.next <= |p.batch|
      && p.first - 1 <= p.durable
      && |s.disk| == (if p.durable >= p.first - 1 + p.next then p.durable else p.first - 1 + p.next)
  }

  ghost predicate Inv(s: State, acked: seq<Bytes>) {
    && Agree(s.disk, s.pend, acked)
    && s.bytes == (if s.pend.Some? then TotalBytes(s.pend.value.entries) else 0)
    && FlushOk(s)
  }

  /** The flusher never hands the disk log an index it already has, nor skips one. */
  lemma WritesInOrder(s: State, acked: seq<Bytes>)
    requires Inv(s, acked) && Enabled(s, PutOne) && s.phase.first + s.phase.next > s.phase.durable
    ensures s.phase.first + s.phase.next == |s.disk| + 1
    ensures s.phase.batch[s.phase.next] == acked[|s.disk|]
  {
  }

  lemma PutAgrees(s: State, acked: seq<Bytes>)
    requires Inv(s, acked) && Enabled(s, PutOne)
    ensures Inv(Apply(s, PutOne), acked)
  {
    if s.phase.first + s.phase.next > s.phase.durable {
      var n := |s.disk|;
      assert acked[..n + 1] == acked[..n] + [acked[n]];
      assert (s.disk + [acked[n]])[..s.pend.value.first - 1] == s.disk[..s.pend.value.first - 1];
    }
  }

  lemma PushAgrees(disk: seq<Bytes>, pend: Option<View>, acked: seq<Bytes>, payload: Bytes)
    requires Agree(disk, pend, acked)
    ensures Agree(disk, Some(Pushed(disk, pend, payload)), acked + [payload])
  {
    assert disk[..|disk|] == disk;
    assert (acked + [payload])[..|disk|] == acked[..|disk|];
    if Holding(pend) {
      var f, e := pend.value.first, pend.value.entries;
      assert disk[..f - 1] + (e + [payload]) == acked + [payload];
    }
  }

  lemma TrimAgrees(disk: seq<Bytes>, pend: Option<View>, acked: seq<Bytes>, n: nat)
    requires Agree(disk, pend, acked) && Holding(pend) && n <= |pend.value.entries|
    requires pend.value.first - 1 + n <= |disk|
    ensures Agree(disk, Some(View(pend.value.first + n, pend.value.entries[n..])), acked)
  {
    var f, e := pend.value.first, pend.value.entries;
    assert acked[..f - 1 + n] == disk[..f - 1] + e[..n];
    assert disk[..f - 1 + n] == acked[..|disk|][..f - 1 + n] == acked[..f - 1 + n];
    assert disk[..f - 1 + n] + e[n..] == acked;
    if n == |e| {
      assert |disk| == |acked|;
      assert acked[..|acked|] == acked;
    }
  }

  lemma FinishKeeps(s: State, acked: seq<Bytes>)
    requires Inv(s, acked) && Enabled(s, Finish)
    ensures Inv(Apply(s, Finish), acked)
  {
    var n := |s.phase.batch|;
    TrimAgrees(s.disk, s.pend, acked, n);
    TotalSplit(s.pend.value.entries, n);
    assert s.pend.value.entries[..n] == s.phase.batch;
    hide Agree, TotalBytes;
  }

  lemma WriteKeeps(s: State, acked: seq<Bytes>, payload: Bytes)
    requires Inv(s, acked)
    ensures Inv(Apply(s, Step.Write(payload)), acked + [payload])
  {
    PushAgrees(s.disk, s.pend, acked, payload);
    var v := Pushed(s.disk, s.pend, payload);
    assert v.entries[..|v.entries| - 1] == if Holding(s.pend) then s.pend.value.entries else [];
    assert s.phase.Flushing? ==> s.phase.batch <= v.entries;
  }

  lemma BeginKeeps(s: State, acked: seq<Bytes>, target: nat)
    requires Inv(s, acked) && Enabled(s, Begin(target))
    ensures Inv(Apply(s, Begin(target)), acked)
  {
  }

  /** Every step, successful or failing, keeps the two places in agreement with the
      acknowledged sequence. Both only ever grow. */
  lemma StepKeeps(s: State, acked: seq<Bytes>, step: Step)
    requires Inv(s, acked) && Enabled(s, step)
    ensures Inv(Apply(s, step), Ack(acked, step))
    ensures s.disk <= Apply(s, step).disk && acked <= Ack(acked, step)
  {
    hide Agree, TotalBytes;
    match step
    case Write(payload) => WriteKeeps(s, acked, payload);
    case Begin(target) => BeginKeeps(s, acked, target);
    case PutOne => PutAgrees(s, acked);
    case Fail =>
    case Finish => FinishKeeps(s, acked);
  }

  // ---- whole runs ----

  function After(s: State, run: seq<Step>): State {
    if run == [] then s else Apply(After(s, run[..|run| - 1]), run[|run| - 1])
  }

  function Acked(acked: seq<Bytes>, run: seq<Step>): seq<Bytes> {
    if run == [] then acked else Ack(Acked(acked, run[..|run| - 1]), run[|run| - 1])
  }

  predicate RunOk(s: State, run: seq<Step>) {
    run != [] ==> RunOk(s, run[..|run| - 1]) && Enabled(After(s, run[..|run| - 1]), run[|run| - 1])
  }

  lemma {:induction false} RunKeeps(s: State, acked: seq<Bytes>, run: seq<Step>)
    requires Inv(s, acked) && RunOk(s, run)
    ensures Inv(After(s, run), Acked(acked, run))
    ensures s.disk <= After(s, run).disk && acked <= Acked(acked, run)
    decreases |run|
  {
    if run != [] {
      hide Inv, Apply, Enabled, Ack;
      var front, last := run[..|run| - 1], run[|run| - 1];
      RunKeeps(s, acked, front);
      StepKeeps(After(s, front), Acked(acked, front), last);
    }
  }

  lemma RunOn(s: State, acked: seq<Bytes>, run: seq<Step>, step: Step)
    requires RunOk(s, run) && Enabled(After(s, run), step)
    ensures RunOk(s, run + [step]) && After(s, run + [step]) == Apply(After(s, run), step)
    ensures Acked(acked, run + [step]) == Ack(Acked(acked, run), step)
  {
    assert (run + [step])[..|run|] == run;
  }

  lemma RunNone(s: State, acked: seq<Bytes>)
    ensures RunOk(s, []) && After(s, []) == s && Acked(acked, []) == acked
  {
  }

  /** How one flush goes on. */
  lemma FlushStep(s: State, acked: seq<Bytes>, target: nat)
    requires Inv(s, acked)
    ensures s.phase.Idle? ==>
              && Enabled(s, Begin(target))
              && (Apply(s, Begin(target)).phase.Idle? <==> !Due(s.pend, target))
              && (Due(s.pend, target) ==>
                    var p := Apply(s, Begin(target)).phase;
                    && p.next == 0 && p.first + |p.batch| - 1 <= target
                    && (p.first + |p.batch| - 1 == target || p.batch == s.pend.value.entries))
    ensures s.phase.Flushing? && s.phase.next < |s.phase.batch| ==>
              Enabled(s, PutOne) && Apply(s, PutOne).phase == s.phase.(next := s.phase.next + 1)
    ensures s.phase.Flushing? && s.phase.next >= |s.phase.batch| ==>
              && Enabled(s, Finish) && Apply(s, Finish).phase.Idle? && Apply(s, Finish).disk == s.disk
              && Apply(s, Finish).pend ==
                 Some(View(s.phase.first + |s.phase.batch|, s.pend.value.entries[|s.phase.batch|..]))
              && s.phase.first + |s.phase.batch| - 1 <= |s.disk|
  {
    hide TotalBytes;
  }

  /** A write can always be taken, and a flush always run to its end: then everything up to
      the target is on disk and out of the buffer, and nothing else is. */
  lemma FlushCompletes(s: State, acked: seq<Bytes>, target: nat, payload: Bytes) returns (run: seq<Step>)
    requires Inv(s, acked) && s.phase.Idle?
    ensures Enabled(s, Step.Write(payload))
    ensures RunOk(s, run) && Acked(acked, run) == acked && Inv(After(s, run), acked) && After(s, run).phase.Idle?
    ensures Due(s.pend, target) ==>
              var v := s.pend.value;
              var n := if target - v.first < |v.entries| then target - v.first + 1 else |v.entries|;
              After(s, run).pend == Some(View(v.first + n, v.entries[n..])) && v.first + n - 1 <= |After(s, run).disk|
    ensures !Due(s.pend, target) ==> After(s, run).pend == s.pend && After(s, run).disk == s.disk
  {
    hide Inv, Apply, After, Acked, RunOk, Due, Enabled;
    RunNone(s, acked);
    FlushStep(s, acked, target);
    RunOn(s, acked, [], Begin(target));
    assert [] + [Begin(target)] == [Begin(target)];
    StepKeeps(s, acked, Begin(target));
    run := [Begin(target)];
    var t := After(s, run);
    BeginOnly(s, target);
    WriteAny(s, payload);
    if Due(s.pend, target) {
      var p := t.phase;
      while t.phase.next < |p.batch|
        invariant t == After(s, run) && RunOk(s, run) && Acked(acked, run) == acked && Inv(t, acked)
        invariant t.phase.Flushing? && t.phase == p.(next := t.phase.next) && t.pend == s.pend
        decreases |p.batch| - t.phase.next
      {
        FlushStep(t, acked, target);
        RunOn(s, acked, run, PutOne);
        StepKeeps(t, acked, PutOne);
        PutOnly(t);
        run := run + [PutOne];
        t := After(s, run);
      }
      FlushStep(t, acked, target);
      RunOn(s, acked, run, Finish);
      StepKeeps(t, acked, Finish);
      run := run + [Finish];
      DueSize(s, p, target);
    }
  }

  lemma WriteAny(s: State, payload: Bytes)
    ensures Enabled(s, Step.Write(payload)) && Ack([], PutOne) == []
  {
  }

  lemma BeginOnly(s: State, target: nat)
    requires s.phase.Idle?
    ensures Apply(s, Begin(target)).pend == s.pend && Apply(s, Begin(target)).disk == s.disk
    ensures Due(s.pend, target) ==>
              Apply(s, Begin(target)).phase.Flushing? && Apply(s, Begin(target)).phase.first == s.pend.value.first
  {
  }

  lemma PutOnly(s: State)
    ensures Apply(s, PutOne).pend == s.pend
  {
  }

  lemma DueSize(s: State, p: Phase, target: nat)
    requires Due(s.pend, target) && p == Apply(s, Begin(target)).phase && s.phase.Idle?
    ensures var v := s.pend.value;
            p.Flushing? && p.first == v.first &&
            |p.batch| == if target - v.first < |v.entries| then target - v.first + 1 else |v.entries|
  {
  }

  /** Over every interleaving of writes, partial flushes, failures and retries,
      reads and the tail index are those of the acknowledged sequence, and the
      meter is the buffered total. */
  lemma RunRefines(disk: seq<Bytes>, run: seq<Step>, idx: nat)
    requires RunOk(State(disk, None, 0, Idle), run)
    ensures var s := After(State(disk, None, 0, Idle), run);
            var acked := Acked(disk, run);
            && (if ViewAt(s.pend, idx).Some? then ViewAt(s.pend, idx) else DiskAt(s.disk, idx)) == DiskAt(acked, idx)
            && LastOf(s.disk, s.pend) == |acked|
            && s.bytes == (if s.pend.Some? then TotalBytes(s.pend.value.entries) else 0)
            && s.disk <= acked
  {
    var s0 := State(disk, None, 0, Idle);
    RunKeeps(s0, disk, run);
    ReadAgrees(After(s0, run).disk, After(s0, run).pend, Acked(disk, run), idx);
  }

  /** A read loads the window and then the disk, and the tail index likewise; other steps
      may run in between. The read answers as at one end of the interval, and the index is
      one the log had within it. */
  lemma ReadSnapshot(s: State, acked: seq<Bytes>, run: seq<Step>, idx: nat)
    requires Inv(s, acked) && RunOk(s, run)
    ensures var now, later := After(s, run), Acked(acked, run);
            var read := if ViewAt(s.pend, idx).Some? then ViewAt(s.pend, idx) else DiskAt(now.disk, idx);
            && read in {DiskAt(acked, idx), DiskAt(later, idx)}
            && |acked| <= LastOf(now.disk, s.pend) <= |later|
  {
    RunKeeps(s, acked, run);
    hide After, Acked, RunOk, FlushOk;
    var now, later := After(s, run), Acked(acked, run);
    ReadAgrees(s.disk, s.pend, acked, idx);
    ReadAgrees(now.disk, now.pend, later, idx);
    DiskWithin(now.disk, now.pend, later, idx);
    if 1 <= idx <= |s.disk| {
      assert now.disk[..|s.disk|][idx - 1] == s.disk[idx - 1];
    }
  }

  lemma DiskWithin(disk: seq<Bytes>, pend: Option<View>, acked: seq<Bytes>, idx: nat)
    requires Agree(disk, pend, acked)
    ensures |disk| <= |acked| && (1 <= idx <= |disk| ==> disk[idx - 1] == acked[idx - 1])
  {
    if Holding(pend) && 1 <= idx <= |disk| {
      assert disk[idx - 1] == acked[..|disk|][idx - 1];
    }
  }

  /** A Range that captured its window before any further steps ran yields exactly
      one history: everything acknowledged at the capture, nothing twice, and never
      a record that was not acknowledged. */
  lemma RangeSnapshot(s: State, acked: seq<Bytes>, run: seq<Step>, from: nat)
    requires Inv(s, acked) && RunOk(s, run)
    ensures var now, later := After(s, run), Acked(acked, run);
            var seen := if Holding(s.pend) then acked else now.disk;
            && acked <= seen <= later
            && RangeWith(now.disk, s.pend, from) == Numbered(seen, from, |seen| + 1)
  {
    hide *;
    RunKeeps(s, acked, run);
    var now, later := After(s, run), Acked(acked, run);
    InvAgrees(s, acked);
    DiskPrefix(now, later);
    if Holding(s.pend) {
      WindowedRange(s.disk, s.pend, acked, now.disk, from);
    } else {
      PlainRange(s.disk, s.pend, acked, now.disk, from);
    }
  }

  lemma InvAgrees(s: State, acked: seq<Bytes>)
    requires Inv(s, acked)
    ensures Agree(s.disk, s.pend, acked)
  {
  }

  /** Below the window the disk may have grown; what is read there has not changed. */
  lemma WindowedRange(disk: seq<Bytes>, pend: Option<View>, acked: seq<Bytes>, now: seq<Bytes>, from: nat)
    requires Agree(disk, pend, acked) && Holding(pend) && disk <= now
    ensures RangeWith(now, pend, from) == Numbered(acked, from, |acked| + 1)
  {
    hide Numbered, WindowFrom;
    var v := pend.value;
    AgreeWindow(disk, v, acked);
    assert now[..v.first - 1] == disk[..v.first - 1];
    NumberedBelow(acked, now, from, v.first);
    WindowJoins(acked, v, from);
  }

  lemma PlainRange(disk: seq<Bytes>, pend: Option<View>, acked: seq<Bytes>, now: seq<Bytes>, from: nat)
    requires Agree(disk, pend, acked) && !Holding(pend)
    ensures disk == acked && RangeWith(now, pend, from) == Numbered(now, from, |now| + 1)
  {
    hide Numbered;
  }

  lemma DiskPrefix(s: State, acked: seq<Bytes>)
    requires Inv(s, acked)
    ensures s.disk <= acked
  {
  }

  // ---- the log object, over a real disk log ----

  /** Every buffered record fits a segment. */
  ghost predicate Fits(size: nat, pend: Option<View>) {
    pend.Some? && size > 0 ==> forall i :: 0 <= i < |pend.value.entries| ==> FrameSize(pend.value.entries[i]) <= size
  }

  lemma FitsAt(size: nat, pend: Option<View>, n: nat, i: nat)
    requires Fits(size, pend) && pend.Some? && i < n <= |pend.value.entries|
    ensures size == 0 || FrameSize(pend.value.entries[..n][i]) <= size
  {
  }

  /** A buffered record lies at or below the target. */
  predicate Due(pend: Option<View>, target: nat) {
    pend.Some? && pend.value.entries != [] && pend.value.first <= target
  }

  lemma DueIs(pend: Option<View>, target: nat)
    ensures Due(pend, target) <==> pend.Some? && pend.value.entries != [] && pend.value.first <= target
    ensures BatchSize(pend, target) ==
            if !Due(pend, target) then 0
            else if target - pend.value.first < |pend.value.entries| then target - pend.value.first + 1
            else |pend.value.entries|
  {
  }

  /** How many acknowledged records are no longer in the buffer. */
  function Unbuffered(pend: Option<View>, acked: seq<Bytes>): int {
    if Holding(pend) then pend.value.first - 1 else |acked|
  }

  lemma HoldingIs(pend: Option<View>)
    ensures Holding(pend) <==> pend.Some? && pend.value.entries != []
  {
  }

  lemma UnbufferedPushed(disk: seq<Bytes>, pend: Option<View>, acked: seq<Bytes>, payload: Bytes)
    requires Agree(disk, pend, acked)
    ensures Unbuffered(Some(Pushed(disk, pend, payload)), acked + [payload]) == Unbuffered(pend, acked)
  {
  }

  /** Once a sync has reached the last record, the buffer is empty. */
  lemma AllSynced(disk: seq<Bytes>, v: View, acked: seq<Bytes>, n: nat, durable: nat)
    requires n == |v.entries| && Agree(disk, Some(View(v.first + n, v.entries[n..])), acked)
    requires Unbuffered(Some(View(v.first + n, v.entries[n..])), acked) <= durable <= |disk|
    ensures !Holding(Some(View(v.first + n, v.entries[n..]))) && disk == acked && durable == |acked|
    ensures TotalBytes(v.entries[n..]) == 0
  {
  }

  class Buffered {
    const inner: Log
    const maxLag: nat
    var pend: Option<View>
    var pendingBytes: int
    ghost var acked: seq<Bytes>
    ghost var durable: nat     // how many records the last good fsync covered

    /** A record leaves the buffer only behind a good fsync. */
    ghost predicate Valid()
      reads this, inner, inner.ancestors
    {
      && inner.Valid()
      && Agree(inner.Shown(), pend, acked)
      && pendingBytes == (if pend.Some? then TotalBytes(pend.value.entries) else 0)
      && Unbuffered(pend, acked) <= durable <= |inner.Shown()|
    }

    lemma Parts()
      requires Valid()
      ensures inner.Valid() && inner.Linked() && Agree(inner.Shown(), pend, acked)
      ensures pendingBytes == (if pend.Some? then TotalBytes(pend.value.entries) else 0)
      ensures Unbuffered(pend, acked) <= durable <= |inner.Shown()|
    {
    }

    lemma Establish()
      requires inner.Valid() && Agree(inner.Shown(), pend, acked)
      requires pendingBytes == (if pend.Some? then TotalBytes(pend.value.entries) else 0)
      requires Unbuffered(pend, acked) <= durable <= |inner.Shown()|
      ensures Valid()
    {
    }

    /** Nothing on disk can refuse a buffered record. */
    ghost predicate Flows()
      reads this, inner
    {
      !inner.readOnly && !Frozen(inner.kids) && inner.mode.None? && Fits(inner.segmentSize, pend)
    }

    lemma FlowsMeans()
      ensures Flows() <==> !inner.readOnly && !Frozen(inner.kids) && inner.mode.None? && Fits(inner.segmentSize, pend)
    {
    }

    constructor Open(log: Log, lag: nat)
      requires log.Valid()
      ensures Valid() && inner == log && maxLag == lag && acked == log.Shown() && pend.None?
    {
      inner, maxLag, pend, pendingBytes, acked, durable := log, lag, None, 0, log.Shown(), |log.Shown()|;
    }

    method Read(idx: nat) returns (r: Option<Bytes>)
      requires Valid()
      ensures r == DiskAt(acked, idx)
    {
      hide Agree, TotalBytes, Lineage.LineVisible;
      ReadAgrees(inner.Shown(), pend, acked, idx);
      r := ViewAt(pend, idx);
      if r.None? {
        r := inner.Read(idx);
      }
    }

    /** Range without interference: the disk below the window, then the window. */
    method Range(from: nat) returns (out: seq<(nat, Bytes)>)
      requires Valid()
      ensures out == Numbered(acked, from, |acked| + 1)
    {
      hide *;
      Parts();
      if pend.None? || pend.value.entries == [] {
        inner.NextFollowsShown();
        AgreeEmpty(inner.Shown(), pend, acked);
        var first := if inner.forkBase > 0 then inner.forkBase else 1;
        out := inner.Range(from, NextIndex(first, inner.sealed, inner.active));
        return;
      }
      var v := pend.value;
      AgreeWindow(inner.Shown(), v, acked);
      out := inner.Range(from, v.first);
      NumberedBelow(acked, inner.Shown(), from, v.first);
      WindowJoins(acked, v, from);
      ghost var below := out;
      var i := 0;
      WindowNone(v, from);
      while i < |v.entries|
        invariant 0 <= i <= |v.entries|
        invariant out == below + WindowFrom(View(v.first, v.entries[..i]), from)
      {
        WindowGrows(v, i, from);
        if v.first + i >= from {
          out := out + [(v.first + i, v.entries[i])];
        }
        i := i + 1;
      }
      assert v.entries[..i] == v.entries;
    }

    /** Hand the first `n` buffered records to the disk log, skipping those an
        interrupted attempt already put there. */
    method PutBatch(n: nat) returns (ok: bool)
      requires Valid() && pend.Some? && Holding(pend) && n <= |pend.value.entries|
                 && 1 <= pend.value.first <= |inner.Shown()| + 1
      modifies inner`sealed, inner`active, inner`readOnly
      ensures Valid() && old(inner.Shown()) <= inner.Shown()
      ensures |inner.Shown()| < pend.value.first + n || inner.Shown() == old(inner.Shown())
      ensures ok ==> |inner.Shown()| >= pend.value.first + n - 1
      ensures old(Flows()) ==> ok
    {
      hide *;
      Parts();
      FlowsMeans();
      var first, batch := pend.value.first, pend.value.entries[..n];
      inner.NextFollowsShown();
      var durable := NextIndex(if inner.forkBase > 0 then inner.forkBase else 1, inner.sealed, inner.active) - 1;
      ghost var start, flows := inner.Shown(), Flows();
      var i := 0;
      while i < n
        invariant 0 <= i <= n && inner.Valid() && Agree(inner.Shown(), pend, acked)
        invariant start <= inner.Shown()
        invariant |inner.Shown()| == if durable >= first - 1 + i then durable else first - 1 + i
        invariant flows ==> !inner.readOnly && !Frozen(inner.kids) && inner.mode.None? && Fits(inner.segmentSize, pend)
      {
        if first + i > durable {
          BatchRecord(inner.Shown(), pend, acked, n, i);
          if flows {
            FitsAt(inner.segmentSize, pend, n, i);
          }
          var w := inner.Write(first + i, batch[i]);
          if !w.Landed? {
            Establish();
            return false;
          }
        }
        i := i + 1;
      }
      Establish();
      return true;
    }

    /** Drop the first `n` buffered records, which are on disk. */
    method Trim(n: nat)
      requires Valid() && pend.Some? && Holding(pend) && n <= |pend.value.entries|
      requires pend.value.first + n - 1 <= durable
      modifies this`pend, this`pendingBytes
      ensures Valid() && pend == Some(View(old(pend).value.first + n, old(pend).value.entries[n..]))
    {
      hide *;
      Parts();
      TrimAgrees(inner.Shown(), pend, acked, n);
      TotalSplit(pend.value.entries, n);
      HoldingIs(pend);
      UnbufferedLater(inner.Shown(), pend.value, acked, n, durable);
      pendingBytes := pendingBytes - TotalBytes(pend.value.entries[..n]);
      pend := Some(View(pend.value.first + n, pend.value.entries[n..]));
      Establish();
    }

    /** Write the buffered records up to `target`, sync, and only then trim. A disk
        failure, or a failing sync, leaves the buffer as it is, for a retry; success takes
        exactly the records up to the target out of it. */
    method SyncThrough(target: nat, fsyncOk: bool) returns (ok: bool)
      requires Valid()
      modifies this`pend, this`pendingBytes, this`durable, inner`sealed, inner`active, inner`readOnly
      ensures !ok ==> pend == old(pend) && pendingBytes == old(pendingBytes) && durable == old(durable)
      ensures Due(old(pend), target) && !fsyncOk ==> !ok
      ensures Due(old(pend), target) && ok ==>
                var was := old(pend).value;
                var n := if target - was.first < |was.entries| then target - was.first + 1 else |was.entries|;
                pend == Some(View(was.first + n, was.entries[n..])) && was.first + n - 1 <= durable
      ensures !Due(old(pend), target) ==>
                ok && pend == old(pend) && pendingBytes == old(pendingBytes) && inner.Shown() == old(inner.Shown())
      ensures Valid() && acked == old(acked)
      ensures old(inner.Shown()) <= inner.Shown()
      ensures |inner.Shown()| <= target || inner.Shown() == old(inner.Shown())
      ensures ok ==> target <= |inner.Shown()| || inner.Shown() == acked
      ensures ok ==> Holding(pend) ==> pend.value.first > target
      ensures fsyncOk && old(Flows()) ==> ok
    {
      hide *;
      Parts();
      var n := BatchSize(pend, target);
      BatchFacts(inner.Shown(), pend, acked, target);
      DueIs(pend, target);
      if n == 0 {
        return true;
      }
      var put := PutBatch(n);
      if !put || !fsyncOk {
        return false;
      }
      Parts();
      durable := |inner.Shown()|;
      Establish();
      Trim(n);
      Parts();
      Trimmed(inner.Shown(), pend.value, acked, target);
      return true;
    }

    /** Acknowledge one record: exactly the next index, on a log that is not frozen. */
    method Append(idx: nat, payload: Bytes) returns (r: WriteResult)
      requires Valid()
      modifies this`pend, this`pendingBytes, this`acked
      ensures Valid()
      ensures r == ReadOnly || r == OutOfOrder || r == Landed
      ensures r.ReadOnly? <==> inner.readOnly
      ensures r.OutOfOrder? <==> !r.ReadOnly? && idx != |old(acked)| + 1
      ensures !r.Landed? ==> acked == old(acked) && pend == old(pend) && pendingBytes == old(pendingBytes)
      ensures r.Landed? ==>
                && acked == old(acked) + [payload] && pend == Some(Pushed(inner.Shown(), old(pend), payload))
                && pendingBytes == old(pendingBytes) + |payload|
    {
      hide *;
      Parts();
      if inner.readOnly {
        return ReadOnly;
      }
      inner.NextFollowsShown();
      ReadAgrees(inner.Shown(), pend, acked, idx);
      var holding := pend.Some? && pend.value.entries != [];
      var last := if holding then pend.value.first + |pend.value.entries| - 1
                  else NextIndex(if inner.forkBase > 0 then inner.forkBase else 1, inner.sealed, inner.active) - 1;
      PushAgrees(inner.Shown(), pend, acked, payload);
      PushFacts(inner.Shown(), pend, payload);
      if idx != last + 1 {
        return OutOfOrder;
      }
      UnbufferedPushed(inner.Shown(), pend, acked, payload);
      pend := Some(if holding then View(pend.value.first, pend.value.entries + [payload]) else View(idx, [payload]));
      pendingBytes := pendingBytes + |payload|;
      acked := acked + [payload];
      Establish();
      return Landed;
    }

    /** Acknowledge one record. It is readable at once; the disk is touched only when
        the buffer has grown past its bound, and then the buffer is empty or as it was. */
    method Write(idx: nat, payload: Bytes, fsyncOk: bool) returns (r: WriteResult, synced: bool)
      requires Valid()
      modifies this, inner`sealed, inner`active, inner`readOnly
      ensures Valid()
      ensures r.ReadOnly? <==> old(inner.readOnly)
      ensures r.OutOfOrder? <==> !r.ReadOnly? && idx != |old(acked)| + 1
      ensures r == ReadOnly || r == OutOfOrder || r == Landed
      ensures acked == if r.Landed? then old(acked) + [payload] else old(acked)
      ensures !r.Landed? ==>
                synced && pend == old(pend) && pendingBytes == old(pendingBytes) && inner.Shown() == old(inner.Shown())
      ensures var lag := old(pendingBytes) + |payload|;
              r.Landed? ==>
                && (!synced || lag <= maxLag ==>
                      pend == Some(Pushed(old(inner.Shown()), old(pend), payload)) && pendingBytes == lag)
                && (lag <= maxLag ==> synced && inner.Shown() == old(inner.Shown()))
                && (lag > maxLag && !fsyncOk ==> !synced)
                && (lag > maxLag && synced ==> !Holding(pend) && inner.Shown() == acked && durable == |acked|)
                && (synced ==> pendingBytes <= maxLag)
    {
      hide *;
      Parts();
      r := Append(idx, payload);
      synced := true;
      if r.Landed? && pendingBytes > maxLag {
        PushedIs(inner.Shown(), old(pend), old(acked), payload);
        ghost var v := pend.value;
        DueIs(pend, idx);
        synced := SyncThrough(idx, fsyncOk);
        Parts();
        if synced {
          AllSynced(inner.Shown(), v, acked, |v.entries|, durable);
        }
      }
    }
  }

  lemma PushedIs(disk: seq<Bytes>, pend: Option<View>, acked: seq<Bytes>, payload: Bytes)
    requires Agree(disk, pend, acked)
    ensures var v := Pushed(disk, pend, payload);
            v.entries != [] && v.first + |v.entries| - 1 == |acked| + 1
  {
  }

  lemma UnbufferedLater(disk: seq<Bytes>, v: View, acked: seq<Bytes>, n: nat, durable: nat)
    requires Agree(disk, Some(v), acked) && v.entries != [] && n <= |v.entries| && v.first + n - 1 <= durable
    ensures Unbuffered(Some(View(v.first + n, v.entries[n..])), acked) <= durable
  {
  }

  lemma WindowNone(w: View, from: nat)
    ensures WindowFrom(View(w.first, w.entries[..0]), from) == []
  {
  }

  lemma AgreeEmpty(disk: seq<Bytes>, pend: Option<View>, acked: seq<Bytes>)
    requires Agree(disk, pend, acked) && (pend.None? || pend.value.entries == [])
    ensures disk == acked
  {
  }

  lemma AgreeWindow(disk: seq<Bytes>, v: View, acked: seq<Bytes>)
    requires Agree(disk, Some(v), acked) && v.entries != []
    ensures 1 <= v.first <= |disk| + 1 && v.first <= |acked| + 1
    ensures acked[v.first - 1..] == v.entries && acked[..v.first - 1] == disk[..v.first - 1]
  {
  }

  lemma PushFacts(disk: seq<Bytes>, pend: Option<View>, payload: Bytes)
    ensures TotalBytes(Pushed(disk, pend, payload).entries) ==
            (if pend.Some? then TotalBytes(pend.value.entries) else 0) + |payload|
    ensures pend.Some? && pend.value.entries != [] ==>
              Pushed(disk, pend, payload) == View(pend.value.first, pend.value.entries + [payload]) &&
              LastOf(disk, pend) == pend.value.first + |pend.value.entries| - 1
    ensures pend.None? || pend.value.entries == [] ==>
              Pushed(disk, pend, payload) == View(|disk| + 1, [payload]) && LastOf(disk, pend) == |disk|
  {
    var v := Pushed(disk, pend, payload);
    assert v.entries[..|v.entries| - 1] == if Holding(pend) then pend.value.entries else [];
  }

  lemma BatchFacts(disk: seq<Bytes>, pend: Option<View>, acked: seq<Bytes>, target: nat)
    requires Agree(disk, pend, acked)
    ensures var n := BatchSize(pend, target);
            if n == 0 then (target <= |disk| || disk == acked) && (Holding(pend) ==> pend.value.first > target)
            else && Holding(pend) && n <= |pend.value.entries| && 1 <= pend.value.first <= |disk| + 1
                 && pend.value.first + n - 1 <= target
                 && (target < pend.value.first + n || n == |pend.value.entries|)
  {
  }

  lemma Trimmed(disk: seq<Bytes>, v: View, acked: seq<Bytes>, target: nat)
    requires Agree(disk, Some(v), acked) && v.first <= |disk| + 1
    requires target < v.first || v.entries == []
    ensures target <= |disk| || disk == acked
    ensures Holding(Some(v)) ==> v.first > target
  {
  }

  lemma BatchRecord(disk: seq<Bytes>, pend: Option<View>, acked: seq<Bytes>, n: nat, i: nat)
    requires Agree(disk, pend, acked) && Holding(pend) && i < n <= |pend.value.entries|
    requires |disk| == pend.value.first - 1 + i
    ensures Agree(disk + [pend.value.entries[..n][i]], pend, acked)
  {
    var k := |disk|;
    assert acked[..k + 1] == acked[..k] + [acked[k]];
    assert (disk + [acked[k]])[..pend.value.first - 1] == disk[..pend.value.first - 1];
  }

  lemma WindowGrows(w: View, i: nat, from: nat)
    requires i < |w.entries|
    ensures WindowFrom(View(w.first, w.entries[..i + 1]), from) ==
            WindowFrom(View(w.first, w.entries[..i]), from) +
            (if w.first + i >= from then [(w.first + i, w.entries[i])] else [])
  {
  }
}
