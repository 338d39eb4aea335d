/**
 The coherent flush. Main goes to disk first; every related channel follows only as
 far as its records refer to main records already on disk. Appends race the flush and
 any write can fail or be the last one before a crash, so the claim is about every
 state in between: nothing on disk refers to a main record that is not.
 */
module CoherentCut {
  import opened Basics
  import opened FlatForest
  import opened ForestRuns

  /** One channel of a lineage: everything acknowledged, how much of it is on disk, and
      how much has left the pending buffer. */
  datatype Chan = Chan(all: History, disk: nat, trimmed: nat)

  type Chans = map<string, Chan>

  ghost predicate ChanOk(cfg: Config, ch: string, c: Chan) {
    && c.trimmed <= c.disk <= |c.all|
    && (cfg.Keyed(ch) ==> Sorted(c.all))
    && (cfg.Unkeyed(ch) ==> forall i :: 0 <= i < |c.all| ==> c.all[i].key == 0)
  }

  /** How far ahead of main a channel may be: one patch for a reducible one. */
  function Limit(cfg: Config, ch: string, tail: nat): nat {
    if ch in cfg.related && cfg.related[ch].reducible then tail + 1 else tail
  }

  /** Nothing on disk in this channel refers past the limit. */
  ghost predicate Within(cfg: Config, ch: string, c: Chan, tail: nat) {
    forall i :: 0 <= i < c.disk && i < |c.all| ==> c.all[i].key <= Limit(cfg, ch, tail)
  }

  ghost predicate Coherent(cfg: Config, s: Chans) {
    && cfg.main in s
    && forall ch :: ch in cfg.related && ch in s ==> Within(cfg, ch, s[ch], s[cfg.main].disk)
  }

  /** The same in numbers: no record on disk refers past the last main record on disk, but
      for one patch of a reducible channel to the record after it. */
  ghost predicate NoneAhead(cfg: Config, s: Chans) {
    forall ch, i :: ch in cfg.related && ch in s && cfg.main in s && 0 <= i < s[ch].disk && i < |s[ch].all| ==>
      s[ch].all[i].key <= s[cfg.main].disk || (cfg.related[ch].reducible && s[ch].all[i].key == s[cfg.main].disk + 1)
  }

  lemma CoherentIs(cfg: Config, s: Chans)
    requires cfg.main in s
    ensures Coherent(cfg, s) <==> NoneAhead(cfg, s)
  {
    if NoneAhead(cfg, s) {
      forall ch | ch in cfg.related && ch in s ensures Within(cfg, ch, s[ch], s[cfg.main].disk) {
      }
    } else {
      var ch, i :| ch in cfg.related && ch in s && 0 <= i < s[ch].disk && i < |s[ch].all|
        && !(s[ch].all[i].key <= s[cfg.main].disk
             || (cfg.related[ch].reducible && s[ch].all[i].key == s[cfg.main].disk + 1));
      assert !Within(cfg, ch, s[ch], s[cfg.main].disk);
    }
  }

  /** Main is on disk. Every record that is not refers past the last main record, and in a
      reducible channel past the one after it. */
  ghost predicate NoneMissing(cfg: Config, s: Chans) {
    && cfg.main in s && s[cfg.main].disk == |s[cfg.main].all|
    && forall ch, i :: ch in cfg.related && ch in s && s[ch].disk <= i < |s[ch].all| ==>
         s[ch].all[i].key > |s[cfg.main].all| + if cfg.related[ch].reducible then 1 else 0
  }

  ghost predicate ChansOk(cfg: Config, s: Chans) {
    && cfg.Valid() && s.Keys == cfg.Names()
    && forall ch :: ch in s ==> ChanOk(cfg, ch, s[ch])
  }

  // ---- how far a channel may go ----

  /** The highest pending index that may reach disk, or 0. */
  function Target(c: Chan, limit: nat): nat {
    var i := AtOrBelow(c.all, limit);
    if i > c.trimmed then i else 0
  }

  lemma AtOrBelowAll(h: History, limit: nat, k: nat)
    requires Sorted(h) && k <= AtOrBelow(h, limit)
    ensures forall i :: 0 <= i < k ==> h[i].key <= limit
  {
    AtOrBelowIs(h, limit);
  }

  /** The code's scan of the pending range, newest first. */
  method CoherentTarget(c: Chan, limit: nat) returns (target: nat)
    requires c.trimmed <= |c.all|
    ensures target == Target(c, limit)
  {
    if c.trimmed == |c.all| {
      return 0;
    }
    var idx := |c.all|;
    assert c.all[..|c.all|] == c.all;
    while idx > c.trimmed
      invariant c.trimmed <= idx <= |c.all| && AtOrBelow(c.all, limit) == AtOrBelow(c.all[..idx], limit)
    {
      assert c.all[..idx][..idx - 1] == c.all[..idx - 1];
      if c.all[idx - 1].key <= limit {
        return idx;
      }
      idx := idx - 1;
    }
    return 0;
  }

  // ---- the flush as steps, with appends in between ----

  datatype Phase =
    | Idle
    | MainWriting(upto: nat)
    | Picking(todo: seq<string>, tail: nat)
    | Picked(todo: seq<string>, tail: nat, target: nat)
    | Writing(todo: seq<string>, tail: nat, upto: nat)

  datatype State = State(chans: Chans, phase: Phase)

  datatype Step =
    | Acknowledge(ch: string, r: Record)
    | StartMain
    | WriteMain
    | EndMain(order: seq<string>)
    | Pick
    | Begin
    | Write
    | End
    | Finish
    | Fail

  ghost predicate Enabled(cfg: Config, s: State, step: Step) {
    match step
    case Acknowledge(ch, r) =>
      && ch in s.chans
      && (cfg.Keyed(ch) && s.chans[ch].all != [] ==> s.chans[ch].all[|s.chans[ch].all| - 1].key <= r.key)
      && (cfg.Unkeyed(ch) ==> r.key == 0)
    case StartMain => s.phase.Idle? && cfg.main in s.chans
    case WriteMain => s.phase.MainWriting? && cfg.main in s.chans && s.chans[cfg.main].disk < s.phase.upto
    case EndMain(order) =>
      && s.phase.MainWriting? && cfg.main in s.chans && s.chans[cfg.main].disk >= s.phase.upto
      && (forall ch :: ch in order ==> ch in cfg.related)
    case Pick => s.phase.Picking? && s.phase.todo != [] && s.phase.todo[0] in s.chans
    case Begin => s.phase.Picked? && s.phase.todo != [] && s.phase.todo[0] in s.chans
    case Write => s.phase.Writing? && s.phase.todo != [] && s.phase.todo[0] in s.chans
        && s.chans[s.phase.todo[0]].disk < s.phase.upto
    case End => s.phase.Writing? && s.phase.todo != [] && s.phase.todo[0] in s.chans
        && s.chans[s.phase.todo[0]].disk >= s.phase.upto
    case Finish => s.phase.Picking? && s.phase.todo == []
    case Fail => true
  }

  function Wrote(c: Chan): Chan {
    c.(disk := c.disk + 1)
  }

  /** The buffer loses what the finished batch covered. */
  function Trimmed(c: Chan, upto: nat): Chan {
    if c.trimmed < upto then c.(trimmed := upto) else c
  }

  ghost function Apply(cfg: Config, s: State, step: Step): State
    requires Enabled(cfg, s, step)
  {
    match step
    case Acknowledge(ch, r) => s.(chans := s.chans[ch := s.chans[ch].(all := s.chans[ch].all + [r])])
    case StartMain => s.(phase := MainWriting(|s.chans[cfg.main].all|))
    case WriteMain => s.(chans := s.chans[cfg.main := Wrote(s.chans[cfg.main])])
    case EndMain(order) =>
      s.(chans := s.chans[cfg.main := Trimmed(s.chans[cfg.main], s.phase.upto)],
         phase := Picking(order, s.chans[cfg.main].disk))
    case Pick =>
      var ch := s.phase.todo[0];
      s.(phase := Picked(s.phase.todo, s.phase.tail, Target(s.chans[ch], Limit(cfg, ch, s.phase.tail))))
    case Begin =>
      var c := s.chans[s.phase.todo[0]];
      if s.phase.target <= c.trimmed then s.(phase := Picking(s.phase.todo[1..], s.phase.tail))
      else s.(phase := Writing(s.phase.todo, s.phase.tail, s.phase.target))
    case Write =>
      var ch := s.phase.todo[0];
      s.(chans := s.chans[ch := Wrote(s.chans[ch])])
    case End =>
      var ch := s.phase.todo[0];
      State(s.chans[ch := Trimmed(s.chans[ch], s.phase.upto)], Picking(s.phase.todo[1..], s.phase.tail))
    case Finish => s.(phase := Idle)
    case Fail => s.(phase := Idle)
  }

  /** A target is safe as long as main only grows: all it lets through refers to
      main records that were on disk when the cut was taken. */
  ghost predicate Safe(cfg: Config, s: State, ch: string, tail: nat, target: nat) {
    && ch in cfg.related && ch in s.chans && cfg.main in s.chans && tail <= s.chans[cfg.main].disk
    && target <= |s.chans[ch].all|
    && forall i :: 0 <= i < target ==> s.chans[ch].all[i].key <= Limit(cfg, ch, tail)
  }

  ghost predicate PhaseOk(cfg: Config, s: State) {
    match s.phase
    case Idle => true
    case MainWriting(upto) => cfg.main in s.chans && upto <= |s.chans[cfg.main].all|
    case Picking(todo, tail) =>
      cfg.main in s.chans && tail <= s.chans[cfg.main].disk && forall ch :: ch in todo ==> ch in cfg.related
    case Picked(todo, tail, target) =>
      && cfg.main in s.chans && tail <= s.chans[cfg.main].disk && (forall ch :: ch in todo ==> ch in cfg.related)
      && todo != [] && Safe(cfg, s, todo[0], tail, target)
    case Writing(todo, tail, upto) =>
      && cfg.main in s.chans && tail <= s.chans[cfg.main].disk && (forall ch :: ch in todo ==> ch in cfg.related)
      && todo != [] && Safe(cfg, s, todo[0], tail, upto)
  }

  ghost predicate Inv(cfg: Config, s: State) {
    ChansOk(cfg, s.chans) && Coherent(cfg, s.chans) && PhaseOk(cfg, s)
  }

  lemma AcknowledgeKeeps(cfg: Config, s: State, ch: string, r: Record)
    requires Inv(cfg, s) && Enabled(cfg, s, Acknowledge(ch, r))
    ensures Inv(cfg, Apply(cfg, s, Acknowledge(ch, r)))
  {
    var s' := Apply(cfg, s, Acknowledge(ch, r));
    assert ChanOk(cfg, ch, s.chans[ch]);
    if cfg.Keyed(ch) {
      SortedGrows(s.chans[ch].all, r);
    }
    hide Sorted;
    assert ChanOk(cfg, ch, s'.chans[ch]);
    assert forall c :: c in cfg.related ==> Within(cfg, c, s.chans[c], s.chans[cfg.main].disk);
  }

  lemma WriteMainKeeps(cfg: Config, s: State)
    requires Inv(cfg, s) && Enabled(cfg, s, WriteMain)
    ensures Inv(cfg, Apply(cfg, s, WriteMain))
  {
    hide Sorted;
    var s' := Apply(cfg, s, WriteMain);
    assert ChanOk(cfg, cfg.main, s.chans[cfg.main]);
    forall ch | ch in cfg.related ensures Within(cfg, ch, s'.chans[ch], s'.chans[cfg.main].disk) {
      assert Within(cfg, ch, s.chans[ch], s.chans[cfg.main].disk);
    }
  }

  lemma PickKeeps(cfg: Config, s: State)
    requires Inv(cfg, s) && Enabled(cfg, s, Pick)
    ensures Inv(cfg, Apply(cfg, s, Pick))
  {
    var ch := s.phase.todo[0];
    var c, limit := s.chans[ch], Limit(cfg, ch, s.phase.tail);
    assert ch in s.phase.todo && ChanOk(cfg, ch, c);
    if cfg.Keyed(ch) {
      AtOrBelowAll(c.all, limit, Target(c, limit));
    }
    hide Sorted, AtOrBelow;
  }

  lemma WriteKeeps(cfg: Config, s: State)
    requires Inv(cfg, s) && Enabled(cfg, s, Write)
    ensures Inv(cfg, Apply(cfg, s, Write))
  {
    hide Sorted;
    var ch, s' := s.phase.todo[0], Apply(cfg, s, Write);
    assert ch in cfg.related && ChanOk(cfg, ch, s.chans[ch]) && ch != cfg.main;
    forall c | c in cfg.related ensures Within(cfg, c, s'.chans[c], s'.chans[cfg.main].disk) {
      assert Within(cfg, c, s.chans[c], s.chans[cfg.main].disk);
    }
  }

  lemma TrimKeeps(cfg: Config, s: State, ch: string, upto: nat, phase: Phase)
    requires ChansOk(cfg, s.chans) && Coherent(cfg, s.chans) && ch in s.chans && upto <= s.chans[ch].disk
    ensures var t := s.chans[ch := Trimmed(s.chans[ch], upto)]; ChansOk(cfg, t) && Coherent(cfg, t)
  {
    hide Sorted;
    var t := s.chans[ch := Trimmed(s.chans[ch], upto)];
    assert ChanOk(cfg, ch, s.chans[ch]);
    forall c | c in cfg.related && c in t ensures Within(cfg, c, t[c], t[cfg.main].disk) {
      assert Within(cfg, c, s.chans[c], s.chans[cfg.main].disk);
    }
  }

  lemma PhaseKeeps(cfg: Config, s: State, step: Step)
    requires Inv(cfg, s) && Enabled(cfg, s, step) && (step.StartMain? || step.Begin? || step.Finish? || step.Fail?)
    ensures Inv(cfg, Apply(cfg, s, step))
  {
    hide ChansOk, Coherent, Sorted, Within, Limit;
  }

  lemma EndMainKeeps(cfg: Config, s: State, order: seq<string>)
    requires Inv(cfg, s) && Enabled(cfg, s, EndMain(order))
    ensures Inv(cfg, Apply(cfg, s, EndMain(order)))
  {
    hide ChansOk, Coherent, Sorted;
    TrimKeeps(cfg, s, cfg.main, s.phase.upto, s.phase);
  }

  lemma EndKeeps(cfg: Config, s: State)
    requires Inv(cfg, s) && Enabled(cfg, s, End)
    ensures Inv(cfg, Apply(cfg, s, End))
  {
    hide Coherent, Sorted, ChanOk;
    var ch := s.phase.todo[0];
    assert ch in s.phase.todo && ch in cfg.related && ch != cfg.main;
    TrimKeeps(cfg, s, ch, s.phase.upto, s.phase);
  }

  lemma StepKeeps(cfg: Config, s: State, step: Step)
    requires Inv(cfg, s) && Enabled(cfg, s, step)
    ensures Inv(cfg, Apply(cfg, s, step))
  {
    hide *;
    match step
    case Acknowledge(ch, r) => AcknowledgeKeeps(cfg, s, ch, r);
    case WriteMain => WriteMainKeeps(cfg, s);
    case Pick => PickKeeps(cfg, s);
    case Write => WriteKeeps(cfg, s);
    case EndMain(order) => EndMainKeeps(cfg, s, order);
    case End => EndKeeps(cfg, s);
    case StartMain => PhaseKeeps(cfg, s, step);
    case Begin => PhaseKeeps(cfg, s, step);
    case Finish => PhaseKeeps(cfg, s, step);
    case Fail => PhaseKeeps(cfg, s, step);
  }

  ghost predicate Runs(cfg: Config, s: State, run: seq<Step>)
    decreases |run|
  {
    run == [] || (Enabled(cfg, s, run[0]) && Runs(cfg, Apply(cfg, s, run[0]), run[1..]))
  }

  ghost function After(cfg: Config, s: State, run: seq<Step>): State
    requires Runs(cfg, s, run)
    decreases |run|
  {
    if run == [] then s else After(cfg, Apply(cfg, s, run[0]), run[1..])
  }

  /** Every state of every run is coherent on disk, so every crash point is. */
  lemma {:induction false} RunIsCoherent(cfg: Config, s: State, run: seq<Step>)
    requires Inv(cfg, s) && Runs(cfg, s, run)
    ensures Inv(cfg, After(cfg, s, run)) && Coherent(cfg, After(cfg, s, run).chans)
    ensures NoneAhead(cfg, After(cfg, s, run).chans)
    decreases |run|
  {
    InvNumbers(cfg, s);
    if run != [] {
      hide Inv, Enabled, Apply;
      StepKeeps(cfg, s, run[0]);
      RunIsCoherent(cfg, Apply(cfg, s, run[0]), run[1..]);
    } else {
      assert After(cfg, s, run) == s;
    }
  }

  lemma InvNumbers(cfg: Config, s: State)
    requires Inv(cfg, s)
    ensures Coherent(cfg, s.chans) && NoneAhead(cfg, s.chans)
  {
    CoherentIs(cfg, s.chans);
  }

  // ---- one flush, undisturbed ----

  /** Everything a fork could inherit is on disk. */
  ghost predicate Flushed(cfg: Config, s: Chans) {
    && ChansOk(cfg, s)
    && s[cfg.main].disk == |s[cfg.main].all|
    && forall ch :: ch in cfg.related ==> s[ch].disk >= AtOrBelow(s[ch].all, Limit(cfg, ch, |s[cfg.main].all|))
  }

  /** Nothing that may be on disk is missing. */
  lemma FlushedIs(cfg: Config, s: Chans)
    requires Flushed(cfg, s)
    ensures NoneMissing(cfg, s)
  {
    forall ch, i | ch in cfg.related && ch in s && s[ch].disk <= i < |s[ch].all|
      ensures s[ch].all[i].key > |s[cfg.main].all| + if cfg.related[ch].reducible then 1 else 0
    {
      AtOrBelowIs(s[ch].all, Limit(cfg, ch, |s[cfg.main].all|));
    }
  }

  lemma AtOrBelowGrows(h: History, a: nat, b: nat)
    requires a <= b
    ensures AtOrBelow(h, a) <= AtOrBelow(h, b)
  {
    AtOrBelowIs(h, a);
    AtOrBelowIs(h, b);
  }

  /** Records appended since: an open head appends without waiting for a fork. */
  ghost predicate Appended(cfg: Config, s: Chans, t: Chans) {
    && ChansOk(cfg, s) && ChansOk(cfg, t)
    && forall ch :: ch in s ==> s[ch].all <= t[ch].all && t[ch].disk == s[ch].disk
  }

  /** The base of a channel is where it would have been at the flush: main had the record
      forked at; an unkeyed channel has not grown, or its stamp is older; no record of a
      keyed channel that is not on disk belongs below the fork point. */
  ghost predicate Unmoved(cfg: Config, s: Chans, t: Chans, ch: string, at: nat, tail: bool)
    requires Appended(cfg, s, t) && ch in cfg.Names() && 1 <= at <= |t[cfg.main].all|
  {
    if ch == cfg.main then at <= |s[cfg.main].all|
    else if cfg.Unkeyed(ch) then
      |t[ch].all| == |s[ch].all| || (!tail && Cursor(t[cfg.main].all[at - 1], ch) <= |s[ch].all|)
    else forall i :: s[ch].disk <= i < |t[ch].all| ==> t[ch].all[i].key > at
  }

  /** A scan from the end stops within the first `d` records exactly when nothing behind
      them is keyed at or below. */
  lemma AtOrBelowWithin(h: History, at: nat, d: nat)
    requires d <= |h|
    ensures AtOrBelow(h, at) <= d <==> forall i :: d <= i < |h| ==> h[i].key > at
  {
    AtOrBelowIs(h, at);
  }

  /** A flush leaves every unkeyed record on disk. */
  lemma UnkeyedFlushed(cfg: Config, s: Chans, ch: string)
    requires Flushed(cfg, s) && ch in cfg.related && cfg.Unkeyed(ch)
    ensures s[ch].disk == |s[ch].all|
  {
    assert ChanOk(cfg, ch, s[ch]);
    var limit := Limit(cfg, ch, |s[cfg.main].all|);
    assert s[ch].all != [] ==> s[ch].all[|s[ch].all| - 1].key <= limit;
  }

  /** Bases worked out after a flush and whatever was appended since: each is at most one
      past what is on disk if and only if the appends did not move it. */
  lemma BaseDurableIff(cfg: Config, s: Chans, t: Chans, ch: string, first: nat, at: nat, tail: bool)
    requires Flushed(cfg, s) && Appended(cfg, s, t) && ch in cfg.Names() && first <= 1 && 1 <= at <= |t[cfg.main].all|
    ensures BaseFrom(cfg, ch, t[ch].all, t[cfg.main].all, |t[ch].all|, first, at, tail) <= t[ch].disk + 1 <==>
            Unmoved(cfg, s, t, ch, at, tail)
  {
    hide Sorted, Cursor, AtOrBelow;
    assert ChanOk(cfg, ch, s[ch]) && ChanOk(cfg, ch, t[ch]);
    if ch != cfg.main {
      if cfg.Unkeyed(ch) {
        UnkeyedFlushed(cfg, s, ch);
      } else {
        AtOrBelowWithin(t[ch].all, at, s[ch].disk);
      }
    }
  }

  // ---- one flush, with appends in between ----

  /** Everything the channel held when the flush began, up to the limit, is on disk. */
  ghost predicate Caught(cfg: Config, began: Chans, s: State, ch: string, tail: nat) {
    && ch in began && ch in s.chans
    && s.chans[ch].disk >= AtOrBelow(began[ch].all, Limit(cfg, ch, tail))
  }

  /** The channel in hand is caught up, or will be once the target is on disk. */
  ghost predicate Catching(cfg: Config, began: Chans, s: State, ch: string, tail: nat, target: nat) {
    && ch in began && ch in s.chans
    && (target >= AtOrBelow(began[ch].all, Limit(cfg, ch, tail)) || Caught(cfg, began, s, ch, tail))
  }

  ghost predicate CaughtBut(cfg: Config, began: Chans, s: State, todo: seq<string>, tail: nat) {
    && cfg.main in s.chans && cfg.main in began && tail == s.chans[cfg.main].disk && |began[cfg.main].all| <= tail
    && forall ch :: ch in cfg.related && ch !in todo ==> Caught(cfg, began, s, ch, tail)
  }

  ghost predicate Grew(began: Chans, s: Chans) {
    began.Keys == s.Keys && forall ch :: ch in s ==> began[ch].all <= s[ch].all
  }

  /** What a flush that began with these records has done so far. */
  ghost predicate Covers(cfg: Config, began: Chans, s: State) {
    && Grew(began, s.chans)
    && match s.phase
       case Idle => cfg.main in s.chans && CaughtBut(cfg, began, s, [], s.chans[cfg.main].disk)
       case MainWriting(upto) => cfg.main in began && upto == |began[cfg.main].all|
       case Picking(todo, tail) => CaughtBut(cfg, began, s, todo, tail)
       case Picked(todo, tail, target) =>
         CaughtBut(cfg, began, s, todo, tail) && (todo != [] ==> Catching(cfg, began, s, todo[0], tail, target))
       case Writing(todo, tail, upto) =>
         CaughtBut(cfg, began, s, todo, tail) && (todo != [] ==> Catching(cfg, began, s, todo[0], tail, upto))
  }

  /** No failure, no second flush, and no channel left out. */
  predicate Steady(cfg: Config, step: Step) {
    !step.Fail? && !step.StartMain? && (step.EndMain? ==> forall ch :: ch in cfg.related ==> ch in step.order)
  }

  /** A longer list keeps at least as much at or below. */
  lemma {:induction false} AtOrBelowLonger(h: History, g: History, limit: nat)
    requires h <= g
    ensures AtOrBelow(h, limit) <= AtOrBelow(g, limit)
  {
    AtOrBelowIs(h, limit);
    AtOrBelowIs(g, limit);
    var i := AtOrBelow(h, limit);
    if i > 0 {
      assert g[i - 1] == h[i - 1];
    }
  }

  /** Only the disk and the records behind it grow. */
  ghost predicate Onward(s: Chans, t: Chans) {
    s.Keys == t.Keys && forall ch :: ch in s ==> s[ch].all <= t[ch].all && s[ch].disk <= t[ch].disk
  }

  lemma CaughtStays(cfg: Config, began: Chans, s: State, t: State, ch: string, tail: nat, target: nat)
    requires Onward(s.chans, t.chans)
    ensures Caught(cfg, began, s, ch, tail) ==> Caught(cfg, began, t, ch, tail)
    ensures Catching(cfg, began, s, ch, tail, target) ==> Catching(cfg, began, t, ch, tail, target)
  {
    hide AtOrBelow, Limit;
  }

  lemma ButStays(cfg: Config, began: Chans, s: State, t: State, todo: seq<string>, tail: nat)
    requires CaughtBut(cfg, began, s, todo, tail) && Onward(s.chans, t.chans)
    requires cfg.main in t.chans && t.chans[cfg.main].disk == tail
    ensures CaughtBut(cfg, began, t, todo, tail)
  {
    hide Caught, Onward;
    forall ch | ch in cfg.related && ch !in todo ensures Caught(cfg, began, t, ch, tail) {
      CaughtStays(cfg, began, s, t, ch, tail, 0);
    }
  }

  lemma GrewStays(began: Chans, s: Chans, t: Chans)
    requires Grew(began, s) && Onward(s, t)
    ensures Grew(began, t)
  {
  }

  /** While the phase stays, growing records and disk keep what was done. */
  lemma SamePhase(cfg: Config, began: Chans, s: State, t: State)
    requires Covers(cfg, began, s) && Onward(s.chans, t.chans) && t.phase == s.phase
    requires cfg.main in s.chans && (s.phase.MainWriting? || t.chans[cfg.main].disk == s.chans[cfg.main].disk)
    ensures Covers(cfg, began, t)
  {
    hide Grew, CaughtBut, Catching, Onward;
    GrewStays(began, s.chans, t.chans);
    OnwardKeys(s.chans, t.chans);
    match s.phase
    case MainWriting(_) =>
    case Idle =>
      ButIs(cfg, began, s, [], s.chans[cfg.main].disk);
      ButStays(cfg, began, s, t, [], s.chans[cfg.main].disk);
    case Picking(todo, tail) =>
      ButIs(cfg, began, s, todo, tail);
      ButStays(cfg, began, s, t, todo, tail);
    case Picked(todo, tail, target) =>
      ButIs(cfg, began, s, todo, tail);
      ButStays(cfg, began, s, t, todo, tail);
      if todo != [] {
        CaughtStays(cfg, began, s, t, todo[0], tail, target);
      }
    case Writing(todo, tail, upto) =>
      ButIs(cfg, began, s, todo, tail);
      ButStays(cfg, began, s, t, todo, tail);
      if todo != [] {
        CaughtStays(cfg, began, s, t, todo[0], tail, upto);
      }
  }

  lemma OnwardKeys(s: Chans, t: Chans)
    requires Onward(s, t)
    ensures s.Keys == t.Keys
  {
  }

  lemma ButIs(cfg: Config, began: Chans, s: State, todo: seq<string>, tail: nat)
    requires CaughtBut(cfg, began, s, todo, tail)
    ensures cfg.main in s.chans && tail == s.chans[cfg.main].disk && cfg.main in began && |began[cfg.main].all| <= tail
  {
  }

  /** One more channel done. */
  lemma OneDone(cfg: Config, began: Chans, s: State, todo: seq<string>, tail: nat)
    requires CaughtBut(cfg, began, s, todo, tail) && todo != [] && Caught(cfg, began, s, todo[0], tail)
    ensures CaughtBut(cfg, began, s, todo[1..], tail)
  {
    hide Caught;
    forall ch | ch in cfg.related && ch !in todo[1..] ensures Caught(cfg, began, s, ch, tail) {
      assert ch in todo ==> ch == todo[0];
    }
  }

  lemma PickCatches(cfg: Config, began: Chans, s: State)
    requires Inv(cfg, s) && Covers(cfg, began, s) && Enabled(cfg, s, Pick)
    ensures Covers(cfg, began, Apply(cfg, s, Pick))
  {
    var ch, tail := s.phase.todo[0], s.phase.tail;
    var c := s.chans[ch];
    assert ChanOk(cfg, ch, c);
    AtOrBelowLonger(began[ch].all, c.all, Limit(cfg, ch, tail));
    hide AtOrBelow, CaughtBut, Limit, Sorted, Coherent, ChansOk;
    ButStays(cfg, began, s, Apply(cfg, s, Pick), s.phase.todo, tail);
  }

  lemma BeginCatches(cfg: Config, began: Chans, s: State)
    requires Inv(cfg, s) && Covers(cfg, began, s) && Enabled(cfg, s, Begin)
    ensures Covers(cfg, began, Apply(cfg, s, Begin))
  {
    var ch, tail, t := s.phase.todo[0], s.phase.tail, Apply(cfg, s, Begin);
    assert ChanOk(cfg, ch, s.chans[ch]);
    hide AtOrBelow, CaughtBut, Limit, Sorted, Coherent, ChansOk;
    ButStays(cfg, began, s, t, s.phase.todo, tail);
    if s.phase.target <= s.chans[ch].trimmed {
      OneDone(cfg, began, t, s.phase.todo, tail);
    }
  }

  lemma EndCatches(cfg: Config, began: Chans, s: State)
    requires Inv(cfg, s) && Covers(cfg, began, s) && Enabled(cfg, s, End)
    ensures Covers(cfg, began, Apply(cfg, s, End))
  {
    hide *;
    EndIs(cfg, began, s);
    var ch, tail, upto := s.phase.todo[0], s.phase.tail, s.phase.upto;
    var t := Apply(cfg, s, End);
    TrimOnward(s.chans, ch, upto);
    GrewStays(began, s.chans, t.chans);
    CaughtStays(cfg, began, s, t, ch, tail, upto);
    ButIs(cfg, began, s, s.phase.todo, tail);
    ButStays(cfg, began, s, t, s.phase.todo, tail);
    OneDone(cfg, began, t, s.phase.todo, tail);
    PickingCovers(cfg, began, t, s.phase.todo[1..], tail);
  }

  lemma EndIs(cfg: Config, began: Chans, s: State)
    requires Inv(cfg, s) && Covers(cfg, began, s) && Enabled(cfg, s, End)
    ensures s.phase.Writing? && s.phase.todo != [] && s.phase.todo[0] in s.chans && s.phase.todo[0] != cfg.main
    ensures var ch := s.phase.todo[0];
            && Apply(cfg, s, End) ==
               State(s.chans[ch := Trimmed(s.chans[ch], s.phase.upto)], Picking(s.phase.todo[1..], s.phase.tail))
            && Grew(began, s.chans) && CaughtBut(cfg, began, s, s.phase.todo, s.phase.tail)
            && Caught(cfg, began, s, ch, s.phase.tail)
  {
    hide AtOrBelow, CaughtBut, Limit, Coherent, ChanOk, Grew, Trimmed;
    assert s.phase.todo[0] in s.phase.todo;
  }

  lemma PickingCovers(cfg: Config, began: Chans, s: State, todo: seq<string>, tail: nat)
    requires s.phase == Picking(todo, tail) && Grew(began, s.chans) && CaughtBut(cfg, began, s, todo, tail)
    ensures Covers(cfg, began, s)
  {
  }

  lemma TrimOnward(s: Chans, ch: string, upto: nat)
    requires ch in s
    ensures Onward(s, s[ch := Trimmed(s[ch], upto)])
  {
  }

  lemma EndMainCatches(cfg: Config, began: Chans, s: State, order: seq<string>)
    requires Inv(cfg, s) && Covers(cfg, began, s) && Enabled(cfg, s, EndMain(order)) && Steady(cfg, EndMain(order))
    ensures Covers(cfg, began, Apply(cfg, s, EndMain(order)))
  {
    var t := Apply(cfg, s, EndMain(order));
    TrimOnward(s.chans, cfg.main, s.phase.upto);
    hide AtOrBelow, Limit, Sorted, Coherent, ChansOk, Onward, Grew;
    GrewStays(began, s.chans, t.chans);
  }

  lemma GrowCatches(cfg: Config, began: Chans, s: State, step: Step)
    requires Inv(cfg, s) && Covers(cfg, began, s) && Enabled(cfg, s, step)
    requires step.Acknowledge? || step.WriteMain? || step.Write?
    ensures Covers(cfg, began, Apply(cfg, s, step))
  {
    hide *;
    GrowOnward(cfg, s, step);
    SamePhase(cfg, began, s, Apply(cfg, s, step));
  }

  lemma GrowOnward(cfg: Config, s: State, step: Step)
    requires Inv(cfg, s) && Enabled(cfg, s, step) && (step.Acknowledge? || step.WriteMain? || step.Write?)
    ensures var t := Apply(cfg, s, step);
            && Onward(s.chans, t.chans) && t.phase == s.phase && cfg.main in s.chans && cfg.main in t.chans
            && (s.phase.MainWriting? || t.chans[cfg.main].disk == s.chans[cfg.main].disk)
  {
    hide Sorted, ChanOk, Within, Safe;
    assert step.Write? ==> s.phase.todo[0] in s.phase.todo && s.phase.todo[0] != cfg.main;
  }

  lemma FinishCatches(cfg: Config, began: Chans, s: State)
    requires Inv(cfg, s) && Covers(cfg, began, s) && Enabled(cfg, s, Finish)
    ensures Covers(cfg, began, Apply(cfg, s, Finish))
  {
    hide AtOrBelow, Limit, Sorted, Coherent, ChansOk, Grew;
  }

  lemma StepCatches(cfg: Config, began: Chans, s: State, step: Step)
    requires Inv(cfg, s) && Covers(cfg, began, s) && Enabled(cfg, s, step) && Steady(cfg, step)
    ensures Covers(cfg, began, Apply(cfg, s, step))
  {
    hide Inv, Covers, Enabled, Apply;
    match step
    case Acknowledge(_, _) => GrowCatches(cfg, began, s, step);
    case WriteMain => GrowCatches(cfg, began, s, step);
    case Write => GrowCatches(cfg, began, s, step);
    case Pick => PickCatches(cfg, began, s);
    case Begin => BeginCatches(cfg, began, s);
    case End => EndCatches(cfg, began, s);
    case EndMain(order) => EndMainCatches(cfg, began, s, order);
    case Finish => FinishCatches(cfg, began, s);
  }

  lemma {:induction false} RunCatches(cfg: Config, began: Chans, s: State, run: seq<Step>)
    requires Inv(cfg, s) && Covers(cfg, began, s) && Runs(cfg, s, run)
    requires forall step :: step in run ==> Steady(cfg, step)
    ensures Inv(cfg, After(cfg, s, run)) && Covers(cfg, began, After(cfg, s, run))
    ensures Level(cfg, s) ==> Level(cfg, After(cfg, s, run))
    decreases |run|
  {
    if run != [] {
      hide Inv, Covers, Enabled, Apply, Steady, Level;
      StepKeeps(cfg, s, run[0]);
      StepCatches(cfg, began, s, run[0]);
      if Level(cfg, s) {
        StepLevel(cfg, began, s, run[0]);
      }
      RunCatches(cfg, began, Apply(cfg, s, run[0]), run[1..]);
    } else {
      assert After(cfg, s, run) == s;
    }
  }

  lemma {:induction false} NotPast(h: History, d: nat, limit: nat)
    requires d <= |h| && forall i :: 0 <= i < d ==> h[i].key <= limit
    ensures d <= AtOrBelow(h, limit)
    decreases |h|
  {
    if d < |h| {
      NotPast(h[..|h| - 1], d, limit);
    }
  }

  // ---- what has left the buffers ----

  /** What a flush has taken out of the buffers so far is what it has put on disk: of main
      and of every channel behind it. */
  ghost predicate Level(cfg: Config, s: State) {
    && cfg.main in s.chans
    && match s.phase
       case Idle => forall ch :: ch in s.chans ==> s.chans[ch].trimmed == s.chans[ch].disk
       case MainWriting(upto) => s.chans[cfg.main].disk <= upto
       case Picking(todo, tail) => LevelBut(cfg, s.chans, todo)
       case Picked(todo, tail, target) =>
         && LevelBut(cfg, s.chans, todo)
         && (todo != [] && todo[0] in s.chans ==>
               var c := s.chans[todo[0]];
               if target > c.trimmed then c.disk <= target else c.disk == c.trimmed)
       case Writing(todo, tail, upto) =>
         LevelBut(cfg, s.chans, todo) && (todo != [] && todo[0] in s.chans ==> s.chans[todo[0]].disk <= upto)
  }

  ghost predicate LevelBut(cfg: Config, s: Chans, todo: seq<string>) {
    forall ch :: ch in s && ch !in todo ==> s[ch].trimmed == s[ch].disk
  }

  lemma AckLevel(cfg: Config, s: State, ch: string, r: Record)
    requires Level(cfg, s) && Enabled(cfg, s, Acknowledge(ch, r))
    ensures Level(cfg, Apply(cfg, s, Acknowledge(ch, r)))
  {
  }

  lemma MainLevel(cfg: Config, s: State, step: Step)
    requires Inv(cfg, s) && Level(cfg, s) && Enabled(cfg, s, step) && Steady(cfg, step)
    requires step.WriteMain? || step.EndMain? || step.Finish?
    ensures Level(cfg, Apply(cfg, s, step))
  {
    hide Sorted, Within, Safe;
    assert ChanOk(cfg, cfg.main, s.chans[cfg.main]);
  }

  lemma WriteLevel(cfg: Config, s: State, step: Step)
    requires Inv(cfg, s) && Level(cfg, s) && Enabled(cfg, s, step) && (step.Begin? || step.Write? || step.End?)
    ensures Level(cfg, Apply(cfg, s, step))
  {
    hide Sorted, Within, Safe;
    var ch := s.phase.todo[0];
    assert ch in s.phase.todo && ch != cfg.main && ChanOk(cfg, ch, s.chans[ch]);
    forall c | c in s.chans && c !in s.phase.todo[1..] && c != ch ensures c !in s.phase.todo {
    }
  }

  lemma PickLevel(cfg: Config, s: State)
    requires Inv(cfg, s) && Level(cfg, s) && Enabled(cfg, s, Pick)
    requires cfg.main in s.chans && s.phase.tail == s.chans[cfg.main].disk
    ensures Level(cfg, Apply(cfg, s, Pick))
  {
    var ch := s.phase.todo[0];
    var c, limit := s.chans[ch], Limit(cfg, ch, s.phase.tail);
    assert ch in s.phase.todo && ch in cfg.related && ChanOk(cfg, ch, c);
    PickBound(cfg, s, ch);
    hide Sorted, Within, AtOrBelow, Limit, Coherent;
  }

  lemma PickBound(cfg: Config, s: State, ch: string)
    requires Inv(cfg, s) && Level(cfg, s) && s.phase.Picking? && ch in cfg.related && ch in s.chans
    requires cfg.main in s.chans && s.phase.tail == s.chans[cfg.main].disk
    ensures s.chans[ch].disk <= AtOrBelow(s.chans[ch].all, Limit(cfg, ch, s.phase.tail))
  {
    hide Sorted;
    assert ChanOk(cfg, ch, s.chans[ch]) && Within(cfg, ch, s.chans[ch], s.chans[cfg.main].disk);
    NotPast(s.chans[ch].all, s.chans[ch].disk, Limit(cfg, ch, s.phase.tail));
  }

  lemma StepLevel(cfg: Config, began: Chans, s: State, step: Step)
    requires Inv(cfg, s) && Level(cfg, s) && Covers(cfg, began, s) && Enabled(cfg, s, step) && Steady(cfg, step)
    ensures Level(cfg, Apply(cfg, s, step))
  {
    TailIs(cfg, began, s);
    hide Inv, Level, Covers, Enabled, Apply;
    match step
    case Acknowledge(ch, r) => AckLevel(cfg, s, ch, r);
    case WriteMain => MainLevel(cfg, s, step);
    case EndMain(_) => MainLevel(cfg, s, step);
    case Finish => MainLevel(cfg, s, step);
    case Pick => PickLevel(cfg, s);
    case Begin => WriteLevel(cfg, s, step);
    case Write => WriteLevel(cfg, s, step);
    case End => WriteLevel(cfg, s, step);
  }

  lemma TailIs(cfg: Config, began: Chans, s: State)
    requires Covers(cfg, began, s)
    ensures s.phase.Picking? ==> cfg.main in s.chans && s.phase.tail == s.chans[cfg.main].disk
  {
    hide Grew, Caught;
  }

  // ---- a flush can always be run to its end ----

  lemma Nowhere(cfg: Config, s: State)
    ensures Runs(cfg, s, []) && After(cfg, s, []) == s
  {
  }

  lemma StepFirst(cfg: Config, s: State, step: Step, rest: seq<Step>)
    requires Enabled(cfg, s, step) && Runs(cfg, Apply(cfg, s, step), rest)
    ensures Runs(cfg, s, [step] + rest)
    ensures After(cfg, s, [step] + rest) == After(cfg, Apply(cfg, s, step), rest)
  {
    assert ([step] + rest)[1..] == rest;
  }

  lemma StepFirstToo(cfg: Config, s: State, step: Step, rest: seq<Step>)
    requires Enabled(cfg, s, step) && Steady(cfg, step) && !step.Acknowledge?
    requires Runs(cfg, Apply(cfg, s, step), rest) && Undisturbed(cfg, rest)
    ensures Runs(cfg, s, [step] + rest) && Undisturbed(cfg, [step] + rest)
    ensures After(cfg, s, [step] + rest) == After(cfg, Apply(cfg, s, step), rest)
  {
    StepFirst(cfg, s, step, rest);
  }

  ghost predicate Undisturbed(cfg: Config, run: seq<Step>) {
    forall step :: step in run ==> Steady(cfg, step) && !step.Acknowledge?
  }

  /** The next step of a flush that nothing disturbs. */
  function NextStep(cfg: Config, s: State, order: seq<string>): Step {
    match s.phase
    case Idle => StartMain
    case MainWriting(upto) => if cfg.main in s.chans && s.chans[cfg.main].disk < upto then WriteMain else EndMain(order)
    case Picking(todo, _) => if todo == [] then Finish else Pick
    case Picked(_, _, _) => Begin
    case Writing(todo, _, upto) =>
      if todo != [] && todo[0] in s.chans && s.chans[todo[0]].disk < upto then Write else End
  }

  /** What is left of a flush: the stage, the channels to come, and the records of one. */
  function Left(cfg: Config, s: State): (int, int, int, int) {
    match s.phase
    case Idle => (0, 0, 0, 0)
    case MainWriting(upto) => (2, 0, 0, if cfg.main in s.chans then upto - s.chans[cfg.main].disk else 0)
    case Picking(todo, _) => (1, |todo|, 3, 0)
    case Picked(todo, _, _) => (1, |todo|, 2, 0)
    case Writing(todo, _, upto) =>
      (1, |todo|, 1, if todo != [] && todo[0] in s.chans then upto - s.chans[todo[0]].disk else 0)
  }

  /** It is enabled, and there is less left after it. */
  lemma NextGoesOn(cfg: Config, s: State, order: seq<string>)
    requires Inv(cfg, s) && Level(cfg, s) && !s.phase.Idle? && forall ch :: ch in order <==> ch in cfg.related
    ensures var step := NextStep(cfg, s, order);
            && Enabled(cfg, s, step) && Steady(cfg, step) && !step.Acknowledge?
            && var a, b := Left(cfg, s), Left(cfg, Apply(cfg, s, step));
               && 0 <= b.3 && 0 <= b.1
               && (b.0 < a.0 || (b.0 == a.0 && (b.1 < a.1 || (b.1 == a.1 && (b.2 < a.2 || (b.2 == a.2 && b.3 < a.3))))))
  {
    hide Sorted, Within, Limit, AtOrBelow, Coherent;
    if s.phase.Picking? && s.phase.todo != [] {
      assert s.phase.todo[0] in s.phase.todo;
    }
  }

  /** From every state of a flush there is a way to its end, without a failure. */
  lemma {:induction false} Completes(cfg: Config, began: Chans, s: State, order: seq<string>) returns (run: seq<Step>)
    requires Inv(cfg, s) && Level(cfg, s) && Covers(cfg, began, s) && forall ch :: ch in order <==> ch in cfg.related
    ensures Runs(cfg, s, run) && Undisturbed(cfg, run) && After(cfg, s, run).phase.Idle?
    decreases Left(cfg, s).0, Left(cfg, s).1, Left(cfg, s).2, Left(cfg, s).3
  {
    if s.phase.Idle? {
      run := [];
      Nowhere(cfg, s);
    } else {
      hide Inv, Level, Covers, Enabled, Apply, Steady, NextStep, Left;
      NextGoesOn(cfg, s, order);
      var step := NextStep(cfg, s, order);
      var t := Apply(cfg, s, step);
      StepKeeps(cfg, s, step);
      StepCatches(cfg, began, s, step);
      StepLevel(cfg, began, s, step);
      var rest := Completes(cfg, began, t, order);
      StepFirstToo(cfg, s, step, rest);
      run := [step] + rest;
    }
  }

  /** So from every idle state there is a whole flush: it takes everything within main to
      disk, and out of the buffers, and appends nothing. */
  lemma FlushRuns(cfg: Config, s: State, order: seq<string>) returns (run: seq<Step>)
    requires Inv(cfg, s) && s.phase.Idle? && forall ch :: ch in order <==> ch in cfg.related
    ensures Undisturbed(cfg, run) && Runs(cfg, s, [StartMain] + run)
    ensures var t := After(cfg, s, [StartMain] + run);
            && t.phase.Idle? && NoneMissing(cfg, AsFlushed(cfg, s.chans, t.chans))
            && forall ch :: ch in t.chans ==> t.chans[ch].trimmed == t.chans[ch].disk
  {
    StartIs(cfg, s);
    hide *;
    StartCovers(cfg, s);
    StepKeeps(cfg, s, StartMain);
    run := Completes(cfg, s.chans, Apply(cfg, s, StartMain), order);
    StepFirst(cfg, s, StartMain, run);
    SteadyAll(cfg, run);
    FlushCatchesUp(cfg, s, run);
  }

  lemma StartIs(cfg: Config, s: State)
    requires Inv(cfg, s) && s.phase.Idle?
    ensures Enabled(cfg, s, StartMain)
  {
  }

  lemma SteadyAll(cfg: Config, run: seq<Step>)
    requires Undisturbed(cfg, run)
    ensures forall step :: step in run ==> Steady(cfg, step)
  {
  }

  /** The flushed state a finished flush leaves, under whatever was appended meanwhile:
      main as far as it is on disk, every other channel at least as it was at the start. */
  function AsFlushed(cfg: Config, began: Chans, t: Chans): Chans {
    map ch | ch in t ::
      var n := if ch != cfg.main && ch in began && |began[ch].all| > t[ch].disk then |began[ch].all| else t[ch].disk;
      t[ch].(all := Take(t[ch].all, n))
  }

  lemma AsFlushedAt(cfg: Config, began: Chans, t: Chans, ch: string, limit: nat)
    requires ch in t && ch in began && ChanOk(cfg, ch, t[ch]) && began[ch].all <= t[ch].all
    requires ch == cfg.main ==> |began[ch].all| <= t[ch].disk
    requires ch != cfg.main ==> t[ch].disk >= AtOrBelow(began[ch].all, limit)
    ensures var c := AsFlushed(cfg, began, t)[ch];
            && ChanOk(cfg, ch, c) && began[ch].all <= c.all <= t[ch].all && c.disk == t[ch].disk
            && (ch == cfg.main ==> c.disk == |c.all|) && (ch != cfg.main ==> c.disk >= AtOrBelow(c.all, limit))
  {
    var c := AsFlushed(cfg, began, t)[ch];
    assert c.all == t[ch].all[..|c.all|];
    if ch != cfg.main && |began[ch].all| > t[ch].disk {
      assert c.all == began[ch].all;
    }
    hide AtOrBelow;
  }

  /** A flush that runs to its end, whatever is appended while it runs and after it, leaves
      a flushed state that holds every record there was when it began, plus appends. */
  lemma FlushCatchesUp(cfg: Config, s: State, run: seq<Step>)
    requires Inv(cfg, s) && Runs(cfg, s, [StartMain] + run) && After(cfg, s, [StartMain] + run).phase.Idle?
    requires forall step :: step in run ==> Steady(cfg, step)
    ensures var t := After(cfg, s, [StartMain] + run).chans;
            var f := AsFlushed(cfg, s.chans, t);
            && Flushed(cfg, f) && Appended(cfg, f, t) && Grew(s.chans, f) && NoneMissing(cfg, f) && NoneAhead(cfg, t)
            && forall ch :: ch in t ==> t[ch].trimmed == t[ch].disk
  {
    RunIsCoherent(cfg, s, [StartMain] + run);
    var first := Apply(cfg, s, StartMain);
    assert ([StartMain] + run)[1..] == run;
    assert After(cfg, s, [StartMain] + run) == After(cfg, first, run);
    StartCovers(cfg, s);
    StepKeeps(cfg, s, StartMain);
    RunCatches(cfg, s.chans, first, run);
    LevelIs(cfg, After(cfg, first, run));
    hide *;
    CoveredIsFlushed(cfg, s.chans, After(cfg, first, run));
    FlushedIs(cfg, AsFlushed(cfg, s.chans, After(cfg, first, run).chans));
  }

  lemma LevelIs(cfg: Config, s: State)
    requires Level(cfg, s) && s.phase.Idle?
    ensures forall ch :: ch in s.chans ==> s.chans[ch].trimmed == s.chans[ch].disk
  {
  }

  lemma StartCovers(cfg: Config, s: State)
    requires Inv(cfg, s) && Enabled(cfg, s, StartMain)
    ensures Covers(cfg, s.chans, Apply(cfg, s, StartMain)) && Level(cfg, Apply(cfg, s, StartMain))
  {
    hide Sorted, Within;
    assert ChanOk(cfg, cfg.main, s.chans[cfg.main]);
    hide ChanOk;
  }

  lemma CoveredIsFlushed(cfg: Config, began: Chans, t: State)
    requires Inv(cfg, t) && Covers(cfg, began, t) && t.phase.Idle?
    ensures var f := AsFlushed(cfg, began, t.chans);
            Flushed(cfg, f) && Appended(cfg, f, t.chans) && Grew(began, f)
  {
    hide *;
    var f := AsFlushed(cfg, began, t.chans);
    InvIs(cfg, t);
    AsFlushedKeys(cfg, began, t.chans);
    CoveredKeys(cfg, began, t);
    forall ch | ch in f ensures LeftFlushed(cfg, began, t.chans, f, ch) {
      CoveredAt(cfg, began, t, ch);
      AsFlushedAt(cfg, began, t.chans, ch, Limit(cfg, ch, t.chans[cfg.main].disk));
      LeftIs(cfg, began, t.chans, f, ch);
    }
    FlushedFrom(cfg, began, t.chans, f);
  }

  ghost predicate LeftFlushed(cfg: Config, began: Chans, t: Chans, f: Chans, ch: string) {
    && ch in f && ch in began && ch in t && cfg.main in t
    && ChanOk(cfg, ch, f[ch]) && began[ch].all <= f[ch].all <= t[ch].all && f[ch].disk == t[ch].disk
    && (ch == cfg.main ==> f[ch].disk == |f[ch].all|)
    && (ch != cfg.main ==> f[ch].disk >= AtOrBelow(f[ch].all, Limit(cfg, ch, t[cfg.main].disk)))
  }

  lemma LeftIs(cfg: Config, began: Chans, t: Chans, f: Chans, ch: string)
    requires ch in f && ch in began && ch in t && cfg.main in t
    requires ChanOk(cfg, ch, f[ch]) && began[ch].all <= f[ch].all <= t[ch].all && f[ch].disk == t[ch].disk
    requires ch == cfg.main ==> f[ch].disk == |f[ch].all|
    requires ch != cfg.main ==> f[ch].disk >= AtOrBelow(f[ch].all, Limit(cfg, ch, t[cfg.main].disk))
    ensures LeftFlushed(cfg, began, t, f, ch)
  {
  }

  lemma CoveredAt(cfg: Config, began: Chans, t: State, ch: string)
    requires Inv(cfg, t) && Covers(cfg, began, t) && t.phase.Idle? && ch in t.chans
    ensures ch in began && ChanOk(cfg, ch, t.chans[ch]) && began[ch].all <= t.chans[ch].all && cfg.main in t.chans
    ensures ch == cfg.main ==> |began[ch].all| <= t.chans[ch].disk
    ensures ch != cfg.main ==>
              t.chans[ch].disk >= AtOrBelow(began[ch].all, Limit(cfg, ch, t.chans[cfg.main].disk))
  {
    hide AtOrBelow, Limit, ChanOk, Coherent;
    assert ch != cfg.main ==> Caught(cfg, began, t, ch, t.chans[cfg.main].disk);
  }

  lemma FlushedFrom(cfg: Config, began: Chans, t: Chans, f: Chans)
    requires ChansOk(cfg, t) && f.Keys == t.Keys && forall ch :: ch in f ==> LeftFlushed(cfg, began, t, f, ch)
    requires began.Keys == t.Keys
    ensures Flushed(cfg, f) && Appended(cfg, f, t) && Grew(began, f)
  {
    hide AtOrBelow, Limit, ChanOk;
    assert LeftFlushed(cfg, began, t, f, cfg.main);
    forall ch | ch in cfg.related ensures f[ch].disk >= AtOrBelow(f[ch].all, Limit(cfg, ch, |f[cfg.main].all|)) {
      assert LeftFlushed(cfg, began, t, f, ch);
    }
    forall ch | ch in f
      ensures ChanOk(cfg, ch, f[ch]) && began[ch].all <= f[ch].all <= t[ch].all && f[ch].disk == t[ch].disk
    {
      assert LeftFlushed(cfg, began, t, f, ch);
    }
  }

  lemma CoveredKeys(cfg: Config, began: Chans, t: State)
    requires Covers(cfg, began, t)
    ensures began.Keys == t.chans.Keys
  {
  }

  lemma AsFlushedKeys(cfg: Config, began: Chans, t: Chans)
    ensures AsFlushed(cfg, began, t).Keys == t.Keys
  {
  }

  /** At a main record the flush has written, a keyed base moves exactly when a record
      keyed at or below it was appended since. */
  lemma KeyedUnmoved(cfg: Config, s: Chans, t: Chans, ch: string, at: nat, tail: bool)
    requires Flushed(cfg, s) && Appended(cfg, s, t) && ch in cfg.related && cfg.Keyed(ch)
               && 1 <= at <= |s[cfg.main].all|
    requires at <= |t[cfg.main].all|
    ensures Unmoved(cfg, s, t, ch, at, tail) <==>
            forall i :: |s[ch].all| <= i < |t[ch].all| ==> t[ch].all[i].key > at
  {
    hide Sorted;
    assert ChanOk(cfg, ch, s[ch]) && ChanOk(cfg, ch, t[ch]);
    AtOrBelowGrows(s[ch].all, at, Limit(cfg, ch, |s[cfg.main].all|));
    AtOrBelowWithin(s[ch].all, at, s[ch].disk);
    hide AtOrBelow;
    forall i | s[ch].disk <= i < |s[ch].all| ensures t[ch].all[i].key > at {
      assert t[ch].all[i] == s[ch].all[i];
    }
  }

  /** With nothing appended since, every base is durable. */
  lemma BaseIsDurable(cfg: Config, s: Chans, ch: string, first: nat, at: nat, tail: bool)
    requires Flushed(cfg, s) && ch in cfg.Names() && first <= 1 && 1 <= at <= |s[cfg.main].all|
    ensures Unmoved(cfg, s, s, ch, at, tail)
    ensures BaseFrom(cfg, ch, s[ch].all, s[cfg.main].all, |s[ch].all|, first, at, tail) <= s[ch].disk + 1
  {
    if ch != cfg.main && cfg.Keyed(ch) {
      KeyedUnmoved(cfg, s, s, ch, at, tail);
    }
    hide Sorted, Cursor, AtOrBelow;
    BaseDurableIff(cfg, s, s, ch, first, at, tail);
  }

  /** The racing run: one append through an open head, between the flush and a tail fork,
      puts the fork's base past what is on disk. */
  lemma RacingAppend(cfg: Config, s: Chans, ch: string, r: Record, first: nat)
    requires Flushed(cfg, s) && Inv(cfg, State(s, Idle)) && Enabled(cfg, State(s, Idle), Acknowledge(ch, r))
    requires first <= 1 && s[cfg.main].all != [] && (cfg.Keyed(ch) && ch != cfg.main ==> r.key <= |s[cfg.main].all|)
    ensures var t := Apply(cfg, State(s, Idle), Acknowledge(ch, r)).chans;
            var at := |t[cfg.main].all|;
            && Inv(cfg, State(t, Idle)) && Appended(cfg, s, t)
            && BaseFrom(cfg, ch, t[ch].all, t[cfg.main].all, |t[ch].all|, first, at, true) > t[ch].disk + 1
  {
    hide *;
    AcknowledgeKeeps(cfg, State(s, Idle), ch, r);
    AckIs(cfg, s, ch, r);
    InvIs(cfg, State(s, Idle));
    var t := Apply(cfg, State(s, Idle), Acknowledge(ch, r)).chans;
    InvIs(cfg, State(t, Idle));
    GrewBy(cfg, s, t, ch, r);
    BaseDurableIff(cfg, s, t, ch, first, |t[cfg.main].all|, true);
  }

  lemma InvIs(cfg: Config, s: State)
    requires Inv(cfg, s)
    ensures ChansOk(cfg, s.chans) && s.chans.Keys == cfg.Names() && cfg.main in s.chans
  {
  }

  lemma AckIs(cfg: Config, s: Chans, ch: string, r: Record)
    requires Enabled(cfg, State(s, Idle), Acknowledge(ch, r))
    ensures ch in s && Apply(cfg, State(s, Idle), Acknowledge(ch, r)) ==
              State(s[ch := s[ch].(all := s[ch].all + [r])], Idle)
  {
  }

  /** One record more in one channel moves that channel's tail base. */
  lemma GrewBy(cfg: Config, s: Chans, t: Chans, ch: string, r: Record)
    requires ChansOk(cfg, s) && ChansOk(cfg, t) && ch in s && t == s[ch := s[ch].(all := s[ch].all + [r])]
    requires s[cfg.main].all != [] && (cfg.Keyed(ch) && ch != cfg.main ==> r.key <= |s[cfg.main].all|)
    ensures Appended(cfg, s, t) && ch in cfg.Names() && 1 <= |t[cfg.main].all|
    ensures !Unmoved(cfg, s, t, ch, |t[cfg.main].all|, true)
  {
    hide Sorted, Cursor;
    assert ChanOk(cfg, ch, s[ch]);
    assert t[ch].all[|s[ch].all|] == r;
  }

  ghost predicate SameRecords(s: Chans, t: Chans) {
    s.Keys == t.Keys && forall ch :: ch in s ==> t[ch].all == s[ch].all && t[ch].disk >= s[ch].disk
  }

  /** The channels of one open lineage. */
  class Lineage {
    const cfg: Config
    const order: seq<string>
    var chans: Chans

    ghost predicate Valid()
      reads this
    {
      && ChansOk(cfg, chans) && Coherent(cfg, chans)
      && forall ch :: ch in order <==> ch in cfg.related
    }

    constructor (cfg: Config, order: seq<string>, chans: Chans)
      requires ChansOk(cfg, chans) && Coherent(cfg, chans) && forall ch :: ch in order <==> ch in cfg.related
      ensures Valid() && this.cfg == cfg && this.order == order && this.chans == chans
    {
      this.cfg, this.order, this.chans := cfg, order, chans;
    }

    /** Write pending records up to `target`, one at a time; trim the buffer only on
        success. `budget` counts the writes left before one fails, if one does. */
    method SyncThrough(ch: string, target: nat, budget: Option<nat>) returns (ok: bool, left: Option<nat>)
      requires ChansOk(cfg, chans) && ch in chans
      modifies this
      ensures ChansOk(cfg, chans) && SameRecords(old(chans), chans)
      ensures forall c :: c in chans && c != ch ==> chans[c] == old(chans)[c]
      ensures chans[ch].disk == old(chans)[ch].disk || chans[ch].disk <= target
      ensures ok && target > old(chans)[ch].trimmed ==> chans[ch].disk >= target || chans[ch].disk == |chans[ch].all|
      ensures var was := old(chans)[ch];
              chans[ch].trimmed == if !ok || target <= was.trimmed then was.trimmed
                                   else if target < |was.all| then target else |was.all|
      ensures budget.None? ==> ok && left.None?
      ensures budget.Some? ==> left.Some? && left.value == budget.value - (chans[ch].disk - old(chans)[ch].disk)
      ensures !ok ==> left == Some(0)
    {
      hide Sorted;
      var c := chans[ch];
      assert ChanOk(cfg, ch, c);
      left := budget;
      if target <= c.trimmed {
        return true, left;
      }
      var upto := if target < |c.all| then target else |c.all|;
      var idx := c.trimmed + 1;
      var disk := c.disk;
      while idx <= upto
        invariant c.trimmed < idx <= upto + 1 && (budget.None? ==> left.None?)
        invariant budget.Some? ==> left.Some? && left.value == budget.value - (disk - c.disk)
        invariant c.disk <= disk <= |c.all| && (disk == c.disk || disk <= upto)
        invariant disk >= idx - 1
        invariant chans == old(chans)[ch := c.(disk := disk)]
      {
        if idx > disk {
          if left == Some(0) {
            Kept(old(chans), chans, ch);
            return false, left;
          }
          left := if left.Some? then Some(left.value - 1) else None;
          disk := disk + 1;
          chans := chans[ch := c.(disk := disk)];
        }
        idx := idx + 1;
      }
      chans := chans[ch := c.(disk := disk, trimmed := upto)];
      Kept(old(chans), chans, ch);
      return true, left;
    }

    lemma Kept(before: Chans, after: Chans, ch: string)
      requires ChansOk(cfg, before) && ch in before && after.Keys == before.Keys
      requires after == before[ch := after[ch]] && after[ch].all == before[ch].all
      requires before[ch].disk <= after[ch].disk <= |after[ch].all| && after[ch].trimmed <= after[ch].disk
      ensures ChansOk(cfg, after) && SameRecords(before, after)
    {
      hide Sorted;
      assert ChanOk(cfg, ch, before[ch]);
    }

    /** Flush one related channel within the cut at `tail`. */
    method SyncRelated(ch: string, tail: nat, budget: Option<nat>) returns (ok: bool, left: Option<nat>)
      requires Valid() && ch in cfg.related && tail == chans[cfg.main].disk
      modifies this
      ensures Valid() && SameRecords(old(chans), chans)
      ensures forall c :: c in chans && c != ch ==> chans[c] == old(chans)[c]
      ensures ok ==> chans[ch].disk >= AtOrBelow(chans[ch].all, Limit(cfg, ch, tail))
      ensures budget.None? ==> ok && left.None?
      ensures budget.Some? ==> left.Some? && left.value == budget.value - (chans[ch].disk - old(chans)[ch].disk)
      ensures !ok ==> left == Some(0)
    {
      var limit := Limit(cfg, ch, tail);
      assert ChanOk(cfg, ch, chans[ch]);
      var target := CoherentTarget(chans[ch], limit);
      ghost var before := chans;
      hide Sorted;
      ok, left := SyncThrough(ch, target, budget);
      CutHolds(before, chans, ch, target);
    }

    lemma CutHolds(before: Chans, after: Chans, ch: string, target: nat)
      requires ChansOk(cfg, before) && Coherent(cfg, before) && ChansOk(cfg, after) && SameRecords(before, after)
      requires ch in cfg.related && target == Target(before[ch], Limit(cfg, ch, before[cfg.main].disk))
      requires forall c :: c in after && c != ch ==> after[c] == before[c]
      requires after[ch].disk == before[ch].disk || after[ch].disk <= target
      ensures Coherent(cfg, after)
    {
      var limit := Limit(cfg, ch, before[cfg.main].disk);
      assert ChanOk(cfg, ch, before[ch]) && Within(cfg, ch, before[ch], before[cfg.main].disk);
      if cfg.Keyed(ch) {
        AtOrBelowAll(before[ch].all, limit, target);
      }
      forall c | c in cfg.related ensures Within(cfg, c, after[c], after[cfg.main].disk) {
        assert Within(cfg, c, before[c], before[cfg.main].disk);
      }
    }

    /** The channels listed so far hold everything within the cut. */
    ghost predicate Reached(s: Chans, done: seq<string>, tail: nat) {
      && cfg.main in s && tail == s[cfg.main].disk == |s[cfg.main].all|
      && forall ch :: ch in done ==>
          ch in s && ch != cfg.main && s[ch].disk >= AtOrBelow(s[ch].all, Limit(cfg, ch, tail))
    }

    /** Main first, then each related channel up to its cut. Coherent wherever it stops;
        everything a fork could inherit is on disk if it does not. */
    method SyncCoherent(budget: Option<nat>) returns (ok: bool)
      requires Valid()
      modifies this
      ensures Valid() && SameRecords(old(chans), chans)
      ensures NoneAhead(cfg, chans)
      ensures ok ==> Flushed(cfg, chans) && NoneMissing(cfg, chans)
      ensures budget.None? ==> ok
    {
      hide *;
      ghost var start := chans;
      ValidIs();
      var left;
      ok, left := SyncThrough(cfg.main, |chans[cfg.main].all|, budget);
      MainFirst(start, chans);
      ValidFrom();
      ValidIs();
      CoherentIs(cfg, chans);
      if !ok {
        return;
      }
      ValidIs();
      MainReached(start, chans);
      var tail := chans[cfg.main].disk;
      var i := 0;
      while i < |order|
        invariant 0 <= i <= |order| && Valid() && SameRecords(start, chans) && Reached(chans, order[..i], tail)
        invariant ok && (budget.None? ==> left.None?) && NoneAhead(cfg, chans)
      {
        ghost var before := chans;
        ListedIs(i, tail, order[..i]);
        ok, left := SyncRelated(order[i], tail, left);
        Chained(start, before, chans);
        ValidIs();
        CoherentIs(cfg, chans);
        if !ok {
          return;
        }
        assert order[..i + 1] == order[..i] + [order[i]];
        ValidIs();
        ReachedOne(before, chans, order[..i], order[i], tail);
        i := i + 1;
      }
      assert order[..|order|] == order;
      AllReached(tail);
      FlushedIs(cfg, chans);
    }

    lemma ValidIs()
      requires Valid()
      ensures ChansOk(cfg, chans) && Coherent(cfg, chans) && cfg.main in chans
      ensures forall ch :: ch in order <==> ch in cfg.related
      ensures forall ch :: ch in cfg.related ==> ch in chans
    {
    }

    lemma ValidFrom()
      requires ChansOk(cfg, chans) && Coherent(cfg, chans) && forall ch :: ch in order <==> ch in cfg.related
      ensures Valid()
    {
    }

    lemma MainReached(before: Chans, after: Chans)
      requires ChansOk(cfg, before) && ChansOk(cfg, after) && SameRecords(before, after) && cfg.main in after
      requires var all := before[cfg.main].all;
               |all| > before[cfg.main].trimmed ==>
                   after[cfg.main].disk >= |all| || after[cfg.main].disk == |after[cfg.main].all|
      ensures Reached(after, order[..0], after[cfg.main].disk)
    {
      assert ChanOk(cfg, cfg.main, before[cfg.main]) && ChanOk(cfg, cfg.main, after[cfg.main]);
    }

    lemma ListedIs(i: nat, tail: nat, done: seq<string>)
      requires Valid() && i < |order| && Reached(chans, done, tail)
      ensures order[i] in cfg.related && order[i] != cfg.main && tail == chans[cfg.main].disk
    {
      assert order[i] in order;
    }

    lemma ReachedOne(before: Chans, after: Chans, done: seq<string>, ch: string, tail: nat)
      requires Reached(before, done, tail) && ch != cfg.main && SameRecords(before, after) && ch in after
      requires forall c :: c in after && c != ch ==> after[c] == before[c]
      requires after[ch].disk >= AtOrBelow(after[ch].all, Limit(cfg, ch, tail))
      ensures Reached(after, done + [ch], tail)
    {
    }

    lemma AllReached(tail: nat)
      requires Valid() && Reached(chans, order, tail)
      ensures Flushed(cfg, chans)
    {
      hide Sorted, AtOrBelow;
    }

    lemma MainFirst(before: Chans, after: Chans)
      requires ChansOk(cfg, before) && Coherent(cfg, before) && SameRecords(before, after)
      requires forall c :: c in after && c != cfg.main ==> after[c] == before[c]
      ensures Coherent(cfg, after)
    {
      hide Sorted;
      forall c | c in cfg.related && c in after ensures Within(cfg, c, after[c], after[cfg.main].disk) {
        assert Within(cfg, c, before[c], before[cfg.main].disk);
      }
    }

    lemma Chained(a: Chans, b: Chans, c: Chans)
      requires SameRecords(a, b) && SameRecords(b, c)
      ensures SameRecords(a, c)
    {
    }
  }
}
