/**
 A lineage passing from one peer to another. The new owner first makes the old one
 flush, then opens the lineage from disk. Nobody can append meanwhile, but the flush is
 a coherent one, and it may fail without anyone being told: this module says what of the
 acknowledged records the new owner then reads.
 */
module HandOver {
  import opened Basics
  import opened FlatForest
  import ForestRuns
  import opened CoherentCut
  import Locks = LineageLocks

  /** What a peer reads that opens the lineage from disk. */
  function OnDisk(s: Chans): map<string, History> {
    map ch | ch in s :: Take(s[ch].all, s[ch].disk)
  }

  /** The step takes the lineage from another peer. */
  predicate TakesOver(l: Locks.Lineage, s: Locks.LineageStep) {
    Locks.LineageEnabled(l, s) && (s.Lock? || s.Hold?) && l.owner.Some? && l.owner.value != s.p
  }

  /** Whoever appends writes the lineage or holds a head of it. The lineage's own lock is
      held while it passes, so the tickets do not change during the flush. */
  predicate Permitted(l: Locks.Lineage, run: seq<Step>) {
    (exists step :: step in run && step.Acknowledge?) ==> l.writers != map[] || l.holders != map[]
  }

  /** Either way of taking a lineage takes it over from another owner; either ticket lets its
      holder append. */
  lemma Takers(l: Locks.Lineage, k: Locks.Ticket, p: Locks.Peer, q: Locks.Peer, run: seq<Step>)
    requires Locks.LineageOk(l) && l.owner == Some(q) && p != q
    ensures TakesOver(l, Locks.Lock(k, p)) <==> l.writers == map[] && l.holders == map[]
    ensures TakesOver(l, Locks.Hold(k, p)) <==> l.writers == map[] && l.holders == map[]
    ensures l.writers != map[] || l.holders != map[] ==> Permitted(l, run)
  {
    Locks.FreeExactly(l, k, p);
    hide Locks.LineageEnabled;
    forall j | j in l.holders ensures l.holders[j] == q {
    }
  }

  /** While a lineage passes to another peer nothing is appended to it. */
  lemma NobodyAppends(l: Locks.Lineage, s: Locks.LineageStep, run: seq<Step>)
    requires Locks.LineageOk(l) && TakesOver(l, s) && Permitted(l, run)
    ensures forall step :: step in run ==> !step.Acknowledge?
  {
    Locks.OwnerPasses(l, s);
  }

  ghost predicate SameAll(s: Chans, t: Chans) {
    s.Keys == t.Keys && forall ch :: ch in s ==> t[ch].all == s[ch].all && t[ch].disk >= s[ch].disk
  }

  lemma SameStep(cfg: Config, s: State, step: Step)
    requires Enabled(cfg, s, step) && !step.Acknowledge?
    ensures SameAll(s.chans, Apply(cfg, s, step).chans)
  {
  }

  lemma SameTwice(s: Chans, t: Chans, u: Chans)
    requires SameAll(s, t) && SameAll(t, u)
    ensures SameAll(s, u)
  {
  }

  lemma {:induction false} SameRun(cfg: Config, s: State, run: seq<Step>)
    requires Runs(cfg, s, run) && forall step :: step in run ==> !step.Acknowledge?
    ensures SameAll(s.chans, After(cfg, s, run).chans)
    decreases |run|
  {
    if run == [] {
      assert After(cfg, s, run) == s;
    } else {
      hide Enabled, Apply, SameAll;
      var t := Apply(cfg, s, run[0]);
      SameStep(cfg, s, run[0]);
      SameRun(cfg, t, run[1..]);
      SameTwice(s.chans, t.chans, After(cfg, t, run[1..]).chans);
    }
  }

  /** However far the flush gets, and whether or not it fails: the new owner reads a
      coherent beginning of what was acknowledged, and nothing of it leaves the disk. */
  lemma ReadsBeginning(cfg: Config, l: Locks.Lineage, take: Locks.LineageStep, s: State, run: seq<Step>, ch: string)
    requires Locks.LineageOk(l) && TakesOver(l, take) && Permitted(l, run)
    requires Inv(cfg, s) && Runs(cfg, s, run) && ch in cfg.Names()
    ensures var t := After(cfg, s, run).chans;
            && Coherent(cfg, t) && ch in s.chans && ch in OnDisk(t)
            && OnDisk(s.chans)[ch] <= OnDisk(t)[ch] <= s.chans[ch].all
  {
    NobodyAppends(l, take, run);
    SameRun(cfg, s, run);
    RunIsCoherent(cfg, s, run);
    hide *;
    var t := After(cfg, s, run);
    ChanIs(cfg, s, ch);
    ChanIs(cfg, t, ch);
    Beginning(cfg, s.chans, t.chans, ch);
  }

  lemma ChanIs(cfg: Config, s: State, ch: string)
    requires Inv(cfg, s) && ch in cfg.Names()
    ensures ch in s.chans && ChanOk(cfg, ch, s.chans[ch])
  {
    hide ChanOk, Coherent;
  }

  lemma Beginning(cfg: Config, s: Chans, t: Chans, ch: string)
    requires SameAll(s, t) && ch in s && ch in t && ChanOk(cfg, ch, s[ch]) && ChanOk(cfg, ch, t[ch])
    ensures ch in OnDisk(t) && ch in OnDisk(s) && OnDisk(s)[ch] <= OnDisk(t)[ch] <= s[ch].all
  {
    hide Sorted;
  }

  /** The flush leaves behind what refers to main records that do not exist yet. */
  ghost predicate Ahead(cfg: Config, s: Chans, ch: string) {
    && cfg.main in s && ch in s && cfg.Keyed(ch) && s[ch].all != []
    && s[ch].all[|s[ch].all| - 1].key > |s[cfg.main].all| + if cfg.related[ch].reducible then 1 else 0
  }

  /** A channel after the flush: on disk is exactly what is keyed within the limit. */
  lemma DiskIs(cfg: Config, c: Chan, ch: string, limit: nat)
    requires ChanOk(cfg, ch, c) && (cfg.Keyed(ch) || cfg.Unkeyed(ch)) && c.disk >= ForestRuns.AtOrBelow(c.all, limit)
    requires forall i :: 0 <= i < c.disk && i < |c.all| ==> c.all[i].key <= limit
    ensures cfg.Unkeyed(ch) ==> Take(c.all, c.disk) == c.all
    ensures cfg.Keyed(ch) ==> Take(c.all, c.disk) == ForestRuns.KeyedBelow(c.all, limit)
    ensures Take(c.all, c.disk) == c.all <==> c.all == [] || c.all[|c.all| - 1].key <= limit
  {
    ForestRuns.AtOrBelowIs(c.all, limit);
    if cfg.Keyed(ch) {
      ForestRuns.KeyedIsPrefix(c.all, limit);
    }
    hide ForestRuns.KeyedBelow, ForestRuns.AtOrBelow, Sorted;
    NotPast(c.all, c.disk, limit);
  }

  lemma Caughts(cfg: Config, began: Chans, t: State, ch: string)
    requires Inv(cfg, t) && Covers(cfg, began, t) && t.phase.Idle? && SameAll(began, t.chans) && ch in cfg.Names()
    ensures ch in t.chans && cfg.main in t.chans && ch in began && cfg.main in began && t.chans[ch].all == began[ch].all
    ensures ChanOk(cfg, ch, t.chans[ch]) && t.chans[cfg.main].disk == |began[cfg.main].all|
    ensures ch != cfg.main ==>
              var limit := Limit(cfg, ch, |began[cfg.main].all|);
              && t.chans[ch].disk >= ForestRuns.AtOrBelow(t.chans[ch].all, limit) && (cfg.Keyed(ch) || cfg.Unkeyed(ch))
              && forall i :: 0 <= i < t.chans[ch].disk && i < |t.chans[ch].all| ==> t.chans[ch].all[i].key <= limit
  {
    CoveredAt(cfg, began, t, ch);
    CoveredAt(cfg, began, t, cfg.main);
    assert ch != cfg.main ==> Within(cfg, ch, t.chans[ch], t.chans[cfg.main].disk);
    hide ForestRuns.AtOrBelow, Covers, Sorted;
  }

  /** A hand-over whose flush runs to its end: the new owner reads main and every unkeyed
      channel whole, and of a keyed channel exactly the records keyed within the limit. */
  lemma ReadsCut(cfg: Config, l: Locks.Lineage, take: Locks.LineageStep, s: State, run: seq<Step>, ch: string)
    requires Locks.LineageOk(l) && TakesOver(l, take) && Permitted(l, run) && ch in cfg.Names()
    requires Inv(cfg, s) && Runs(cfg, s, [StartMain] + run) && After(cfg, s, [StartMain] + run).phase.Idle?
    requires forall step :: step in run ==> Steady(cfg, step)
    ensures var t, all := After(cfg, s, [StartMain] + run).chans, s.chans;
            && ch in all && cfg.main in all && ch in OnDisk(t)
            && OnDisk(t)[ch] ==
               (if !cfg.Keyed(ch) || ch == cfg.main then all[ch].all
                else ForestRuns.KeyedBelow(all[ch].all,
                                           |all[cfg.main].all| + if cfg.related[ch].reducible then 1 else 0))
            && (OnDisk(t)[ch] == all[ch].all <==> !Ahead(cfg, all, ch))
  {
    NobodyAppends(l, take, run);
    SameRun(cfg, s, [StartMain] + run);
    FlushCovers(cfg, s, run);
    InvIs(cfg, s);
    hide *;
    var t := After(cfg, s, [StartMain] + run);
    Caughts(cfg, s.chans, t, ch);
    DiskAt(t.chans, ch);
    AheadIs(cfg, s.chans, ch);
    LimitIs(cfg, ch, |s.chans[cfg.main].all|);
    MainUnrelated(cfg, s, ch);
    if ch == cfg.main {
      assert Take(t.chans[ch].all, t.chans[ch].disk) == t.chans[ch].all by {
        WholeTake(t.chans[ch].all);
      }
    } else {
      DiskIs(cfg, t.chans[ch], ch, Limit(cfg, ch, |s.chans[cfg.main].all|));
      UnkeyedWithin(cfg, t.chans[ch], ch, Limit(cfg, ch, |s.chans[cfg.main].all|));
    }
  }

  lemma WholeTake(h: History)
    ensures Take(h, |h|) == h
  {
  }

  lemma UnkeyedWithin(cfg: Config, c: Chan, ch: string, limit: nat)
    requires ChanOk(cfg, ch, c)
    ensures cfg.Unkeyed(ch) ==> c.all == [] || c.all[|c.all| - 1].key <= limit
  {
  }

  lemma DiskAt(s: Chans, ch: string)
    requires ch in s
    ensures ch in OnDisk(s) && OnDisk(s)[ch] == Take(s[ch].all, s[ch].disk)
  {
  }

  lemma LimitIs(cfg: Config, ch: string, tail: nat)
    ensures cfg.Keyed(ch) ==>
              ch in cfg.related && Limit(cfg, ch, tail) == tail + if cfg.related[ch].reducible then 1 else 0
  {
  }

  lemma AheadIs(cfg: Config, s: Chans, ch: string)
    requires cfg.main in s && ch in s
    ensures Ahead(cfg, s, ch) <==>
            cfg.Keyed(ch) && s[ch].all != [] && s[ch].all[|s[ch].all| - 1].key > Limit(cfg, ch, |s[cfg.main].all|)
  {
  }

  lemma MainUnrelated(cfg: Config, s: State, ch: string)
    requires Inv(cfg, s)
    ensures ch == cfg.main ==> !cfg.Keyed(ch) && !cfg.Unkeyed(ch)
  {
  }

  lemma FlushCovers(cfg: Config, s: State, run: seq<Step>)
    requires Inv(cfg, s) && Runs(cfg, s, [StartMain] + run)
    requires forall step :: step in run ==> Steady(cfg, step)
    ensures var t := After(cfg, s, [StartMain] + run); Inv(cfg, t) && Covers(cfg, s.chans, t)
  {
    var first := Apply(cfg, s, StartMain);
    assert ([StartMain] + run)[1..] == run;
    assert After(cfg, s, [StartMain] + run) == After(cfg, first, run);
    StartCovers(cfg, s);
    StepKeeps(cfg, s, StartMain);
    RunCatches(cfg, s.chans, first, run);
  }

  /** The new owner reads every acknowledged record if and only if no keyed channel's last
      record refers past the main tail, by more than the one patch a reducible one may. */
  lemma ReadsAllIff(cfg: Config, l: Locks.Lineage, take: Locks.LineageStep, s: State, run: seq<Step>)
    requires Locks.LineageOk(l) && TakesOver(l, take) && Permitted(l, run)
    requires Inv(cfg, s) && Runs(cfg, s, [StartMain] + run) && After(cfg, s, [StartMain] + run).phase.Idle?
    requires forall step :: step in run ==> Steady(cfg, step)
    ensures var t := After(cfg, s, [StartMain] + run).chans;
            (forall ch :: ch in cfg.Names() ==> ch in OnDisk(t) && OnDisk(t)[ch] == s.chans[ch].all) <==>
            (forall ch :: ch in cfg.Names() ==> !Ahead(cfg, s.chans, ch))
  {
    hide Inv, Runs, After, Ahead, OnDisk, Locks.LineageOk, TakesOver, Permitted, Steady;
    var t := After(cfg, s, [StartMain] + run).chans;
    forall ch | ch in cfg.Names()
      ensures ch in s.chans && ch in OnDisk(t) && (OnDisk(t)[ch] == s.chans[ch].all <==> !Ahead(cfg, s.chans, ch))
    {
      ReadsCut(cfg, l, take, s, run, ch);
    }
  }

  const AHEAD := Record("", 2, [], map[])

  function OneAhead(phase: Phase): State {
    State(map["m" := Chan([Record("", 1, [], map[])], 1, 1), "k" := Chan([AHEAD], 0, 0)], phase)
  }

  /** The smallest case: main holds record 1, a keyed channel a record for main record 2.
      The flush runs to its end, and the new owner does not see that record. */
  lemma AheadIsUnread()
    ensures var cfg := Config("m", map["k" := Channel(false, false)]);
            var run := [StartMain, EndMain(["k"]), Pick, Begin, Finish];
            && Inv(cfg, OneAhead(Idle)) && Runs(cfg, OneAhead(Idle), run)
            && After(cfg, OneAhead(Idle), run) == OneAhead(Idle)
            && OneAhead(Idle).chans["k"].all == [AHEAD] && "k" in OnDisk(OneAhead(Idle).chans)
            && OnDisk(OneAhead(Idle).chans)["k"] == []
  {
    var cfg := Config("m", map["k" := Channel(false, false)]);
    var s := OneAhead(Idle);
    assert s.chans.Keys == {"m", "k"} == cfg.Names();
    assert Inv(cfg, s);
    AheadStep(cfg, OneAhead(Idle), StartMain, OneAhead(MainWriting(1)));
    AheadStep(cfg, OneAhead(MainWriting(1)), EndMain(["k"]), OneAhead(Picking(["k"], 1)));
    assert ForestRuns.AtOrBelow([AHEAD], 1) == 0;
    AheadStep(cfg, OneAhead(Picking(["k"], 1)), Pick, OneAhead(Picked(["k"], 1, 0)));
    assert ["k"][1..] == [];
    AheadStep(cfg, OneAhead(Picked(["k"], 1, 0)), Begin, OneAhead(Picking([], 1)));
    AheadStep(cfg, OneAhead(Picking([], 1)), Finish, OneAhead(Idle));
    hide Apply, Enabled, Inv, OneAhead;
    Nowhere(cfg, OneAhead(Idle));
    StepFirst(cfg, OneAhead(Picking([], 1)), Finish, []);
    StepFirst(cfg, OneAhead(Picked(["k"], 1, 0)), Begin, [Finish]);
    StepFirst(cfg, OneAhead(Picking(["k"], 1)), Pick, [Begin, Finish]);
    StepFirst(cfg, OneAhead(MainWriting(1)), EndMain(["k"]), [Pick, Begin, Finish]);
    StepFirst(cfg, OneAhead(Idle), StartMain, [EndMain(["k"]), Pick, Begin, Finish]);
  }

  lemma AheadStep(cfg: Config, s: State, step: Step, t: State)
    requires Enabled(cfg, s, step) && Apply(cfg, s, step).chans == t.chans && Apply(cfg, s, step).phase == t.phase
    ensures Enabled(cfg, s, step) && Apply(cfg, s, step) == t
  {
  }
}
