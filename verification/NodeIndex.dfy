/**
 The node index: a cache of the markers on disk, patched on every fork and rebuilt from
 scratch on restart. The two ways must agree, a trunk must have one head, and an id
 that is minted must be nobody's, before and after a restart.
 */
module NodeIndex {
  import opened Basics
  import opened Decimal

  const MAX: int := 0x7FFF_FFFF_FFFF_FFFF

  // ---- decimal suffixes ----

  /** A decimal integer with an optional sign that fits in 64 bits. */
  function Atoi(s: string): Option<int> {
    var body := if s != "" && (s[0] == '-' || s[0] == '+') then s[1..] else s;
    if body == "" || !Digits(body) then None
    else
      var v := if s[0] == '-' then 0 - Value(body) as int else Value(body) as int;
      if -MAX - 1 <= v <= MAX then Some(v) else None
  }

  function NumSuffix(s: string, prefix: char): int {
    if |s| < 2 || s[0] != prefix then -1
    else
      var n := Atoi(s[1..]);
      if n.Some? then n.value else -1
  }

  function LastSegment(key: string): string {
    if key == "" then "" else if key[|key| - 1] == '/' then "" else LastSegment(key[..|key| - 1]) + [key[|key| - 1]]
  }

  lemma {:induction false} NoSlash(s: string)
    requires forall i :: 0 <= i < |s| ==> s[i] != '/'
    ensures LastSegment(s) == s
  {
    if s != "" {
      NoSlash(s[..|s| - 1]);
    }
  }

  /** A minted id parses back to the number it was minted from. */
  lemma MintedParses(prefix: char, n: nat)
    requires prefix != '/' && n <= MAX
    ensures var id := [prefix] + Itoa(n); LastSegment(id) == id && NumSuffix(id, prefix) == n
  {
    ItoaIs(n);
    var id := [prefix] + Itoa(n);
    assert id[1..] == Itoa(n);
    NoSlash(id);
  }

  // ---- markers and what is derived from them ----

  datatype Marker = Marker(from: string, kind: string, trunk: string)

  datatype Info = Info(trunk: string, isRoot: bool, from: string, kind: string)

  /** Node directories of the main channel; one without a marker is an unfinished fork. */
  type Dirs = map<string, Option<Marker>>

  predicate Committed(dirs: Dirs, k: string) {
    k in dirs && dirs[k].Some?
  }

  function InfoOf(dirs: Dirs, k: string): Info {
    if Committed(dirs, k) then Info(dirs[k].value.trunk, false, dirs[k].value.from, dirs[k].value.kind)
    else Info("", true, "", "null")
  }

  predicate Carries(dirs: Dirs, k: string, trunk: string) {
    Committed(dirs, k) && trunk != "" && dirs[k].value.trunk == trunk
  }

  /** No trunk is carried by two nodes. */
  ghost predicate OneHead(dirs: Dirs) {
    forall a, b, t :: Carries(dirs, a, t) && Carries(dirs, b, t) ==> a == b
  }

  /** The index is exactly what the markers say. */
  ghost predicate Reflects(dirs: Dirs, nodes: map<string, Info>, heads: map<string, string>) {
    && (forall k :: k in nodes <==> k == "" || Committed(dirs, k))
    && (forall k :: k in nodes ==> nodes[k] == InfoOf(dirs, k))
    && (forall t :: t in heads ==> Carries(dirs, heads[t], t))
    && (forall k, t :: Carries(dirs, k, t) ==> t in heads && heads[t] == k)
  }

  /** Whatever reflects the same markers is the same index. */
  lemma ReflectsOnce(dirs: Dirs, nodes: map<string, Info>, heads: map<string, string>,
                     nodes': map<string, Info>, heads': map<string, string>)
    requires Reflects(dirs, nodes, heads) && Reflects(dirs, nodes', heads')
    ensures nodes == nodes' && heads == heads'
  {
    assert nodes.Keys == nodes'.Keys;
    forall t | t in heads ensures t in heads' && heads'[t] == heads[t] {
      assert Carries(dirs, heads[t], t);
    }
    forall t | t in heads' ensures t in heads {
      assert Carries(dirs, heads'[t], t);
    }
  }

  /** The counter a number pushes a sequence to; at the top of the range it wraps away. */
  function Bumped(n: int, next: int): int {
    if n < MAX && n + 1 > next then n + 1 else next
  }

  ghost predicate Ahead(dirs: Dirs, nodeSeq: int, trunkSeq: int) {
    && nodeSeq >= 0 && trunkSeq >= 0
    && (forall k :: Committed(dirs, k) && NumSuffix(LastSegment(k), 'n') < MAX ==>
        NumSuffix(LastSegment(k), 'n') < nodeSeq)
    && (forall k :: Committed(dirs, k) && NumSuffix(dirs[k].value.trunk, 't') < MAX ==>
        NumSuffix(dirs[k].value.trunk, 't') < trunkSeq)
  }

  class Index {
    var nodes: map<string, Info>
    var heads: map<string, string>
    var nodeSeq: int
    var trunkSeq: int
    var version: nat

    ghost predicate Valid(dirs: Dirs)
      reads this
    {
      "" !in dirs && OneHead(dirs) && Reflects(dirs, nodes, heads) && Ahead(dirs, nodeSeq, trunkSeq)
    }

    constructor ()
      ensures nodes == map[] && heads == map[] && nodeSeq == trunkSeq == 0
    {
      nodes, heads, nodeSeq, trunkSeq, version := map[], map[], 0, 0, 0;
    }

    /** A node id nobody has committed. */
    method MintNode(ghost dirs: Dirs) returns (id: string)
      requires Valid(dirs) && nodeSeq < MAX
      modifies `nodeSeq
      ensures Valid(dirs) && nodeSeq == old(nodeSeq) + 1
      ensures !Committed(dirs, id) && id !in nodes && id != ""
      ensures NumSuffix(LastSegment(id), 'n') == old(nodeSeq)
    {
      id := "n" + Itoa(nodeSeq);
      MintedParses('n', nodeSeq);
      nodeSeq := nodeSeq + 1;
    }

    /** A trunk id nobody carries. */
    method MintTrunk(ghost dirs: Dirs) returns (id: string)
      requires Valid(dirs) && trunkSeq < MAX
      modifies `trunkSeq
      ensures Valid(dirs) && trunkSeq == old(trunkSeq) + 1
      ensures id != "" && id !in heads && forall k :: !Carries(dirs, k, id)
      ensures NumSuffix(id, 't') == old(trunkSeq)
    {
      id := "t" + Itoa(trunkSeq);
      MintedParses('t', trunkSeq);
      hide NumSuffix, Itoa, LastSegment;
      trunkSeq := trunkSeq + 1;
    }

    /** Enter one node and its trunk, and push the counters past their numbers. */
    method Enter(ghost dirs: Dirs, key: string, m: Marker)
      requires Valid(dirs) && !Committed(dirs, key) && key != "" && forall k :: !Carries(dirs, k, m.trunk)
      modifies this
      ensures Valid(dirs[key := Some(m)]) && version == old(version)
      ensures nodeSeq >= old(nodeSeq) && trunkSeq >= old(trunkSeq)
    {
      hide NumSuffix, LastSegment, OneHead, Reflects, Ahead;
      OneHeadMore(dirs, key, m);
      ReflectsMore(dirs, nodes, heads, key, m);
      AheadMore(dirs, nodeSeq, trunkSeq, key, m);
      nodes := nodes[key := Info(m.trunk, false, m.from, m.kind)];
      if m.trunk != "" {
        heads := heads[m.trunk := key];
      }
      nodeSeq := Bumped(NumSuffix(LastSegment(key), 'n'), nodeSeq);
      trunkSeq := Bumped(NumSuffix(m.trunk, 't'), trunkSeq);
    }

    /** Patch the index with a fork whose marker has just been written. */
    method SpawnFlat(ghost dirs: Dirs, parent: string, child: string, trunk: string, kind: string)
      requires Valid(dirs) && !Committed(dirs, child) && child != "" && forall k :: !Carries(dirs, k, trunk)
      modifies this
      ensures Valid(dirs[child := Some(Marker(parent, kind, trunk))]) && version == old(version) + 1
      ensures nodeSeq >= old(nodeSeq) && trunkSeq >= old(trunkSeq)
    {
      hide NumSuffix, LastSegment, OneHead, Reflects, Ahead;
      Enter(dirs, child, Marker(parent, kind, trunk));
      version := version + 1;
    }

    /** Re-derive everything from the markers, in whatever order the directory lists them.
        Refused exactly when two nodes carry one trunk. */
    method RebuildFrom(dirs: Dirs, listing: seq<string>) returns (ok: bool)
      requires "" !in dirs && (forall k :: k in listing <==> k in dirs)
      requires forall i, j :: 0 <= i < j < |listing| ==> listing[i] != listing[j]
      modifies this
      ensures ok <==> OneHead(dirs)
      ensures ok ==> Valid(dirs)
    {
      hide NumSuffix, LastSegment, OneHead, Reflects, Ahead;
      nodes, heads, nodeSeq, trunkSeq := map["" := Info("", true, "", "null")], map[], 0, 0;
      ghost var sofar: Dirs := map[];
      Nothing(nodes);
      var i := 0;
      while i < |listing|
        invariant 0 <= i <= |listing| && (forall k :: k in sofar <==> k in listing[..i])
        invariant forall k :: k in sofar ==> k in dirs && sofar[k] == dirs[k]
        invariant Valid(sofar)
      {
        var key := listing[i];
        assert listing[..i + 1] == listing[..i] + [key] && key in listing && key !in sofar;
        var m := dirs[key];
        if m.Some? {
          if m.value.trunk != "" && m.value.trunk in heads {
            TwoHeads(sofar, dirs, nodes, heads, key);
            return false;
          }
          NotCarried(sofar, nodes, heads, m.value.trunk);
          Enter(sofar, key, m.value);
        } else {
          Unfinished(sofar, nodes, heads, nodeSeq, trunkSeq, key);
        }
        sofar := sofar[key := m];
        i := i + 1;
      }
      assert listing[..|listing|] == listing;
      assert sofar == dirs;
      version := version + 1;
      return true;
    }
  }

  lemma CarriesMore(dirs: Dirs, child: string, m: Marker)
    requires !Committed(dirs, child)
    ensures forall k, t :: Carries(dirs[child := Some(m)], k, t) <==>
              Carries(dirs, k, t) || (k == child && t != "" && t == m.trunk)
    ensures forall k :: Committed(dirs[child := Some(m)], k) <==> Committed(dirs, k) || k == child
  {
  }

  lemma OneHeadMore(dirs: Dirs, child: string, m: Marker)
    requires OneHead(dirs) && !Committed(dirs, child) && forall k :: !Carries(dirs, k, m.trunk)
    ensures OneHead(dirs[child := Some(m)])
  {
    CarriesMore(dirs, child, m);
    var more := dirs[child := Some(m)];
    forall a, b, t | Carries(more, a, t) && Carries(more, b, t) ensures a == b {
      assert Carries(dirs, a, t) || (a == child && t == m.trunk);
      assert Carries(dirs, b, t) || (b == child && t == m.trunk);
    }
  }

  lemma ReflectsMore(dirs: Dirs, nodes: map<string, Info>, heads: map<string, string>, child: string, m: Marker)
    requires Reflects(dirs, nodes, heads) && !Committed(dirs, child) && child != ""
    requires forall k :: !Carries(dirs, k, m.trunk)
    ensures Reflects(dirs[child := Some(m)], nodes[child := Info(m.trunk, false, m.from, m.kind)],
                     if m.trunk != "" then heads[m.trunk := child] else heads)
  {
    CarriesMore(dirs, child, m);
    var more := dirs[child := Some(m)];
    assert forall k :: k != child ==> InfoOf(more, k) == InfoOf(dirs, k);
    assert InfoOf(more, child) == Info(m.trunk, false, m.from, m.kind);
    var heads' := if m.trunk != "" then heads[m.trunk := child] else heads;
    forall t | t in heads' ensures Carries(more, heads'[t], t) {
      assert t != m.trunk || m.trunk == "" ==> Carries(dirs, heads[t], t);
    }
    forall k, t | Carries(more, k, t) ensures t in heads' && heads'[t] == k {
      assert Carries(dirs, k, t) || (k == child && t == m.trunk);
    }
  }

  lemma AheadMore(dirs: Dirs, nodeSeq: int, trunkSeq: int, child: string, m: Marker)
    requires Ahead(dirs, nodeSeq, trunkSeq) && !Committed(dirs, child)
    ensures Ahead(dirs[child := Some(m)], Bumped(NumSuffix(LastSegment(child), 'n'), nodeSeq),
                  Bumped(NumSuffix(m.trunk, 't'), trunkSeq))
  {
    hide NumSuffix, LastSegment;
  }

  lemma Nothing(nodes: map<string, Info>)
    requires nodes == map["" := Info("", true, "", "null")]
    ensures OneHead(map[]) && Reflects(map[], nodes, map[]) && Ahead(map[], 0, 0)
  {
  }

  lemma NotCarried(dirs: Dirs, nodes: map<string, Info>, heads: map<string, string>, trunk: string)
    requires Reflects(dirs, nodes, heads) && (trunk == "" || trunk !in heads)
    ensures forall k :: !Carries(dirs, k, trunk)
  {
  }

  lemma TwoHeads(sofar: Dirs, dirs: Dirs, nodes: map<string, Info>, heads: map<string, string>, key: string)
    requires Reflects(sofar, nodes, heads) && (forall k :: k in sofar ==> k in dirs && sofar[k] == dirs[k])
    requires key !in sofar && Committed(dirs, key) && dirs[key].value.trunk != "" && dirs[key].value.trunk in heads
    ensures !OneHead(dirs)
  {
    var t := dirs[key].value.trunk;
    assert Carries(sofar, heads[t], t) && Carries(dirs, heads[t], t) && Carries(dirs, key, t);
  }

  lemma NoneMore(dirs: Dirs, key: string, more: Dirs)
    requires more == dirs[key := None] && !Committed(dirs, key)
    ensures forall k :: Committed(more, k) <==> Committed(dirs, k)
    ensures forall k, t :: Carries(more, k, t) <==> Carries(dirs, k, t)
    ensures forall k :: InfoOf(more, k) == InfoOf(dirs, k)
    ensures forall k :: Committed(dirs, k) ==> k in more && more[k] == dirs[k]
  {
  }

  lemma UnfinishedReflects(dirs: Dirs, nodes: map<string, Info>, heads: map<string, string>, key: string, more: Dirs)
    requires more == dirs[key := None] && !Committed(dirs, key) && Reflects(dirs, nodes, heads)
    ensures Reflects(more, nodes, heads)
  {
    hide Committed, Carries, InfoOf;
    NoneMore(dirs, key, more);
  }

  lemma UnfinishedAhead(dirs: Dirs, nodeSeq: int, trunkSeq: int, key: string, more: Dirs)
    requires more == dirs[key := None] && !Committed(dirs, key) && Ahead(dirs, nodeSeq, trunkSeq)
    ensures Ahead(more, nodeSeq, trunkSeq)
  {
    hide NumSuffix, LastSegment;
  }

  lemma UnfinishedHead(dirs: Dirs, key: string, more: Dirs)
    requires more == dirs[key := None] && !Committed(dirs, key) && OneHead(dirs)
    ensures OneHead(more)
  {
    hide Carries;
    NoneMore(dirs, key, more);
  }

  lemma Unfinished(dirs: Dirs, nodes: map<string, Info>, heads: map<string, string>, nodeSeq: int, trunkSeq: int,
                   key: string)
    requires OneHead(dirs) && Reflects(dirs, nodes, heads) && Ahead(dirs, nodeSeq, trunkSeq) && !Committed(dirs, key)
    ensures var more := dirs[key := None];
            OneHead(more) && Reflects(more, nodes, heads) && Ahead(more, nodeSeq, trunkSeq)
  {
    hide *;
    var more := dirs[key := None];
    UnfinishedHead(dirs, key, more);
    UnfinishedReflects(dirs, nodes, heads, key, more);
    UnfinishedAhead(dirs, nodeSeq, trunkSeq, key, more);
  }

  // ---- a store over its life ----

  /** The markers on disk and the index in memory. */
  class Store {
    var dirs: Dirs
    var idx: Index

    ghost predicate Valid()
      reads this, idx
    {
      idx.Valid(dirs)
    }

    constructor ()
      ensures Valid() && fresh(idx) && dirs == map[]
    {
      idx := new Index();
      dirs := map[];
      new;
      var ok := idx.RebuildFrom(dirs, []);
      assert OneHead(dirs);
    }

    /** Fork a node: mint, create the directory, write the marker last. A process that
        dies before the marker leaves an unfinished fork, which is no node. */
    method Fork(parent: string, kind: string, mintTrunk: bool, dies: bool) returns (child: string, trunk: string)
      requires Valid() && idx.nodeSeq < MAX && idx.trunkSeq < MAX
      modifies this, idx
      ensures Valid() && idx == old(idx)
      ensures !Committed(old(dirs), child) && child != ""
                && (mintTrunk ==> trunk != "" && forall k :: !Carries(old(dirs), k, trunk))
      ensures dirs == old(dirs)[child := if dies then None else Some(Marker(parent, kind, trunk))]
    {
      hide NumSuffix, LastSegment, OneHead, Reflects, Ahead;
      child := idx.MintNode(dirs);
      trunk := "";
      if mintTrunk {
        trunk := idx.MintTrunk(dirs);
      } else {
        NobodyCarries(dirs, trunk);
      }
      Unfinished(dirs, idx.nodes, idx.heads, idx.nodeSeq, idx.trunkSeq, child);
      CarriesLess(dirs, child, trunk, dirs[child := None]);
      dirs := dirs[child := None];
      if dies {
        return;
      }
      idx.SpawnFlat(dirs, parent, child, trunk, kind);
      dirs := dirs[child := Some(Marker(parent, kind, trunk))];
      assert dirs == old(dirs)[child := Some(Marker(parent, kind, trunk))];
    }

    /** A named stump under the root; a hidden or compound name, or one already taken,
        is refused. */
    method CreateStump(name: string) returns (ok: bool)
      requires Valid()
      modifies this, idx
      ensures Valid() && idx == old(idx) && ok == (StumpName(name) && !Committed(old(dirs), name))
      ensures dirs == if ok then old(dirs)[name := Some(Marker("", "loadout", ""))] else old(dirs)
    {
      if !StumpName(name) {
        return false;
      }
      assert name in idx.nodes <==> Committed(dirs, name);
      if name in idx.nodes {
        return false;
      }
      hide NumSuffix, LastSegment, OneHead, Reflects, Ahead;
      idx.SpawnFlat(dirs, "", name, "", "loadout");
      dirs := dirs[name := Some(Marker("", "loadout", ""))];
      return true;
    }

    /** A restart reads the markers again: the same nodes and the same heads as the index
        that was patched all along. */
    method Restart(listing: seq<string>)
      requires Valid() && (forall k :: k in listing <==> k in dirs)
      requires forall i, j :: 0 <= i < j < |listing| ==> listing[i] != listing[j]
      modifies this
      ensures Valid() && fresh(idx) && dirs == old(dirs)
      ensures idx.nodes == old(idx.nodes) && idx.heads == old(idx.heads)
    {
      hide NumSuffix, LastSegment, OneHead, Reflects, Ahead;
      ghost var nodes, heads := idx.nodes, idx.heads;
      var again := new Index();
      var ok := again.RebuildFrom(dirs, listing);
      ReflectsOnce(dirs, nodes, heads, again.nodes, again.heads);
      idx := again;
    }
  }

  lemma NobodyCarries(dirs: Dirs, trunk: string)
    requires trunk == ""
    ensures forall k :: !Carries(dirs, k, trunk)
  {
  }

  lemma CarriesLess(dirs: Dirs, child: string, trunk: string, less: Dirs)
    requires less == dirs[child := None] && forall k :: !Carries(dirs, k, trunk)
    ensures forall k :: !Carries(less, k, trunk)
  {
    forall k ensures !Carries(less, k, trunk) {
      assert !Carries(dirs, k, trunk);
    }
  }
}
