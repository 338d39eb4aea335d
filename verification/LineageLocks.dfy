/**
 The locking protocol: who may write a lineage, when a topology mutation may run, and
 when a hot store is closed. Each critical section is one step; the tickets say who
 holds what, and the counters and flags the code keeps must agree with them.
 */
module LineageLocks {
  import opened Basics

  type Peer = nat
  type Ticket = nat

  // ---- counting tickets ----

  function Held<V(==)>(m: map<Ticket, V>, v: V): set<Ticket> {
    set k | k in m && m[k] == v
  }

  function Count<V(==)>(m: map<Ticket, V>, v: V): nat {
    |Held(m, v)|
  }

  lemma CountIn<V>(m: map<Ticket, V>, k: Ticket, v: V, w: V)
    requires k !in m
    ensures Count(m[k := v], w) == Count(m, w) + if w == v then 1 else 0
    ensures |m[k := v]| == |m| + 1
  {
    if w == v {
      assert Held(m[k := v], w) == Held(m, w) + {k};
    } else {
      assert Held(m[k := v], w) == Held(m, w);
    }
    assert m[k := v].Keys == m.Keys + {k};
  }

  lemma CountOut<V>(m: map<Ticket, V>, k: Ticket, w: V)
    requires k in m
    ensures Count(m - {k}, w) == Count(m, w) - if w == m[k] then 1 else 0
    ensures |m - {k}| == |m| - 1
  {
    assert (m - {k}).Keys == m.Keys - {k};
    if w == m[k] {
      assert Held(m - {k}, w) == Held(m, w) - {k};
    } else {
      assert Held(m - {k}, w) == Held(m, w);
    }
  }

  lemma CountMember<V>(m: map<Ticket, V>, k: Ticket)
    requires k in m
    ensures Count(m, m[k]) >= 1
  {
    assert k in Held(m, m[k]);
  }

  // ---- one lineage ----

  /** What the code keeps, and beside it the tickets of those who write or hold a head. */
  datatype Lineage = Lineage(writing: bool, owner: Option<Peer>, heads: map<Peer, int>,
                             writers: map<Ticket, Peer>, holders: map<Ticket, Peer>)

  predicate ForeignHeads(l: Lineage, p: Peer) {
    exists q :: q in l.heads && q != p && l.heads[q] != 0
  }

  function HeadsOf(l: Lineage, p: Peer): int {
    if p in l.heads then l.heads[p] else 0
  }

  ghost predicate Counted(l: Lineage) {
    (forall p :: p in l.heads ==> l.heads[p] > 0) && forall p :: HeadsOf(l, p) == Count(l.holders, p)
  }

  ghost predicate LineageOk(l: Lineage) {
    && Counted(l)
    && l.writing == (|l.writers| == 1) && |l.writers| <= 1
    && (forall k :: k in l.writers ==> l.owner == Some(l.writers[k]))
    && (forall k :: k in l.holders ==> l.owner == Some(l.holders[k]))
  }

  datatype LineageStep = Lock(k: Ticket, p: Peer) | Unlock(k: Ticket) | Hold(k: Ticket, p: Peer) | Drop(k: Ticket)

  predicate MayTake(l: Lineage, p: Peer) {
    !l.writing && !ForeignHeads(l, p)
  }

  predicate LineageEnabled(l: Lineage, s: LineageStep) {
    match s
    case Lock(k, p) => MayTake(l, p) && k !in l.writers
    case Unlock(k) => k in l.writers
    case Hold(k, p) => MayTake(l, p) && k !in l.holders
    case Drop(k) => k in l.holders
  }

  function LineageNext(l: Lineage, s: LineageStep): Lineage
    requires LineageEnabled(l, s)
  {
    match s
    case Lock(k, p) => l.(writing := true, owner := Some(p), writers := l.writers[k := p])
    case Unlock(k) => l.(writing := false, writers := l.writers - {k})
    case Hold(k, p) => l.(owner := Some(p), heads := l.heads[p := HeadsOf(l, p) + 1], holders := l.holders[k := p])
    case Drop(k) =>
      var p := l.holders[k];
      var left := HeadsOf(l, p) - 1;
      l.(heads := if left == 0 then l.heads - {p} else l.heads[p := left], holders := l.holders - {k})
  }

  lemma NoOthers(l: Lineage, p: Peer)
    requires LineageOk(l) && MayTake(l, p)
    ensures l.writers == map[] && forall k :: k in l.holders ==> l.holders[k] == p
  {
    forall k | k in l.holders ensures l.holders[k] == p {
      CountMember(l.holders, k);
      assert HeadsOf(l, l.holders[k]) == Count(l.holders, l.holders[k]);
    }
  }

  lemma HeadsAgree(l: Lineage, s: LineageStep, p: Peer)
    requires Counted(l) && LineageEnabled(l, s)
    ensures HeadsOf(LineageNext(l, s), p) == Count(LineageNext(l, s).holders, p)
    ensures p in LineageNext(l, s).heads ==> HeadsOf(LineageNext(l, s), p) > 0
  {
    hide MayTake, Count;
    assert HeadsOf(l, p) == Count(l.holders, p);
    match s
    case Hold(k, q) => CountIn(l.holders, k, q, p);
    case Drop(k) =>
      CountOut(l.holders, k, p);
      CountMember(l.holders, k);
    case _ =>
  }

  lemma CountedKeeps(l: Lineage, s: LineageStep)
    requires Counted(l) && LineageEnabled(l, s)
    ensures Counted(LineageNext(l, s))
  {
    var n := LineageNext(l, s);
    hide LineageNext, LineageEnabled, Count;
    forall p ensures HeadsOf(n, p) == Count(n.holders, p) && (p in n.heads ==> n.heads[p] > 0) {
      HeadsAgree(l, s, p);
    }
  }

  lemma LineageKeeps(l: Lineage, s: LineageStep)
    requires LineageOk(l) && LineageEnabled(l, s)
    ensures LineageOk(LineageNext(l, s))
  {
    CountedKeeps(l, s);
    if s.Lock? || s.Hold? {
      NoOthers(l, s.p);
    }
    hide Counted, MayTake, Count;
    match s
    case Lock(k, p) => CountIn(l.writers, k, p, p);
    case Unlock(k) => CountOut(l.writers, k, 0);
    case Hold(k, p) =>
    case Drop(k) =>
  }

  /** A lineage can be locked, or a head of it taken, exactly when nobody writes it and only
      the same peer holds heads of it. */
  lemma FreeExactly(l: Lineage, k: Ticket, p: Peer)
    requires LineageOk(l)
    ensures LineageEnabled(l, Lock(k, p)) <==>
            l.writers == map[] && forall j :: j in l.holders ==> l.holders[j] == p
    ensures LineageEnabled(l, Hold(k, p)) <==>
            && k !in l.holders && l.writers == map[] && forall j :: j in l.holders ==> l.holders[j] == p
    ensures LineageEnabled(l, Unlock(k)) <==> k in l.writers
    ensures LineageEnabled(l, Drop(k)) <==> k in l.holders
  {
    if MayTake(l, p) {
      NoOthers(l, p);
    } else if l.writing {
      assert |l.writers| == 1;
    } else {
      var q :| q in l.heads && q != p && l.heads[q] != 0;
      assert HeadsOf(l, q) == Count(l.holders, q) > 0;
      var j :| j in Held(l.holders, q);
    }
  }

  /** Who holds what after a step: one ticket comes or goes, the others stay. */
  lemma TicketsAfter(l: Lineage, s: LineageStep)
    requires LineageEnabled(l, s)
    ensures var n := LineageNext(l, s);
            match s
            case Lock(k, p) => n.writers == l.writers + map[k := p] && n.holders == l.holders && n.owner == Some(p)
            case Hold(k, p) => n.writers == l.writers && n.holders == l.holders + map[k := p] && n.owner == Some(p)
            case Unlock(k) => n.writers == l.writers - {k} && n.holders == l.holders && n.owner == l.owner
            case Drop(k) => n.writers == l.writers && n.holders == l.holders - {k} && n.owner == l.owner
  {
  }

  /** A lineage has at most one writer, its heads belong to one peer, and that peer is
      the writer's. */
  lemma OneWriter(l: Lineage, a: Ticket, b: Ticket)
    requires LineageOk(l)
    ensures a in l.writers && b in l.writers ==> a == b
    ensures a in l.holders && b in l.holders ==> l.holders[a] == l.holders[b]
    ensures a in l.writers && b in l.holders ==> l.writers[a] == l.holders[b]
  {
    if a in l.writers && b in l.writers && a != b {
      SubsetSize({a, b}, l.writers.Keys);
    }
  }

  /** Ownership passes only when the old owner neither writes nor holds a head. */
  lemma OwnerPasses(l: Lineage, s: LineageStep)
    requires LineageOk(l) && LineageEnabled(l, s) && LineageNext(l, s).owner != l.owner
    ensures l.writers == map[] && forall k :: k in l.holders ==> LineageNext(l, s).owner == Some(l.holders[k])
    ensures l.owner.Some? ==> l.holders == map[]
  {
    if s.Lock? || s.Hold? {
      NoOthers(l, s.p);
    }
  }

  // ---- the root: borrows and topology mutations ----

  datatype Root = Root(mutating: bool, borrowers: int, owners: map<Peer, int>, epoch: nat,
                       mutators: map<Ticket, bool>, borrows: map<Ticket, Peer>)

  /** How many borrows the code counts for a peer. */
  function Share(owners: map<Peer, int>, p: Peer): int {
    if p in owners then owners[p] else 0
  }

  predicate Exclusive(r: Root) {
    exists k :: k in r.mutators && r.mutators[k]
  }

  /** `mutators` are the mutations that run, and whether each is exclusive. */
  ghost predicate RootOk(r: Root) {
    && |r.mutators| <= 1 && r.mutating == (|r.mutators| == 1)
    && r.borrowers == |r.borrows|
    && (forall p :: Share(r.owners, p) == Count(r.borrows, p))
    && (Exclusive(r) ==> r.borrows == map[])
  }

  datatype RootStep =
    | BeginExclusive(m: Ticket)
    | BeginAdditive(m: Ticket)
    | EndMutation(m: Ticket)
    | BeginBorrow(k: Ticket, p: Peer)
    | EndBorrow(k: Ticket)
    | Transfer(k: Ticket, to: Peer)

  predicate RootEnabled(r: Root, s: RootStep) {
    match s
    case BeginExclusive(m) => !r.mutating && r.borrowers == 0 && m !in r.mutators
    case BeginAdditive(m) => !r.mutating && m !in r.mutators
    case EndMutation(m) => m in r.mutators
    case BeginBorrow(k, p) => !r.mutating && k !in r.borrows
    case EndBorrow(k) => k in r.borrows
    case Transfer(k, to) => k in r.borrows
  }

  function Adjust(owners: map<Peer, int>, p: Peer, delta: int): map<Peer, int> {
    var n := (if p in owners then owners[p] else 0) + delta;
    if n == 0 then owners - {p} else owners[p := n]
  }

  function RootNext(r: Root, s: RootStep): Root
    requires RootEnabled(r, s)
  {
    match s
    case BeginExclusive(m) => r.(mutating := true, mutators := r.mutators[m := true])
    case BeginAdditive(m) => r.(mutating := true, mutators := r.mutators[m := false])
    case EndMutation(m) =>
      r.(mutating := false, mutators := r.mutators - {m}, epoch := if r.mutators[m] then r.epoch + 1 else r.epoch)
    case BeginBorrow(k, p) =>
      r.(borrowers := r.borrowers + 1, owners := Adjust(r.owners, p, 1), borrows := r.borrows[k := p])
    case EndBorrow(k) =>
      r.(borrowers := r.borrowers - 1, owners := Adjust(r.owners, r.borrows[k], -1), borrows := r.borrows - {k})
    case Transfer(k, to) =>
      r.(owners := Adjust(Adjust(r.owners, r.borrows[k], -1), to, 1), borrows := r.borrows[k := to])
  }

  lemma Adjusts(owners: map<Peer, int>, p: Peer, delta: int, q: Peer)
    ensures Share(Adjust(owners, p, delta), q) == Share(owners, q) + if q == p then delta else 0
  {
  }

  lemma OwnedIs(r: Root, p: Peer)
    requires RootOk(r)
    ensures Share(r.owners, p) == Count(r.borrows, p)
  {
    assert Share(r.owners, p) == Count(r.borrows, p);
  }

  lemma BorrowAgrees(owners: map<Peer, int>, borrows: map<Ticket, Peer>, k: Ticket, q: Peer, p: Peer)
    requires k !in borrows && Share(owners, p) == Count(borrows, p)
    ensures Share(Adjust(owners, q, 1), p) == Count(borrows[k := q], p)
  {
    hide Count, Adjust, Share;
    CountIn(borrows, k, q, p);
    Adjusts(owners, q, 1, p);
  }

  lemma EndAgrees(owners: map<Peer, int>, borrows: map<Ticket, Peer>, k: Ticket, p: Peer)
    requires k in borrows && Share(owners, p) == Count(borrows, p)
    ensures Share(Adjust(owners, borrows[k], -1), p) == Count(borrows - {k}, p)
  {
    hide Count, Adjust, Share;
    CountOut(borrows, k, p);
    Adjusts(owners, borrows[k], -1, p);
  }

  lemma TransferAgrees(owners: map<Peer, int>, borrows: map<Ticket, Peer>, k: Ticket, to: Peer, p: Peer)
    requires k in borrows && Share(owners, p) == Count(borrows, p)
    ensures Share(Adjust(Adjust(owners, borrows[k], -1), to, 1), p) == Count(borrows[k := to], p)
  {
    hide Count, Adjust, Share;
    EndAgrees(owners, borrows, k, p);
    BorrowAgrees(Adjust(owners, borrows[k], -1), borrows - {k}, k, to, p);
    assert (borrows - {k})[k := to] == borrows[k := to];
  }

  lemma OwnersAgree(r: Root, s: RootStep, p: Peer)
    requires RootOk(r) && RootEnabled(r, s)
    ensures Share(RootNext(r, s).owners, p) == Count(RootNext(r, s).borrows, p)
  {
    hide Count, Adjust, RootOk;
    OwnedIs(r, p);
    match s
    case BeginBorrow(k, q) => BorrowAgrees(r.owners, r.borrows, k, q, p);
    case EndBorrow(k) => EndAgrees(r.owners, r.borrows, k, p);
    case Transfer(k, to) => TransferAgrees(r.owners, r.borrows, k, to, p);
    case _ =>
  }

  lemma RootKeeps(r: Root, s: RootStep)
    requires RootOk(r) && RootEnabled(r, s)
    ensures RootOk(RootNext(r, s))
  {
    hide Count, Adjust, Share;
    var n := RootNext(r, s);
    forall p ensures Share(n.owners, p) == Count(n.borrows, p) {
      OwnersAgree(r, s, p);
    }
    match s
    case BeginBorrow(k, q) => CountIn(r.borrows, k, q, q);
    case EndBorrow(k) => CountOut(r.borrows, k, 0);
    case Transfer(k, to) =>
      assert n.borrows.Keys == r.borrows.Keys;
      assert |n.borrows| == |n.borrows.Keys|;
    case BeginExclusive(m) =>
      CountIn(r.mutators, m, true, true);
      assert r.borrows == map[];
    case BeginAdditive(m) =>
      CountIn(r.mutators, m, false, false);
      assert r.mutators == map[];
    case EndMutation(m) => CountOut(r.mutators, m, true);
  }

  /** A mutation may begin exactly when none runs, an exclusive one only while nobody
      borrows; a borrow may begin exactly when no mutation runs. */
  lemma BeginExactly(r: Root, k: Ticket, p: Peer)
    requires RootOk(r)
    ensures RootEnabled(r, BeginExclusive(k)) <==> r.mutators == map[] && r.borrows == map[]
    ensures RootEnabled(r, BeginAdditive(k)) <==> r.mutators == map[]
    ensures RootEnabled(r, BeginBorrow(k, p)) <==> r.mutators == map[] && k !in r.borrows
    ensures RootEnabled(r, EndMutation(k)) <==> k in r.mutators
    ensures RootEnabled(r, EndBorrow(k)) <==> k in r.borrows
    ensures RootEnabled(r, Transfer(k, p)) <==> k in r.borrows
  {
  }

  /** Who mutates and who borrows after a step; the epoch counts the exclusive mutations. */
  lemma RootAfter(r: Root, s: RootStep)
    requires RootEnabled(r, s)
    ensures var n := RootNext(r, s);
            && n.mutators == (match s
                              case BeginExclusive(m) => r.mutators + map[m := true]
                              case BeginAdditive(m) => r.mutators + map[m := false]
                              case EndMutation(m) => r.mutators - {m}
                              case _ => r.mutators)
            && n.borrows == (match s
                             case BeginBorrow(k, p) => r.borrows + map[k := p]
                             case Transfer(k, p) => r.borrows + map[k := p]
                             case EndBorrow(k) => r.borrows - {k}
                             case _ => r.borrows)
            && n.epoch == r.epoch + if s.EndMutation? && r.mutators[s.m] then 1 else 0
  {
  }

  /** At most one mutation runs at a time. */
  lemma OneMutation(r: Root, a: Ticket, b: Ticket)
    requires RootOk(r) && a in r.mutators && b in r.mutators
    ensures a == b
  {
    if a != b {
      SubsetSize({a, b}, r.mutators.Keys);
    }
  }

  /** An exclusive mutation runs only while nobody borrows, whatever happens meanwhile. */
  lemma ExclusiveIsAlone(r: Root, s: RootStep)
    requires RootOk(r) && RootEnabled(r, s) && Exclusive(r)
    ensures r.borrows == map[] && (s.EndMutation? || RootNext(r, s) == r) && !s.BeginBorrow? && !s.BeginExclusive?
  {
  }

  /** When a peer's own count is the whole count, every outstanding borrow is its own. */
  lemma LocalBorrowers(r: Root, p: Peer)
    requires RootOk(r)
    ensures Share(r.owners, p) == r.borrowers <==> forall k :: k in r.borrows ==> r.borrows[k] == p
  {
    assert Share(r.owners, p) == Count(r.borrows, p);
    var all, mine := r.borrows.Keys, Held(r.borrows, p);
    assert mine <= all;
    if k :| k in all && k !in mine {
      assert mine <= all - {k};
      SubsetSize(mine, all - {k});
    } else {
      assert mine == all;
    }
  }

  // ---- hot stores ----

  datatype Store = Store(refs: int, retired: bool, closes: nat)

  /** `closing` are the stores some thread has decided to close and not yet closed:
      closing happens outside the lock. */
  datatype Hot = Hot(hot: Option<nat>, stores: map<nat, Store>, retired: set<nat>,
                     borrows: map<Ticket, nat>, closing: set<nat>)

  ghost predicate StoreOk(h: Hot, id: nat)
    requires id in h.stores
  {
    var s := h.stores[id];
    && s.refs == Count(h.borrows, id)
    && (!s.retired <==> h.hot == Some(id))
    && (id in h.retired <==> s.retired && s.refs > 0)
    && s.closes + (if id in h.closing then 1 else 0) == if s.retired && s.refs == 0 then 1 else 0
  }

  ghost predicate HotOk(h: Hot) {
    && (h.hot.Some? ==> h.hot.value in h.stores)
    && h.retired <= h.stores.Keys && h.closing <= h.stores.Keys
    && (forall k :: k in h.borrows ==> h.borrows[k] in h.stores)
    && forall id :: id in h.stores ==> StoreOk(h, id)
  }

  datatype HotStep = Borrow(k: Ticket, id: nat) | Release(k: Ticket) | Retire | Close(id: nat)

  /** A borrow opens store `id` when there is no hot store, and joins the hot one otherwise. */
  predicate HotEnabled(h: Hot, s: HotStep) {
    match s
    case Borrow(k, id) => k !in h.borrows && (if h.hot.None? then id !in h.stores else h.hot == Some(id))
    case Release(k) => k in h.borrows && h.borrows[k] in h.stores
    case Retire => h.hot.Some? ==> h.hot.value in h.stores
    case Close(id) => id in h.closing && id in h.stores
  }

  function HotNext(h: Hot, s: HotStep): Hot
    requires HotEnabled(h, s)
  {
    match s
    case Borrow(k, id) =>
      var store := if id in h.stores then h.stores[id] else Store(0, false, 0);
      h.(hot := Some(id), stores := h.stores[id := store.(refs := store.refs + 1)], borrows := h.borrows[k := id])
    case Release(k) =>
      var id := h.borrows[k];
      var store := h.stores[id].(refs := h.stores[id].refs - 1);
      var last := store.retired && store.refs == 0;
      h.(stores := h.stores[id := store], borrows := h.borrows - {k},
         retired := if last then h.retired - {id} else h.retired,
         closing := if last then h.closing + {id} else h.closing)
    case Retire =>
      if h.hot.None? then h
      else
        var id := h.hot.value;
        var store := h.stores[id].(retired := true);
        h.(hot := None, stores := h.stores[id := store],
           retired := if store.refs != 0 then h.retired + {id} else h.retired,
           closing := if store.refs == 0 then h.closing + {id} else h.closing)
    case Close(id) =>
      var store := h.stores[id];
      h.(stores := h.stores[id := store.(closes := store.closes + 1)], closing := h.closing - {id})
  }

  lemma StoreKeeps(h: Hot, s: HotStep, id: nat)
    requires HotOk(h) && HotEnabled(h, s) && id in HotNext(h, s).stores
    ensures StoreOk(HotNext(h, s), id)
  {
    hide Held;
    assert id in h.stores ==> StoreOk(h, id);
    match s
    case Borrow(k, sprout) =>
      CountIn(h.borrows, k, sprout, id);
      if id !in h.stores {
        Unborrowed(h, id);
      }
    case Release(k) =>
      CountOut(h.borrows, k, id);
      CountMember(h.borrows, k);
    case Retire =>
    case Close(_) =>
  }

  lemma Unborrowed(h: Hot, id: nat)
    requires HotOk(h) && id !in h.stores
    ensures Count(h.borrows, id) == 0
  {
    if k :| k in Held(h.borrows, id) {
      assert h.borrows[k] in h.stores;
    }
  }

  lemma HotKeeps(h: Hot, s: HotStep)
    requires HotOk(h) && HotEnabled(h, s)
    ensures HotOk(HotNext(h, s))
  {
    var n := HotNext(h, s);
    hide StoreOk, Count;
    forall id | id in n.stores ensures StoreOk(n, id) {
      StoreKeeps(h, s, id);
    }
  }

  /** A borrow is always possible: of the hot store, or of a new one when there is none. */
  lemma BorrowExactly(h: Hot, k: Ticket, id: nat)
    requires HotOk(h) && k !in h.borrows
    ensures h.hot.Some? ==> (HotEnabled(h, Borrow(k, id)) <==> id == h.hot.value)
    ensures h.hot.None? ==> (HotEnabled(h, Borrow(k, id)) <==> id !in h.stores)
    ensures HotEnabled(h, Retire)
    ensures forall j :: HotEnabled(h, Release(j)) <==> j in h.borrows
    ensures forall j :: HotEnabled(h, Close(j)) <==> j in h.closing
  {
  }

  /** What is borrowed, hot and waiting to be closed after a step. */
  lemma HotAfter(h: Hot, s: HotStep)
    requires HotOk(h) && HotEnabled(h, s)
    ensures var n := HotNext(h, s);
            match s
            case Borrow(k, id) => n.borrows == h.borrows + map[k := id] && n.hot == Some(id) && n.closing == h.closing
            case Release(k) => n.borrows == h.borrows - {k} && n.hot == h.hot && h.closing <= n.closing
            case Retire => n.borrows == h.borrows && n.hot.None? && h.closing <= n.closing
            case Close(id) =>
              && n.borrows == h.borrows && n.hot == h.hot && n.closing == h.closing - {id}
              && n.stores[id].closes == h.stores[id].closes + 1
  {
  }

  /** A store is closed at most once, never while borrowed, and once it is retired and
      free its close has been decided exactly once. */
  lemma ClosedOnce(h: Hot, id: nat)
    requires HotOk(h) && id in h.stores
    ensures h.stores[id].closes <= 1
    ensures h.stores[id].closes > 0 || id in h.closing ==> forall k :: k in h.borrows ==> h.borrows[k] != id
    ensures h.stores[id].retired && (forall k :: k in h.borrows ==> h.borrows[k] != id) ==>
              (h.stores[id].closes == 1) != (id in h.closing)
    ensures h.hot == Some(id) ==> h.stores[id].closes == 0 && id !in h.closing
  {
    assert StoreOk(h, id);
    if k :| k in h.borrows && h.borrows[k] == id {
      CountMember(h.borrows, k);
    } else {
      assert Held(h.borrows, id) == {};
    }
  }

  function HeldBy(m: map<Ticket, nat>, ids: set<nat>): set<Ticket> {
    set k | k in m && m[k] in ids
  }

  lemma HeldByOne(m: map<Ticket, nat>, ids: set<nat>, id: nat)
    requires id !in ids
    ensures |HeldBy(m, ids + {id})| == |HeldBy(m, ids)| + Count(m, id)
  {
    assert HeldBy(m, ids + {id}) == HeldBy(m, ids) + Held(m, id);
  }

  /** The references the code adds up before a removal are all the borrows there are. */
  method OpenHeadRefs(h: Hot) returns (refs: int)
    requires HotOk(h)
    ensures refs == |h.borrows|
  {
    hide StoreOk;
    refs := 0;
    ghost var done: set<nat> := {};
    if h.hot.Some? {
      refs := h.stores[h.hot.value].refs;
      RefsAre(h, h.hot.value);
      HeldByOne(h.borrows, {}, h.hot.value);
      done := {h.hot.value};
      assert {} + done == done;
    }
    assert HeldBy(h.borrows, {}) == {};
    var todo := h.retired;
    HotNotRetired(h);
    while todo != {}
      invariant todo <= h.retired && done !! todo && refs == |HeldBy(h.borrows, done)|
      invariant forall id :: id in h.retired || h.hot == Some(id) ==> id in done || id in todo
    {
      var id :| id in todo;
      RefsAre(h, id);
      HeldByOne(h.borrows, done, id);
      refs := refs + h.stores[id].refs;
      done := done + {id};
      todo := todo - {id};
    }
    AllHeld(h, done);
  }

  lemma RefsAre(h: Hot, id: nat)
    requires HotOk(h) && id in h.stores
    ensures h.stores[id].refs == Count(h.borrows, id)
  {
    assert StoreOk(h, id);
  }

  lemma HotNotRetired(h: Hot)
    requires HotOk(h)
    ensures h.hot.Some? ==> h.hot.value !in h.retired
  {
    assert h.hot.Some? ==> StoreOk(h, h.hot.value);
  }

  lemma AllHeld(h: Hot, done: set<nat>)
    requires HotOk(h) && forall id :: id in h.retired || h.hot == Some(id) ==> id in done
    ensures |HeldBy(h.borrows, done)| == |h.borrows|
  {
    forall k | k in h.borrows ensures h.borrows[k] in done {
      assert StoreOk(h, h.borrows[k]);
      CountMember(h.borrows, k);
    }
    assert HeldBy(h.borrows, done) == h.borrows.Keys;
  }

  // ---- the whole protocol ----

  /** Lineages by trunk, one root, and each peer's stores. */
  datatype State = State(lineages: map<string, Lineage>, root: Root, peers: map<Peer, Hot>)

  datatype Step = OnLineage(trunk: string, l: LineageStep) | OnRoot(r: RootStep) | OnStore(p: Peer, h: HotStep)

  const IDLE := Lineage(false, None, map[], map[], map[])

  const QUIET := Root(false, 0, map[], 0, map[], map[])

  const COLD := Hot(None, map[], {}, map[], {})

  function LineageAt(s: State, trunk: string): Lineage {
    if trunk in s.lineages then s.lineages[trunk] else IDLE
  }

  function StoresOf(s: State, p: Peer): Hot {
    if p in s.peers then s.peers[p] else COLD
  }

  predicate Enabled(s: State, step: Step) {
    match step
    case OnLineage(trunk, l) => LineageEnabled(LineageAt(s, trunk), l)
    case OnRoot(r) => RootEnabled(s.root, r)
    case OnStore(p, h) => HotEnabled(StoresOf(s, p), h)
  }

  function Next(s: State, step: Step): State
    requires Enabled(s, step)
  {
    match step
    case OnLineage(trunk, l) => s.(lineages := s.lineages[trunk := LineageNext(LineageAt(s, trunk), l)])
    case OnRoot(r) => s.(root := RootNext(s.root, r))
    case OnStore(p, h) => s.(peers := s.peers[p := HotNext(StoresOf(s, p), h)])
  }

  ghost predicate Ok(s: State) {
    && (forall t :: t in s.lineages ==> LineageOk(s.lineages[t]))
    && RootOk(s.root)
    && (forall p :: p in s.peers ==> HotOk(s.peers[p]))
  }

  lemma StartsOk()
    ensures Ok(State(map[], QUIET, map[])) && LineageOk(IDLE) && HotOk(COLD)
  {
    assert forall p: Peer :: Held(map[], p) == {};
  }

  lemma NextKeeps(s: State, step: Step)
    requires Ok(s) && Enabled(s, step)
    ensures Ok(Next(s, step))
  {
    StartsOk();
    hide LineageOk, RootOk, HotOk, LineageEnabled, LineageNext, RootEnabled, RootNext, HotEnabled, HotNext;
    match step
    case OnLineage(trunk, l) => LineageKeeps(LineageAt(s, trunk), l);
    case OnRoot(r) => RootKeeps(s.root, r);
    case OnStore(p, h) => HotKeeps(StoresOf(s, p), h);
  }

  ghost predicate Runs(s: State, run: seq<Step>) {
    run != [] ==> Runs(s, run[..|run| - 1]) && Enabled(After(s, run[..|run| - 1]), run[|run| - 1])
  }

  ghost function After(s: State, run: seq<Step>): State {
    if run == [] then s
    else
      var before := After(s, run[..|run| - 1]);
      if Enabled(before, run[|run| - 1]) then Next(before, run[|run| - 1]) else before
  }

  /** Every reachable state: one writer per lineage, heads of one peer, exclusive
      mutations alone, stores closed once and never under a borrow. */
  lemma {:induction false} Reachable(run: seq<Step>)
    requires Runs(State(map[], QUIET, map[]), run)
    ensures Ok(After(State(map[], QUIET, map[]), run))
    decreases |run|
  {
    var s := State(map[], QUIET, map[]);
    if run == [] {
      StartsOk();
    } else {
      Reachable(run[..|run| - 1]);
      hide Ok, Enabled, Next;
      NextKeeps(After(s, run[..|run| - 1]), run[|run| - 1]);
    }
  }
}
