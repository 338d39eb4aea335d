/**
 The nested layout: a log directory holds its own segments and, in
 subdirectories, the logs forked from it. Forking below an existing branch point
 splits the boundary segment, moves the later ones into an "old future"
 subdirectory and re-homes the existing children there, all but those whose names
 begin with a dot. Over every run of writes and forks in which no such child is cut
 off, the tree means the same as a map from directory to an independent, complete
 history.
 */
module ForkTree {
  import opened Basics
  import opened Decimal
  import opened Lineage
  import opened NodeLog

  datatype Dir = Dir(own: Own, kids: map<string, Dir>)

  type Path = seq<string>

  // ---- names ----

  predicate ValidName(name: string) {
    name != "" && name != "." && name != ".." && '/' !in name && '\\' !in name
  }

  /** Listing a directory's children skips these. */
  predicate Hidden(name: string) {
    name != "" && name[0] == '.'
  }

  function HiddenIn(kids: map<string, Dir>): set<string> {
    set k | k in kids && Hidden(k)
  }

  /** A branch point takes no writes, if it is seen to be one. */
  predicate Frozen(kids: map<string, Dir>) {
    exists k :: k in kids && !Hidden(k)
  }

  /** The children a re-split moves, and those it does not see. */
  function Rehomed(kids: map<string, Dir>): map<string, Dir> {
    kids - HiddenIn(kids)
  }

  function Staying(kids: map<string, Dir>): map<string, Dir> {
    kids - (kids.Keys - HiddenIn(kids))
  }

  lemma KidsSplit(kids: map<string, Dir>, k: string)
    ensures k in Rehomed(kids) <==> k in kids && !Hidden(k)
    ensures k in Staying(kids) <==> k in kids && Hidden(k)
    ensures k in Rehomed(kids) ==> Rehomed(kids)[k] == kids[k]
    ensures k in Staying(kids) ==> Staying(kids)[k] == kids[k]
  {
  }

  const SEGMENT_DIGITS := 20

  function SegName(base: nat, ext: string): string {
    var n := Itoa(base);
    (if |n| < SEGMENT_DIGITS then seq(SEGMENT_DIGITS - |n|, _ => '0') else "") + n + ext
  }

  lemma {:induction false} Padded(k: nat, n: string)
    requires Digits(n)
    ensures var s := seq(k, _ => '0') + n; Digits(s) && Value(s) == Value(n)
    decreases |n| + k
  {
    var zeros := seq(k, _ => '0');
    var s := zeros + n;
    if n != "" {
      Padded(k, n[..|n| - 1]);
      assert s[..|s| - 1] == zeros + n[..|n| - 1];
    } else if k > 0 {
      Padded(k - 1, n);
      assert s[..|s| - 1] == seq(k - 1, _ => '0') + n;
    }
  }

  /** A segment file's name is its base in at least twenty digits, and reads back as it. */
  lemma SegNameIs(base: nat, ext: string)
    ensures var name := SegName(base, ext);
            && |name| >= 20 + |ext| && name[|name| - |ext|..] == ext
            && Digits(name[..|name| - |ext|]) && Value(name[..|name| - |ext|]) == base
            && (base < 10 ==> |name| == 20 + |ext|)
  {
    ItoaIs(base);
    var n, name := Itoa(base), SegName(base, ext);
    var k := if |n| < 20 then 20 - |n| else 0;
    Padded(k, n);
    assert name == seq(k, _ => '0') + n + ext;
    assert name[..|name| - |ext|] == seq(k, _ => '0') + n;
  }

  /** No two segments of a directory have one name. */
  lemma SegNamesDiffer(a: nat, b: nat, ext: string)
    requires SegName(a, ext) == SegName(b, ext)
    ensures a == b
  {
    SegNameIs(a, ext);
    SegNameIs(b, ext);
  }

  const FORK_MARKER := ".fork"
  const FORK_PENDING := ".fork-pending"

  /** The files of a log directory: its segments and, for a fork, its marker. */
  function FileNames(own: Own, isRoot: bool, ext: string): set<string> {
    (set s | s in own.segs :: SegName(s.base, ext)) + if isRoot then {} else {FORK_MARKER}
  }

  /** Something of that name is in the directory, or will be while the fork runs. */
  predicate Taken(ext: string, d: Dir, isRoot: bool, name: string) {
    name in d.kids || name in FileNames(d.own, isRoot, ext) || name == FORK_PENDING
  }

  /** Which names a fork finds taken. */
  lemma TakenNames(ext: string, d: Dir, isRoot: bool, name: string)
    ensures Taken(ext, d, isRoot, ".fork-pending") && (Taken(ext, d, isRoot, ".fork") <== !isRoot)
    ensures Taken(ext, d, isRoot, name) <==>
            || name in d.kids || name == ".fork-pending" || (name == ".fork" && !isRoot)
            || exists s :: s in d.own.segs && name == SegName(s.base, ext)
  {
    hide SegName;
  }

  // ---- the directory tree ----

  /** A tree below a parent that shows `v`: every header is the fold of what precedes
      it, and every child that listing shows starts right after its parent's last record. */
  ghost predicate TreeOk(mode: Option<Reducer>, v: seq<Bytes>, d: Dir)
    decreases d
  {
    && NodeOk(mode, v, d.own)
    && forall k :: k in d.kids ==>
         && (Hidden(k) || d.kids[k].own.base == |Visible(v, d.own)| + 1)
         && TreeOk(mode, Visible(v, d.own), d.kids[k])
  }

  /** The visible history of the directory at `path`, if there is one. */
  ghost function History(v: seq<Bytes>, d: Dir, path: Path): Option<seq<Bytes>>
    decreases path
  {
    if path == [] then Some(Visible(v, d.own))
    else if path[0] in d.kids then History(Visible(v, d.own), d.kids[path[0]], path[1..])
    else None
  }

  /** A directory reads its ancestors only below its base. */
  lemma TreeRebase(mode: Option<Reducer>, v: seq<Bytes>, u: seq<Bytes>, d: Dir)
    requires TreeOk(mode, v, d) && d.own.base <= |u| + 1 && Take(u, d.own.base - 1) == Take(v, d.own.base - 1)
    ensures TreeOk(mode, u, d) && forall q :: History(u, d, q) == History(v, d, q)
  {
    hide Visible, OwnOk, Take, First, Tight;
    Rebased(mode, v, u, d.own);
  }

  lemma TreeParts(mode: Option<Reducer>, v: seq<Bytes>, d: Dir)
    requires TreeOk(mode, v, d)
    ensures NodeOk(mode, v, d.own)
    ensures forall k :: k in d.kids ==>
              (Hidden(k) || d.kids[k].own.base == |Visible(v, d.own)| + 1) && TreeOk(mode, Visible(v, d.own), d.kids[k])
  {
    hide NodeOk, Visible;
  }

  lemma AssembleOk(mode: Option<Reducer>, v: seq<Bytes>, own: Own, shown: seq<Bytes>, kids: map<string, Dir>)
    requires NodeOk(mode, v, own) && Visible(v, own) == shown
    requires forall k :: k in kids ==> (Hidden(k) || kids[k].own.base == |shown| + 1) && TreeOk(mode, shown, kids[k])
    ensures TreeOk(mode, v, Dir(own, kids))
  {
    hide NodeOk, Visible;
  }

  // ---- Fork, in one directory ----

  predicate CreatesOld(own: Own, at: nat, named: bool) {
    named || DataMoves(own, at)
  }

  /** An empty log forks only at its first writable index; a root keeps a record. */
  predicate IndexAllowed(own: Own, isRoot: bool, at: nat) {
    if Entries(own.segs) == [] then at == own.base
    else (First(own) < at || (!isRoot && at == First(own))) && at <= End(own)
  }

  /** The checks Fork makes before it touches anything. */
  predicate ForkAllowed(ext: string, d: Dir, isRoot: bool, at: nat, child: string, oldFuture: string, named: bool) {
    && ValidName(child) && ValidName(oldFuture) && child != oldFuture
    && IndexAllowed(d.own, isRoot, at)
    && !Taken(ext, d, isRoot, child)
    && (CreatesOld(d.own, at, named) ==> !Taken(ext, d, isRoot, oldFuture))
  }

  /** Lay out a forked directory: on a re-split every child that listing shows goes into
      the old future; on a tail fork the children stay where they are. */
  function Arrange(kept: Own, sprout: Own, future: Own, kids: map<string, Dir>,
                   child: string, oldFuture: string, moves: bool, named: bool): Dir {
    var here := (if moves then Staying(kids) else kids)[child := Dir(sprout, map[])];
    Dir(kept, if moves then here[oldFuture := Dir(future, Rehomed(kids))]
              else if named then here[oldFuture := Dir(future, map[])]
              else here)
  }

  /** The directory after a fork. */
  function Fork(headered: bool, d: Dir, at: nat, child: string, oldFuture: string, named: bool, watermark: Bytes): Dir {
    Arrange(KeptOwn(d.own, at), Own(at, Seed(headered, at, watermark)),
            Own(at, FutureSegs(headered, d.own, at, watermark)), d.kids,
            child, oldFuture, DataMoves(d.own, at), named)
  }

  /** No child that a re-split does not see reads records that the re-split moves. */
  ghost predicate Safe(d: Dir, at: nat) {
    forall k :: k in d.kids && Hidden(k) ==> d.kids[k].own.base <= at
  }

  // ---- steps and runs over the whole tree ----

  /** A write names its payload, whether its handle had sealed the last segment, and
      whether it landed; a fork its index and names, and whether its handle still held
      a header-only segment. Segments, headers and watermarks are computed. */
  datatype Act =
    | Write(payload: Bytes, closed: bool, landed: bool)
    | Forks(at: nat, child: string, oldFuture: string, named: bool, held: bool)

  datatype Step = Step(path: Path, act: Act)

  /** The fork watermark; a log without headers needs none. */
  function Watermark(o: Options, line: Line, own: Own, at: nat, held: bool): Option<Bytes> {
    if o.fold.None? then Some([]) else ForkMark(o.fold.value, line, own, at, held)
  }

  ghost predicate Enabled(o: Options, line: Line, d: Dir, path: Path, act: Act)
    decreases path
  {
    if path != [] then
      path[0] in d.kids && Enabled(o, Over(line, d.own), d.kids[path[0]], path[1..], act)
    else match act
      case Write(payload, closed, landed) =>
        !Frozen(d.kids) && landed == WriteOwn(o, line, d.own, payload, closed).landed
      case Forks(at, _, _, _, _) => ForkReady(o, line, d, act) && (DataMoves(d.own, at) ==> Safe(d, at))
  }

  /** What the code asks of a fork, of a log with no empty segment after a full one. */
  ghost predicate ForkReady(o: Options, line: Line, d: Dir, act: Act)
    requires act.Forks?
  {
    && ForkAllowed(o.ext, d, line.Top?, act.at, act.child, act.oldFuture, act.named)
    && Settled(d.own)
    && Watermark(o, line, d.own, act.at, act.held).Some?
  }

  function Perform(o: Options, line: Line, d: Dir, path: Path, act: Act): Dir
    decreases path
  {
    if path != [] then
      if path[0] in d.kids
      then Dir(d.own, d.kids[path[0] := Perform(o, Over(line, d.own), d.kids[path[0]], path[1..], act)])
      else d
    else match act
      case Write(payload, closed, _) => Dir(WriteOwn(o, line, d.own, payload, closed).own, d.kids)
      case Forks(at, child, oldFuture, named, held) =>
        match Watermark(o, line, d.own, at, held)
        case None => d
        case Some(w) => Fork(o.fold.Some?, d, at, child, oldFuture, named, w)
  }

  /** Where a directory's history after a step comes from, said without segments. */
  datatype View = Nowhere | Same(path: Path) | Upto(path: Path, count: nat) | Plus(path: Path, payload: Bytes)

  function Source(path: Path, act: Act, moves: bool, q: Path): View {
    match act
    case Write(payload, _, landed) => if q == path && landed then Plus(path, payload) else Same(q)
    case Forks(at, child, oldFuture, named, _) =>
      if !(path <= q) then Same(q)
      else if q == path || q == path + [child] then Upto(path, if at > 0 then at - 1 else 0)
      else if q[|path|] == child then Nowhere
      else if q[|path|] == oldFuture && (named || moves) then
        if q == path + [oldFuture] then Same(path)
        else if moves && |q| > |path| + 1 && !Hidden(q[|path| + 1]) then Same(path + q[|path| + 1..])
        else Nowhere
      else if moves && !Hidden(q[|path|]) then Nowhere
      else Same(q)
  }

  function Copied(view: View, h: Option<seq<Bytes>>): Option<seq<Bytes>> {
    if view.Nowhere? || h.None? then None
    else match view
      case Same(_) => h
      case Upto(_, n) => Some(Take(h.value, n))
      case Plus(_, payload) => Some(h.value + [payload])
  }

  ghost function See(v: seq<Bytes>, d: Dir, view: View): Option<seq<Bytes>> {
    if view.Nowhere? then None else Copied(view, History(v, d, view.path))
  }

  ghost predicate Moves(v: seq<Bytes>, d: Dir, path: Path, act: Act) {
    act.Forks? && var h := History(v, d, path); h.Some? && act.at <= |h.value|
  }

  /** A directory in its place: a well-formed tree over a well-formed lineage. */
  ghost predicate Placed(mode: Option<Reducer>, line: Line, d: Dir) {
    LineOk(mode, line) && TreeOk(mode, LineVisible(line), d) && (line.Top? ==> d.own.base == 1)
  }

  lemma PlacedIs(mode: Option<Reducer>, line: Line, d: Dir)
    requires Placed(mode, line, d)
    ensures LineOk(mode, line) && TreeOk(mode, LineVisible(line), d) && (line.Top? ==> d.own.base == 1)
    ensures NodeOk(mode, LineVisible(line), d.own) && Under(mode, line, d.own)
  {
    hide LineOk, LineVisible;
    TreeParts(mode, LineVisible(line), d);
    NodeParts(mode, LineVisible(line), d.own);
  }

  lemma PlacedBelow(mode: Option<Reducer>, line: Line, d: Dir, k: string)
    requires Placed(mode, line, d) && k in d.kids
    ensures Placed(mode, Over(line, d.own), d.kids[k])
    ensures LineVisible(Over(line, d.own)) == Visible(LineVisible(line), d.own)
  {
    hide *;
    PlacedIs(mode, line, d);
    NodeParts(mode, LineVisible(line), d.own);
    LineFrom(mode, line, d.own);
    TreeParts(mode, LineVisible(line), d);
    PlacedFrom(mode, Over(line, d.own), d.kids[k]);
  }

  lemma PlacedFrom(mode: Option<Reducer>, line: Line, d: Dir)
    requires LineOk(mode, line) && TreeOk(mode, LineVisible(line), d) && (line.Top? ==> d.own.base == 1)
    ensures Placed(mode, line, d)
  {
  }

  /** What an enabled fork does to the directory's own segments. */
  lemma ForkHere(o: Options, line: Line, d: Dir, act: Act)
    requires Placed(Tracked(o.fold), line, d) && act.Forks? && ForkReady(o, line, d, act)
    ensures Watermark(o, line, d.own, act.at, act.held).Some?
    ensures ForkedOwn(o.fold.Some?, Tracked(o.fold), LineVisible(line), d.own, act.at,
              Watermark(o, line, d.own, act.at, act.held).value)
    ensures Moves(LineVisible(line), d, [], act) <==> DataMoves(d.own, act.at)
    ensures 1 <= act.at <= |Visible(LineVisible(line), d.own)| + 1
    ensures Entries(d.own.segs) == [] ==> act.at == d.own.base
  {
    hide *;
    var v, t := LineVisible(line), Tracked(o.fold);
    PlacedIs(t, line, d);
    NodeVisible(t, v, d.own);
    NodeParts(t, v, d.own);
    ReadyMeans(o, line, d, act);
    MarkRight(o, line, d.own, act.at, act.held);
    TrackedFacts(o.fold);
    ForkNode(o.fold.Some?, t, v, d.own, act.at, Watermark(o, line, d.own, act.at, act.held).value);
    MovesHere(v, d, act);
  }

  lemma ReadyMeans(o: Options, line: Line, d: Dir, act: Act)
    requires act.Forks? && ForkReady(o, line, d, act) && First(d.own) == d.own.base >= 1
    ensures Settled(d.own) && Watermark(o, line, d.own, act.at, act.held).Some?
    ensures if Entries(d.own.segs) == [] then act.at == d.own.base else d.own.base <= act.at <= End(d.own)
    ensures act.at >= 1 && End(d.own) == First(d.own) + |Entries(d.own.segs)|
    ensures act.child != act.oldFuture && act.child !in d.kids
    ensures act.named || DataMoves(d.own, act.at) ==> act.oldFuture !in d.kids
  {
    hide Entries, Watermark, Settled, FileNames;
  }

  lemma EnabledFork(o: Options, line: Line, d: Dir, act: Act)
    requires act.Forks?
    ensures Enabled(o, line, d, [], act) <==>
              ForkReady(o, line, d, act) && (DataMoves(d.own, act.at) ==> Safe(d, act.at))
  {
    hide ForkReady, DataMoves, Safe;
  }

  lemma MovesHere(v: seq<Bytes>, d: Dir, act: Act)
    requires act.Forks? && |Visible(v, d.own)| == End(d.own) - 1
    requires Entries(d.own.segs) == [] ==> act.at == d.own.base && End(d.own) == d.own.base
    ensures Moves(v, d, [], act) <==> DataMoves(d.own, act.at)
  {
    hide Entries, Visible, End;
  }

  /** The watermark a fork computes is right for a sound fold. */
  lemma MarkRight(o: Options, line: Line, own: Own, at: nat, held: bool)
    requires Under(Tracked(o.fold), line, own) && 1 <= at <= |Visible(LineVisible(line), own)| + 1
    requires Entries(own.segs) == [] ==> at == own.base
    requires Watermark(o, line, own, at, held).Some?
    ensures Tracked(o.fold).Some? ==>
              HeaderOk(o.fold.value, Watermark(o, line, own, at, held).value,
                  Take(Visible(LineVisible(line), own), at - 1))
  {
    hide *;
    TrackedFacts(o.fold);
    if Tracked(o.fold).Some? {
      ForkMarkExact(o.fold.value, line, own, at, held);
      WatermarkIs(o, line, own, at, held);
    }
  }

  lemma WatermarkIs(o: Options, line: Line, own: Own, at: nat, held: bool)
    ensures o.fold.None? ==> Watermark(o, line, own, at, held) == Some([])
    ensures o.fold.Some? ==> Watermark(o, line, own, at, held) == ForkMark(o.fold.value, line, own, at, held)
  {
    hide ForkMark;
  }

  lemma ArrangeKids(kept: Own, sprout: Own, future: Own, kids: map<string, Dir>, child: string, oldFuture: string,
                    moves: bool, named: bool, k: string)
    requires child != oldFuture && child !in kids && (moves || named ==> oldFuture !in kids)
    ensures var after := Arrange(kept, sprout, future, kids, child, oldFuture, moves, named).kids;
            && (k == child ==> k in after && after[k] == Dir(sprout, map[]))
            && (k == oldFuture && (moves || named) ==>
                k in after && after[k] == Dir(future, if moves then Rehomed(kids) else map[]))
            && (k != child && !(k == oldFuture && (moves || named)) ==>
                  (k in after <==> k in kids && (moves ==> Hidden(k))) && (k in after ==> after[k] == kids[k]))
    ensures Arrange(kept, sprout, future, kids, child, oldFuture, moves, named).own == kept
  {
    KidsSplit(kids, k);
    hide Rehomed, Staying;
  }

  /** A hidden child that stays under the cut prefix, and reads nothing above it. */
  ghost predicate StillThere(cut: seq<Bytes>, before: seq<Bytes>, kids: map<string, Dir>) {
    forall k :: k in kids && Hidden(k) ==>
      kids[k].own.base <= |cut| + 1 && Take(cut, kids[k].own.base - 1) == Take(before, kids[k].own.base - 1)
  }

  lemma SafeStays(d: Dir, before: seq<Bytes>, at: nat)
    requires Safe(d, at) && 1 <= at <= |before| + 1
    ensures StillThere(before[..at - 1], before, d.kids)
  {
    forall k | k in d.kids && Hidden(k)
      ensures d.kids[k].own.base <= |before[..at - 1]| + 1
      ensures Take(before[..at - 1], d.kids[k].own.base - 1) == Take(before, d.kids[k].own.base - 1)
    {
    }
  }

  lemma ArrangeOk(mode: Option<Reducer>, v: seq<Bytes>, cut: seq<Bytes>, before: seq<Bytes>, kept: Own, sprout: Own,
                  future: Own, kids: map<string, Dir>, child: string, oldFuture: string, moves: bool, named: bool)
    requires child != oldFuture && child !in kids && (moves || named ==> oldFuture !in kids)
    requires NodeOk(mode, v, kept) && Visible(v, kept) == cut && sprout.base == future.base == |cut| + 1
    requires NodeOk(mode, cut, sprout) && NodeOk(mode, cut, future) && Visible(cut, future) == before
    requires forall k :: k in kids ==> (Hidden(k) || kids[k].own.base == |before| + 1) && TreeOk(mode, before, kids[k])
    requires if moves then StillThere(cut, before, kids) else cut == before
    ensures TreeOk(mode, v, Arrange(kept, sprout, future, kids, child, oldFuture, moves, named))
  {
    hide NodeOk, Visible, TreeOk, Arrange, Rehomed, Staying, Hidden;
    var after := Arrange(kept, sprout, future, kids, child, oldFuture, moves, named);
    AssembleOk(mode, cut, sprout, Visible(cut, sprout), map[]);
    AssembleOk(mode, cut, future, before, map[]);
    forall k | k in Rehomed(kids) ensures k in kids && Rehomed(kids)[k] == kids[k] && !Hidden(k) {
      KidsSplit(kids, k);
    }
    AssembleOk(mode, cut, future, before, Rehomed(kids));
    forall k | k in after.kids
      ensures (Hidden(k) || after.kids[k].own.base == |cut| + 1) && TreeOk(mode, cut, after.kids[k])
    {
      ArrangeKids(kept, sprout, future, kids, child, oldFuture, moves, named, k);
      if k in kids && moves && k != child && k != oldFuture {
        TreeRebase(mode, before, cut, kids[k]);
      }
    }
    ArrangeKids(kept, sprout, future, kids, child, oldFuture, moves, named, child);
    AssembleOk(mode, v, kept, cut, after.kids);
  }

  /** A tail fork leaves the prefix as it was, so existing children stay put. */
  lemma TailForkKeeps(mode: Option<Reducer>, v: seq<Bytes>, own: Own, at: nat)
    requires NodeOk(mode, v, own) && 1 <= at <= |Visible(v, own)| + 1 && !DataMoves(own, at)
    requires Entries(own.segs) == [] ==> at == own.base
    ensures Visible(v, own)[..at - 1] == Visible(v, own)
  {
    NodeVisible(mode, v, own);
  }

  lemma PerformFork(o: Options, line: Line, d: Dir, act: Act)
    requires act.Forks? && Watermark(o, line, d.own, act.at, act.held).Some?
    ensures var w := Watermark(o, line, d.own, act.at, act.held).value;
            Perform(o, line, d, [], act) ==
            Arrange(KeptOwn(d.own, act.at), Own(act.at, Seed(o.fold.Some?, act.at, w)),
                    Own(act.at, FutureSegs(o.fold.Some?, d.own, act.at, w)), d.kids,
                    act.child, act.oldFuture, DataMoves(d.own, act.at), act.named)
  {
    hide Arrange, KeptOwn, Seed, FutureSegs, DataMoves, Watermark;
  }

  /** The parts of a fork, as the arrangement needs them. */
  lemma ForkPieces(o: Options, line: Line, d: Dir, act: Act)
    requires Placed(Tracked(o.fold), line, d) && act.Forks? && ForkReady(o, line, d, act)
    ensures Watermark(o, line, d.own, act.at, act.held).Some? && 1 <= act.at <= |Visible(LineVisible(line), d.own)| + 1
    ensures act.child != act.oldFuture && act.child !in d.kids
    ensures act.named || DataMoves(d.own, act.at) ==> act.oldFuture !in d.kids
    ensures var v, t, w := LineVisible(line), Tracked(o.fold), Watermark(o, line, d.own, act.at, act.held).value;
            var before := Visible(v, d.own);
            var cut := before[..act.at - 1];
            var kept, sprout, future := KeptOwn(d.own, act.at), Own(act.at, Seed(o.fold.Some?, act.at, w)),
                                        Own(act.at, FutureSegs(o.fold.Some?, d.own, act.at, w));
            && NodeOk(t, v, kept) && Visible(v, kept) == cut && NodeOk(t, cut, sprout) && Visible(cut, sprout) == cut
            && NodeOk(t, cut, future) && Visible(cut, future) == before
            && (if DataMoves(d.own, act.at) then Safe(d, act.at) ==> StillThere(cut, before, d.kids) else cut == before)
  {
    hide *;
    var v, t := LineVisible(line), Tracked(o.fold);
    PlacedIs(t, line, d);
    NodeParts(t, v, d.own);
    ReadyMeans(o, line, d, act);
    ForkHere(o, line, d, act);
    ForkedParts(o.fold.Some?, t, v, d.own, act.at, Watermark(o, line, d.own, act.at, act.held).value);
    if DataMoves(d.own, act.at) {
      if Safe(d, act.at) {
        SafeStays(d, Visible(v, d.own), act.at);
      }
    } else {
      TailForkKeeps(t, v, d.own, act.at);
    }
  }

  lemma ForkedParts(headered: bool, mode: Option<Reducer>, v: seq<Bytes>, own: Own, at: nat, w: Bytes)
    requires ForkedOwn(headered, mode, v, own, at, w)
    ensures 1 <= at <= |Visible(v, own)| + 1
    ensures var before := Visible(v, own);
            var cut := before[..at - 1];
            var kept, sprout, future := KeptOwn(own, at), Own(at, Seed(headered, at, w)),
                Own(at, FutureSegs(headered, own, at, w));
            && NodeOk(mode, v, kept) && Visible(v, kept) == cut && NodeOk(mode, cut, sprout)
                && Visible(cut, sprout) == cut
            && NodeOk(mode, cut, future) && Visible(cut, future) == before
  {
    hide NodeOk, Visible, KeptOwn, Seed, FutureSegs;
  }

  lemma ForkTreeOk(o: Options, line: Line, d: Dir, act: Act)
    requires Placed(Tracked(o.fold), line, d) && act.Forks? && Enabled(o, line, d, [], act)
    ensures TreeOk(Tracked(o.fold), LineVisible(line), Perform(o, line, d, [], act))
  {
    hide *;
    var v, t := LineVisible(line), Tracked(o.fold);
    PlacedIs(t, line, d);
    TreeParts(t, v, d);
    EnabledFork(o, line, d, act);
    ForkPieces(o, line, d, act);
    PerformFork(o, line, d, act);
    var before, w := Visible(v, d.own), Watermark(o, line, d.own, act.at, act.held).value;
    ArrangeOk(t, v, before[..act.at - 1], before, KeptOwn(d.own, act.at),
              Own(act.at, Seed(o.fold.Some?, act.at, w)),
              Own(act.at, FutureSegs(o.fold.Some?, d.own, act.at, w)),
              d.kids, act.child, act.oldFuture, DataMoves(d.own, act.at), act.named);
  }

  lemma HistoryAt(v: seq<Bytes>, d: Dir, q: Path)
    ensures q == [] ==> History(v, d, q) == Some(Visible(v, d.own))
    ensures q != [] ==>
              History(v, d, q) ==
              if q[0] in d.kids then History(Visible(v, d.own), d.kids[q[0]], q[1..]) else None
  {
    hide Visible;
  }

  lemma SourceAt(act: Act, moves: bool, q: Path)
    requires act.Forks? && act.child != act.oldFuture
    ensures q == [] ==> Source([], act, moves, q) == Upto([], if act.at > 0 then act.at - 1 else 0)
    ensures q != [] ==>
              Source([], act, moves, q) ==
              if q[0] == act.child then if |q| == 1 then Upto([], if act.at > 0 then act.at - 1 else 0) else Nowhere
              else if q[0] == act.oldFuture && (act.named || moves) then
                if |q| == 1 then Same([])
                else if moves && !Hidden(q[1]) then Same(q[1..])
                else Nowhere
              else if moves && !Hidden(q[0]) then Nowhere
              else Same(q)
  {
    hide Hidden;
    assert [] + [act.child] == [act.child] && [] + [act.oldFuture] == [act.oldFuture];
    if q != [] {
      assert [] + q[1..] == q[1..];
      assert |q| == 1 ==> q == [q[0]];
    }
  }

  lemma ArrangeHistory(mode: Option<Reducer>, v: seq<Bytes>, d: Dir, kept: Own, sprout: Own, future: Own, act: Act,
                       moves: bool, q: Path)
    requires TreeOk(mode, v, d) && act.Forks? && 1 <= act.at <= |Visible(v, d.own)| + 1
    requires act.child != act.oldFuture && act.child !in d.kids
    requires moves || act.named ==> act.oldFuture !in d.kids
    requires Visible(v, kept) == Visible(v, d.own)[..act.at - 1] == Visible(Visible(v, kept), sprout)
    requires Visible(Visible(v, kept), future) == Visible(v, d.own)
    requires if moves then StillThere(Visible(v, kept), Visible(v, d.own), d.kids)
               else Visible(v, kept) == Visible(v, d.own)
    ensures History(v, Arrange(kept, sprout, future, d.kids, act.child, act.oldFuture, moves, act.named), q) ==
            See(v, d, Source([], act, moves, q))
  {
    hide Visible, Take, TreeOk, History, Source, Arrange, Hidden, Rehomed, Staying, NodeOk;
    var after, cut, before := Arrange(kept, sprout, future, d.kids, act.child, act.oldFuture, moves, act.named),
        Visible(v, kept), Visible(v, d.own);
    SourceAt(act, moves, q);
    HistoryAt(v, after, q);
    HistoryAt(v, d, []);
    HistoryAt(v, d, q);
    TakeIs(before, act.at - 1);
    ArrangeKids(kept, sprout, future, d.kids, act.child, act.oldFuture, moves, act.named,
        if q == [] then act.child else q[0]);
    if q != [] {
      var k, rest := q[0], q[1..];
      if k == act.child {
        HistoryAt(cut, Dir(sprout, map[]), rest);
      } else if k == act.oldFuture && (act.named || moves) {
        var kids := if moves then Rehomed(d.kids) else map[];
        HistoryAt(cut, Dir(future, kids), rest);
        if rest != [] {
          KidsSplit(d.kids, rest[0]);
          HistoryAt(v, d, rest);
        }
      } else if k in d.kids && moves && Hidden(k) {
        TreeParts(mode, v, d);
        TreeRebase(mode, before, cut, d.kids[k]);
      }
    }
  }

  lemma ForkHistory(o: Options, line: Line, d: Dir, act: Act, q: Path)
    requires Placed(Tracked(o.fold), line, d) && act.Forks? && Enabled(o, line, d, [], act)
    ensures var v := LineVisible(line);
            History(v, Perform(o, line, d, [], act), q) == See(v, d, Source([], act, Moves(v, d, [], act), q))
  {
    hide *;
    var v, t := LineVisible(line), Tracked(o.fold);
    PlacedIs(t, line, d);
    EnabledFork(o, line, d, act);
    ForkHere(o, line, d, act);
    ForkPieces(o, line, d, act);
    PerformFork(o, line, d, act);
    var w := Watermark(o, line, d.own, act.at, act.held).value;
    ArrangeHistory(t, v, d, KeptOwn(d.own, act.at), Own(act.at, Seed(o.fold.Some?, act.at, w)),
                   Own(act.at, FutureSegs(o.fold.Some?, d.own, act.at, w)), act, DataMoves(d.own, act.at), q);
  }

  /** Source commutes with descending one level. */
  lemma SourceShift(k: string, path: Path, act: Act, moves: bool, q: Path)
    ensures Source([k] + path, act, moves, [k] + q) ==
            match Source(path, act, moves, q)
            case Nowhere => Nowhere
            case Same(p) => Same([k] + p)
            case Upto(p, n) => Upto([k] + p, n)
            case Plus(p, x) => Plus([k] + p, x)
  {
    assert ([k] + q)[1..] == q;
    assert [k] + path == [k] + q <==> path == q by { assert ([k] + path)[1..] == path; }
    if act.Forks? {
      assert [k] + path <= [k] + q <==> path <= q by { Prefixes(k, path, q); }
      assert ([k] + path) + [act.child] == [k] + (path + [act.child]);
      assert ([k] + path) + [act.oldFuture] == [k] + (path + [act.oldFuture]);
      assert forall x: Path :: [k] + x == [k] + q ==> x == q by {
        forall x: Path | [k] + x == [k] + q ensures x == q { assert ([k] + x)[1..] == x; }
      }
      if path <= q && q != path {
        assert ([k] + q)[|path| + 1] == q[|path|];
        assert ([k] + path) + ([k] + q)[|path| + 2..] == [k] + (path + q[|path| + 1..]);
      }
    }
  }

  lemma Prefixes(k: string, a: Path, b: Path)
    ensures [k] + a <= [k] + b <==> a <= b
  {
    if [k] + a <= [k] + b {
      assert forall i :: 0 <= i < |a| ==> a[i] == ([k] + a)[i + 1] == ([k] + b)[i + 1];
    }
    if a <= b {
      assert [k] + b == [k] + a + b[|a|..];
    }
  }

  /** A step inside the child `k` is, seen from above, the same step. */
  lemma SeeBelow(v: seq<Bytes>, d: Dir, k: string, view: View)
    requires k in d.kids
    ensures See(Visible(v, d.own), d.kids[k], view) ==
            See(v, d, match view
                      case Nowhere => Nowhere
                      case Same(p) => Same([k] + p)
                      case Upto(p, n) => Upto([k] + p, n)
                      case Plus(p, x) => Plus([k] + p, x))
  {
    if !view.Nowhere? {
      assert ([k] + view.path)[1..] == view.path;
    }
  }

  lemma WriteStep(o: Options, line: Line, d: Dir, act: Act)
    requires act.Write?
    ensures var out := WriteOwn(o, line, d.own, act.payload, act.closed);
            && Perform(o, line, d, [], act) == Dir(out.own, d.kids)
            && (Enabled(o, line, d, [], act) ==> act.landed == out.landed && forall k :: k in d.kids ==> Hidden(k))
  {
    hide WriteOwn, Hidden;
  }

  lemma NodeFrom(mode: Option<Reducer>, line: Line, own: Own)
    requires Under(mode, line, own) && First(own) == own.base
    ensures NodeOk(mode, LineVisible(line), own)
  {
    hide LogOk, LineVisible, LineOk;
  }

  lemma Longer(v: seq<Bytes>, tail: seq<Bytes>, base: nat)
    requires base <= |v| + 1
    ensures base <= |v + tail| + 1 && Take(v + tail, base - 1) == Take(v, base - 1)
  {
  }

  /** A write shows one more record here, and nothing else anywhere below. */
  lemma WriteHere(o: Options, line: Line, d: Dir, act: Act, q: Path)
    requires Placed(Tracked(o.fold), line, d) && act.Write? && Enabled(o, line, d, [], act)
    ensures TreeOk(Tracked(o.fold), LineVisible(line), Perform(o, line, d, [], act))
    ensures var v := LineVisible(line);
            History(v, Perform(o, line, d, [], act), q) == See(v, d, Source([], act, Moves(v, d, [], act), q))
  {
    hide *;
    var v, t := LineVisible(line), Tracked(o.fold);
    PlacedIs(t, line, d);
    NodeParts(t, v, d.own);
    TreeParts(t, v, d);
    WriteStep(o, line, d, act);
    var out := WriteOwn(o, line, d.own, act.payload, act.closed);
    WriteKeeps(o, line, d.own, act.payload, act.closed);
    WrittenMeans(o, line, d.own, act.payload, out);
    NodeFrom(t, line, out.own);
    var before, after := Visible(v, d.own), Visible(v, out.own);
    forall k | k in d.kids
      ensures TreeOk(t, after, d.kids[k]) && forall p :: History(after, d.kids[k], p) == History(before, d.kids[k], p)
    {
      TreeBased(t, before, d.kids[k]);
      Longer(before, if out.landed then [act.payload] else [], d.kids[k].own.base);
      TreeRebase(t, before, after, d.kids[k]);
    }
    AssembleOk(t, v, out.own, after, d.kids);
    HistoryAt(v, d, q);
    HistoryAt(v, Dir(out.own, d.kids), q);
    SeeWrite(v, d, act, q);
    assert before + [] == before;
  }

  lemma TreeBased(mode: Option<Reducer>, v: seq<Bytes>, d: Dir)
    requires TreeOk(mode, v, d)
    ensures d.own.base <= |v| + 1
  {
    TreeParts(mode, v, d);
    NodeParts(mode, v, d.own);
  }

  lemma SeeWrite(v: seq<Bytes>, d: Dir, act: Act, q: Path)
    requires act.Write?
    ensures See(v, d, Source([], act, Moves(v, d, [], act), q)) ==
            if q == [] && act.landed then Some(Visible(v, d.own) + [act.payload]) else History(v, d, q)
  {
    hide Visible;
  }

  /** One step anywhere in a well-formed tree: the tree stays well formed, and each
      directory's history is exactly the one the step names. */
  lemma {:induction false} StepRefines(o: Options, line: Line, d: Dir, path: Path, act: Act, q: Path)
    requires Placed(Tracked(o.fold), line, d) && Enabled(o, line, d, path, act)
    ensures Placed(Tracked(o.fold), line, Perform(o, line, d, path, act))
    ensures Perform(o, line, d, path, act).own.base == d.own.base
    ensures var v := LineVisible(line);
            History(v, Perform(o, line, d, path, act), q) == See(v, d, Source(path, act, Moves(v, d, path, act), q))
    decreases path
  {
    hide *;
    var t := Tracked(o.fold);
    PlacedIs(t, line, d);
    if path == [] {
      if act.Forks? {
        ForkTreeOk(o, line, d, act);
        ForkHistory(o, line, d, act, q);
        EnabledFork(o, line, d, act);
        ForkPieces(o, line, d, act);
        PerformFork(o, line, d, act);
        ForkBase(o.fold.Some?, d, act, Watermark(o, line, d.own, act.at, act.held).value);
      } else {
        WriteHere(o, line, d, act, q);
        WriteStep(o, line, d, act);
        WriteKeeps(o, line, d.own, act.payload, act.closed);
        WrittenMeans(o, line, d.own, act.payload, WriteOwn(o, line, d.own, act.payload, act.closed));
      }
      PlacedFrom(t, line, Perform(o, line, d, path, act));
    } else {
      StepBelow(o, line, d, path, act, q);
    }
  }

  lemma ForkBase(headered: bool, d: Dir, act: Act, w: Bytes)
    requires act.Forks?
    ensures Arrange(KeptOwn(d.own, act.at), Own(act.at, Seed(headered, act.at, w)),
              Own(act.at, FutureSegs(headered, d.own, act.at, w)),
                    d.kids, act.child, act.oldFuture, DataMoves(d.own, act.at), act.named).own.base == d.own.base
  {
    hide Kept, FutureSegs, Entries, DataMoves, Rehomed, Staying;
  }

  lemma StepDown(o: Options, line: Line, d: Dir, path: Path, act: Act)
    requires path != [] && Enabled(o, line, d, path, act)
    ensures path[0] in d.kids && Enabled(o, Over(line, d.own), d.kids[path[0]], path[1..], act)
    ensures Perform(o, line, d, path, act) ==
            Dir(d.own, d.kids[path[0] := Perform(o, Over(line, d.own), d.kids[path[0]], path[1..], act)])
  {
    hide WriteOwn, Fork, Watermark, ForkAllowed, Settled, Safe, DataMoves;
  }

  lemma MovesDown(v: seq<Bytes>, d: Dir, path: Path, act: Act)
    requires path != [] && path[0] in d.kids
    ensures Moves(v, d, path, act) == Moves(Visible(v, d.own), d.kids[path[0]], path[1..], act)
  {
    hide Visible;
  }

  lemma {:induction false} StepBelow(o: Options, line: Line, d: Dir, path: Path, act: Act, q: Path)
    requires Placed(Tracked(o.fold), line, d) && path != [] && Enabled(o, line, d, path, act)
    ensures Placed(Tracked(o.fold), line, Perform(o, line, d, path, act))
    ensures Perform(o, line, d, path, act).own.base == d.own.base
    ensures var v := LineVisible(line);
            History(v, Perform(o, line, d, path, act), q) == See(v, d, Source(path, act, Moves(v, d, path, act), q))
    decreases path, 0
  {
    hide *;
    var k, rest, t, v := path[0], path[1..], Tracked(o.fold), LineVisible(line);
    var shown := Visible(v, d.own);
    assert path == [k] + rest;
    StepDown(o, line, d, path, act);
    PlacedIs(t, line, d);
    TreeParts(t, v, d);
    PlacedBelow(t, line, d, k);
    var below := if q != [] && q[0] == k then q[1..] else [];
    StepRefines(o, Over(line, d.own), d.kids[k], rest, act, below);
    var kid := Perform(o, Over(line, d.own), d.kids[k], rest, act);
    PlacedIs(t, Over(line, d.own), kid);
    AssembleOk(t, v, d.own, shown, d.kids[k := kid]);
    PlacedFrom(t, line, Dir(d.own, d.kids[k := kid]));
    MovesDown(v, d, path, act);
    var moves := Moves(v, d, path, act);
    HistoryAt(v, Dir(d.own, d.kids[k := kid]), q);
    HistoryAt(v, d, q);
    if q != [] && q[0] == k {
      assert q == [k] + below;
      SourceShift(k, rest, act, moves, below);
      SeeBelow(v, d, k, Source(rest, act, moves, below));
    } else {
      SourceElsewhere(k, rest, act, moves, q);
      SameSeen(v, d, q);
    }
  }

  lemma SourceElsewhere(k: string, path: Path, act: Act, moves: bool, q: Path)
    requires q == [] || q[0] != k
    ensures Source([k] + path, act, moves, q) == Same(q)
  {
  }

  lemma SameSeen(v: seq<Bytes>, d: Dir, q: Path)
    ensures See(v, d, Same(q)) == History(v, d, q)
  {
  }

  /** The tree after a run of steps from one empty root log. */
  function Tree(o: Options, run: seq<Step>): Dir {
    if run == [] then Dir(Own(1, []), map[])
    else
      var last := run[|run| - 1];
      Perform(o, Top, Tree(o, run[..|run| - 1]), last.path, last.act)
  }

  ghost predicate RunOk(o: Options, run: seq<Step>) {
    run != [] ==>
      var front, last := run[..|run| - 1], run[|run| - 1];
      RunOk(o, front) && Enabled(o, Top, Tree(o, front), last.path, last.act)
  }

  /** The reference: every directory has a complete history of its own, and a fork
      copies or renames whole histories. No segment, base or parent appears. */
  function FullCopy(run: seq<Step>, q: Path): Option<seq<Bytes>> {
    if run == [] then if q == [] then Some([]) else None
    else
      var front, last := run[..|run| - 1], run[|run| - 1];
      var forked := FullCopy(front, last.path);
      var moves := last.act.Forks? && forked.Some? && last.act.at <= |forked.value|;
      var view := Source(last.path, last.act, moves, q);
      if view.Nowhere? then None else Copied(view, FullCopy(front, view.path))
  }

  /** Over every run of writes and forks, prefix sharing means full copies, every listed
      child starts right after its parent's last record, and, for a sound fold, every
      header that any write, rotation or fork computed is the fold of what precedes it. */
  lemma {:induction false} RunRefines(o: Options, run: seq<Step>, q: Path)
    requires RunOk(o, run)
    ensures Placed(Tracked(o.fold), Top, Tree(o, run)) && TreeOk(Tracked(o.fold), [], Tree(o, run))
    ensures History([], Tree(o, run), q) == FullCopy(run, q)
    decreases |run|
  {
    hide *;
    var t := Tracked(o.fold);
    if run == [] {
      EmptyTree(o, q);
    } else {
      var front, last := run[..|run| - 1], run[|run| - 1];
      var before := Tree(o, front);
      LastStep(o, run, q);
      RunRefines(o, front, last.path);
      StepRefines(o, Top, before, last.path, last.act, q);
      NoLine();
      var moves := Moves([], before, last.path, last.act);
      var view := Source(last.path, last.act, moves, q);
      if !view.Nowhere? {
        RunRefines(o, front, view.path);
      }
      SeeCopy([], before, view);
      MovesIs([], before, last.path, last.act);
    }
    PlacedIs(t, Top, Tree(o, run));
    NoLine();
  }

  lemma NoLine()
    ensures LineVisible(Top) == []
  {
  }

  lemma EmptyTree(o: Options, q: Path)
    ensures Placed(Tracked(o.fold), Top, Tree(o, [])) && History([], Tree(o, []), q) == FullCopy([], q)
  {
    PlainOwn(Tracked(o.fold), [], Own(1, []));
  }

  lemma SeeCopy(v: seq<Bytes>, d: Dir, view: View)
    ensures See(v, d, view) == if view.Nowhere? then None else Copied(view, History(v, d, view.path))
  {
  }

  lemma MovesIs(v: seq<Bytes>, d: Dir, path: Path, act: Act)
    ensures Moves(v, d, path, act) <==>
            act.Forks? && var h := History(v, d, path); h.Some? && act.at <= |h.value|
  {
  }

  lemma LastStep(o: Options, run: seq<Step>, q: Path)
    requires run != [] && RunOk(o, run)
    ensures var front, last := run[..|run| - 1], run[|run| - 1];
            && RunOk(o, front) && Enabled(o, Top, Tree(o, front), last.path, last.act)
            && Tree(o, run) == Perform(o, Top, Tree(o, front), last.path, last.act)
    ensures var front, last := run[..|run| - 1], run[|run| - 1];
            var forked := FullCopy(front, last.path);
            var past := last.act.Forks? && forked.Some? && last.act.at <= |forked.value|;
            var view := Source(last.path, last.act, past, q);
            FullCopy(run, q) == if view.Nowhere? then None else Copied(view, FullCopy(front, view.path))
  {
    hide Enabled, Perform, Source, Copied;
  }

  // ---- children that listing does not show ----

  /** Every child a re-split does not see answers as before. */
  ghost predicate StillRead(kids: map<string, Dir>, before: seq<Bytes>, cut: seq<Bytes>) {
    forall k: string, idx: nat :: k in kids && Hidden(k) ==>
      ReadUnder(cut, kids[k].own, idx) == ReadUnder(before, kids[k].own, idx)
  }

  lemma StillReadIff(d: Dir, before: seq<Bytes>, at: nat)
    requires 1 <= at <= |before|
    requires forall k :: k in d.kids ==> d.kids[k].own.base <= |before| + 1
    ensures StillRead(d.kids, before, before[..at - 1]) <==> Safe(d, at)
  {
    var cut := before[..at - 1];
    if Safe(d, at) {
      forall k: string, idx: nat | k in d.kids && Hidden(k)
        ensures ReadUnder(cut, d.kids[k].own, idx) == ReadUnder(before, d.kids[k].own, idx)
      {
      }
    } else {
      var k :| k in d.kids && Hidden(k) && d.kids[k].own.base > at;
      assert ReadUnder(cut, d.kids[k].own, at) == None && ReadUnder(before, d.kids[k].own, at) == Some(before[at - 1]);
    }
  }

  /** A re-split leaves the children it does not see under the cut prefix. It keeps what
      all of them read if and only if none of them starts past the fork index; where
      every child starts after its parent's last record, if and only if there are none. */
  lemma ResplitExact(o: Options, line: Line, d: Dir, act: Act)
    requires Placed(Tracked(o.fold), line, d) && act.Forks? && ForkReady(o, line, d, act) && DataMoves(d.own, act.at)
    ensures var before, after := Visible(LineVisible(line), d.own), Perform(o, line, d, [], act);
            && 1 <= act.at <= |before|
            && Visible(LineVisible(line), after.own) == before[..act.at - 1]
            && (forall k :: k in d.kids && Hidden(k) ==> k in after.kids && after.kids[k] == d.kids[k])
            && (StillRead(d.kids, before, before[..act.at - 1]) <==> Safe(d, act.at))
            && (StillRead(d.kids, before, before[..act.at - 1]) <==> Enabled(o, line, d, [], act))
            && ((forall k :: k in d.kids ==> d.kids[k].own.base == |before| + 1) ==>
                  (Safe(d, act.at) <==> forall k :: k in d.kids ==> !Hidden(k)))
  {
    hide *;
    var v, t := LineVisible(line), Tracked(o.fold);
    var before := Visible(v, d.own);
    PlacedIs(t, line, d);
    TreeParts(t, v, d);
    ForkHere(o, line, d, act);
    ForkPieces(o, line, d, act);
    PerformFork(o, line, d, act);
    HistoryAt(v, d, []);
    MovesIs(v, d, [], act);
    EnabledFork(o, line, d, act);
    forall k | k in d.kids ensures d.kids[k].own.base <= |before| + 1 {
      TreeBased(t, before, d.kids[k]);
    }
    StillReadIff(d, before, act.at);
    var w := Watermark(o, line, d.own, act.at, act.held).value;
    forall k | k in d.kids && Hidden(k)
      ensures var after := Perform(o, line, d, [], act); k in after.kids && after.kids[k] == d.kids[k]
    {
      ArrangeKids(KeptOwn(d.own, act.at), Own(act.at, Seed(o.fold.Some?, act.at, w)),
                  Own(act.at, FutureSegs(o.fold.Some?, d.own, act.at, w)), d.kids,
                  act.child, act.oldFuture, DataMoves(d.own, act.at), act.named, k);
    }
    ArrangeKids(KeptOwn(d.own, act.at), Own(act.at, Seed(o.fold.Some?, act.at, w)),
                Own(act.at, FutureSegs(o.fold.Some?, d.own, act.at, w)), d.kids,
                act.child, act.oldFuture, DataMoves(d.own, act.at), act.named, act.child);
    SafeIs(d, act.at, |before|);
  }

  lemma SafeIs(d: Dir, at: nat, n: nat)
    requires at <= n && forall k :: k in d.kids ==> d.kids[k].own.base <= n + 1
    ensures (forall k :: k in d.kids ==> d.kids[k].own.base == n + 1) ==>
              (Safe(d, at) <==> forall k :: k in d.kids ==> !Hidden(k))
  {
    hide Hidden;
  }
}
