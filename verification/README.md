# figwal in Dafny

figwal is a write-ahead log whose logs fork. A child log shares its parent's
prefix by reading through it; several channels fork together; a reducible channel
carries a folded state at the head of every segment; a pending buffer sits over the
disk log; a budgeted cache sits over the whole forest. This project models that
logic and proves that the shared, buffered, lazily indexed, crash-interrupted
structures mean what plain ones would: one sequence per log, one complete history
per node, one fold per state, one search per lookup.

Nothing is executed. `dafny verify dfyconfig.toml` checks every file.

## How the files fit together

| file | subject | the plain thing it is compared with |
|---|---|---|
| `Lineage.dfy` | a log over its ancestors, segment headers | one sequence of payloads, one left fold |
| `NodeLog.dfy` | one directory's segments: writes, rotations, headers, what a fork cuts | one more record, a prefix, a suffix, the plain fold |
| `ForkTree.dfy` | nested directories, re-homing, whole runs of writes and forks | a map from directory to a full copy |
| `DiskLog.dfy` | the disk log as an object, opened on any directory | the sequence above, and the steps of the tree |
| `WriteBehind.dfy` | pending buffer, partial and failing syncs | the acknowledged writes |
| `Detach.dfy` | absorbing an inherited prefix | the same node, before |
| `FlatForest.dfy`, `ForestRuns.dfy`, `FullCopies.dfy` | nodes with a fork base per channel, over whole runs | nodes with full histories and no bases, stepped on their own |
| `Resplit.dfy` | forks redirected to the owner of the fork point | the cut of the branch itself |
| `Trunks.dfy` | the same forest as a mutable store with loops | the steps of `ForestRuns` |
| `CoherentCut.dfy` | the flush that keeps channels within main | no record on disk refers past main |
| `ForeignKey.dfy` | the lazy key index | searching everything |
| `LineageLocks.dfy` | lineage, topology and hot-store protocol | who really holds what |
| `HandOver.dfy` | a lineage passing to another peer | the acknowledged records |
| `NodeIndex.dfy` | the incremental node index, minted ids | a rebuild from the markers |
| `Flatten.dfy`, `FlattenPlan.dfy`, `FlattenStore.dfy` | migration to the flat layout, killed anywhere | an uninterrupted migration |
| `RepairTrim.dfy` | open-time repair of a channel | the longest coherent prefix |
| `SegmentRecovery.dfy` | frames, torn tails, recovery | the list of payloads written |
| `FrameDecode.dfy` | record frames read without a JSON parser | the printer |
| `WindowCache.dfy` | ranges served from cached runs | the units of the source |
| `Budget.dfy` | the byte meter and the sweeps | the sum over resident runs |

`Basics.dfy` and `Decimal.dfy` hold shared vocabulary.

Objects whose methods update fields are classes with a `Valid()` predicate; loops
stay loops; protocols and crash points are step systems. Randomness, clocks and
failing calls are parameters: a `budget` counts the steps before a process dies or a
call fails, `fails` and `sweep` are arbitrary functions of the call number, the
checksum, the base64 decoder, the JSON validity test and the reducer are arbitrary
functions.

## Where the code does less than it promises

For each of these there is an input on which the promise fails and the condition under
which it holds, proved in both directions; the few cases a condition leaves open are
named under "Left out".

- **Empty state versus no state.** The header callback takes an empty previous header
  for "no state yet" (`xwal/xwal.go:503-506`). Watermarks are sound for a reducer if
  and only if a patch does to every reachable empty state what it does to the initial
  one (`Lineage.SoundIffBlankSafe`).
- **Children whose names begin with a dot.** Fork accepts such names, but listing a directory
  skips them. A re-split leaves them under the cut prefix: it keeps what they read if and
  only if none of them starts past the fork index, so, where every child starts after its
  parent's last record, if and only if there are none (`ForkTree.ResplitExact`,
  `DiskLog.HiddenChildIsCutOff`). And a reopened log is frozen if and only if it has a child
  whose name does not begin with a dot, so one with only such children is written again
  (`DiskLog.Log.OpenDir`, `DiskLog.ReopenedPastHiddenChild`). Runs of the tree include all
  this; only a re-split that cuts such a child off is not a step.
- **Appends between the flush and the fork.** A fork flushes first, but a head opened earlier
  by the same peer appends without waiting. A base is then at most one past what is on
  disk if and only if the appends did not move it: main has the record forked at since the
  flush, an unkeyed channel has not grown or its stamp is older, no record keyed at or
  below the point was appended to a keyed one (`CoherentCut.BaseDurableIff`,
  `CoherentCut.KeyedUnmoved`, `CoherentCut.RacingAppend`).
- **Hand-over of a lineage.** The old owner's buffer is to reach disk before the new owner
  opens the lineage (`xwal/trunks.go:330-332`), but the flush is the coherent one, and its
  error is dropped. Nothing is appended meanwhile. After a flush that runs to its end the
  new owner reads every acknowledged record if and only if no keyed channel's last record
  refers past the main tail, by more than the one patch a reducible channel may be ahead
  (`HandOver.ReadsAllIff`, `HandOver.AheadIsUnread`); after one that fails, a coherent
  beginning (`HandOver.ReadsBeginning`).
- **Detaching a reducible channel without an initial state.** A header is written into the
  absorbed file only if there is one (`xwal/detach.go:126-131`), but the file is opened as
  one that has a header, so the first record is taken for it. The channel answers as before
  at every index if and only if it has an initial state or had nothing to absorb
  (`Detach.DetachKeepsIff`, `Detach.NilInitialLoses`).
- **Appending to a segment whose header is missing.** A file opened as headered and empty
  accepts an append, which the next open takes for the header. Reopening yields the entries
  and the new one if and only if the header is there when one is expected
  (`SegmentRecovery.Segment.Append`, `SegmentRecovery.HeaderlessAppend`).
- **States across Detach.** For a reducer whose headers are not sound, detaching replaces the
  parent's answers below the base by the fold of the records. States are unchanged if and
  only if those answers were that fold (`Detach.DetachStateExact`).
- **Detach twice.** A node killed between absorbing and flipping, then written to, may
  absorb again over its own record. A second absorption is invisible if and only if the
  first absorbed file still ends just below the base (`Detach.AbsorbAgainExact`,
  `Detach.AbsorbAgainLoses`).
- **Redirected re-splits of a keyed channel.** A fork at an inherited point is taken
  from the owner of the point. A record appended late to the owner, keyed at or below
  the point, is then inherited although the branch never had it. The two cuts agree if
  and only if neither side's last such record lies past the shared prefix
  (`Resplit.ResplitKeyed`, `Resplit.LateRecord`).
- **A first lookup that fails at once** leaves the key index marked as scanned down to
  key 0, so every later lookup answers "absent". The index stays sound if and only if
  the first scan reads at least one record (`ForeignKey.Channel.Lookup`,
  `ForeignKey.SpoiledChannel`).
- **Repair and trailing empty files.** Trimming a file whose newer neighbour is empty
  leaves that neighbour at its old base, past a gap. Numbering stays contiguous if and
  only if nothing is dropped, or the newest file has entries and, in a headered channel,
  everything dropped lies in it (`RepairTrim.TrimKeepsNumbering`,
  `RepairTrim.TrimLeavesGap`).
- **Overlapping cached runs.** Two runs that straddle the end of a range, the shorter one
  first, make the second slice run backwards, and a backwards slice with units in it
  is out of bounds. As long as nothing is evicted, a range crashes if and only if a resident
  run is overtaken like this; hollow runs are refilled and never crash
  (`WindowCache.Window.RangeInNode`, `WindowCache.Window.Range`, `WindowCache.OverlapCrashes`).
- **Weightless runs.** A resident run of zero bytes ends a sweep when its turn comes. The
  meter ends at or above what is left without everything as old as the coldest such run,
  and, if over its limit, at or below what is left without everything older; with no run
  exactly as old the two meet, and the sweep gets under the limit if and only if it does
  before that run (`Accountant.Budget.Charge`, `Accountant.UntiedMeets`,
  `Accountant.WeightlessRunStopsSweep`). The idle sweep is complete if and only if that run
  is the last idle one (`Accountant.Budget.TrimOwner`).
- **Negative timestamps** are written but not read by the fast decoder
  (`FrameDecode.EncodeDecodes`).
- **A fork at index 1** of a header-mode log that has records of its own is refused,
  because there is no state below index 1 to look up (`NodeLog.ForkMarkExact`). A fork with
  base 1 allows that index otherwise.

## Model

| member | source | states |
|---|---|---|
| `Lineage.StateAtIsFold` | disk/log.go:510-540 | for every lineage whose headers stand for the history before them, folding one segment from its header gives the fold of the whole visible history up to the index, and nothing outside it |
| `Lineage.SoundIffBlankSafe` | xwal/xwal.go:501-519 | headers give the right state on every lineage if and only if the reducer treats a reachable empty state like the initial one |
| `Lineage.BlankForkState` | xwal/xwal.go:501-519 | the fork on which the two states differ: what the log answers and what the plain fold is |
| `Lineage.HeaderFold` | xwal/xwal.go:501-519 | a header that stands for a history, folded with more patches, stands for the longer history |
| `Lineage.HeldIffVisible` | disk/log.go:738-747 | a segment holds an index exactly when the log shows it at or above its first own index |
| `Lineage.VisibleOwn` | disk/log.go:141-159 | a log may own records below its base; what it shows from its first own index on are its own entries, and below the base its ancestors' |
| `Lineage.EntriesAt` | disk/log.go:738-747 | in a contiguous list of segments every segment is the stretch of the concatenation its base says |
| `NodeLog.CutSegments` | disk/fork.go:348-364 | keep, move and split together lose no entry, repeat none, and leave both halves contiguous around the fork index |
| `NodeLog.MarksTransfer` | disk/fork.go:463-514 | headers stay right in whatever part is cut out, over any history that agrees that far |
| `NodeLog.ForkNode` | disk/fork.go:348-391 | the kept prefix shows exactly the history below the fork index, the child the same, the old future exactly what was shown before |
| `NodeLog.AddSegment` | disk/log.go:628-676 | a new empty segment after the last record, headed by the state so far, changes nothing shown |
| `NodeLog.AppendEntry` | disk/log.go:218-234 | one more entry in the last segment shows one more record and keeps every header right |
| `NodeLog.RotatedHeader` | disk/log.go:637-663 | the last segment's header folded with its entries is the fold of everything shown |
| `NodeLog.NextHeaderExact` | disk/log.go:634-663 | the header computed for the next segment, from the last one, from the parent's state or from nothing, stands for everything shown so far; it cannot be computed exactly when that history does not fold |
| `NodeLog.OpenedKeeps` | disk/log.go:628-676 | opening a segment with that header changes nothing shown and fails only when the history does not fold |
| `NodeLog.WriteKeeps` | disk/log.go:212-234 | a write, rotating or not, landed or refused, shows exactly one more record or none, keeps every header right for a sound fold and no segment past its limit; without headers it lands exactly when its frame fits a segment |
| `NodeLog.SegmentBytesIsFile` | segment/segment.go:203-215 | the size kept for a segment is the length of its file's frames, whatever the checksum |
| `NodeLog.RoomForOne` | segment/segment.go:203-208 | a record fits a fresh segment exactly when eight bytes and the header, if there is one, and eight bytes and the payload keep to the limit |
| `NodeLog.WriteLands` | disk/log.go:212-234 | with headers or without, a write lands exactly when the file of the open segment with the record keeps to the limit, or that of a new segment does, whose header can be computed and which may be opened |
| `NodeLog.ForkMarkExact` | disk/fork.go:328-346 | the fork watermark, from a header-only segment, the ancestors or the log's own state, is computed exactly when the history below the index folds and there is a state to look up, and stands for it |
| `ForkTree.SegNameIs` | disk/log.go:877-879 | a segment file's name is its base in at least twenty digits before the extension, and reads back as it |
| `ForkTree.SegNamesDiffer` | disk/log.go:877-879 | so no two segments have one name |
| `ForkTree.TakenNames` | disk/fork.go:287-292 | the names a fork finds taken: the children, the segment files, and the two marker files |
| `ForkTree.TreeRebase` | disk/log.go:401-420 | a whole tree reads its ancestors only below its base |
| `ForkTree.StepRefines` | disk/fork.go:463-581 | after one write or fork anywhere in the tree, headers and watermarks computed as the code computes them, the tree is well formed again and the history at every path is the old one, a prefix of it, or it with one record more, at the place re-homing says |
| `ForkTree.RunRefines` | disk/fork.go:205-219 | over every run of writes, landed or refused, and forks, every directory's visible history equals an independent full copy, every listed child's base follows its parent's last index, and, for a sound fold, every header any step wrote is the fold of what precedes it |
| `ForkTree.ResplitExact` | disk/fork.go:366-391 | a re-split leaves children with dot names under the cut prefix and keeps what they read if and only if none starts past the fork index; with every child at its parent's end, if and only if there are none |
| `DiskLog.SearchSealed` | disk/sealed.go:108-120 | the binary search returns the first sealed segment that ends at or after the index |
| `DiskLog.Route` | disk/log.go:738-747 | the segment found by search and fall-through is the one a linear search over all of them finds |
| `DiskLog.VisitSegment` | disk/log.go:252-303 | one segment of the walk extends the numbered records visited so far, stopping at the limit |
| `DiskLog.VisitOwn` | disk/log.go:252-303 | the walk over sealed and active segments visits the log's own part of the history, in order, once |
| `DiskLog.Partition` | disk/fork.go:348-364 | the loop that classifies segments yields the kept part, the moved part and whether a segment starts at the fork index |
| `DiskLog.PartitionMeans` | disk/fork.go:348-391 | what that partition leaves and moves, for any node a fork accepts |
| `DiskLog.Rehome` | disk/fork.go:571-581 | the loop moves exactly the children listing shows and leaves exactly those with dot names |
| `DiskLog.MoveKids` | disk/fork.go:566-592 | the subdirectories after a fork are those of the tree model |
| `DiskLog.IndexMeans` | disk/fork.go:263-286 | the range test on the fields is the one on the history: an empty log at its first index only, a root past its first record, a fork from its first on, none past the end |
| `DiskLog.KeptNode` | disk/fork.go:607-627 | the kept prefix can be forked again |
| `DiskLog.Log.Open` | disk/log.go:73-170 | a log opened on any directory, with segments and children or without, shows its parent's records below its base and its own above, and is frozen if and only if listing shows a child |
| `DiskLog.Log.OpenDir` | disk/log.go:95-159 | opening fails exactly when the marker cannot be read or names a base below the first segment |
| `DiskLog.Log.Read` | disk/log.go:401-420 | a read returns the record of the plain history at that index, or nothing outside it |
| `DiskLog.Log.Range` | disk/log.go:252-303 | a range visits the plain history from the index on, in order, without gap or repetition, through any number of ancestors |
| `DiskLog.Log.StateAt` | disk/log.go:510-540 | the state read through the parents is the lineage's, and there is none without a header mode |
| `DiskLog.Log.StateIsFold` | disk/log.go:503-540 | in every valid log with a sound reducer that state is the plain fold |
| `DiskLog.Log.HeaderForNext` | disk/log.go:634-663 | the header the object computes stands for everything shown so far, for a sound fold; there is none exactly when that history does not fold |
| `DiskLog.Log.OpenActive` | disk/log.go:628-676 | opening the active segment is the step of the directory's log and changes nothing shown |
| `DiskLog.Log.Rotate` | disk/log.go:692-706 | rotation seals the active segment, opens one after it if its header can be computed, and changes nothing shown |
| `DiskLog.Log.AppendActive` | disk/log.go:218-234 | the record lands at the end of the history |
| `DiskLog.Log.PutActive` | disk/log.go:218-234 | append, rotate when full, append again: exactly the step of the directory's log, failures included |
| `DiskLog.Log.Put` | disk/log.go:212-234 | the same from a log with no active segment |
| `DiskLog.Log.Write` | disk/log.go:179-235 | a write is refused exactly for a branch point that listing shows or a wrong index; otherwise it is a step of the tree and appends exactly its record or nothing: it lands exactly when there is room in the open segment or in a new one, fails for its header exactly when a new segment is needed and its header cannot be computed, and is too large only if it does not fit behind the header of the empty segment it leaves |
| `DiskLog.Log.MarkFor` | disk/fork.go:328-346 | the watermark the object computes, for a sound fold, stands for the history below the index, and is found exactly when that folds and there is a state to look up |
| `DiskLog.Log.SealActive` | disk/fork.go:300-310 | sealing the active segment changes nothing shown or on disk |
| `DiskLog.Log.Prepare` | disk/fork.go:300-346 | sealing and marking leave history and directory alone |
| `DiskLog.Log.Checks` | disk/fork.go:251-293 | the checks made first, and the one made later, together allow exactly the forks of the tree model, names of files and of the sentinel included |
| `DiskLog.Log.Plan` | disk/fork.go:348-391 | what the partition makes of the directory is the fork step of the tree |
| `DiskLog.Log.Layout` | disk/fork.go:348-391 | the fork is refused at this point exactly when the old future's name is taken by a child or a file; otherwise segments and subdirectories are those of the tree model |
| `DiskLog.Log.Publish` | disk/fork.go:607-627 | installing the kept prefix freezes the log at exactly that prefix; a header-only file stays on disk |
| `DiskLog.Log.Attach` | disk/fork.go:607-645 | the new child, opened over the frozen prefix with the log's own options and under the given name, shows exactly the prefix |
| `DiskLog.Log.Complete` | disk/fork.go:380-391 | refused exactly when the old future's name is taken, and otherwise the fork step |
| `DiskLog.Log.Fork` | disk/fork.go:247-310 | a fork succeeds exactly when the tree model allows it and its watermark can be computed; then the directory is the fork step's, the log keeps exactly the prefix, read-only, and the child shows exactly the prefix; a refused fork changes nothing; the child bears the given name and the log's options |
| `DiskLog.WriteChild` | disk/fork.go:640-645 | a fork and the first write into it: without headers the child takes exactly the payloads its parent would have taken; with them it refuses only one that does not fit behind its header |
| `DiskLog.HiddenChildIsCutOff` | disk/fork.go:366-391 | two records, a tail fork named .x and a re-split at 2: the second record is gone for .x |
| `DiskLog.ReopenedPastHiddenChild` | disk/log.go:120-159 | the same log reopened before the re-split takes a third record, and .x no longer starts after its parent's last |
| `WriteBehind.StepKeeps` | log/log.go:179-266 | every step of writer and flusher keeps disk and buffer in agreement with the acknowledged writes, and both only grow |
| `WriteBehind.WritesInOrder` | log/log.go:224-266 | the flusher hands the disk log exactly the next index, with the acknowledged payload: none twice, none skipped |
| `WriteBehind.RunKeeps` | log/log.go:179-266 | the same over every interleaving of writes, partial syncs, failures and retries |
| `WriteBehind.FlushCompletes` | log/log.go:224-266 | a write can always be taken, and from every idle state a flush can be run to its end, which takes exactly the records up to the target out of the buffer, onto disk |
| `WriteBehind.RunRefines` | log/log.go:105-154 | over every interleaving, reads and the last index answer from the acknowledged sequence, the byte count is the buffered total, and the disk holds a prefix |
| `WriteBehind.ReadSnapshot` | log/log.go:105-154 | a read and a last index made of two loads, with any steps in between, answer as the log did at one end of the interval, or within it |
| `WriteBehind.RangeSnapshot` | log/log.go:443-474 | a range over a window captured before any later steps shows one history, no record dropped or repeated, at least what was acknowledged then |
| `WriteBehind.Buffered.Open` | log/log.go:96-103 | a log opened over a disk log acknowledges what the disk shows |
| `WriteBehind.Buffered.Read` | log/log.go:105-114 | a read answers from the acknowledged writes |
| `WriteBehind.Buffered.Range` | log/log.go:443-474 | a range is the acknowledged writes from the index on, in order |
| `WriteBehind.Buffered.PutBatch` | log/log.go:243-252 | records already on disk are skipped, the others are written in order, never past the batch; it succeeds whenever the disk log cannot refuse |
| `WriteBehind.Buffered.Trim` | log/log.go:256-264 | trimming drops exactly the given number of records, which a good fsync has covered, and settles the byte count |
| `WriteBehind.Buffered.SyncThrough` | log/log.go:224-266 | a sync acknowledges nothing, loses nothing and writes nothing past its target; with a record to sync, a failing fsync fails it; a failed one leaves the buffer as it was, for a retry; a good one takes exactly the records up to the target out of it, behind a good fsync |
| `WriteBehind.Buffered.Append` | log/log.go:180-210 | a record is acknowledged exactly in order on a log that is not frozen, and then is the last one buffered |
| `WriteBehind.Buffered.Write` | log/log.go:166-211 | a write is acknowledged exactly in order on a log that is not frozen, and is readable at once; below the lag bound the disk is not touched; above it a failing fsync fails the sync and leaves the record buffered, and a good sync leaves nothing buffered; either way a synced log is within the bound |
| `Detach.AbsorbInvisible` | xwal/detach.go:103-154 | absorbing the inherited prefix changes no record shown and keeps every header right, unless a header is expected and there is no initial state to write |
| `Detach.FlipInvisible` | xwal/detach.go:71-81 | flipping the marker changes no record shown, and from then on the ancestors do not matter |
| `Detach.DetachKeepsIff` | xwal/detach.go:31-154 | absorbing and flipping a channel keep every read if and only if it is not reducible, has an initial state, or had nothing to absorb |
| `Detach.NilInitialLoses` | xwal/detach.go:126-131 | the smallest case in which they do not: one inherited record, gone |
| `Detach.AbsorbAgainExact` | xwal/detach.go:103-154 | absorbing again is invisible if and only if the first file still ends just below the base |
| `Detach.AbsorbAgainLoses` | xwal/detach.go:103-154 | the smallest case in which it drops a record |
| `Detach.AbsorbState` | xwal/detach.go:103-154 | absorbing behind the initial state changes no state at any index, whatever the reducer |
| `Detach.FlipState` | xwal/detach.go:71-81 | flipping changes a state only below the base, where the fold of the records replaces the parent's answer |
| `Detach.DetachStateExact` | xwal/detach.go:31-93 | absorbing behind the initial state and flipping keep every state if and only if the ancestors answered below the base with the fold of their records, which they do when headers are sound for the reducer |
| `Detach.Node.Put` | xwal/detach.go:132-153 | replacing one channel's files by others that show the same leaves every channel's history alone, channels without an initial state apart |
| `Detach.Node.AbsorbAll` | xwal/detach.go:45-68 | stopped after any number of channels, those are absorbed, the others untouched, and every history is unchanged, channels without an initial state apart; finished, every other channel owns its whole history; on a detached node it does nothing; it stops exactly where the budget is spent |
| `Detach.Node.FlipAll` | xwal/detach.go:77-81 | stopped after any number of flips, those are flipped, the others untouched, and every history is unchanged, channels without an initial state apart; finished, every channel stands alone |
| `Detach.Node.Detach` | xwal/detach.go:31-93 | stopped anywhere, the history of every channel that does not lack an initial state, and every state of one with a sound reducer, are unchanged; finished, the node has no ancestor, and a channel answers every read as before if and only if it does not lack an initial state or had nothing to absorb; again, it changes nothing |
| `FlatForest.FirstIsOne` | disk/log.go:424-436 | numbering starts at 1 wherever anything is visible |
| `FlatForest.AppendIsolated` | xwal/xwal.go:2459-2500 | an append adds its record to the history of its node and channel and to no other node or channel |
| `FlatForest.AppendKeepsOk` | xwal/xwal.go:1671-1734 | appends keep bases within parents, key order and cursor stamps |
| `FlatForest.ForkIsolated` | xwal/trunks.go:1184-1214 | forking changes nobody's history |
| `FlatForest.ChildView` | xwal/trunks.go:1184-1214 | the child's history is the prefix of its parent's below its base, in every channel |
| `FlatForest.ForkKeepsOk` | xwal/trunks.go:1184-1214 | forks keep the same invariant |
| `FlatForest.SubtreeClosed` | xwal/trunks.go:1392-1466 | a node with everything below it is closed under children |
| `FlatForest.RemoveIsolated` | xwal/trunks.go:1392-1466 | removing a closed set of nodes changes nothing the survivors read |
| `FlatForest.RemoveKeepsOk` | xwal/trunks.go:1392-1466 | removals keep the invariant |
| `ForestRuns.AtOrBelowIs` | xwal/xwal.go:188-205 | the scan from the end finds the last record keyed at or below the point |
| `ForestRuns.KeyedIsPrefix` | xwal/xwal.go:188-205 | in key order, the records keyed at or below the point are exactly the prefix ending there |
| `ForestRuns.BaseFromExact` | xwal/trunks.go:1246-1309 | the base arithmetic cuts exactly what the child should inherit: all and only records keyed at or below the point, or exactly the records stamped there, or everything at the tail |
| `ForestRuns.BaseExact` | xwal/trunks.go:1246-1309 | the same for every node and channel of a reachable forest, and the parent has everything below the base |
| `ForestRuns.OwnerHas` | xwal/trunks.go:1125-1139 | climbing by base ends at a node whose own range covers the point and whose main history agrees with the branch's up to it |
| `ForestRuns.PointIsForkPoint` | xwal/trunks.go:1316-1353 | wherever the caller asks to fork, the place the code forks is one |
| `ForestRuns.ActIsOk` | xwal/trunks.go:1316-1379 | every step a caller may take becomes a well-formed change of the forest |
| `ForestRuns.PerformKeepsOk` | xwal/trunks.go:1316-1466 | every such change keeps the invariant |
| `ForestRuns.ActRefines` | xwal/trunks.go:1316-1466 | every such change does to the visible histories what it does to full copies |
| `ForestRuns.RunOk` | xwal/trunks.go:1184-1466 | the invariant holds in every reachable forest |
| `ForestRuns.CreatedOk` | xwal/trunks.go:147-196 | a new store satisfies the invariant |
| `FullCopies.OwnerWrote` | xwal/trunks.go:1125-1139 | the node an interior fork is redirected to is the writer of the record forked at |
| `FullCopies.SameAct` | xwal/trunks.go:1316-1466 | whether a step goes ahead, where it forks, what it stamps and what it removes can be told from full copies and ancestor names, without bases or parents |
| `FullCopies.StepMatches` | xwal/trunks.go:1184-1466 | every step of the forest, carried out or refused, is matched by the step of the reference |
| `FullCopies.RunRefines` | xwal/trunks.go:1184-1466 | over every run of appends, tail and interior forks, redirected re-splits, stumps and removals, every surviving node reads exactly its full copy, in a reference that decides every step from the copies and the names of the ancestors alone |
| `FullCopies.ForestRefines` | xwal/trunks.go:1184-1466 | the refinement from a new store, node by node and channel by channel: the same nodes, the same histories |
| `Resplit.UnkeyedShared` | xwal/trunks.go:1125-1139 | up to the stamp at the point, an unkeyed channel is the same at the owner and at the branch |
| `Resplit.ResplitExact` | xwal/trunks.go:1316-1353 | redirecting a fork to the owner changes nothing inherited of main or of an unkeyed channel |
| `Resplit.ResplitKeyed` | xwal/trunks.go:1316-1353 | for a keyed channel the owner's cut is the branch's if and only if neither has such a record past the shared prefix |
| `Resplit.LateRecord` | xwal/xwal.go:1698-1734 | any late record appended to the owner makes the two cuts differ |
| `Resplit.ResplitDiffers` | xwal/trunks.go:1316-1353 | a run that does so from any forest |
| `Resplit.ResplitExample` | xwal/trunks.go:1316-1353 | the shortest one, from a new store |
| `TrunkStore.Trunks.Create` | xwal/trunks.go:147-196 | the store begins as the model's new forest |
| `TrunkStore.Trunks.Read` | xwal/xwal.go:2459-2500 | reading through parents returns the record of the node's history |
| `TrunkStore.Trunks.LookupAtOrBelow` | xwal/xwal.go:188-205 | the loop from the tail finds the last record keyed at or below the point, or 0 |
| `TrunkStore.Trunks.CursorAt` | xwal/xwal.go:2513-2549 | the cursor is the one stamped on the main record at the point |
| `TrunkStore.Trunks.ChannelBase` | xwal/trunks.go:1261-1306 | one channel's base is the exact one |
| `TrunkStore.Trunks.ChannelBases` | xwal/trunks.go:1246-1309 | the loop over channels gives every channel its exact base, at the tail or at an interior point |
| `TrunkStore.Trunks.FindOwner` | xwal/trunks.go:1125-1139 | the climbing loop ends at the owner of the point |
| `TrunkStore.Trunks.ForkFlat` | xwal/trunks.go:1184-1214 | writing bases and marker is the fork step |
| `TrunkStore.Trunks.Fork` | xwal/trunks.go:1316-1379 | a fork at the tail, in the branch or at the owner is the step the refinement speaks of |
| `TrunkStore.Trunks.Push` | xwal/xwal.go:1671-1734 | one record is added to one channel of one node |
| `TrunkStore.Trunks.UnkeyedCursors` | xwal/xwal.go:1642-1655 | the loop collects where every unkeyed channel stands |
| `TrunkStore.Trunks.AddMain` | xwal/xwal.go:1671-1692 | a main append is stamped with those positions and lands after the last main record |
| `TrunkStore.Trunks.Follows` | xwal/xwal.go:1717-1724 | the key test accepts exactly a key not below the last |
| `TrunkStore.Trunks.Add` | xwal/xwal.go:1698-1734 | a related append succeeds exactly when its key may follow, and is the append step |
| `TrunkStore.Trunks.Walk` | xwal/trunks.go:1422-1440 | the recursive walk collects exactly the node and everything below it |
| `TrunkStore.Trunks.RemoveTrunk` | xwal/trunks.go:1392-1466 | a removal succeeds exactly when it is recursive or no other trunk lives below, never takes the root, and is the removal step |
| `CoherentCut.CoherentTarget` | xwal/xwal.go:1796-1822 | the backward scan of the pending range finds the last record within the limit |
| `CoherentCut.StepKeeps` | xwal/xwal.go:1762-1788 | every append, disk write, failure and trim keeps what is on disk within main on disk, one ahead for a reducible channel |
| `CoherentCut.RunIsCoherent` | xwal/xwal.go:1762-1822 | so does every run, hence every crash point, under racing appends: no record on disk refers past the last main record on disk, but for one patch of a reducible channel to the one after it |
| `CoherentCut.FlushCatchesUp` | xwal/xwal.go:1762-1822 | a flush that runs to its end, whatever is appended while it runs and after, leaves a flushed state that holds every record there was when it began, plus appends; what is left off disk refers past main, and the buffers hold exactly what is not on disk |
| `CoherentCut.FlushedIs` | xwal/xwal.go:1762-1822 | after a completed flush main is on disk, and every record that is not refers past the last main record, in a reducible channel past the one after it |
| `CoherentCut.FlushRuns` | xwal/xwal.go:1762-1788 | from every idle state there is such a flush, without a failure or an append |
| `CoherentCut.BaseIsDurable` | xwal/trunks.go:741-757 | after a completed flush with nothing appended since, every fork base is at most one past what is on disk |
| `CoherentCut.BaseDurableIff` | xwal/trunks.go:1246-1309 | after a flush and any appends, a base is at most one past what is on disk if and only if the appends did not move it |
| `CoherentCut.KeyedUnmoved` | xwal/trunks.go:1288-1300 | at a main record the flush has written, a keyed base moves exactly when a record keyed at or below it was appended since |
| `CoherentCut.RacingAppend` | xwal/trunks.go:1048-1081 | one append through an open head after the flush puts a tail fork's base past what is on disk, in any kind of channel |
| `CoherentCut.Lineage.SyncThrough` | log/log.go:224-266 | a channel's sync writes nothing past its target, touches no other channel, and takes the records up to the target out of the buffer exactly if it succeeds |
| `CoherentCut.Lineage.SyncRelated` | xwal/xwal.go:1774-1786 | flushing one channel within its cut keeps the whole coherent and reaches the cut |
| `CoherentCut.Lineage.SyncCoherent` | xwal/xwal.go:1762-1788 | wherever it stops no record on disk refers past the last main record on disk, by more than one patch of a reducible channel; when nothing fails, main is on disk entirely and no record within that bound is missing |
| `ForeignKey.Naive` | xwal/xwal.go:207-247 | the reference: the greatest index with that key, or none |
| `ForeignKey.Channel.Append` | xwal/xwal.go:1698-1734 | an append is accepted exactly in key order and keeps a sound index sound |
| `ForeignKey.Channel.Lookup` | xwal/xwal.go:207-247 | while the floor is sound a lookup answers as the reference does, however little is indexed; it fails only if a read does; the floor stays sound unless the very first read of a scan fails, and then everything unindexed is reported absent; what is indexed stays so, and a later scan reads no record again |
| `ForeignKey.Channel.Scan` | xwal/xwal.go:216-246 | the scan from where the index ends answers as the reference and stops below the key |
| `ForeignKey.SpoiledChannel` | xwal/xwal.go:207-247 | any non-empty channel, with a first lookup that fails at once: the next lookup says absent for every key |
| `ForeignKey.Boundary` | xwal/xwal.go:1885-1933 | the walk back finds the first record keyed at or above the point |
| `ForeignKey.RecordsFrom` | xwal/xwal.go:1885-1933 | the result is the whole history filtered by key and cut at the limit; a negative limit is refused |
| `LineageLocks.LineageKeeps` | xwal/trunks.go:326-382 | every step of writers and head holders keeps the lineage's flags and counts in agreement with who holds what |
| `LineageLocks.FreeExactly` | xwal/trunks.go:347-382 | a lineage can be locked, or a head of it taken, exactly when nobody writes it and only the same peer holds heads of it |
| `LineageLocks.TicketsAfter` | xwal/trunks.go:347-382 | after a step exactly its own ticket has come or gone |
| `LineageLocks.OneWriter` | xwal/trunks.go:347-382 | at most one writer, heads of at most one peer, and the writer's peer is the holders' |
| `LineageLocks.OwnerPasses` | xwal/trunks.go:326-345 | ownership changes only while nobody writes and no head of another peer is held |
| `LineageLocks.RootKeeps` | xwal/trunks.go:575-672 | every step of borrowers and mutators keeps the counters in agreement with the borrows |
| `LineageLocks.BeginExactly` | xwal/trunks.go:575-672 | a mutation may begin exactly when none runs, an exclusive one only while nobody borrows, and a borrow exactly when no mutation runs |
| `LineageLocks.RootAfter` | xwal/trunks.go:575-672 | after a step exactly its own mutation or borrow has come, gone or changed hands, and the epoch counts the exclusive mutations ended |
| `LineageLocks.OneMutation` | xwal/trunks.go:575-616 | at most one mutation runs at a time |
| `LineageLocks.ExclusiveIsAlone` | xwal/trunks.go:575-616 | while an exclusive mutation runs nobody borrows and no step but its end changes anything |
| `LineageLocks.LocalBorrowers` | xwal/trunks.go:674-690 | a peer's own count is the whole count exactly when every borrow is its own |
| `LineageLocks.HotKeeps` | xwal/trunks.go:411-460 | every borrow, release, retirement and close keeps the reference counts true |
| `LineageLocks.BorrowExactly` | xwal/trunks.go:411-460 | a borrow is always possible: of the hot store, or of a new one exactly when there is none |
| `LineageLocks.HotAfter` | xwal/trunks.go:803-880 | after a step exactly its own borrow has come or gone, and a close is counted |
| `LineageLocks.ClosedOnce` | xwal/trunks.go:803-880 | a store is closed at most once, never while borrowed, never while hot, and is closed or closing once retired and free |
| `LineageLocks.OpenHeadRefs` | xwal/trunks.go:384-395 | the references added up before a removal are all the borrows there are |
| `LineageLocks.NextKeeps` | xwal/trunks.go:326-460 | every step of the whole protocol keeps all of it |
| `LineageLocks.Reachable` | xwal/trunks.go:575-672 | so every reachable state satisfies it |
| `HandOver.NobodyAppends` | xwal/trunks.go:326-382 | while a lineage passes to another peer nothing can be appended to it |
| `HandOver.Takers` | xwal/trunks.go:326-382 | either way of taking a lineage from another owner is open exactly when nobody writes it or holds a head of it |
| `HandOver.ReadsBeginning` | xwal/trunks.go:326-336 | however far the flush gets, the new owner reads, channel by channel, a coherent beginning of what was acknowledged, never less than was on disk |
| `HandOver.ReadsCut` | xwal/trunks.go:817-860 | after a flush that runs to its end it reads main and every unkeyed channel whole, and of a keyed one exactly the records keyed within the limit |
| `HandOver.ReadsAllIff` | xwal/trunks.go:326-336 | it reads every acknowledged record if and only if no keyed channel's last record refers past the limit |
| `HandOver.AheadIsUnread` | xwal/trunks.go:326-336 | the smallest case in which it does not |
| `NodeIndex.MintedParses` | xwal/trunks.go:1950-1959 | a minted id parses back to its number |
| `NodeIndex.ReflectsOnce` | xwal/index.go:186-235 | two indexes that reflect the same markers are equal |
| `NodeIndex.Index.MintNode` | xwal/index.go:165-171 | a minted node id is no committed node's |
| `NodeIndex.Index.MintTrunk` | xwal/index.go:173-184 | a minted trunk id is carried by no marker |
| `NodeIndex.Index.Enter` | xwal/index.go:217-253 | entering a node keeps the index in agreement with the markers and the counters past every id |
| `NodeIndex.Index.SpawnFlat` | xwal/index.go:101-110 | the incremental patch reflects exactly the markers with the new one |
| `NodeIndex.Index.RebuildFrom` | xwal/index.go:186-215 | a rebuild succeeds exactly when every trunk has one head, and then reflects the markers |
| `NodeIndex.Store.Fork` | xwal/trunks.go:1184-1214 | a fork uses ids nobody has, and index and markers agree even if the process dies before the marker |
| `NodeIndex.Store.CreateStump` | xwal/trunks.go:1505-1521 | a stump is refused exactly when its name is hidden, compound, empty or taken |
| `NodeIndex.Store.Restart` | xwal/index.go:186-253 | the rebuilt index has the nodes and heads of the incremental one, and mints on safely |
| `Flatten.ParentKept` | xwal/flatten.go:372-384 | in every interrupted state a node's parent, from marker or nesting, is its original one |
| `Flatten.AncestorKept` | xwal/flatten.go:342-360 | and so is who is whose ancestor |
| `Flatten.StaysOneLine` | xwal/flatten.go:330-337 | planning never refuses an interrupted state of a store it accepted |
| `Flatten.HeadUnique` | xwal/flatten.go:214-280 | a trunk has at most one head |
| `Flatten.PlanIsFinal` | xwal/flatten.go:214-280 | planned in any interrupted state, every node gets the marker it would have got at first |
| `Flatten.DerivedIs` | xwal/flatten.go:455-490 | a legacy pair is taken as written; otherwise parent and kind follow from the path and the trunk file |
| `Flatten.MainResumes` | xwal/flatten.go:529-606 | killed between any two steps the main channel is resumable, and a whole run finishes it and leaves no legacy file beside a marker it wrote |
| `Flatten.OtherResumes` | xwal/flatten.go:529-606 | the same for every related channel |
| `FlattenStore.AcceptedAgain` | xwal/flatten.go:68-171 | planning accepts every interrupted state of a store it accepted |
| `FlattenStore.KilledResumable` | xwal/flatten.go:529-606 | one run killed after any number of steps leaves a resumable store, or a complete one |
| `FlattenStore.RunsResumable` | xwal/flatten.go:510-527 | so do any number of runs |
| `FlattenStore.FlattenResumes` | xwal/flatten.go:68-171 | after any number of interruptions the store is accepted, every node's parent is unchanged and one more run completes it |
| `FlattenStore.OneOutcome` | xwal/flatten.go:529-606 | every complete store has the same directories, markers and parents |
| `FlattenStore.MigratedMarker` | xwal/flatten.go:455-490 | in every complete store each node of the nested original has the directory above it as parent, is a conversation exactly if its trunk file was there and not empty and a loadout otherwise, and carries that trunk unless a directory below holds the same one |
| `FlattenStore.OneCarrier` | xwal/flatten.go:214-280 | each trunk ends with exactly one carrier, and every other claimant is a shallower ancestor of it |
| `FlattenStore.FlattenOnce` | xwal/flatten.go:529-606 | running again on a complete store does nothing |
| `FlattenPlan.IsAncestorOf` | xwal/flatten.go:342-360 | the bounded climb decides ancestry |
| `FlattenPlan.LineageDepth` | xwal/flatten.go:300-311 | the bounded climb counts a node's ancestors |
| `FlattenPlan.AncestorCountsLess` | xwal/flatten.go:297-314 | an ancestor counts fewer |
| `FlattenPlan.SortByDepth` | xwal/flatten.go:246-252 | claimants are ordered by depth, none lost or repeated |
| `FlattenPlan.IsLineageChain` | xwal/flatten.go:330-337 | the loop accepts exactly a list in which each is an ancestor of the next |
| `FlattenPlan.RankTrunk` | xwal/flatten.go:242-275 | a trunk is refused exactly when its claimants are not on one line; otherwise everyone but the deepest is demoted |
| `FlattenPlan.Collect` | xwal/flatten.go:219-238 | every node without a marker gets the parent, kind and trunk its files say, and claimants are gathered per trunk |
| `FlattenPlan.Depths` | xwal/flatten.go:297-314 | every node's depth is its number of ancestors |
| `FlattenPlan.Demote` | xwal/flatten.go:264-274 | exactly the named claimants lose their claim |
| `FlattenPlan.PlanMainMarkers` | xwal/flatten.go:214-280 | planning refuses exactly the tangled trees and otherwise yields the plan stated in terms of ancestors, in which every node without a marker has the parent and kind its files say, and their trunk or none |
| `FlattenPlan.CheckLeafCollisions` | xwal/flatten.go:176-195 | exactly the paths whose leaf another path has are reported |
| `FlattenPlan.MidwayAcyclic` | xwal/flatten.go:372-384 | no interrupted state has a cycle of parents |
| `FlattenPlan.Channel.ApplyNode` | xwal/flatten.go:529-606 | marker, legacy removal and rename, in that order, cut after any step |
| `FlattenPlan.Channel.Apply` | xwal/flatten.go:529-606 | the loop over nodes performs a prefix of the planned steps |
| `FlattenPlan.Channel.MigrateMain` | xwal/flatten.go:529-606 | plan and apply from any interrupted state, killed anywhere, leave a resumable tree, and, if not killed, a finished one without the legacy files of the nodes it marked |
| `RepairTrim.TrimmedContents` | xwal/repair.go:168-226 | the repaired channel is the longest prefix whose last record is within the limit |
| `RepairTrim.TrimmedIsCoherent` | xwal/repair.go:168-226 | in key order that is exactly the records within the limit |
| `RepairTrim.TrimIsIdempotent` | xwal/repair.go:168-226 | repairing again changes no file |
| `RepairTrim.TrimKeepsNumbering` | xwal/repair.go:205-223 | the files stay contiguous if and only if nothing is dropped, or the newest file has entries and, with headers, everything dropped lies in it |
| `RepairTrim.TrimLeavesGap` | xwal/repair.go:205-223 | the smallest case in which they do not |
| `RepairTrim.NodeMainTail` | xwal/repair.go:134-156 | the main tail is the last index of the node's entries wherever its files begin, or one below its fork base if it has none |
| `RepairTrim.RepairLeaf` | xwal/repair.go:47-74 | after the repair of a leaf every channel in key order holds all and only its records that do not refer past the last main index, by more than the one patch a reducible channel may be ahead |
| `RepairTrim.Node.Keep` | xwal/repair.go:183-197 | the backward loop over frames keeps exactly up to the last one within the limit |
| `RepairTrim.Node.TrimFile` | xwal/repair.go:178-223 | one file is truncated or removed accordingly, and the number dropped is reported |
| `RepairTrim.Node.Trim` | xwal/repair.go:168-226 | the backward loop over files leaves the repaired channel and reports how many records it dropped |
| `SegmentRecovery.EncodeDecode` | segment/codec.go:58-66 | a length or checksum survives its four bytes |
| `SegmentRecovery.DecodeEncode` | segment/codec.go:69-98 | and four bytes survive being read as a number |
| `SegmentRecovery.FrameReads` | segment/codec.go:58-98 | a frame followed by anything reads back as its payload |
| `SegmentRecovery.TornFrame` | segment/codec.go:100-126 | a proper prefix of a frame never reads as one |
| `SegmentRecovery.ReadsFrame` | segment/codec.go:100-126 | whatever reads as a frame is that frame |
| `SegmentRecovery.ParseFrames` | segment/segment.go:136-196 | recovery of written frames and a tail is the payloads and whatever the tail holds |
| `SegmentRecovery.TornTailIgnored` | segment/segment.go:136-196 | any payloads and any torn prefix of one more frame recover to exactly those payloads |
| `SegmentRecovery.ParsedPrefix` | segment/segment.go:136-196 | for any bytes at all, what is accepted is a list of frames and what follows starts with none |
| `SegmentRecovery.TruncationIsFinal` | segment/segment.go:172-185 | after the cut a second recovery reads the same and cuts nothing |
| `SegmentRecovery.Scan` | segment/codec.go:100-126 | the scanning loop finds exactly the accepted frames, their offsets and the header |
| `SegmentRecovery.ReadFrame` | segment/codec.go:69-98 | a frame between known offsets reads back as its payload |
| `SegmentRecovery.Segment.constructor` | segment/segment.go:136-196 | opening any file yields exactly its accepted frames, the first of them as the header if one is expected; a writable file is cut after them |
| `SegmentRecovery.Segment.Append` | segment/segment.go:198-226 | an append succeeds exactly when the frame fits a writable segment; reopening then yields the entries and the new one if and only if the header is there when the file is opened as one that has it |
| `SegmentRecovery.HeaderlessAppend` | segment/segment.go:136-219 | the smallest case in which it does not: an empty file opened as headered, one append, and a reopened segment without entries |
| `SegmentRecovery.Segment.WriteHeader` | segment/segment.go:229-251 | a header is accepted exactly in an empty writable segment and is never an entry |
| `SegmentRecovery.Segment.ReadIndex` | segment/segment.go:269-285 | entry i is returned, or nothing past the last |
| `SegmentRecovery.Segment.OffsetOf` | segment/segment.go:287-298 | the offset of an entry is the length of all frames before it |
| `FrameDecode.ValueEnds` | xwal/xwal.go:2406-2455 | for every JSON value, followed by a comma or a brace, the reader stops exactly at its end |
| `FrameDecode.StringScan` | xwal/xwal.go:2411-2420 | the loop stops after the closing quote, skipping escapes |
| `FrameDecode.DeepScan` | xwal/xwal.go:2421-2446 | the loop stops after the matching bracket, ignoring brackets inside strings |
| `FrameDecode.TextScan` | xwal/xwal.go:2447-2454 | the loop stops at the first comma or brace, and refuses an empty value |
| `FrameDecode.JsonValueEnd` | xwal/xwal.go:2406-2455 | together they compute the end for every input |
| `FrameDecode.FitsExactly` | xwal/xwal.go:2327-2331 | the overflow test before each digit is exact |
| `FrameDecode.ParseDecimal` | xwal/xwal.go:2324-2336 | a run of digits is accepted exactly when there is one and its value fits |
| `FrameDecode.DecodeTrailer` | xwal/xwal.go:2365-2391 | the optional timestamp and meta are read as the grammar says |
| `FrameDecode.DecodeMeta` | xwal/xwal.go:2392-2403 | the optional meta ends the frame |
| `FrameDecode.DecodeBody` | xwal/xwal.go:2337-2367 | a plain or opaque payload is read, then the trailer |
| `FrameDecode.FastDecodeFrame` | xwal/xwal.go:2319-2404 | the loops compute the grammar's reading for every input |
| `FrameDecode.EncodeDecodes` | xwal/xwal.go:2217-2231 | for every main index, JSON payload, optional JSON meta and timestamp, the fields of an encoded frame come back, exactly when the timestamp is not negative |
| `FrameDecode.OpaqueDecodes` | xwal/xwal.go:2351-2362 | an opaque payload comes back through its base64 text |
| `Decimal.ItoaIs` | xwal/xwal.go:2217-2231 | a printed number is a non-empty run of digits with that value |
| `WindowCache.SeenAt` | forest/cache.go:163-180 | a coordinate between a node's base and the next one is that node's |
| `WindowCache.Split` | forest/cache.go:163-180 | the cuts partition the range in order, and serving each from its node gives what the lineage sees |
| `WindowCache.FirstPast` | forest/cache.go:236-240 | the binary search finds the first unit keyed past a bound |
| `WindowCache.Slice` | forest/cache.go:236-240 | the slice is exactly the units in the range; a backwards one crashes exactly when there are units in between |
| `WindowCache.SliceUnits` | forest/cache.go:273-283 | the two scans give exactly the units in the range |
| `WindowCache.Window.Charge` | forest/cache.go:315-319 | whatever runs a charge takes, the cache stays consistent, no run is refilled, and a quiet charge changes nothing; that pinned runs are never taken, and in which order the others are, is Accountant.Budget.Charge |
| `WindowCache.Window.FirstFrom` | forest/cache.go:337-352 | the binary search finds where runs from a coordinate on begin |
| `WindowCache.Window.At` | forest/cache.go:337-343 | a run at exactly this place is found unless another starting there comes first |
| `WindowCache.Window.Insert` | forest/cache.go:345-350 | a run is placed in order of its start |
| `WindowCache.Window.Materialize` | forest/cache.go:249-270 | a gap is filled in runs of this node, none longer than 64 coordinates, none pinned and, with nothing evicted, all resident, and returned as exactly the source's units |
| `WindowCache.Window.Refill` | forest/cache.go:286-299 | a hollow run is refilled in place with exactly the source's units, and is resident if nothing is evicted |
| `WindowCache.Window.Visit` | forest/cache.go:188-223 | one run of the loop contributes the gap before it and its part, or crashes exactly when the position is already past the end with units between |
| `WindowCache.Window.RangeInNode` | forest/cache.go:183-234 | whichever runs the loop comes across, hollow or resident, and whatever is evicted meanwhile, the result is exactly the source's units; with nothing evicted, it crashes exactly when a resident run overtakes the end of the range; where the runs come resident and without a gap to the end of the range, the source is not asked and nothing changes |
| `WindowCache.Window.Range` | forest/cache.go:144-159 | along a lineage the result is exactly what the lineage sees in the range, in order; with nothing evicted it crashes exactly when a resident run overtakes the end of one of the parts it serves |
| `WindowCache.Window.Put` | forest/cache.go:101-120 | a seeded run is resident if pinned or if nothing is swept, other pinned runs stay, and a new one is placed in order |
| `WindowCache.FirstOvertaken` | forest/cache.go:183-234 | two runs from the start of a range, both past its end, the shorter first, satisfy the crash condition |
| `WindowCache.OverlapCrashes` | forest/cache.go:183-234 | two such seeds through Put and one range crash |
| `Accountant.Coldest` | forest/cache.go:364-378 | the oldest evictable run of a cache, or none exactly when there is none |
| `Accountant.Budget.HollowRun` | forest/cache.go:380-407 | hollowing a run frees its bytes and changes no other |
| `Accountant.Budget.Victim` | forest/forest.go:123-134 | the globally oldest evictable run, or only pins are left |
| `Accountant.Stopped` | forest/forest.go:113-142 | a sweep that stops has hollowed nothing warmer than the coldest weightless run and, if still over the limit, everything older |
| `Accountant.UntiedMeets` | forest/forest.go:113-142 | with no run exactly as old as the coldest weightless one, the two bounds are equal |
| `Accountant.Budget.Charge` | forest/forest.go:113-142 | the meter stays the sum of resident bytes; only evictable runs are hollowed, none warmer than one that stays; nothing is hollowed within the limit; without weightless runs the sweep ends within the limit or with pins alone; with one it ends between the two bounds that run sets; evictions counts the runs taken, a weightless last one apart |
| `Accountant.SweepIs` | forest/forest.go:113-142 | a sweep takes only resident runs that are not pinned, changes nothing else of them, and leaves none such behind that is older, by epoch and by last use, than one it took |
| `Accountant.Budget.Put` | forest/cache.go:101-120 | a run is placed or replaced as the youngest; the meter is settled and only evictable runs are swept |
| `Accountant.Budget.Refill` | forest/cache.go:200-216 | refilling a run settles the meter and sweeps while the run is still at its old age; then it becomes the youngest |
| `Accountant.Budget.Drop` | forest/cache.go:125-138 | dropping returns exactly the run's bytes, pinned or not |
| `Accountant.Budget.Close` | forest/cache.go:68-84 | closing a cache returns every byte it counted |
| `Accountant.CutShort` | forest/forest.go:170-183 | a cache's idle sweep that meets a weightless run is complete exactly when that run is the last idle one |
| `Accountant.Budget.TrimOwner` | forest/forest.go:170-183 | one cache loses only runs older than the cutoff; all of them, unless a weightless one is not the last |
| `Accountant.Budget.TrimIdle` | forest/forest.go:158-186 | so does every cache, the meter stays true and the epoch advances by one |
| `Accountant.WeightlessRunStopsSweep` | forest/forest.go:113-142 | a colder weightless run leaves the meter over its limit with evictable bytes in memory |

## Left out

- DiskLog.Log.Fork: the fork's sentinel and its crash path (an interrupted fork makes the next open refuse), and a fork taken while an empty active segment follows sealed ones, which `Settled` excludes; writes that leave such a segment are modelled.
- DiskLog.Log.Fork: a child or old future named `.fork-pending` is refused; the code finds out only after creating the other directory, which it leaves behind empty. Files that other layers put into a log directory are not among the names a fork collides with.
- DiskLog.Log.Fork: names that collide only half-way, so that the fork fails on its crash path, count as free: a child, old future or existing child named like the split segment with `.tmp` appended, and a re-homed child named like the segment the split creates. The base name of the log directory is taken as a valid name.
- DiskLog.Log.Write: a header that cannot be computed leaves an empty segment file, which is not modelled.
- DiskLog.Log.Write: headers are promised (`Tracked`) only for reducers that satisfy the condition of `Lineage.SoundIffBlankSafe`; for the others the records are promised, not the states.
- DiskLog.Log.Open: a directory is written through one handle at a time; a second handle opened before a fork, whose fields are then stale, is not modelled. Nor is a child's handle opened before its parent is re-split, which keeps reading through the truncated parent.
- ForkRehome, the fork with an explicit list of children to re-home (disk/fork.go:225-227), which a caller uses to keep several nested logs in step.
- reseedEmptyActiveHeader (disk/log.go:844-873), the open-time repair of a header lost in a crash.
- TruncateFront, Clear, Snapshot and ScanFromEnd of the logs.
- WriteBehind.RangeSnapshot: the pending window and the disk are read by separate loads; the range is proved, `Snapshot`'s two-load variant is not modelled.
- WriteBehind.Buffered.Write: pending payloads are compared byte by byte with what the disk returns, as with the binary codec; the JSONL codec rewrites a payload canonically on disk.
- Detach.Node.Detach: stated for the history, which reads and ranges answer from, and for states; a backward scan of a half-detached node may revisit the absorbed prefix.
- FullCopies.RunRefines: node and trunk ids are supplied by the caller of a step and must be new; `NodeIndex` proves that minted ones are. Ids past 2^63 are not modelled.
- FullCopies.RunRefines: every node has a directory in every channel. Channels added later, backfill, renames, the manifest and property reconciliation are not modelled.
- TrunkStore.Trunks.RemoveTrunk: addressed by the trunk's founding node; looking that node up by trunk id is not modelled.
- TrunkStore.Trunks.CursorAt: main records without a stamp, written before cursors existed, are not modelled.
- CoherentCut.RunIsCoherent: flushes that bypass the cut (inline backpressure, the sync before a state read, eviction, store close) are excluded; open-time repair deals with their results.
- HandOver.ReadsCut: the flush covers the heads loaded in the old owner's hot store; a head still opening, and stores retired before, whose close flushes them, are not modelled.
- LineageLocks.Reachable: each critical section is one step, so blocking on a condition variable is a step that is not enabled. Fairness, and that waiting ends, are not stated.
- ForeignKey.Channel.Lookup: channels that are unkeyed, or were switched from keyed to unkeyed, are not modelled.
- FlattenStore.FlattenResumes: renames and marker writes are atomic, and a legacy file whose removal fails is not modelled. Two directories with one leaf name cannot be represented; `FlattenPlan.CheckLeafCollisions` proves the code refuses them.
- FlattenPlan.PlanMainMarkers: exact for trees without a cycle of parents, which every nested store and every interrupted state is; on a cyclic tree only soundness of acceptance is stated.
- NodeIndex.Store.CreateStump: a plain file lying under the stump's name in a channel directory, on which creating the directory fails, is not modelled.
- RepairTrim.Node.Trim: for a reducible channel whose trim shortens two segments the newer header-only file keeps its name, which `RepairTrim.TrimKeepsNumbering` then counts as a gap.
- SegmentRecovery.Segment.Append: payloads of 2^32 bytes and more, whose length does not fit the frame, are excluded.
- FrameDecode.EncodeDecodes: frames with cursors take the other decoder, the JSON library. The printed frame is the one that library writes; canonical marshalling is not modelled.
- WindowCache.Window.RangeInNode: the loop iterates over a slice that inserts may shift, so the runs it visits are arbitrary here. The crash condition is exact when nothing is evicted, and necessary otherwise.
- WindowCache.Window.Put: the source must agree with the seed; a seed that does not is the caller's error.
- Accountant.Budget.Charge: where runs with bytes are exactly as old as the coldest weightless one, either order is possible, and what is stated is the interval the meter ends in.
- WindowCache.Window.Charge: an arbitrary sweep stands for the budget's; which runs it takes is the subject of `Accountant.Budget.Charge`.
- TrunkStore.Trunks.AddMain: extra cursors must not be named like a channel, as the code's comment demands; the code does not check.
- File-system errors, fsync ordering, advisory locks, timers, logging, the command-line tools, SHA-256 and the JSON library.
