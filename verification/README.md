# Verified models of zdb, ztest and zed

This project models the hard parts of three OpenZFS programs and proves what they are meant to
keep: `zdb`, which checks the consistency of a pool offline; `ztest`, which stresses a pool and
checks itself while doing so; and `zed`, the event daemon.

| file | what it models |
|---|---|
| `Livelist.dfy` | pairing of ALLOCs and FREEs in sub-livelists (`zdb -y`) |
| `LivelistCheck.dfy` | handing leftover livelist blocks out to metaslabs, and comparing FREEs with them |
| `RangeTree.dfy` | the range tree both checks work on: sorted segments, merging and splitting |
| `Spacemap.dfy` | validation of a space map by replay |
| `SpacemapLoad.dfy` | loading space maps and unflushed logs as allocated or as free space |
| `Checkpoint.dfy` | the check that what a checkpoint holds is still allocated |
| `BlockAccounting.dfy` | leak detection: dedup and clone counting, claims, and the final comparison |
| `LeakDetection.dfy` | the whole leak check on a pool: loading, statistics and claims together |
| `IndirectTree.dfy` | the walk over an object's indirect blocks |
| `IntentLog.dfy` | the tester's operations, live and as replay of the intent log |
| `CopiedTags.dfy` | when replay of the intent log can fail, said of the live run |
| `ObjectLocks.dfy` | the tester's reader/writer locks and their use in two levels |
| `ObjectBatch.dfy` | setting up batches of test objects |
| `DenseSparse.dfy` | the read/write test on a dense and a sparse object |
| `CommitCallbacks.dfy` | the list of outstanding commit callbacks |
| `FaultInjection.dfy` | where fault injection may damage which device |
| `DraidGroups.dfy` | the number of dRAID groups |
| `JobLimiter.dfy` | forking and reaping of zedlets under a job limit |
| `Basics.dfy` | what several models share: optional values, contents by word, set sizes, multiples and quotients |
| `EventResume.dfy` | resuming after the last handled event across restarts, drops and module reloads |

Concurrent code is a transition system whose steps are the points where other threads can
interfere, with an inductive invariant and theorems over all runs. Code that updates state in place
is a class or a method with loops, proved against specification functions about which the theorems
are stated. Random choices, the results of kernel calls and failures such as lack of space are
parameters, so that every theorem holds for all of them. A failed assertion of the program is a
result value, and the theorems say when it comes.

Some properties that one would expect, from the code or its comments, do not hold as they stand.
For these there is a concrete input and the exact condition instead:

- The checkpoint check passes although part of an allocated run has been freed
  (`Checkpoint.WalkMissesPartialFree`; `Checkpoint.PassingWalkIsRightIff`, `Checkpoint.AlwaysRightIff`).
- The livelist check of a FREE misses blocks that begin at the FREE's own offset and are shorter
  (`LivelistCheck.ScanMissesCondensedFree`; `LivelistCheck.ScanCompleteIff`).
- Setting up a batch can fail although all of its objects exist
  (`ObjectBatch.FailsThoughAllExist`; `ObjectBatch.FailureWithAll`).
- Loaded as free space, a metaslab without a space map is not the complement of its allocation
  (`SpacemapLoad.NeverWrittenMetaslab`; `SpacemapLoad.ComplementIffSpaceMap`).
- Ranges of an object far apart can be locked together (`ObjectLocks.ParallelWritesShareLock`;
  `ObjectLocks.SameLockIff`).
- After a split of the pool, two devices of one mirror can be damaged at the same place
  (`FaultInjection.SplitLetsDamageMeet`; `FaultInjection.MeetIff`).

Three more fail of the routines alone, while the tests that are enabled keep to the condition. What
would break the first and the last is the preallocation test (`cmd/ztest.c:5613-5656`), which is
compiled out (`cmd/ztest.c:480-482`); no test at all would break the second.

- A write of a tag can fail an assertion on an object kept with larger blocks
  (`IntentLog.TagOffBoundaryAborts`; `IntentLog.AssertionFailsIff`, `IntentLog.EnabledTestsReplay`).
- Replay can fail where a tag is written over one that a rewrite had copied, since the copy keeps the
  stamps of the first run (`CopiedTags.CopiedTagFailsReplay`; `CopiedTags.ReplayFailsIff`,
  `CopiedTags.LaterGroupsFailIff`, `CopiedTags.StartedIsNotCopied`).
- Ranges of an object that overlap can be locked apart; preallocation would do so in one thread, one
  after the other (`ObjectLocks.PreallocOnDifferentLocks`; `ObjectLocks.OverlapExcludesIff`).

Verify everything with `dafny verify dfyconfig.toml`.

## Model

| member | source | states |
|---|---|---|
| `Livelist.PairingConserves` | cmd/zdb/zdb.c:175-231 | FREEs pending less ALLOCs unmatched is FREEs less ALLOCs, for any stream and block |
| `Livelist.PendingIsLargestSuffix` | cmd/zdb/zdb.c:175-231 | the reference count left is the largest surplus of FREEs in any suffix |
| `Livelist.UnmatchedIsLargestPrefix` | cmd/zdb/zdb.c:194-219 | the number of unpaired ALLOCs is the largest surplus of ALLOCs in any prefix |
| `Livelist.UnpairedIffPrefixSurplus` | cmd/zdb/zdb.c:194-219 | some ALLOC of a block is unpaired exactly when some prefix has more ALLOCs than FREEs of it |
| `Livelist.LeftoverMeaning` | cmd/zdb/zdb.c:203-219 | a DVA is left over exactly when it was before or some unpaired ALLOC has it |
| `Livelist.LeftoverKeepsFirstBirth` | cmd/zdb/zdb.c:203-219 | the birth kept with a leftover DVA is that of the first unpaired ALLOC that has it |
| `Livelist.SublivelistVerify.VerifyBlkptr` | cmd/zdb/zdb.c:175-231 | one record takes the pairing tree and the leftovers from one prefix to the next |
| `Livelist.SublivelistVerify.OfferDvas` | cmd/zdb/zdb.c:203-219 | the DVAs up to the first empty one are offered in turn; one already there keeps its birth |
| `Livelist.SublivelistVerify.Drain` | cmd/zdb/zdb.c:245-254 | one error line per node, with its count, and an empty tree afterwards |
| `Livelist.SublivelistVerify.VerifySub` | cmd/zdb/zdb.c:233-257 | a line is printed for a block exactly when some suffix has more FREEs than ALLOCs, once, with the count |
| `Livelist.SublivelistVerify.VerifyAll` | cmd/zdb/zdb.c:287-292 | sub-livelists are judged each by its own records; leftovers are the union of what each leaves |
| `LivelistCheck.CrossingIsNowhere` | cmd/zdb/zdb.c:509-556 | a block across a metaslab boundary is inside no metaslab, and none is inside two |
| `LivelistCheck.LeftoverTree.Pick` | cmd/zdb/zdb.c:521-549 | scanning one metaslab picks exactly the blocks inside it and counts boundary crossings |
| `LivelistCheck.LeftoverTree.Populate` | cmd/zdb/zdb.c:509-556 | those blocks move from the leftovers to the metaslab, no others |
| `LivelistCheck.LeftoverTree.HandOut` | cmd/zdb/zdb.c:601-644 | over all vdevs and metaslabs each gets exactly its blocks, and what no metaslab got is left |
| `LivelistCheck.UntouchedByOthers` | cmd/zdb/zdb.c:509-556 | what a metaslab is handed does not depend on those handed out before |
| `LivelistCheck.RestIsIndirectIff` | cmd/zdb/zdb.c:646-672 | the final assertion holds exactly when nothing crossed and each block on a concrete vdev starts in a metaslab |
| `LivelistCheck.VerifyLivelistAllocs` | cmd/zdb/zdb.c:377-410 | exactly the recorded blocks not before the FREE's own key, starting before its end and not born later, are reported |
| `LivelistCheck.ScanMissesCondensedFree` | cmd/zdb/zdb.c:377-410 | a FREE over two adjoining blocks misses the first |
| `LivelistCheck.ScanCompleteIff` | cmd/zdb/zdb.c:377-410 | no block within a FREE is missed exactly when none begins at its offset and is shorter |
| `RangeTree.SegmentsAreRuns` | module/zfs/range_tree.c:291-440 | the segments of a tree are exactly the maximal runs of its set |
| `RangeTree.Insert` | module/zfs/range_tree.c:291-440 | adding merges with both neighbours where they touch; the set gains the extent |
| `RangeTree.Carve` | module/zfs/range_tree.c:442-561 | removing splits or trims one segment; the set loses the extent |
| `RangeTree.Tree.Add` | module/zfs/range_tree.c:291-440 | panics exactly on overlap; otherwise the set is the union and the space grows by the size |
| `RangeTree.Tree.Remove` | module/zfs/range_tree.c:442-561 | panics exactly when the extent is not all there; otherwise the set is the difference |
| `RangeTree.Tree.Contains` | module/zfs/range_tree.c:589-628 | found exactly when the whole extent is in the set |
| `Spacemap.MetaslabVerify.ValidateEntry` | cmd/zdb/zdb.c:412-456 | silent exactly when an ALLOC is disjoint from, or a FREE contained in, the set so far; which cases print and which panic |
| `Spacemap.MetaslabVerify.Validate` | cmd/zdb/zdb.c:412-456 | no report and no panic exactly when every entry fits; then tree and byte count are the replay and the signed sum |
| `Spacemap.CleanSignedSum` | cmd/zdb/zdb.c:1555-1626 | for a clean map the signed sum of runs is the number of bytes allocated |
| `SpacemapLoad.LoadSm` | module/zfs/space_map.c:394-451 | loads exactly when in bounds and every entry fits; the tree is then the replay |
| `SpacemapLoad.AllocatableTrees.LoadSpaceMaps` | cmd/zdb/zdb.c:6595-6634 | every concrete metaslab's tree is the replay of its own space map |
| `SpacemapLoad.AllocatableTrees.LoadUnflushed` | cmd/zdb/zdb.c:6558-6593 | entries not yet flushed are applied on top, each to its metaslab |
| `SpacemapLoad.LogActsOn` | cmd/zdb/zdb.c:6558-6593 | on each tree the interleaved log acts as that metaslab's entries alone |
| `SpacemapLoad.LogCleanPerMetaslab` | cmd/zdb/zdb.c:6558-6593 | the log applies cleanly exactly when every metaslab's own entries do |
| `SpacemapLoad.ComplementReplay` | cmd/zdb/zdb.c:6558-6634 | a map replays cleanly as allocated exactly when it does as free space, and the results are complements |
| `SpacemapLoad.LoadedTreesAreComplements` | cmd/zdb/zdb.c:6558-6634 | with a space map, the two loads succeed together and split the metaslab between them, unflushed entries included |
| `SpacemapLoad.AllocatableTrees.Load` | cmd/zdb/zdb.c:6595-6637 | the whole load goes through exactly when every metaslab's own entries do; each tree is what those alone make of it |
| `SpacemapLoad.NoSpaceMapLoadsEmpty` | cmd/zdb/zdb.c:6626-6629 | a metaslab without a space map that loads both ways loads as empty both ways |
| `SpacemapLoad.ComplementIffSpaceMap` | cmd/zdb/zdb.c:6595-6637 | the trees loaded both ways are complements exactly when the metaslab has a space map, unflushed entries included |
| `SpacemapLoad.NeverWrittenMetaslab` | cmd/zdb/zdb.c:6626-6629 | a metaslab of 8 bytes of which none loads as allocated and none as free |
| `SpacemapLoad.LoadSpaceCheckHolds` | module/zfs/space_map.c:394-447 | the loader's space check cannot fail on an entry that fits |
| `SpacemapLoad.CountUnflushedSpace` | cmd/zdb/zdb.c:6519-6556 | the signed sum of the entries that apply |
| `SpacemapLoad.UnflushedSpaceIsChange` | cmd/zdb/zdb.c:6519-6556 | that sum is the change in allocated bytes that applying the log makes, over all metaslabs |
| `SpacemapLoad.TotalAllocIsLoaded` | cmd/zdb/zdb.c:7166-7172 | the space maps' own allocation plus the unflushed space is the number of bytes that load as allocated |
| `Checkpoint.VerifyNotPresent` | module/zfs/range_tree.c:616-628 | panics exactly when the whole extent is free |
| `Checkpoint.WalkMetaslab` | cmd/zdb/zdb.c:7938-7958 | passes exactly when no allocated run of the checkpoint is free from end to end |
| `Checkpoint.WalkAll` | cmd/zdb/zdb.c:7920-7959 | all metaslabs of the concrete vdevs in turn |
| `Checkpoint.VerifyCheckpoint` | cmd/zdb/zdb.c:7911-7964 | checkpoint loaded as allocated and current pool as free space, then walked: when both load, and when it passes |
| `Checkpoint.WalkPassesIff` | cmd/zdb/zdb.c:7938-7958 | where the free tree is the complement of the allocation, a walk passes exactly when every run keeps an allocated byte |
| `Checkpoint.MetaslabPassesIff` | cmd/zdb/zdb.c:7911-7964 | that holds of the loaded trees of a metaslab with a space map; one without passes whatever was in it |
| `Checkpoint.WalkMissesPartialFree` | cmd/zdb/zdb.c:7899-7909 | a pool of one metaslab of which half a run was freed since the checkpoint: everything loads, and it passes, against the comment |
| `Checkpoint.StillAllocatedPasses` | cmd/zdb/zdb.c:7899-7909 | the walk never fails when everything is still allocated |
| `Checkpoint.FailingWalkIsRight` | cmd/zdb/zdb.c:7899-7964 | a walk that fails is always right |
| `Checkpoint.PassingWalkIsRightIff` | cmd/zdb/zdb.c:7899-7964 | a walk that passes is right exactly when no run is partly freed |
| `Checkpoint.AlwaysRightIff` | cmd/zdb/zdb.c:7899-7964 | the walk is right whatever is allocated now exactly when every run of the checkpoint is a single unit |
| `BlockAccounting.TotalsBalance` | cmd/zdb/zdb.c:5841-6102 | total less dedup less clone size is the size of all claims, for any stream of references |
| `BlockAccounting.ClaimedAsDue` | cmd/zdb/zdb.c:5841-5992 | a block seen k times with r clones is claimed k/(r+1) times rounded up, a dedup variant once |
| `BlockAccounting.ClaimedOnceIff` | cmd/zdb/zdb.c:5950-5992 | a block is claimed once exactly when it is seen no more often than its clones allow |
| `BlockAccounting.TakesIffTiles` | module/zfs/metaslab.c:5707-5769 | all claims succeed exactly when the extents are allocated, not empty and disjoint |
| `BlockAccounting.LeakVerdict` | cmd/zdb/zdb.c:7161-7186 | if all claims succeed, allocated less found is the number of bytes left in the trees; none exactly when everything allocated is claimed |
| `BlockAccounting.Census.Tally` | cmd/zdb/zdb.c:5841-5992 | one reference updates the counters as specified and says what to claim |
| `BlockAccounting.Census.Claim` | module/zfs/metaslab.c:5707-5769 | succeeds exactly when each extent can be taken in turn |
| `BlockAccounting.Census.CountBlock` | cmd/zdb/zdb.c:5841-6102 | a reference that fails to be claimed is exactly one whose claim the trees cannot meet |
| `BlockAccounting.Census.CountStream` | cmd/zdb/zdb.c:5841-6102 | the stream passes exactly when all claims due can be met together |
| `BlockAccounting.Census.LeakCheck` | cmd/zdb/zdb.c:7161-7186 | with the checkpoint's space excluded first: when all claims are met, when "no leaks" is printed, and that it then means empty trees if the statistics are right |
| `LeakDetection.PoolBytesSize` | module/zfs/metaslab.c:2705-2706 | metaslabs do not overlap, so all trees together hold as many bytes as the pool has in them |
| `LeakDetection.LoadedTotal` | cmd/zdb/zdb.c:7163-7171 | statistics and unflushed space add up to the bytes of the trees that the load leaves |
| `LeakDetection.CheckLeaks` | cmd/zdb/zdb.c:7049-7186 | the whole check on a pool: "no leaks" is said exactly when every byte that loads as allocated is in the checkpoint's or a claimed extent |
| `IndirectTree.ChildrenTile` | cmd/zdb/zdb.c:2436-2452 | a block's range is the ordered disjoint union of its children's |
| `IndirectTree.VisitOrdered` | cmd/zdb/zdb.c:2610-2655 | a walk prints blocks within its block's range, never going back and always going on after a data block |
| `IndirectTree.OffsetsIncrease` | cmd/zdb/zdb.c:2610-2655 | offsets of data blocks grow by a block size at least |
| `IndirectTree.PrintedIffFound` | cmd/zdb/zdb.c:2610-2655 | a walk not cut short prints exactly the data blocks that a lookup by number finds |
| `IndirectTree.FillCheckIff` | cmd/zdb/zdb.c:2627-2650 | the fill assertion holds throughout exactly when every fill is what the ends below add up to, in objects of dnodes too |
| `IndirectTree.Dump.VisitIndirect` | cmd/zdb/zdb.c:2610-2655 | the recursive walk prints, fails and checks as specified |
| `IndirectTree.Dump.VisitChildren` | cmd/zdb/zdb.c:2632-2648 | children are visited up to the first error, their fills added up |
| `IndirectTree.Dump.DumpIndirect` | cmd/zdb/zdb.c:2657-2674 | all pointers of the dnode are walked, and the lines stay in order, whatever read errors occur |
| `IntentLog.AssertionFailsIff` | cmd/ztest.c:2044-2438 | an assertion fails in a live run exactly when a tag is to go off a boundary of its object's blocks; else all tags in place stay right |
| `IntentLog.TagOffBoundaryAborts` | cmd/ztest.c:5613-5656 | such a call, as preallocation would make it, were it compiled in, on an object kept with larger blocks |
| `IntentLog.SoundStep` | cmd/ztest.c:2044-2438 | every operation whatever keeps block sizes in sectors, room for the bonus tag, and that not of the future |
| `IntentLog.InvStep` | cmd/ztest.c:2044-2438 | every operation in sectors, live or replayed, keeps the tags of all objects right |
| `IntentLog.WriteKeepsTags` | cmd/ztest.c:2255-2312 | a write in sectors, over any number of blocks, cuts no tag and leaves those at all boundaries right |
| `IntentLog.CellsAgain` | cmd/ztest.c:1978-2010 | the words logged, written again, verify and differ from the first write in stamps alone |
| `IntentLog.LiveStep` | cmd/ztest.c:2044-2438 | a live call fails for want of space, or by assertion exactly when its tag goes off a boundary, or succeeds |
| `IntentLog.ReplayStep` | cmd/ztest.c:2044-2438 | replaying any operation's record on an equal state gives an equal state, and fails exactly where a tag in place is checked and found wrong |
| `IntentLog.ReplayGivesSame` | cmd/ztest.c:2044-2438 | replaying what any calls at all logged yields their directory, ids, generations, bonus sizes and contents, but for stamps, or fails exactly at such a check |
| `IntentLog.PlainReplay` | cmd/ztest.c:2044-2438 | for calls in sectors that bring no tags further on, every record succeeds and the state is the same |
| `IntentLog.EnabledTestsReplay` | cmd/ztest.c:5012-5014 | writes at block boundaries and no longer than a block, as the enabled tests make them: no assertion fails live, every record replays, and the state is the same |
| `IntentLog.NoChecksNoFailure` | cmd/ztest.c:2265-2280 | a replay in which no tag happens to be checked never fails |
| `IntentLog.LogPrefixIsRunPrefix` | cmd/ztest.c:1943-2039 | every prefix of the log is what some prefix of the run logged |
| `IntentLog.ReplayAfterCrash` | cmd/ztest.c:2044-2438 | so replay after a crash at any point leads to a state the run went through, with the same one way to fail |
| `IntentLog.Dataset.ReplayCreate` | cmd/ztest.c:2044-2131 | create: allocate or claim, size, tag, enter, log |
| `IntentLog.Dataset.ReplayRemove` | cmd/ztest.c:2135-2186 | remove: look up, free, take out, log |
| `IntentLog.Dataset.ReplayWrite` | cmd/ztest.c:2188-2322 | write: check tags, regenerate the leading tag, write, log a copy |
| `IntentLog.Dataset.CheckTags` | cmd/ztest.c:2257-2296 | which writes the tag checks let through |
| `IntentLog.Dataset.ReadBack` | cmd/ztest.c:1992-1998 | the record copies the words just written |
| `IntentLog.Dataset.ReplayTruncate` | cmd/ztest.c:2324-2363 | truncate: free the range, log |
| `IntentLog.Dataset.ReplaySetAttr` | cmd/ztest.c:2365-2438 | set attributes: choose or take size and generation, verify, retag, log |
| `IntentLog.Dataset.Dispatch` | cmd/ztest.c:2440-2464 | the vector of replay routines |
| `IntentLog.Dataset.ReplayLog` | cmd/ztest.c:2440-2464 | a log is replayed in order up to the first failure |
| `CopiedTags.TwinStep` | cmd/ztest.c:2044-2438 | every record keeps the replayed state a twin of the live one: tags written are generated afresh, tags copied stay as they were |
| `CopiedTags.CheckIff` | cmd/ztest.c:2257-2280 | a replayed record fails exactly when the live call wrote a tag over a copied one, and that is checked and found of the future or of another creation |
| `CopiedTags.ReplayFailsIff` | cmd/ztest.c:2044-2438 | replay of a run's log fails exactly when that happens somewhere in the live run; else the states are twins |
| `CopiedTags.ReplayEqualsExecution` | cmd/ztest.c:2044-2438 | where no call writes a tag over a copied one, every record replays, in any groups and with any checks, and the state is the same |
| `CopiedTags.LaterGroupsFailIff` | cmd/ztest.c:2257-2280 | in groups later than the run's, some draw of checks fails exactly when a tag went over a copied one in an object that the run created |
| `CopiedTags.StartedIsNotCopied` | cmd/ztest.c:5643-5650 | starting a place afresh before a tag goes there, as by writing zeros or by creating the object, meets the condition |
| `CopiedTags.RecoversAfterCrash` | cmd/ztest.c:2044-2438 | under it every prefix of the log replays, and leads to a state the run went through |
| `CopiedTags.CopiedTagFailsReplay` | cmd/ztest.c:2885-2902 | the condition is needed: calls of the routines that all go well, with a rewrite across a tag, whose replay fails; no test makes them |
| `ObjectLocks.InvStep` | cmd/ztest.c:1694-1730 | every step of any operation keeps the lock fields exact and loses no wake-up |
| `ObjectLocks.LocksAreSafe` | cmd/ztest.c:1694-1730 | in every state of every run `readers` counts the read holds, and a writer holds alone |
| `ObjectLocks.SleepersHaveReason` | cmd/ztest.c:1694-1730 | a sleeping reader implies a writer, a sleeping writer a writer or reader |
| `ObjectLocks.WakeupAfterUnlock` | cmd/ztest.c:1713-1730 | waking only when the lock is fully free loses nobody |
| `ObjectLocks.SomeoneIsAwake` | cmd/ztest.c:1732-1775 | with object locks taken before range locks no state is a deadlock |
| `ObjectLocks.AwakeCanMove` | cmd/ztest.c:1732-1775 | an operation neither done nor asleep can take a step |
| `ObjectLocks.MoveLowersRank` | cmd/ztest.c:1694-1775 | every step brings the operations nearer their end |
| `ObjectLocks.AllFinish` | cmd/ztest.c:1694-1775 | any schedule without spurious wake-ups is bounded, and it stops only when all operations are done |
| `ObjectLocks.SameLockIff` | cmd/ztest.c:1748-1766 | two offsets of an object lead to one lock exactly when they leave the same modulo 65 and then 64 |
| `ObjectLocks.OverlapExcludesIff` | cmd/ztest.c:1748-1766 | the exact condition under which overlapping ranges have one lock |
| `ObjectLocks.AlignedRangesExclude` | cmd/ztest.c:5595-5609 | ranges at multiples of a size and no longer overlap only if they begin together, and then share a lock |
| `ObjectLocks.SpacedOffsetsHaveOwnLock` | cmd/ztest.c:5012-5014 | at the first 64 multiples of the largest block two ranges share a lock exactly when they overlap |
| `ObjectLocks.ParallelWritesShareLock` | cmd/ztest.c:5595-5596 | two parallel writes far apart that share a lock |
| `ObjectLocks.PreallocOnDifferentLocks` | cmd/ztest.c:5634-5646 | a truncation and a write of preallocation that overlap on different locks; one thread would do both in turn, and the test is compiled out |
| `ObjectBatch.Dataset.Lookup` | cmd/ztest.c:2598-2638 | counts the missing and never finds a gap |
| `ObjectBatch.Dataset.Create` | cmd/ztest.c:2640-2684 | creates from the first on up to the first failure |
| `ObjectBatch.Dataset.Remove` | cmd/ztest.c:2686-2723 | removes from the last back up to the first failure |
| `ObjectBatch.Dataset.ObjectInit` | cmd/ztest.c:2941-2956 | keeps the existing objects a prefix; when it returns 0; ids noted are the directory's; other entries are untouched |
| `ObjectBatch.Dataset.Calls` | cmd/ztest.c:2941-2956 | after any sequence of calls the batch is a prefix and no object is leaked |
| `ObjectBatch.FailureWithAll` | cmd/ztest.c:2935-2956 | success implies that all exist; the converse fails exactly when removal of a whole batch stops at once |
| `ObjectBatch.FailsThoughAllExist` | cmd/ztest.c:2935-2956 | a batch of one for which the call fails and the object exists |
| `ObjectBatch.SuccessIffAllExist` | cmd/ztest.c:2935-2956 | without asking to remove, 0 is returned exactly when all exist |
| `ObjectBatch.UsedObjects` | cmd/ztest.c:7780-7799 | used objects are directory entries plus one |
| `DenseSparse.CompareAndUpdate` | cmd/ztest.c:5288-5339 | on buffers that agree no check fails, and the new records are in all three places |
| `DenseSparse.Update` | cmd/ztest.c:5229-5237 | a record is put in place without touching any other chunk |
| `DenseSparse.AfterWrite` | cmd/ztest.c:5240-5279 | reading back after writing or freeing gives exactly the buffers |
| `DenseSparse.ReadWriteTest.constructor` | cmd/ztest.c:5103-5118 | objects just created agree |
| `DenseSparse.ReadWriteTest.ReadWrite` | cmd/ztest.c:5048-5284 | every transaction passes all checks, keeps the objects in step and replaces exactly its range |
| `DenseSparse.ReadWriteTest.WriteOut` | cmd/ztest.c:5240-5279 | writing both, or freeing, replaces the records of the range, and the final comparison holds |
| `DenseSparse.RunAll` | cmd/ztest.c:5048-5284 | no check fails in any run with groups that never decrease, and each index then holds, in all three places, what the last transaction there wrote |
| `CommitCallbacks.HeadIsOldest` | cmd/ztest.c:6136-6143 | checking the head is checking every callback |
| `CommitCallbacks.PlaceIsUnique` | cmd/ztest.c:6145-6155 | there is one place to insert |
| `CommitCallbacks.CallbackList.FindPlace` | cmd/ztest.c:6153-6155 | the scan from the tail stops there |
| `CommitCallbacks.CallbackList.Insert` | cmd/ztest.c:6136-6171 | fails exactly when some callback is overdue; else adds three in order and keeps all others |
| `CommitCallbacks.CallbackList.Fire` | cmd/ztest.c:5979-6025 | a callback takes itself off, the rest stays in order, and the least delay is kept |
| `CommitCallbacks.CallbackList.Run` | cmd/ztest.c:5979-6171 | over any interleaving the list stays sorted and is what the events make of it; it stops at the first event that finds some callback overdue, or is called too soon |
| `FaultInjection.DrawnIffOwn` | cmd/ztest.c:6650-6652 | the offsets that can be drawn are exactly the words in the lower halves of the leaf's slots |
| `FaultInjection.HitIff` | cmd/ztest.c:6650-6678 | what the loop can damage are exactly these words, less those in the labels that the leaf keeps |
| `FaultInjection.MeetIff` | cmd/ztest.c:6622-6678 | damage of two leaves under any two counts can come within one block exactly when they have a slot in common that is open to both, which for an odd leaf is one before the labels at the end |
| `FaultInjection.OneCountApart` | cmd/ztest.c:6622-6652 | under one count, leaves with different remainders have none |
| `FaultInjection.SplitLetsDamageMeet` | cmd/ztest.c:3693-3694 | a mirror of three in which a split lets two devices be hit at one offset |
| `FaultInjection.FrontIsNeverHit` | cmd/ztest.c:6654-6678 | an offset let through never reaches the labels at the front, nor on an odd leaf those at the end |
| `FaultInjection.Device.Choose` | cmd/ztest.c:6650-6678 | an offset let through is one of the leaf's own places and spares the labels |
| `FaultInjection.Device.Inject` | cmd/ztest.c:6622-6695 | exactly the offsets drawn and let through before a split are damaged, on top of all earlier damage; each is the device's own under the count it was drawn under |
| `FaultInjection.NoBlockHitTwice` | cmd/ztest.c:6497-6695 | of all damage done to two devices of a mirror with no split in between, none comes within one block |
| `FaultInjection.MeetOnlyInSharedSlot` | cmd/ztest.c:6497-6695 | with splits in between it can only in a slot that both counts deal them and that is open to both |
| `FaultInjection.FrontLabelsSurvive` | cmd/ztest.c:6654-6678 | whatever was done to a device, its front labels are whole |
| `DraidGroups.Groups` | cmd/ztest.c:1366-1372 | the loop finds the smallest number of groups within as many steps as there are data drives |
| `DraidGroups.LeastCommonMultiple` | cmd/ztest.c:1366-1372 | that number of stripes is the least common multiple: it divides exactly the common multiples |
| `DraidGroups.FillsIffMultiple` | cmd/ztest.c:1366-1372 | the numbers of stripes that fill whole rows are the multiples of the smallest |
| `JobLimiter.InvHolds` | cmd/zed/zed_exec.c:136-241 | counter, lock and tree invariants hold in every reachable state |
| `JobLimiter.BalanceStep` | cmd/zed/zed_exec.c:136-241 | only the two adjustments change what the counter should show |
| `JobLimiter.JobLimitHolds` | cmd/zed/zed_exec.c:136-241 | never more than the allowed jobs, and counter, children and operations in flight always balance |
| `JobLimiter.TreeMatchesChildren` | cmd/zed/zed_exec.c:170-232 | whenever the lock is free the tree holds exactly the live children that have a node |
| `JobLimiter.TreeOperationsAreSafe` | cmd/zed/zed_exec.c:170-232 | no pid is added twice, and the tree exists before it is used |
| `JobLimiter.ForkerReadsFreeSlots` | cmd/zed/zed_exec.c:136-140 | when the event thread decides, it reads exactly the free slots |
| `JobLimiter.ReapedBeforeSubtracted` | cmd/zed/zed_exec.c:183-234 | the counter can stand one above the number of jobs |
| `JobLimiter.CounterCanWrap` | cmd/zed/zed_conf.c:286-296 | with the largest job count it then wraps around, without harm to the limit |
| `EventResume.Stream.Seek` | cmd/zed/zed_event.c:168-226 | the stream is left exactly at the events newer than the saved one, or at all when that is not queued |
| `EventResume.StateFile.ReadState` | cmd/zed/zed_conf.c:624-667 | empty, short and whole files |
| `EventResume.StateFile.WriteState` | cmd/zed/zed_conf.c:674-722 | what is written is what the next start reads |
| `EventResume.InvHolds` | cmd/zed/zed_event.c:168-1033 | the invariant of the whole protocol holds in every reachable state |
| `EventResume.SeekStep` | cmd/zed/zed_event.c:168-226 | every step, of daemon or kernel, keeps the saved event ahead of the seek or just found |
| `EventResume.ResumesAfterSaved` | cmd/zed/zed_event.c:168-226 | whenever the daemon waits, what it will read is exactly what is queued after the event in the state file |
| `EventResume.ExecutedOnceUnlessTorn` | cmd/zed/zed_event.c:1021-1027 | events run in order and once, unless a crash cut them off before they were recorded |
| `EventResume.TornOnlyInFlight` | cmd/zed/zed_event.c:1025-1027 | only the one event between execution and recording can be cut off |
| `EventResume.NothingSkipped` | cmd/zed/zed_event.c:168-1033 | every event is executed, dropped by the kernel, or still to come |
| `EventResume.CrashRepeats` | cmd/zed/zed_event.c:1025-1027 | such an event does run twice |

## Left out

- All printing, option parsing, histograms and the random workload drivers: input and output only.
- The DMU, ZAP, ZIL, DDT and BRT behind the calls: each call is a small operation on maps and sets.
- 64-bit wrap-around of sizes, offsets and transaction groups, and the 32-bit reference count of the livelist pairing: numbers are unbounded, except where a wrap decides something (the job counter, the label test of fault injection).
- Gang blocks, embedded blocks, removed and indirect vdevs, obsolete counts, and DVAs across a metaslab boundary in the leak check: they depend on remapping that is not part of this model.
- Range trees with gaps, and the size-ordered callbacks of range trees: the checks do not use them.
- Writes logged as indirect or to be copied later, and byte-swapped logs: only copied data is in the record itself.
- The fill pattern in unused bonus space: it is a function of the object id, the generation and the bonus size, all of which are compared.
- The order of parallel operations in the intent log: a run is the order in which the object and range locks let them through.
- `ztest_rzx_thread`, which removes part of a batch on purpose, and the arc-buffer variant of the read/write test, whose loop is the same.
- Devices shorter than an offset drawn: fault injection then extends the file, which no theorem is about.
- A restart with another number of leaves, pools whose RAID-Z is expanded, and cache devices, in fault injection; and scrubs, which repair damage between injections.
- Malformed events, failed writes of the state file, the idle loop that re-uses the state read at startup, and two events with one id and time.
- Children of `zed` left over from an earlier reaper thread, and children forked by other agents.
- LeakDetection.CheckLeaks: takes it that the allocation noted in each space map is what its entries add up to, and that a log entry stays within its metaslab; both are the pool's to keep.
- EventResume.StateFile.ReadState: leaves the time of an empty file open, as the code does.
- L2ARC log blocks, `zhack` and the label tools: mostly input and output around checksums.
