# brewfs: verified models of the stateful cores

brewfs is a user-space file system over object storage. This project models, in Dafny, the parts of
it whose correctness rests on interleavings, failure branches, loops over short reads and writes, or
encodings, and proves what those parts are for. `dafny verify dfyconfig.toml` checks everything.

What is modelled, module by module:

- `DiskHealth`, `DiskHealthThreads`: the circuit breaker of the disk cache, once as a class of whole
  calls and once as any number of callers that interleave one atomic access at a time.
- `PackedMount`: mounting a workspace and tearing the mount down, for every combination of outcomes
  of the catalog, kernel, VFS and session calls. A trace records what happens to the writer lease.
- `CreateOnlyPut`: concurrent create-only puts of the local backend (private file, hard link,
  comparison) as a step machine that refines write-once registers.
- `LocalFsIo`: vectored puts and ranged gets for every schedule of short transfers and failures.
- `SdkPollRead`, `SdkAppend`, `SdkCopy`: the SDK's file handle: polled reads with a carry-over
  buffer, concurrent appenders and their lock registry, and the read, write and copy loops.
- `P90Policy`: the histogram percentile check.
- `Arithmetic`, `FixtureTree`, `FixtureWalk`, `FixtureCorpus`, `FixturePacked`, `FixtureContent`: the
  generated corpus, produced once as single objects by base-N leaf numbers and once as packed groups
  by a depth-first walk with parent pointers.
- `FrozenRows`, `FrozenExtents`, `FrozenFixture`: the older packed-metadata fixture, whose rows must
  not collide and must add up.
- `CacheScope`: the byte string that identifies a flat volume's cache.
- `PathNames`, `MkdirP`: path normalisation and `mkdir_p` over a metadata store.
- `TxnGuard`, `ImportWorkers`: the transaction guard, and the worker protocol it is made for.

Where a property does not hold of the code as it stands, the model keeps the code and states exactly
when it does hold:

- A success counted before an error can end the bypass that later errors start. The rule of the tenth
  success is exact for whole calls; under interleaving a recovery has ten successes behind it exactly
  when no error cleared them between its count and the end of the bypass.
- The error that closing renewals reports is never the error a retained mount reports, and three arms
  of the teardown are unreachable. A session that was acquired is dropped without being released
  exactly when the workspace record or its bucket fails before the mount block.
- A vectored put of chunks that are all empty is refused although its data is well formed.
- A copy of a file onto itself empties the file, also when the two strings are different spellings of
  one path.
- Append locks belong to path strings. All runs of appenders only append exactly when no two writers
  with data reach one file by different strings, and files only grow exactly when such writers have
  nothing but one and the same byte to write.
- A seek keeps the read buffer and a read in flight: reading on from the new position is right for
  every schedule exactly when the buffer is empty and no read was located elsewhere.
- The rows of the older fixture's large file stay inside one chunk exactly when blocks divide chunks
  or the file is empty; the argument checks do not ask for that.
- Container identifiers agree exactly when shard numbers and the low 32 bits of directory inodes do.
- A guard dropped before its worker has the lock leaves a rollback that can free a lock taken later.
  Every file is still imported and committed once and all locks end free. A section lacks its lock
  exactly when a rollback of its file ran since it began, and the rollbacks left over at the end are
  counted exactly.

## Model

| member | source | states |
|---|---|---|
| `DiskHealth.Breaker.IsBypassed` | src/chunk/cache_health.rs:60-68 | returns the bypass flag; sets the error counter to zero exactly when a readable clock is more than sixty seconds past a stamped error, and changes nothing else |
| `DiskHealth.Breaker.CanAttempt` | src/chunk/cache_health.rs:80-84 | the preflight answers exactly what an uninterrupted attempt with the same clock reading would |
| `DiskHealth.Breaker.TryOperation` | src/chunk/cache_health.rs:88-108 | a plain operation exactly outside bypass; a probe exactly in bypass with no probe out and both clock readings more than sixty seconds past the last error; the probe flag is set exactly when a probe is handed out, also when the recheck fails |
| `DiskHealth.Breaker.DropOperation` | src/chunk/cache_health.rs:22-28 | dropping a probe clears the flag, dropping anything else does nothing |
| `DiskHealth.Breaker.RecordError` | src/chunk/cache_health.rs:110-124 | stamps, clears successes, counts with wrap-around and trips at three |
| `DiskHealth.Breaker.RecordSuccess` | src/chunk/cache_health.rs:126-134 | counts, and ends a bypass with cleared counters at ten |
| `DiskHealth.CountersRefineHistory` | src/chunk/cache_health.rs:60-134 | for every sequence of whole calls the counters and flags equal definitions that count events in the history, with the error counter modulo 2^64 and the success count below ten while bypassed |
| `DiskHealth.RecoveryIsExact` | src/chunk/cache_health.rs:126-134 | a bypass ends at a call if and only if that call is the tenth success since the most recent error |
| `DiskHealth.BypassEntryIsExact` | src/chunk/cache_health.rs:110-124 | a bypass starts at a call if and only if that call is the third error since the last recovery and the last look more than sixty seconds after the error before it |
| `DiskHealth.ThreeErrorsTrip` | src/chunk/cache_health.rs:60-124 | in every history three errors end in bypass when no look between them comes more than sixty seconds after the last stamped error and no bypass ends between them |
| `DiskHealth.LateLookForgets` | src/chunk/cache_health.rs:60-68 | after every history a look more than sixty seconds past the last stamped error clears the error counter, and any other look changes nothing |
| `DiskHealthThreads.ProbeSlotIsExact` | src/chunk/cache_health.rs:16-108 | in every interleaving the probe flag is set exactly while one caller owns a reservation, never two do, and it is clear after every step that ends a reservation |
| `DiskHealthThreads.ProbesWaitOutTheWindow` | src/chunk/cache_health.rs:70-124 | in every interleaving a probe that any access of an attempt hands out after an error was recorded is handed out more than sixty seconds later, even if its caller passed the first check before |
| `DiskHealthThreads.UninterruptedCallsAgree` | src/chunk/cache_health.rs:60-134 | run alone, with a clock that can be read or not, the access sequences compute the whole calls of the class |
| `DiskHealthThreads.PreflightGoesStale` | src/chunk/cache_health.rs:88-108 | a run in which a caller holds its reservation in the second an error was recorded, so the second check is needed |
| `DiskHealthThreads.LateRecoveryUndoesTrip` | src/chunk/cache_health.rs:110-134 | a run whose last step starts a bypass, at the third of three whole error calls, and in which a success counted before all of them ends it |
| `DiskHealthThreads.RecoveryBegins` | src/chunk/cache_health.rs:126-134 | in every run each step that ends a bypass belongs to a call that counted its success at an earlier step |
| `DiskHealthThreads.RecoveryIsEarned` | src/chunk/cache_health.rs:110-134 | in every interleaving a recovery has ten successes behind it that no error came after, if and only if no error cleared the successes between its count and the end of the bypass |
| `PackedMount.PrepareMount` | src/cli.rs:1994-2098 | how far the block gets before mounting, what it leaves behind, its reply, and that the attachment is marked exactly when a packed mount is attempted |
| `PackedMount.Serve` | src/cli.rs:2099-2152 | the reply of a plain and of a packed mount, and that the kernel cutoff is recorded exactly when mount, capture, unmount or session end, and worker join of a packed mount all succeed |
| `PackedMount.MountBlock` | src/cli.rs:1994-2152 | the reply of the block, what teardown may rely on however it ended, and which of metadata, VFS, attempt and cutoff it reached |
| `PackedMount.CloseAndDrain` | src/cli.rs:2169-2196 | renewals are closed before the drain, and a drain is never taken without that |
| `PackedMount.ShutMetadata` | src/cli.rs:2197-2230 | an attempted mount ends with a proof of its own reference, drain and cutoff, one that was not attempted with the shutdown of its runtime; the arms for missing authority and plain session shutdown are unreachable |
| `PackedMount.DrainAndRelease` | src/cli.rs:2177-2279 | exactly one of retaining and releasing, the reported error, and the only release that can end the run |
| `PackedMount.TearDown` | src/cli.rs:2153-2279 | retains exactly when the cutoff of an attempted mount or a cleanup step is missing; no unreachable arm is taken |
| `PackedMount.MountWorkspace` | src/cli.rs:1900-2279 | the run succeeds if and only if every call it makes does; its reply is that of the call list; for every world the trace follows the lease protocol, and when the lease is given back, kept, dropped or never taken is decided by an if-and-only-if |
| `PackedMount.FirstFailureIsReported` | src/cli.rs:1900-2279 | the failure a run reports, stopped or retained, is that of a call that failed, and no call before it in order failed; a run without a failing call succeeds |
| `PackedMount.MountOnTikv` | src/cli.rs:1861-1892 | the metadata backend is shut down exactly when the runtime was not retained, and never under a lease in use; its failure is reported exactly when nothing failed before |
| `PackedMount.LeaseEndsOnce` | src/cli.rs:1988-2279 | a trace that follows the protocol ends the lease at most once, so it never both releases and retains |
| `PackedMount.AttemptedReleaseIsProven` | src/cli.rs:2177-2279 | the release of an attempted packed mount is a clean one whose proof came after its drain and its cutoff, with renewals closed before the drain and workers joined before the cutoff |
| `CreateOnlyPut.RunsRefineRegister` | src/cadapter/localfs.rs:179-214 | every step of every interleaving leaves all registers as they are or fills one empty register with the complete data of the moving put, by a link that put knows to be its own |
| `CreateOnlyPut.ObjectsNeverChange` | src/cadapter/localfs.rs:179-214 | an object that exists at some point of a run has the same bytes at every later point |
| `CreateOnlyPut.ResultTellsStoredBytes` | src/cadapter/localfs.rs:179-214 | a put that ended reports an I/O error if and only if one of the calls it needs failed; otherwise it reports Ok if and only if its data is what the object holds from then on, and a conflict if it holds other bytes |
| `CreateOnlyPut.PutsAreAnswered` | src/cadapter/localfs.rs:165-214 | in every interleaving a put that is not cancelled has its answer after at most six of its own calls more than the bytes it writes and compares; when no call it needs failed the object decides between Ok and conflict |
| `CreateOnlyPut.LinkedPutsAreStored` | src/cadapter/localfs.rs:196-204 | a put that linked its own file reports Ok at its next call, whatever that call answers and whoever else moves, unless it is cancelled first |
| `CreateOnlyPut.FailuresAreEarned` | src/cadapter/localfs.rs:165-214 | at every point of a run a put is on its way to an I/O error if and only if a create, write, link, open or read of its own failed before |
| `CreateOnlyPut.TemporaryNamesGo` | src/cadapter/localfs.rs:179-204 | at every point of every run a put that was not cancelled has a temporary name if and only if it still works on the file behind it or the call to remove it failed |
| `CreateOnlyPut.ObjectsAreComplete` | src/cadapter/localfs.rs:179-214 | whatever an object holds is what it held at the start or the whole data of some put to its key |
| `LocalFsIo.AdvanceDropsBytes` | src/cadapter/localfs.rs:119-136 | advancing the slices drops exactly the written bytes and leaves no list of only empty slices |
| `LocalFsIo.ChunkInConcat` | src/cadapter/localfs.rs:84-164 | in the concatenation each chunk lies behind the sizes of those before it, and the sizes add up |
| `LocalFsIo.PutVectored` | src/cadapter/localfs.rs:84-164 | for every schedule the file is a prefix of the concatenated chunks, all of it on Ok; a device that makes progress gives Ok unless all chunks are empty |
| `LocalFsIo.ReadAt` | src/cadapter/localfs.rs:264-281 | one positioned read fills exactly the bytes it reports and touches no other |
| `LocalFsIo.ReadLoop` | src/cadapter/localfs.rs:264-281 | for every schedule of short reads the loop ends with exactly the requested slice, clipped at the end of the file |
| `LocalFsIo.GetRange` | src/cadapter/localfs.rs:233-281 | on Ok the bytes are the object's from the offset on, as many as the buffer and the object allow; empty buffers, missing objects and failures |
| `LocalFsIo.GetRangeOnce` | src/cadapter/localfs.rs:241-262 | the single-read variant returns the whole slice exactly when its one read was not short |
| `LocalFsIo.PutThenGet` | src/cadapter/localfs.rs:84-281 | a range read back from a vectored put is that range of the chunks, for all pairs of schedules |
| `SdkPollRead.File.PollRead` | src/sdk_fs.rs:1226-1288 | carried-over bytes are handed out whatever the read in flight does; pending, failed and denied answers come exactly in the cases of the source; a pending read keeps its request; and from a steady handle the bytes are conserved |
| `SdkPollRead.PollConservesBytes` | src/sdk_fs.rs:1226-1288 | each poll keeps delivered bytes plus buffer equal to the file between the start and the current offset |
| `SdkPollRead.PollsDeliverTheFile` | src/sdk_fs.rs:1226-1288 | over any sequence of polls, buffer sizes, pending answers and short reads nothing is lost or delivered twice |
| `SdkPollRead.WillingPollsDeliverAll` | src/sdk_fs.rs:1226-1288 | polls with room whose reads finish deliver the carried-over bytes and the whole rest of the file, in order, after at most as many polls as there are bytes |
| `SdkPollRead.EmptyReadIsTheEnd` | src/sdk_fs.rs:1226-1288 | when a poll with room ends a read that makes progress and delivers nothing, everything from the start offset was delivered |
| `SdkPollRead.SeekIsExact` | src/sdk_fs.rs:1376-1432 | after a seek all sequences of polls deliver the file from the new position if and only if the read buffer was empty and no read in flight had been located at another offset |
| `SdkPollRead.LeftoversHappen` | src/sdk_fs.rs:1244-1283 | polls that leave a non-empty buffer, and polls that leave a located read in flight |
| `SdkAppend.OneLivingLockPerPath` | src/sdk_fs.rs:1009-1032 | in every run two owners of locks for one path own the same lock, the registry still hands out that one, so cleanup never dropped it, and at most one writer of a path is inside |
| `SdkAppend.PiecesAreInOrder` | src/sdk_fs.rs:1168-1180 | in every run each writer's pieces are its data from the front, in order, and all of it once it ended well |
| `SdkAppend.WritersAreAnswered` | src/sdk_fs.rs:1131-1180 | in every run a writer has ended after at most six effective moves per byte and one more; it fails if and only if it was cancelled, a call of its own failed or a write wrote nothing, and otherwise all its data was written |
| `SdkAppend.WritersNeverStick` | src/sdk_fs.rs:1131-1180 | while a writer has not ended some writer can move |
| `SdkAppend.RegistryIsSwept` | src/sdk_fs.rs:1009-1032 | a lookup hands out the living lock of the path or adds a new one; with more than 4096 entries exactly the living ones are then kept, otherwise all |
| `SdkAppend.AppendersOnlyAppend` | src/sdk_fs.rs:1142-1180 | without two strings for one file every run keeps each file its initial contents followed by the logged pieces, and no size that was read is stale |
| `SdkAppend.AppendingIsExact` | src/sdk_fs.rs:1009-1180 | all runs from a start only append if and only if no two writers with data reach one file by different strings |
| `SdkAppend.AliasesLoseBytes` | src/sdk_fs.rs:1142-1157 | from every start with two such writers some run writes two bytes where the file grows by one |
| `SdkAppend.TwoSpellingsLoseBytes` | src/sdk_fs.rs:1009-1032 | such a run for writers of `/a` and `//a` |
| `SdkAppend.FilesOnlyGrow` | src/sdk_fs.rs:1142-1157 | what a file holds at some point of a run is a prefix of what it holds later, while writers that reach it by different strings write one and the same byte |
| `SdkAppend.GrowingIsExact` | src/sdk_fs.rs:1009-1180 | files only grow in all runs from a start if and only if that condition on the writers holds |
| `SdkCopy.File.Read` | src/sdk_fs.rs:1095-1115 | the bytes read are the file's from the old to the new offset, and nothing is read exactly at or behind the end |
| `SdkCopy.File.Write` | src/sdk_fs.rs:1131-1166 | writes a prefix of the data at the offset or, in append mode, at the end, and moves the offset behind it |
| `SdkCopy.File.WriteAll` | src/sdk_fs.rs:1168-1180 | on Ok all data is written in one contiguous place; on error a prefix of it is |
| `SdkCopy.Open` | src/sdk_fs.rs:899-982 | exactly which option combinations are invalid input, which error each other refusal gives, what is created or truncated, and where the handle starts |
| `SdkCopy.Copy` | src/sdk_fs.rs:319-342 | terminates; on Ok between different files the destination equals the source and the count is its length, and a copy of a file onto itself, whatever the two strings, empties it with count zero; nothing else changes, and a failed copy leaves a prefix of the source |
| `SdkCopy.SpellingsMeet` | src/fs.rs:624-634 | a path string with one more leading slash is a different string for the same file |
| `SdkCopy.CopyOverItself` | src/sdk_fs.rs:319-342 | copying `/a` to `//a` returns Ok(0) and leaves the file empty |
| `SdkCopy.SpliceComposes` | src/sdk_fs.rs:1168-1180 | consecutive positioned writes equal one write of the concatenation |
| `SdkCopy.SpliceBytes` | src/sdk_fs.rs:1131-1166 | a positioned write byte for byte: the data where it was written, the old bytes elsewhere, zeros in a gap |
| `P90Policy.SamplesAreSorted` | src/bin/packed_v3_snapshot_fixture.rs:239-289 | a well-formed histogram expands to a sorted list of samples |
| `P90Policy.RankIsPercentile` | src/bin/packed_v3_snapshot_fixture.rs:239-289 | the sample at the nearest rank is the 90th percentile by counting |
| `P90Policy.Scan` | src/bin/packed_v3_snapshot_fixture.rs:249-280 | the cumulative scan finds the sample at the rank in the sorted expansion, or reports what is wrong with the first entry that is not fine |
| `P90Policy.DefectIsExact` | src/bin/packed_v3_snapshot_fixture.rs:249-280 | an entry has no defect if and only if the histogram is fine up to and including it |
| `P90Policy.ReadPolicy` | src/bin/packed_v3_snapshot_fixture.rs:239-289 | accepted if and only if the value is the nearest-rank 90th percentile of the expanded samples and the counts agree; a refusal carries the error of the first check that fails |
| `FixtureTree.PaddedIsInjective` | src/bin/packed_v3_snapshot_fixture.rs:335-344 | zero-padded numbers of any width, also wider than the padding, are never confused |
| `FixtureTree.PaddedSpells` | src/bin/packed_v3_snapshot_fixture.rs:335-344 | a number that fits the width is written with exactly that many digits, which spell it |
| `FixtureTree.RenderIsInjective` | src/bin/packed_v3_snapshot_fixture.rs:335-366 | different components have different names |
| `FixtureTree.RenderSpells` | src/bin/packed_v3_snapshot_fixture.rs:335-366 | a directory name is `d` and three digits, a file name `f` and six, as long as the number fits |
| `FixtureTree.ComputeLeafPath` | src/bin/packed_v3_snapshot_fixture.rs:335-344 | the digit loop and the reversal give the path with the highest digit first |
| `FixtureTree.HighestDigitFirst` | src/bin/packed_v3_snapshot_fixture.rs:335-344 | a leaf number's path splits off its highest base-N digit as well as its lowest |
| `FixtureTree.LeavesByNumber` | src/bin/packed_v3_snapshot_fixture.rs:335-368 | the k-th leaf in depth-first order has the path of leaf number k, and there are fanout to the levels of them |
| `FixtureWalk.BuildTree` | src/bin/packed_v3_snapshot_fixture.rs:346-368 | the recursive method appends exactly the depth-first list and numbers inodes along it |
| `FixtureWalk.TreeIsRooted` | src/bin/packed_v3_snapshot_fixture.rs:346-368 | inodes count up along the list and every parent comes before its children |
| `FixtureWalk.TreePaths` | src/bin/packed_v3_snapshot_fixture.rs:346-368 | parent pointers spell the depth-first paths |
| `FixtureWalk.ChildlessIsFullDepth` | src/bin/packed_v3_snapshot_fixture.rs:798-801 | a directory of the list has no child if and only if its path has full depth |
| `FixtureWalk.WalkVisitsLeaves` | src/bin/packed_v3_snapshot_fixture.rs:713-801 | the next childless directory after m of them is leaf number m |
| `FixtureCorpus.BuildRaw` | src/bin/packed_v3_snapshot_fixture.rs:380-414 | refuses exactly a file count beyond 64 bits, otherwise lists every file number in order, each in the leaf and at the place its quotient and remainder give, with the size and pattern of that number, and the saturated byte count |
| `FixtureCorpus.LeafComesNext` | src/bin/packed_v3_snapshot_fixture.rs:397-414 | the files of a leaf follow those of the leaves before it in the numbering of all files |
| `FixtureCorpus.PathsAreDistinct` | src/bin/packed_v3_snapshot_fixture.rs:397-414 | two file numbers of the corpus have the same path only if they are equal, so the list is a map |
| `FixtureCorpus.KeysAreDistinct` | src/bin/packed_v3_snapshot_fixture.rs:370-410 | two file numbers of the corpus have the same object key only if they are equal, for every prefix and also without directory levels |
| `FixtureCorpus.KeyComponents` | src/bin/packed_v3_snapshot_fixture.rs:370-410 | the components of an object key are those of the prefix followed by the names of the path |
| `FixturePacked.ShardLeaf` | src/bin/packed_v3_snapshot_fixture.rs:798-879 | for any inline-flush rule every file of a leaf lands in exactly one group in order, groups are numbered from zero, never empty, at most 256 files and less than 12 MiB, and a group is closed exactly when it is full by size, by count or by the rule |
| `FixturePacked.ShardsHoldFiles` | src/bin/packed_v3_snapshot_fixture.rs:809-879 | how a directory is split over groups does not change the files it holds |
| `FixturePacked.ListChildren` | src/bin/packed_v3_snapshot_fixture.rs:713-740 | collects exactly the directories whose parent is this one, in list order |
| `FixturePacked.PackDirectory` | src/bin/packed_v3_snapshot_fixture.rs:713-879 | a childless directory is sharded, any other has one group of its subdirectories |
| `FixturePacked.BuildPacked` | src/bin/packed_v3_snapshot_fixture.rs:713-879 | read through parent pointers the groups hold exactly the same list of files as the raw producer, both counters agree, groups are strictly ordered by directory and shard, each inner directory has one group of all its children, groups of leaves keep the bounds and the flush rule, file g has the g-th inode after the directories, and identifiers are distinct while inodes and shards fit 32 bits |
| `FixturePacked.GroupIdsAgree` | src/bin/packed_v3_snapshot_fixture.rs:820-864 | two group identifiers are equal if and only if shards agree and inodes agree in their low 32 bits |
| `FixtureContent.FileSize` | src/bin/packed_v3_snapshot_fixture.rs:129-135 | a size inside the range, or the lower bound when the range is empty |
| `FixtureContent.EverySizeOccurs` | src/bin/packed_v3_snapshot_fixture.rs:129-135 | every size of a range is the size of some file number, which is computed |
| `FixtureContent.SizeRange` | src/bin/packed_v3_snapshot_fixture.rs:137-144 | a range is accepted if and only if its bounds, with missing ones taken from the single size, are positive, ordered and at most 4 MiB, and is then those bounds |
| `FixtureContent.AcceptedRangeIsSmall` | src/bin/packed_v3_snapshot_fixture.rs:129-144 | an accepted range gives files the sharding bounds hold for |
| `FixtureContent.FillPattern` | src/bin/packed_v3_snapshot_fixture.rs:120-127 | the buffer filled in place holds the file's pattern, all bytes |
| `FixtureContent.RotatedIsRotation` | src/bin/packed_v3_snapshot_fixture.rs:124-124 | the position byte is the low byte of the 64-bit position rotated left by seven |
| `FixtureContent.XorBits` | src/bin/packed_v3_snapshot_fixture.rs:124-124 | each bit of the mixed byte is set if and only if the two bits differ |
| `FixtureContent.ContentsIdentifyFile` | src/bin/packed_v3_snapshot_fixture.rs:120-127 | two files of one size have equal contents if and only if their seeds agree in the low min(size, 8) bytes |
| `FixtureContent.LongContentsIdentifyFile` | src/bin/packed_v3_snapshot_fixture.rs:120-127 | from eight bytes on, two 64-bit file numbers have equal contents if and only if they are equal |
| `FrozenRows.ChildKeeps` | src/bin/packed_snapshot_fixture.rs:128-157 | a new inode with its entry keeps one tree, single entries for directories, and link counts that equal entries |
| `FrozenRows.HardlinkKeeps` | src/bin/packed_snapshot_fixture.rs:323-330 | the second entry of the first small file settles its link count of two |
| `FrozenRows.OneWayUp` | src/bin/packed_snapshot_fixture.rs:113-161 | every directory below the root is named exactly once, in a parent with a smaller inode |
| `FrozenRows.EntriesRenderApart` | src/bin/packed_snapshot_fixture.rs:137-147 | two entries of one directory have the same rendered name only if they are the same entry |
| `FrozenRows.RenderSpells` | src/bin/packed_snapshot_fixture.rs:137-287 | a directory name is `d` and three digits, a file name `f` and five, as long as the number fits |
| `FrozenRows.TotalsGrow` | src/bin/packed_snapshot_fixture.rs:278-314 | a new row changes exactly its own total of directories, files or bytes |
| `FrozenExtents.SlicesAreDistinct` | src/bin/packed_snapshot_fixture.rs:272-422 | no two data rows share a slice |
| `FrozenExtents.Upload` | src/bin/packed_snapshot_fixture.rs:469-491 | the two loops upload small files by number and then blocks by number |
| `FrozenExtents.UploadsAreSlices` | src/bin/packed_snapshot_fixture.rs:469-491 | exactly the slices that rows refer to are uploaded, each once |
| `FrozenExtents.BlocksTile` | src/bin/packed_snapshot_fixture.rs:406-422 | every byte of the large file is covered by exactly one row |
| `FrozenExtents.SmallTiles` | src/bin/packed_snapshot_fixture.rs:302-311 | every byte of a small file is covered by exactly its one row |
| `FrozenExtents.RowsStayInChunks` | src/bin/packed_snapshot_fixture.rs:406-422 | the rows of a non-empty large file of whole chunks all stay inside one chunk if and only if blocks divide chunks |
| `FrozenFixture.Snapshot.AddChild` | src/bin/packed_snapshot_fixture.rs:106-147 | neither of the two rows of a new child collides, and the tree and its totals grow by that child |
| `FrozenFixture.Snapshot.BuildDirectoryTree` | src/bin/packed_snapshot_fixture.rs:113-161 | the tree grows only below its directory, by as many directories as its levels and fanout give; leaves are empty, in order, and fanout to the remaining levels many |
| `FrozenFixture.Snapshot.AddSmallFiles` | src/bin/packed_snapshot_fixture.rs:282-322 | all small files with their entries and extents, the first with its second link still owed, entries only in leaf directories |
| `FrozenFixture.Snapshot.AddShapes` | src/bin/packed_snapshot_fixture.rs:323-392 | hard link, symbolic link and special files without collision, all link counts settled |
| `FrozenFixture.Snapshot.AddBlocks` | src/bin/packed_snapshot_fixture.rs:406-422 | one data row per block of the large file, none colliding |
| `FrozenFixture.BuildFixture` | src/bin/packed_snapshot_fixture.rs:184-454 | accepts exactly the arguments that pass the checks; then no row collides, the rows form one tree, link counts equal entries, the numbers of leaves, directories and files are those of the flat or hierarchical shape, the counters equal the row totals, and the extents are those of the layout with slices counted on from the base |
| `FrozenFixture.CheckArgs` | src/bin/packed_snapshot_fixture.rs:184-213 | the checks in order accept exactly the arguments of the specification, and which arguments each refusal stands for |
| `FrozenFixture.AcceptedRowsStayInChunks` | src/bin/packed_snapshot_fixture.rs:184-190 | with accepted arguments the rows of the large file all stay inside one chunk if and only if it is empty or blocks divide chunks |
| `FrozenFixture.CrossingExample` | src/bin/packed_snapshot_fixture.rs:184-190 | accepted arguments for which a row crosses a chunk boundary |
| `CacheScope.FramingIsInjective` | src/config.rs:1649-1653 | the length-framed bytes determine the list of parts |
| `CacheScope.SortForgetsOrder` | src/config.rs:1593-1620 | sorted endpoint lists are equal if and only if the multisets are |
| `CacheScope.DataPartsFromTheEnd` | src/config.rs:1622-1647 | the data parts can be told from the end of the list, whatever the metadata parts are |
| `CacheScope.MetaPartsAgree` | src/config.rs:1576-1620 | the metadata parts of two mounts are equal if and only if the kinds are, and the scrubbed URLs or fresh UUIDs, the number of endpoints of each scrubbed form, and the namespaces |
| `CacheScope.ScopeIsIdentity` | src/config.rs:1573-1655 | the hashed bytes of two mounts are equal if and only if, field by field, they use the same metadata and the same data store, a missing bucket or region being an empty one and a missing endpoint a fresh name |
| `CacheScope.MemoryIsNeverShared` | src/config.rs:1577-1586 | two in-memory databases with different UUIDs never share a scope |
| `CacheScope.Scope` | src/config.rs:1573-1655 | fails exactly where the data directory has no absolute form, otherwise feeds the hasher exactly the framed parts |
| `PathNames.NormalizeKeepsComponents` | src/fs.rs:624-634 | normalising keeps the components and is idempotent |
| `PathNames.NormalFormIsCanonical` | src/fs.rs:624-634 | two paths normalise alike if and only if they have the same components |
| `PathNames.ComponentsAround` | src/fs.rs:624-634 | the components of two strings with a slash between them are those of the first followed by those of the second |
| `PathNames.SplitDirFileIsParent` | src/fs.rs:637-644 | a normalised path splits into the normalised path of its parent and its last component |
| `MkdirP.FileSystem.LookupPath` | src/meta/stores/database/mod.rs:1789-1831 | finds exactly what following the entries from the root finds, with its kind |
| `MkdirP.FileSystem.Enter` | src/fs.rs:1606-1619 | an existing component is entered exactly when it is a directory that may be searched and no call fails |
| `MkdirP.FileSystem.Create` | src/fs.rs:1620-1641 | a missing component is created with its owner and group, or the store is left as it was except for a directory whose owner call failed; it fails in the backend exactly when one of the three calls does |
| `MkdirP.FileSystem.MakePath` | src/fs.rs:1561-1643 | on Ok the whole path is directories, the result is its last inode, exactly the missing suffix was created, below parents that the permissions in force let the caller write and search, and owned, and nothing else changed; on error the created directories are a chain along the path and the error names its cause |
| `MkdirP.OnlyFilesBlock` | src/fs.rs:1561-1643 | without failing calls and permission checks the call succeeds if and only if the deepest existing component is a directory |
| `MkdirP.AccessIsChecked` | src/fs.rs:644-719 | under enforcement every created directory, on success and on failure, lies below a parent that may be written and searched; a success that created something could search every component; a refusal names a denied check; owner and group of the created directories |
| `MkdirP.ChainOnlyAdds` | src/fs.rs:1620-1641 | the created chain keeps every entry and adds exactly its own |
| `MkdirP.StartIsUnique` | src/fs.rs:1584-1604 | how much of a path exists is well defined |
| `TxnGuard.Guard.Perform` | src/tikv_transaction.rs:56-163 | commit and rollback settle the guard exactly when they succeed, a settled guard panics on use, cancellation leaves it armed |
| `TxnGuard.Guard.Drop` | src/tikv_transaction.rs:98-121 | an unsettled guard hands its transaction to the rollback action exactly once, and it is scheduled exactly when there is a runtime |
| `TxnGuard.Lifetime` | src/tikv_transaction.rs:43-163 | over every sequence of operations, cut off anywhere, the first operation that does not err decides: if it settles the transaction that is what happened to it and nothing is scheduled, otherwise the rollback runs exactly once, from the drop, if there is a runtime |
| `ImportWorkers.EveryFileImportedOnce` | src/tikv_transaction.rs:186-309 | in every run, whatever was cancelled and whenever rollbacks ran, once all workers have ended no lock is left and every file was imported and committed exactly once |
| `ImportWorkers.StepKeepsInv` | src/tikv_transaction.rs:186-309 | every step keeps: only a worker at a file can have left it locked, a lock its worker waits for has a rollback due or lost, and a file is imported exactly when its worker got that far |
| `ImportWorkers.RollbacksAreConserved` | src/tikv_transaction.rs:98-121 | at every point of every run the due, wasted and lost rollbacks of a file and its commits without lock balance its early drops, a lock left behind and a section without its lock |
| `ImportWorkers.LeftoversAreEarlyDrops` | src/tikv_transaction.rs:98-309 | after the last worker the rollbacks of a file still due are its early drops without the wasted and lost rollbacks and the commit that found its lock gone; without an early drop nothing is due or lost |
| `ImportWorkers.RollbacksMatchDrops` | src/tikv_transaction.rs:98-121 | at every point of every run the rollbacks of a file that ran or are due are as many as its dropped guards |
| `ImportWorkers.LockIsLostToRollbacks` | src/tikv_transaction.rs:186-206 | in every run a worker in its section lacks its lock if and only if a rollback of the file ran since it acquired the lock |
| `ImportWorkers.SectionStarts` | src/tikv_transaction.rs:186-194 | every section of every run began with acquiring the lock |
| `ImportWorkers.SectionsAreLocked` | src/tikv_transaction.rs:186-309 | in every run without an early drop of a file, it is locked exactly while its worker is in its section or a rollback is due or lost, never both |
| `ImportWorkers.NeverStuck` | src/tikv_transaction.rs:281-309 | while every rollback could be scheduled, a worker that has not ended leaves some step enabled |
| `ImportWorkers.LostIsForGood` | src/tikv_transaction.rs:98-121 | a file whose rollback could not be scheduled stays locked and unimported as long as no guard of it is dropped early |
| `ImportWorkers.EarlyDropFreesALock` | src/tikv_transaction.rs:186-206 | a run in which a guard dropped while waiting frees the lock that its worker took since |

## Left out

- Metadata stores, VFS, packed wire format, S3 and FUSE: they appear only as calls with arbitrary outcomes.
- The rest of the command line, tracing, resource limits, gateway and benchmark code: plumbing.
- Weak memory: shared fields are sequentially consistent; the clock never runs backwards, and reading it and storing the error time is one step.
- Hashing, UUIDs, codecs, URL scrubbing and path absolutisation: functions from outside; absolute paths are taken to start with a slash.
- `advance_slices` and `sort_unstable` are library calls and modelled as functions on values.
- SdkAppend.AppendingIsExact: takes the lookup and the insert of the lock registry as one step and a failing write as one that writes nothing.
- SdkPollRead.PollsDeliverTheFile: no seek between the polls; SdkPollRead.SeekIsExact treats one seek, completed between two polls.
- SdkCopy.Copy: which strings name one file does not change during the copy, and nobody else writes.
- PackedMount.MountWorkspace: the preflight checks before the session is acquired are one outcome.
- CreateOnlyPut.RunsRefineRegister: no deletes or plain puts run beside the create-only puts, and private file names are unique.
- FixturePacked.BuildPacked: the cold-attribute and hard-link corpora are off, and inode and file counters are unbounded.
- FixtureCorpus.BuildRaw: the bound on concurrent uploads is not modelled.
- FrozenFixture.BuildFixture: inode and slice numbers are unbounded, so its overflow errors do not occur; the symbolic link's target enters only by its length.
- MkdirP.FileSystem.MakePath: nobody else changes the store during the call, and a store gives every entry's inode its attributes, so the arms for a missing inode do not occur.
- TxnGuard.Lifetime: a commit that was applied although its reply was an error or was cancelled counts as not settled, as in the code.
- ImportWorkers.EveryFileImportedOnce: cancellation between the import and the commit is not part of the protocol, and the budget of injected failures is unbounded.
- File locks, extended attributes, the writeback cache and the object-store gateway: not modelled.
