# OOS-Lite: a verified model of its storage core

OOS-Lite is a content-addressed, versioned file store. A put cuts a file into chunks, appends the new
ones to segment files, fsyncs one write-ahead-log record, updates three metadata tables in separate
transactions and checkpoints the log. Opening a store replays the log. Garbage collection marks what
objects and snapshots reference, rewrites the segments and swaps them in. This project models those
protocols on an explicit disk and proves what they promise over every run, every crash point and every
interleaving of threads.

Fault model: the process dies, or power fails, between two durable actions; renames and unlinks persist
in program order; an append may leave any byte prefix; bytes not yet synced may be lost. Creating a
segment with its 32-byte header is one action. CRC, hash, compression and encryption are functions with
the laws stated where they are used (`WalFormat.Lawful`, `SegmentFormat.Sane`, `Chunking.Lawful`); clocks,
random nonces and generated ids are parameters.

`dafny verify dfyconfig.toml` checks everything. The files, from the bottom up:

| file | what it holds |
|---|---|
| Basics | bytes, optional values |
| WalFormat, Wal | manifest and log-record bytes; the log file as an object |
| SegmentFormat, SegmentScan, SegmentStore | segment-record bytes; start-up's scan; the segment store as an object, with syncing, lost bytes, reopening and compaction |
| Compaction, StoreRecovery | the two-phase segment swap and its rollback, crashing anywhere; start-up as a whole, from the directory to an open store |
| Catalog, Versions | the metadata tables, log replay over them, version numbering and name bindings |
| Metadata | the metadata store as an object: transactions, replay loop, mark and sweep |
| Engine | the sequential engine as a machine of durable steps |
| EngineSafety, EngineAtomicity, EngineTheorems | what all its runs keep, and the all-or-nothing theorems |
| EngineHazard | runs in which a torn checkpoint breaks them |
| IdealStore | the store as its user sees it, and that the engine is it over every run |
| EngineStore, EngineLog | the segment store and the log file realise the engine's steps on chunks and log |
| Locks, LockSafety, LockTheorems | threads under `put_lock`, `gc_lock` and `op_lock`, and the refinement to the sequential engine |
| Migration | the sled-to-redb migration as a crash-resumable object |
| Chunking, ChunkCache, FileRead | streaming against slice chunking; ranged reads through the LRU cache, and of the engine's files |
| PrefixMove, Watcher | subtree moves of names; the watcher's event queue |
| HttpDate | the calendar arithmetic of HTTP dates |

## Where the code does less than it promises

Four properties turned out false of the code as it is. Each has a concrete failing input and the exact
condition under which the property holds.

- **A checkpointed log record can come back.** `checkpoint` rewrites checkpoint.meta and then truncates
  wal.log (core/src/wal/mod.rs:186-206). A crash in between leaves a record that opening neither replays
  nor removes (core/src/engine.rs:423-492). If a later put crashes while checkpoint.meta is truncated, it
  reads as LSN 0 and the old record is replayed over newer metadata. `EngineHazard` gives runs in which a
  deleted file returns, a renamed file is bound twice, a pruned version returns with its number below
  latest_version, and a store can no longer be opened. `EngineTheorems.TornCheckpointIsExact` states when
  that crash is harmless: the store opens if and only if the chunks of every record left in the log are
  there, and it opens with the committed tables if and only if, besides, every such record is still in
  force (`Catalog.InForce`). `EngineTheorems.OpensIff` gives the condition for opening in any state at all.
  Runs of puts alone always meet it (`EngineTheorems.PutRunsMeetNoHazard`). The other engine theorems take
  the absence of such a crash, the history variable `hazard`, as their premise, and
  `EngineTheorems.HazardIsExact` shows that premise to exclude nothing else; `EngineSafety` needs none.
- **A subtree move can lose a binding.** Names `a` and `a/` are both sent to the bare target
  (core/src/engine.rs:1214-1232). `PrefixMove.NameIndex.UpdateWatchedPrefix` is the simultaneous
  substitution if and only if there are no such twins.
- **Deferred writes can be remapped twice.** When a moved path lies below its own source, the remapping
  loop may meet a write it has just remapped, depending on hash order
  (core/src/watcher/service.rs:728-755). `Watcher.ChainExample` is such a case and
  `Watcher.RemapIsOrderFreeIff` the exact condition.
- **A stored chunk can be unreadable.** The reader refuses payloads above 256 MiB
  (core/src/segment/reader.rs:102-221) that the writer accepts; `SegmentFormat.ReadBack` and
  `SegmentStore.Store.GetChunk` state the exact limit, far above the engine's chunk size.

## Model

| member | source | states |
|---|---|---|
| `HttpDate.YearOfEraBrackets` | cli/src/mount/webdav.rs:496-506 | for every day of a 400-year era, its last leap day included, the closed-form year is the one that has begun and not ended |
| `HttpDate.YearOfEraUnique` | cli/src/mount/webdav.rs:496-506 | no other year brackets the day, so the closed form is the only possible answer |
| `HttpDate.DateInEraSteps` | cli/src/mount/webdav.rs:496-506 | inside an era the next day number gives the calendar's next day, over month ends, leap days and century years |
| `HttpDate.CivilDateSteps` | cli/src/mount/webdav.rs:489-516 | for every day number the closed-form date of the next day is the Gregorian successor of today's |
| `HttpDate.CivilDateIsStepped` | cli/src/mount/webdav.rs:489-516 | the closed-form year, month and day equal those reached by stepping a Gregorian calendar day by day from 1 January 1970 |
| `HttpDate.WeekdayIsStepped` | cli/src/mount/webdav.rs:489-516 | the closed-form weekday equals the one reached by stepping from Thursday |
| `HttpDate.FormatHttpDate` | cli/src/mount/webdav.rs:489-516 | the header text spells the weekday and date reached by stepping the calendar, and the time of day |
| `HttpDate.FormatHasImfFixdateLength` | cli/src/mount/webdav.rs:489-516 | the text is the 29-character IMF-fixdate of section 5.6.7 of RFC 9110 exactly for timestamps before the year 10000 |
| `HttpDate.FormatReadsBack` | cli/src/mount/webdav.rs:489-516 | before the year 10000 the text has the layout of section 5.6.7 of RFC 9110, and read back by position with an independent reader it gives the stepped weekday, day, month and year and the hour, minute and second of the timestamp |
| `Catalog.ReplayByTable` | core/src/engine.rs:431-486 | replaying a log is, table by table, a left-biased union of what its records write: the records interact only through repeated keys |
| `Catalog.ReplayConcat` | core/src/engine.rs:431-486 | replaying a log in two parts equals replaying it whole |
| `Catalog.StageAbsorbed` | core/src/engine.rs:460-483 | executing one metadata transaction of a record early does not change what replaying the whole log gives |
| `Catalog.ReplayIsIdempotent` | core/src/engine.rs:431-486 | replay from any intermediate state an interrupted replay of the same log reached (any record, any of its three transactions) ends where one uninterrupted replay ends |
| `Catalog.InForceIffUnchanged` | core/src/engine.rs:431-486 | replaying a log leaves the tables alone if and only if every record is still in force: listed, and its name binding and manifest as its last writer left them |
| `Catalog.ApplyKeepsInForce` | core/src/engine.rs:668-694 | a further put keeps the log, extended by its own record, in force |
| `Versions.RecordForIsNew` | core/src/engine.rs:620-643 | a put's version number is one above the object's latest and was never used by that object, or the object is new |
| `Versions.PutKeepsWellFormed` | core/src/engine.rs:620-694 | a put keeps versions strictly increasing and bounded by latest_version, numbers unreused, bindings injective and every bound name with a record |
| `Versions.RollbackKeepsWellFormed` | core/src/engine.rs:1324-1412 | a rollback keeps the same invariant, with a history that gives the new number the bytes the old number was put with |
| `Versions.RollbackRepeats` | core/src/engine.rs:1349-1390 | a rollback appends exactly the version asked for: its manifest and size, under one above the latest number, and those are the bytes that number was put with |
| `Versions.RollbackRefused` | core/src/engine.rs:1342-1366 | a version that is not listed, or whose manifest is missing, changes nothing |
| `Versions.PruneKeepsWellFormed` | core/src/engine.rs:1271-1308 | pruning, even to zero versions, keeps the invariant: latest_version still bounds every number ever given out |
| `Versions.RenameKeepsWellFormed` | core/src/index/mod.rs:169-188 | renaming, also over a bound name, keeps bindings injective and resolvable |
| `Versions.UnbindKeepsWellFormed` | core/src/index/mod.rs:157-167 | unbinding a name keeps the invariant; its object survives |
| `Versions.DeleteKeepsWellFormed` | core/src/index/mod.rs:190-213 | deleting a name and its object keeps every other bound name resolvable |
| `EngineSafety.WritingStepSound` | core/src/engine.rs:571-616 | appending a chunk that is not indexed yet, or syncing, keeps every listed version and snapshot backed by durable chunks |
| `EngineSafety.CommitStepSound` | core/src/engine.rs:616-661 | the WAL record names only chunks that were synced before it, and its manifest spells the file and says its size in bytes |
| `EngineSafety.ApplyStepSound` | core/src/engine.rs:668-694 | each metadata transaction of a put or a replay keeps versions and snapshots backed, with their true sizes |
| `EngineSafety.MarkSound` | core/src/gc/mod.rs:25-80 | marking always succeeds, and covers every manifest referenced by an object, named or unbound, or by a snapshot |
| `EngineSafety.SweepSound` | core/src/gc/mod.rs:83-101 | deleting a dead manifest leaves every reference intact |
| `EngineSafety.CompactSound` | core/src/gc/mod.rs:99-119 | compacting to the marked chunks leaves every listed version and snapshot readable |
| `EngineSafety.CrashSound` | core/src/engine.rs:571-705 | a crash that loses any unsynced chunks keeps everything listed readable |
| `EngineSafety.NextSound` | core/src/engine.rs:546-705 | every event of the engine keeps soundness |
| `EngineSafety.RunSound` | core/src/engine.rs:423-705 | soundness holds in every state of every run, with crashes anywhere, torn checkpoints included |
| `EngineSafety.ListedVersionsExtract` | core/src/engine.rs:832-895 | in a sound state every version listed by any object, named or not, extracts to the bytes its manifest id is the hash of |
| `EngineSafety.SnapshotsRestore` | core/src/engine.rs:905-1022 | in every run, also those with the checkpoint crash above, a snapshot not deleted restores to exactly what it restored to when it was taken |
| `EngineAtomicity.CommitStepExact` | core/src/engine.rs:616-661 | appending the WAL record is the commit point: from there on recovery leads to the tables after the put |
| `EngineAtomicity.ApplyStepExact` | core/src/engine.rs:668-694 | each transaction, of a put or of replay, keeps both the rest of the work and a replay from scratch leading to the committed tables |
| `EngineAtomicity.CheckpointStepExact` | core/src/wal/mod.rs:186-206 | truncating the checkpoint file, rewriting it and dropping the log keep the tables committed |
| `EngineAtomicity.CrashExact` | core/src/engine.rs:571-705 | whatever point a crash hits, replaying what the checkpoint leaves pending gives the committed tables |
| `EngineAtomicity.OpenExact` | core/src/engine.rs:423-431 | opening starts a replay that leads to the committed tables |
| `EngineAtomicity.NextExact` | core/src/engine.rs:423-705 | every event keeps the engine exact, unless a crash meets a torn checkpoint with a log no longer in force |
| `EngineAtomicity.RunExact` | core/src/engine.rs:423-705 | so does every run |
| `EngineTheorems.ReadyStateIsExact` | core/src/engine.rs:546-705 | whenever the engine is ready, its names, objects and version lists are those of the operations executed atomically, and numbering and binding invariants hold |
| `EngineTheorems.OpenNeverFails` | core/src/engine.rs:447-454 | in every run without the checkpoint crash described above, replay never takes its missing-chunk error: each pending record's chunks are durable |
| `EngineTheorems.ListedVersionsHoldOriginalBytes` | core/src/engine.rs:832-895 | every version still listed extracts to the bytes that version number was put with |
| `EngineTheorems.InterruptedPutIsAllOrNothing` | core/src/engine.rs:571-705 | after a put in progress, any steps, crashes (also inside recovery) and reopenings, the ready engine's tables are exactly those before the put or exactly those after it |
| `EngineTheorems.CommittedPutSurvives` | core/src/engine.rs:651-705 | once the WAL record was fsynced the outcome is always the one after the put |
| `EngineTheorems.PutRunsMeetNoHazard` | core/src/engine.rs:571-705 | runs of puts, crashes and reopenings absorb every crash point, torn checkpoint files included, without condition |
| `EngineTheorems.TornCheckpointIsExact` | core/src/wal/mod.rs:186-206 | after a crash that left the checkpoint file truncated, the store opens if and only if the chunks of every record left in the log are there, and opens with the committed tables if and only if, besides, every such record is in force |
| `EngineTheorems.OpensIff` | core/src/engine.rs:423-492 | in any state whatever, opening completes if and only if the chunks of every pending record are indexed, and otherwise fails; what it completes with is the replay of the pending records and nothing else |
| `EngineTheorems.HazardIsExact` | core/src/wal/mod.rs:186-206 | the crashes set aside as hazards are exactly those that can go wrong: a torn checkpoint is harmless if and only if the store opens with the committed tables whichever unsynced chunks survive |
| `EngineTheorems.ReplayFinishes` | core/src/engine.rs:431-492 | an undisturbed replay ends, in a failure or ready, and ready when the chunks of its records are there |
| `EngineTheorems.RecoveryCompletes` | core/src/engine.rs:423-492 | from every crash of a run without such a checkpoint crash the store opens, with the committed tables |
| `EngineHazard.StaleLogIsReached` | core/src/wal/mod.rs:186-206 | a crash between rewriting the checkpoint file and truncating the log leaves a checkpointed record in the log of a ready engine |
| `EngineHazard.DeletedFileReturns` | core/src/engine.rs:423-492 | concrete run: with that stale record, a delete followed by a torn checkpoint brings the deleted name back |
| `EngineHazard.RenamedFileIsBoundTwice` | core/src/engine.rs:423-492 | concrete run: a rename followed by a torn checkpoint leaves two names bound to one object |
| `EngineHazard.PrunedVersionReturns` | core/src/engine.rs:462-480 | concrete run: a pruned version returns behind a later one and latest_version falls back |
| `EngineHazard.CollectedChunkBlocksOpening` | core/src/engine.rs:447-454 | concrete run: after delete and collection the store cannot be opened: the stale record's chunk is gone |
| `IdealStore.PutSeen` | core/src/engine.rs:620-694 | a put adds the job's bytes, stamped with its time, as the next number of its name's file, and changes nothing else the user can see |
| `IdealStore.RollbackSeen` | core/src/engine.rs:1324-1412 | a rollback adds the contents of the number asked for as the next number, and changes nothing else |
| `IdealStore.PruneSeen` | core/src/engine.rs:1271-1308 | pruning keeps exactly the contents with fewer than the given number of newer ones, and changes nothing else |
| `IdealStore.NamesSeen` | core/src/index/mod.rs:157-213 | renaming moves one name over the other, unbinding drops one name, deleting drops the name and its file; every other name and file is as before |
| `IdealStore.SnapshotSeen` | core/src/engine.rs:905-951 | a snapshot holds exactly the names whose files have contents, each with the id, number and bytes of its newest |
| `IdealStore.CaptureIsNewest` | core/src/engine.rs:924-938 | the entry captured has the highest number the object lists, and the bytes that number was put with |
| `IdealStore.DropSeen` | core/src/engine.rs:1165-1178 | deleting a snapshot removes that one only |
| `IdealStore.RunIsIdeal` | core/src/engine.rs:423-705 | over every run, crashes anywhere, the committed tables stand for exactly the ideal store: a put takes effect when its log record is durable, every other operation at once, and nothing else has any effect |
| `IdealStore.ReadyIsIdeal` | core/src/engine.rs:832-895 | a ready engine shows exactly the ideal store's files, names and snapshots; each version listed reads as the ideal bytes, and says their size and time |
| `IdealStore.SnapshotsRestoreIdeal` | core/src/engine.rs:905-1022 | a snapshot restores, however much later, the bytes each name's newest version had when it was taken, and its entries say their sizes |
| `FileRead.ReadFileRange` | core/src/vfs/tree.rs:416-485 | a ranged read of any manifest that a version or snapshot refers to returns the bytes of the file itself, whatever is cached: the size a put recorded is the file's length |
| `FileRead.ContentIsSpell` | core/src/vfs/tree.rs:438-482 | the chunks a manifest lists hold the file it names |
| `Metadata.MetadataStore.ApplyRecord` | core/src/engine.rs:668-694 | the metadata part of a put stops, at any crash point, in the tables of exactly the transactions reached, and otherwise applies the whole record |
| `Metadata.MetadataStore.ReplayLog` | core/src/engine.rs:431-492 | the replay loop ends in the whole replay, at the first record with a missing chunk, or, in a crash, after some records and transactions of the next |
| `Metadata.MetadataStore.Recover` | core/src/engine.rs:423-492 | openings that crash anywhere, any number of times: the first to complete leaves what one uninterrupted replay leaves |
| `Metadata.MetadataStore.ChooseVersion` | core/src/engine.rs:620-643 | the object and number a put will use, for any content; an error exactly when the binding dangles |
| `Metadata.MetadataStore.PruneFileVersions` | core/src/engine.rs:1271-1308 | keeps exactly the last versions asked for, and the numbering invariant |
| `Metadata.MetadataStore.RollbackFile` | core/src/engine.rs:1324-1412 | appends a version with the manifest and size of the version asked for and the next number, exactly when that version is listed and its manifest stored; otherwise changes nothing |
| `Metadata.MetadataStore.RenameNameBinding` | core/src/index/mod.rs:169-188 | moves the binding in one transaction, replacing one at the new name |
| `Metadata.MetadataStore.DeleteNamedObject` | core/src/index/mod.rs:190-213 | removes the name and its object together |
| `Metadata.MetadataStore.MarkRecord` | core/src/gc/mod.rs:33-50 | inserts exactly one object's manifests and all their chunks, failing exactly on a missing manifest |
| `Metadata.MetadataStore.MarkEntries` | core/src/gc/mod.rs:52-71 | the same for a snapshot's entries |
| `Metadata.MetadataStore.Mark` | core/src/gc/mod.rs:25-80 | fails exactly when an object or snapshot names a missing manifest; otherwise returns exactly the referenced manifests and all their chunks |
| `Metadata.MetadataStore.SweepManifests` | core/src/gc/mod.rs:83-100 | only unreferenced manifests are deleted, whatever the crash point, and once complete all of them are |
| `Metadata.VisitedAll` | core/src/gc/mod.rs:25-80 | having visited every object and snapshot, the marked set is exactly the referenced set, and its complement the dead manifests |
| `Metadata.NextVersion` | core/src/engine.rs:631-638 | the number above latest_version and above every listed version |
| `Metadata.ListsNumber` | core/src/engine.rs:681-681 | whether a version number is listed |
| `Metadata.HasChunks` | core/src/engine.rs:447-454 | whether all chunks of a manifest are indexed |
| `LockSafety.InsideIsActive` | core/src/engine.rs:546-556 | two threads are never inside changing operations at once: such a thread holds op_lock exclusively, or put_lock and a share of op_lock |
| `LockSafety.MoveKeepsLocks` | core/src/engine.rs:546-556 | every step of every thread keeps lock holdings and program points in agreement, with no reader beside a writer |
| `LockSafety.InsideStep` | core/src/engine.rs:546-705 | a step of the thread inside, working on what it read earlier into its own variables, is a step of the sequential engine or no step at all |
| `LockSafety.ActiveMove` | core/src/engine.rs:546-705 | the same for the whole world: other threads do not disturb it |
| `LockSafety.OutsideMove` | core/src/engine.rs:546-556 | waiting, locking, unlocking and reading leave the sequential engine where it is |
| `LockTheorems.OthersStayCurrent` | core/src/engine.rs:1180-1194 | what other threads have read stays current: they can only be readers, and only a collection, which excludes readers, removes chunks |
| `LockTheorems.ScheduleIsSequential` | core/src/engine.rs:546-705 | every interleaving of puts, prunes, rollbacks, renames, deletes, unbinds, snapshots, reads and collections is a run of the sequential engine, so all its theorems apply |
| `LockTheorems.NothingReliedOnIsReclaimed` | core/src/segment/store.rs:254-273 | in every schedule no chunk is reclaimed that a put in flight appended or only found, that a logged put names, or that a reader has yet to read |
| `LockTheorems.ListedVersionsStayReadable` | core/src/engine.rs:832-895 | in every state of every schedule each listed version extracts |
| `LockTheorems.PutNumbers` | core/src/engine.rs:620-643 | a put raises the latest number of its own name by one and of no other name |
| `LockTheorems.ListedSoFar` | core/src/engine.rs:672-694 | in the middle of a put or a recovery, too, what an object lists is the beginning of what it will list |
| `LockTheorems.ReadersReadTheNewest` | core/src/engine.rs:832-895 | under any schedule a reader sets out to read exactly the bytes of the highest version its name's object lists at that moment, also while a put is under way |
| `LockTheorems.PutsGetConsecutiveVersions` | core/src/engine.rs:546-643 | the puts to one name that committed, in any interleaving with prunes, reads, snapshots and collections, got distinct consecutive numbers continuing from where the name stood, one each |
| `LockTheorems.NoScheduleDeadlocks` | core/src/engine.rs:1180-1194 | while a thread is not finished some thread can move |
| `Compaction.SegmentDir.Stage` | core/src/segment/store.rs:356-377 | the staging directory, once complete, holds exactly the reachable data in whole segments, in any order and rotation |
| `Compaction.SegmentDir.Swap` | core/src/segment/store.rs:379-481 | every crash point, also between removing the marker and creating a fresh segment, leaves a state from which the old segments can be restored, or one with all new segments in place |
| `Compaction.SegmentDir.BackUp` | core/src/segment/store.rs:379-394 | renaming every segment to its backup, crashing anywhere, loses none |
| `Compaction.SegmentDir.MoveIn` | core/src/segment/store.rs:396-409 | moving new segments in one by one never loses a backup |
| `Compaction.SegmentDir.CleanUp` | core/src/segment/store.rs:88-95 | deleting backups and marker, crashing anywhere, never disturbs the new segments |
| `Compaction.SegmentDir.RollBack` | core/src/segment/store.rs:96-107 | exactly the segments with a backup are restored, crashing anywhere between removal and rename |
| `Compaction.SegmentDir.Recover` | core/src/segment/store.rs:67-113 | start-up, crashing anywhere and repeatedly, keeps that state; once it completes, the directory holds whole segments with all the original data or exactly the reachable ones, and the latter whenever the marker was complete |
| `Compaction.SegmentDir.CollectAndRecover` | core/src/segment/store.rs:315-484 | one collection and any number of start-ups, each crashing anywhere: the first to complete finds all the old data or exactly the reachable ones |
| `Compaction.RolledBackContents` | core/src/segment/store.rs:96-107 | rolling back restores the original data even when new segments with higher numbers, and second copies of chunks, are left behind |
| `Compaction.ReachableSurvives` | core/src/segment/store.rs:315-484 | no reachable chunk is lost in either outcome |
| `SegmentFormat.HeaderRoundTrip` | core/src/segment/format.rs:164-299 | reading a written V3 header, with anything behind it, gives the header back |
| `SegmentFormat.HeaderCut` | core/src/segment/format.rs:183-299 | a header cut anywhere reads as an end of file, never as corruption: as no header below four bytes, as a short one above |
| `SegmentFormat.HeaderLayout` | core/src/segment/format.rs:107-182 | the V3 header byte by byte: magic, id, codec, scheme, lengths, payload checksum, nonce and header checksum at their offsets |
| `SegmentFormat.HeaderIsChecked` | core/src/segment/format.rs:183-299 | whatever the bytes, a header is accepted only with a known magic, known codec bytes and its own checksum, and a whole one that fails any of these is refused |
| `SegmentFormat.ReadIsChecked` | core/src/segment/reader.rs:102-221 | whatever a file holds, a read returns data with the hash asked for, behind a payload whose length and checksum agreed, or it fails |
| `SegmentFormat.PayloadIsNoLonger` | core/src/segment/writer.rs:91-120 | a stored payload is never longer than the data but for the vault's 16 bytes, and compression that saves more than five per cent is used |
| `SegmentFormat.UnwrapInverts` | core/src/segment/reader.rs:165-221 | the writer's associated data equals the reader's, so decrypting, decompressing and hash-checking a stored payload gives the bytes put |
| `SegmentFormat.ReadBack` | core/src/segment/reader.rs:102-221 | a record anywhere in a segment reads back as the bytes put, encrypted or not, compressed or not, exactly when its payload is within the reader's 256 MiB limit |
| `SegmentFormat.OversizedExample` | core/src/segment/reader.rs:102-221 | a concrete chunk, one byte above the limit, that is stored and not read back |
| `SegmentScan.ScanFile` | core/src/segment/store.rs:139-228 | the scanning loop computes the recursive scan, cuts the bytes only to where the scan ends, and leaves them alone on an error |
| `SegmentScan.RecoverAndIndex` | core/src/segment/store.rs:113-238 | the loop over all segments; a refused directory is unchanged, otherwise only the newest segment may be shortened |
| `SegmentScan.ScanPasses` | core/src/segment/store.rs:155-197 | the scan indexes any written records exactly, whatever stands behind them |
| `SegmentScan.TornTail` | core/src/segment/store.rs:155-235 | for every byte cut inside the last record the newest segment ends at exactly that record's start with exactly the earlier records indexed, and a sealed one is refused there |
| `SegmentScan.DamagedRecord` | core/src/segment/store.rs:178-225 | a complete record that fails a header or payload check is refused in every segment, the newest included |
| `SegmentScan.ScanOfWhole` | core/src/segment/store.rs:155-235 | an undamaged segment is indexed whole, sealed or not |
| `SegmentScan.KeptPartRescans` | core/src/segment/store.rs:155-235 | whatever bytes a file holds, the part a scan keeps scans again to the same index with nothing torn, even once the segment is sealed |
| `SegmentScan.WrittenHeader` | core/src/segment/format.rs:70-104 | the segment header the writer writes is one the scan accepts |
| `SegmentScan.AcceptedHeaders` | core/src/segment/format.rs:84-103 | the segment headers accepted, byte by byte; any other file is refused at offset 0 |
| `SegmentStore.ScanOfLog` | core/src/segment/store.rs:115-238 | a rescan of the written segments finds the index of all their records |
| `SegmentStore.ScanOfCut` | core/src/segment/store.rs:115-238 | a rescan after the newest segment was cut anywhere finds the index of the records wholly kept, and repairs the directory to just those |
| `SegmentStore.IndexedReadsBack` | core/src/segment/reader.rs:102-221 | every indexed chunk reads back from its segment's bytes as what was put |
| `SegmentStore.IndexIsRescan` | core/src/segment/store.rs:139-238 | between operations the in-memory index and writer offset are what reopening would find, and reopening would change no file, also when a chunk is stored several times |
| `SegmentStore.RotatedConsistent` | core/src/segment/writer.rs:183-203 | rotating keeps sealed segments durable because the full one was synced first |
| `SegmentStore.CutIsSubmap` | core/src/segment/store.rs:155-235 | cutting at an earlier byte keeps a part of the chunk map and of the indexed ids that cutting at a later one keeps |
| `SegmentStore.Store.Sync` | core/src/segment/writer.rs:169-175 | after a sync every indexed chunk is durable |
| `SegmentStore.Store.Rotate` | core/src/segment/writer.rs:185-203 | a new segment is started, everything stored so far becoming durable |
| `SegmentStore.Store.AppendChunk` | core/src/segment/writer.rs:85-167 | adds one chunk to the index and the chunk map; rotates exactly when the record would pass the limit; makes nothing new durable otherwise |
| `SegmentStore.Store.PutChunk` | core/src/segment/store.rs:246-273 | stores the bytes under their hash unless the hash is indexed, in which case nothing is written |
| `SegmentStore.Store.GetChunk` | core/src/segment/store.rs:275-282 | returns the bytes put under the id, through index, file and reader, exactly when it is indexed and within the reader's limit |
| `SegmentStore.Store.GetLocation` | core/src/segment/store.rs:300-302 | an indexed chunk's location says the true lengths of its data and of its payload |
| `SegmentStore.Store.Reopen` | core/src/segment/store.rs:42-64 | after losing any unsynced bytes of any file, also mid-record, reopening succeeds; all durable chunks are there and stay durable, and no chunk or id is there that was not |
| `SegmentStore.Store.CopyTo` | core/src/segment/store.rs:356-369 | streaming chunks one by one into new segments copies exactly those asked for, or fails exactly when one exceeds the reader's limit |
| `SegmentStore.Store.Compact` | core/src/segment/store.rs:315-484 | the chunk map becomes exactly its restriction to the reachable ids, all durable, index equal to a rescan; fails exactly when a chunk is dead and a live one is unreadable, losing nothing |
| `SegmentStore.HeldSubmap` | core/src/segment/store.rs:139-238 | with a hash that tells the stored data apart, the chunk map is determined by the data stored, however often and wherever each is stored |
| `StoreRecovery.Listing` | core/src/segment/store.rs:115-130 | the directory listing by ascending number holds exactly the directory's data |
| `StoreRecovery.CollectAndOpen` | core/src/segment/store.rs:42-484 | a collection crashing anywhere, start-ups crashing anywhere, then the scan: the store opened is consistent, its index equal to a rescan, all of it durable, and its chunk map is the whole old one or exactly its restriction to the reachable ids, whatever segments were left behind |
| `StoreRecovery.DirectoryOf` | core/src/segment/store.rs:379-394 | a store's own segments are such a directory, with the same data |
| `EngineStore.StorePart` | core/src/segment/store.rs:246-273 | storing one part, appended or found, is the sequential engine's step on its chunk map |
| `EngineStore.StoreParts` | core/src/engine.rs:571-616 | the chunk loop of a put and the sync behind it are the sequential engine's steps up to its synced state |
| `EngineStore.CrashAndReopen` | core/src/segment/store.rs:42-64 | losing any unsynced bytes and reopening is the sequential engine's crash, for some set of surviving chunks |
| `EngineStore.CompactStore` | core/src/segment/store.rs:315-484 | a completed compaction is the sequential engine's compaction step; one that fails is no step |
| `EngineStore.CollectCrashing` | core/src/segment/store.rs:42-484 | a collection and start-ups crashing anywhere realise the sequential engine's compaction step or no step |
| `EngineLog.AppendRecord` | core/src/wal/mod.rs:138-146 | an append that completes is the log part of the sequential engine's commit; one refused for its size leaves the log |
| `EngineLog.OpenAfterAppend` | core/src/wal/mod.rs:31-184 | a crash that leaves any part of an append's bytes: opening finds the sequential engine's log before the commit, or after it only with all bytes there, and exactly its pending records and last number |
| `EngineLog.TakeCheckpoint` | core/src/wal/mod.rs:186-206 | a checkpoint crashing anywhere takes as many of the sequential engine's checkpoint steps as it reached |
| `EngineLog.ViewsAbove` | core/src/wal/mod.rs:148-184 | the records read above the checkpoint are the sequential engine's pending ones |
| `Migration.MetadataDir.BlockSled` | core/src/index/migration.rs:80-96 | the settings are saved before the blocker replaces them, and a saved copy is never the blocker, at every crash point |
| `Migration.MetadataDir.BuildStaging` | core/src/index/migration.rs:115-216 | the staging database is built from nothing, holding the full legacy import once ready |
| `Migration.MetadataDir.OpenNested` | core/src/index/migration.rs:163-225 | a successful opening yields the import or the latest committed content; it commits before it publishes, and reads sled data only while nothing is committed |
| `Migration.MetadataDir.OpenFile` | core/src/index/migration.rs:148-158 | the earlier file layout is adopted as it is and never rebuilt |
| `Migration.MetadataDir.Open` | core/src/index/migration.rs:137-225 | over every layout: the contents are those committed last, the sled data never changes, no sled import happens once committed |
| `Migration.MetadataDir.Lifetime` | core/src/index/migration.rs:80-225 | from any state of the migration, any number of openings crashing anywhere, with transactions between: each completed opening sees what was committed last, which is the import while nothing is; sled data is not read again once anything is committed; only settings missing from legacy data make an opening refuse |
| `Chunking.CutsPartition` | core/src/chunk/cdc.rs:29-44 | the reference chunks concatenate to the input |
| `Chunking.CutsSized` | core/src/chunk/cdc.rs:29-44 | no chunk is empty or larger than the maximum |
| `Chunking.SliceChunks` | core/src/chunk/cdc.rs:29-44 | the slice chunker computes the reference chunks |
| `Chunking.FirstCut` | core/src/chunk/cdc.rs:99-141 | the first cut of a buffer of at least the maximum size, or of all that is left, is the first cut of everything that remains |
| `Chunking.StreamChunker.NextChunk` | core/src/chunk/cdc.rs:99-141 | each call returns exactly the next reference chunk of the remaining input, for every schedule of short reads, and ends exactly at its end |
| `Chunking.StreamAll` | core/src/chunk/cdc.rs:99-141 | a stream read to its end gives the slice chunker's chunks; the buffer never exceeds max - 1 + max(2 max, 512 KiB) |
| `ChunkCache.PromotePermutes` | core/src/vfs/cache.rs:32-45 | promoting an entry only reorders the access list |
| `ChunkCache.PromoteKeepsOthers` | core/src/vfs/cache.rs:32-45 | promoting moves one entry to the most recent end and leaves the order of all others |
| `ChunkCache.FittingIsLongest` | core/src/vfs/cache.rs:47-77 | what eviction keeps is the longest most-recently-used part of the access order that leaves room: nothing is evicted needlessly |
| `ChunkCache.Cache.Get` | core/src/vfs/cache.rs:32-45 | returns the cached bytes and moves the entry to the most recent end |
| `ChunkCache.Cache.Insert` | core/src/vfs/cache.rs:47-77 | evicts exactly what must go, appends the entry, and keeps order list, key set and byte counter in agreement within the cap unless one entry alone exceeds it |
| `ChunkCache.Cache.Evict` | core/src/vfs/cache.rs:58-69 | drops least recently used entries until the new bytes fit or nothing is left |
| `ChunkCache.ReadPart` | core/src/vfs/tree.rs:447-477 | one chunk contributes exactly its intersection with the range; it fails exactly when its bytes are needed, not cached and unreadable |
| `ChunkCache.ReadRange` | core/src/vfs/tree.rs:416-485 | returns the file's bytes from offset to min(offset + size, total) for every chunk split and cache history; a missing or unreadable chunk is reported exactly where the walk meets it, and only if the range needs it |
| `ChunkCache.SliceNext` | core/src/vfs/tree.rs:438-482 | slicing a longer content adds exactly the next chunk's part |
| `PrefixMove.TargetsCollideIff` | core/src/engine.rs:1214-1232 | two names of a subtree are sent to one target exactly when they are the subtree's own name with and without a trailing slash |
| `PrefixMove.SiblingIsOutside` | core/src/engine.rs:1214-1222 | a sibling that only shares a string prefix is not part of the subtree |
| `PrefixMove.SuffixIff` | core/src/engine.rs:1214-1222 | a subtree's names are its own and those that continue it behind a slash |
| `PrefixMove.TargetIsUnder` | core/src/engine.rs:1226-1230 | each target lies under the new prefix by whole path components, with the same rest |
| `PrefixMove.MovingBackRestores` | core/src/engine.rs:1214-1232 | moving a name there and back is the identity exactly when it is not the subtree's own name with a trailing slash |
| `PrefixMove.MovedSubstitutes` | core/src/index/mod.rs:260-293 | removing all old bindings and then binding all targets is the simultaneous substitution, also for overlapping trees |
| `PrefixMove.CompatibleIff` | core/src/engine.rs:1214-1232 | the changes of a move are free of conflicting targets exactly without slash twins |
| `PrefixMove.NeverSubstituted` | core/src/index/mod.rs:260-293 | with conflicting targets no outcome is a substitution |
| `PrefixMove.SlashTwinLosesABinding` | core/src/engine.rs:1214-1232 | concrete names for which a move leaves an object without a name |
| `PrefixMove.NameIndex.TakeOut` | core/src/index/mod.rs:260-277 | takes out exactly the old names, remembering each bound object with its target in order |
| `PrefixMove.NameIndex.PutIn` | core/src/index/mod.rs:278-290 | binds and tracks every target |
| `PrefixMove.NameIndex.UpdateBindings` | core/src/index/mod.rs:260-293 | the transaction is the simultaneous substitution if and only if no two objects are sent to one target |
| `PrefixMove.NameIndex.UpdateWatchedPrefix` | core/src/engine.rs:1197-1238 | changes exactly the recorded names of the subtree, for an unbind only tracked ones; each goes under the new prefix with the same rest, or is unbound if excluded; all other names stay; the outcome is the simultaneous substitution if and only if there is no slash twin; it is refused, changing nothing, exactly when a target is invalid |
| `Watcher.ArriveQueued` | core/src/watcher/service.rs:440-447 | a complete rename is queued, every arrival staying in exactly one place |
| `Watcher.QueueTracked` | core/src/watcher/service.rs:134-154 | a half waiting by tracker moves to the queue, every arrival staying in exactly one place |
| `Watcher.QueueUntracked` | core/src/watcher/service.rs:134-154 | the same for the oldest untracked half |
| `Watcher.PopQueued` | core/src/watcher/service.rs:672-690 | popping the front marks exactly that arrival as applied |
| `Watcher.Pending.ExpireTracked` | core/src/watcher/service.rs:134-144 | exactly the tracked halves that waited too long become removals |
| `Watcher.Pending.ExpireUntracked` | core/src/watcher/service.rs:145-154 | the same for untracked halves, oldest first |
| `Watcher.Pending.ExpireRenames` | core/src/watcher/service.rs:134-154 | afterwards no half older than the timeout waits, the younger ones are untouched, and nothing is lost |
| `Watcher.Pending.Pair` | core/src/watcher/service.rs:465-481 | the second half of a rename is paired with the half of its tracker, or with the oldest untracked one |
| `Watcher.Pending.Dispatch` | core/src/watcher/service.rs:440-491 | the whole new queue for each kind of event |
| `Watcher.Pending.ReceiveEvent` | core/src/watcher/service.rs:423-491 | expiry, then the event: the whole new queue; each rename half that ever arrived is waiting by tracker, waiting untracked, queued or applied, in exactly one place; none older than the timeout waits |
| `Watcher.Pending.ProcessOne` | core/src/watcher/service.rs:672-800 | the entry popped is the one applied, though events arrive before and after its remapping, no other arrival becomes applied, and the deferred writes it found are remapped for it |
| `Watcher.Pending.ApplyRename` | core/src/watcher/service.rs:693-800 | a removal whose file is there again becomes a write; otherwise the deferred writes are exactly the remapped ones, plus a write for each moved file without one |
| `Watcher.Pending.ShiftUpdates` | core/src/watcher/service.rs:726-755 | the remapping loop computes the remapping in the order the map lists the moved writes |
| `Watcher.ShiftIsSimultaneous` | core/src/watcher/service.rs:726-755 | without chains every write under the moved path is at its new path, merged with one already there, or dropped for a removal or an excluded target, and every other write stays |
| `Watcher.LaterIsTheLater` | core/src/watcher/service.rs:744-752 | two writes merged are due, and retried, no sooner than either and no later than the later |
| `Watcher.RemapIsOrderFreeIff` | core/src/watcher/service.rs:726-755 | the remapping is simultaneous in every listing order if and only if no moved write is sent onto another moved one |
| `Watcher.UnrelatedTreesDoNotChain` | core/src/watcher/service.rs:726-755 | renames between unrelated paths never chain |
| `Watcher.ChainBreaks` | core/src/watcher/service.rs:726-755 | with a chain, some listing order leaves nothing at a write's new path |
| `Watcher.ChainExample` | core/src/watcher/service.rs:726-755 | concrete paths for which the remapping depends on the listing order |
| `WalFormat.ManifestRoundTrip` | core/src/manifest/mod.rs:44-123 | decoding an encoded manifest whose chunk count fits 32 bits gives it back, and its length is exact |
| `WalFormat.ChunksRoundTrip` | core/src/wal/format.rs:190-220 | embedded chunk lists decode to themselves |
| `WalFormat.PutRoundTrip` | core/src/wal/format.rs:120-220 | a put payload, manifest and chunks included, decodes to itself |
| `WalFormat.RecordRoundTrip` | core/src/wal/format.rs:252-454 | decoding an encoded record with anything behind it gives the record and its exact length, encrypted or not |
| `WalFormat.CutRecordIsIncomplete` | core/src/wal/format.rs:340-454 | every proper prefix of an encoded record is reported as incomplete |
| `WalFormat.FrameLayout` | core/src/wal/format.rs:222-246 | the record byte by byte: magic, sequence number, kind, length, checksum and payload at their offsets |
| `WalFormat.ManifestLayout` | core/src/manifest/mod.rs:44-63 | the manifest byte by byte |
| `WalFormat.LeAt` | core/src/wal/format.rs:120-246 | integers are written least significant byte first |
| `WalFormat.DecodedIsChecked` | core/src/wal/format.rs:252-290 | whatever the bytes, a record is accepted only behind its magic, whole and with the checksum its header states |
| `WalFormat.ManifestIsChecked` | core/src/manifest/mod.rs:65-123 | whatever the bytes, a manifest is accepted only with its magic, version, checksum and exact length |
| `WalFormat.PutsFit` | core/src/wal/format.rs:11-45 | every put with a name below 64 KiB, no chunk data and fewer than 2^26 chunks is accepted by the log |
| `WalFormat.LongNamesDoNotFit` | core/src/wal/format.rs:11-45 | a longer name is refused |
| `Wal.ScanOfPrefix` | core/src/wal/mod.rs:55-117 | scanning any byte prefix of a written log finds exactly the records wholly inside it and ends at their boundary |
| `Wal.WholeIsMaximal` | core/src/wal/mod.rs:55-117 | that boundary is the last one inside the prefix |
| `Wal.ScanOfWhole` | core/src/wal/mod.rs:55-117 | an uncut log is scanned whole, so opening is idempotent |
| `Wal.ScanOfTail` | core/src/wal/mod.rs:55-117 | whatever stands behind whole records, short, foreign or with a wrong checksum, ends the log at their boundary |
| `Wal.Log.Open` | core/src/wal/mod.rs:31-117 | the loop computes the scan, truncates to its end, and restores the last sequence number; other decoding errors leave the file alone |
| `Wal.Log.ReadUncheckpointed` | core/src/wal/mod.rs:148-184 | on a log that opening left behind it never fails and returns exactly the records above the checkpoint |
| `Wal.Log.Append` | core/src/wal/mod.rs:138-146 | appends exactly the encoding of a record with the next sequence number, or refuses an oversized payload leaving the file |
| `Wal.Log.Checkpoint` | core/src/wal/mod.rs:186-206 | each crash point: nothing changed, a file that reads as zero, the number written with the log still there, or done, when the file reads back as the number and the log is dropped exactly if all of it is covered |
| `Wal.AppendIsAtomic` | core/src/wal/mod.rs:138-146 | an append is all or nothing: whatever part of its bytes a crash leaves, the scan finds the log as it was, or with the record only if all its bytes are there |
| `Wal.OpenCutLog` | core/src/wal/mod.rs:31-184 | a log cut at any byte, opened twice and read: exactly the whole records above the checkpoint |

## Left out

- Engine: modelled on values, as a machine over durable steps, because its theorems quantify over whole runs and interleavings. `EngineStore` and `EngineLog` tie its steps on chunks and on the log to the segment store and the log file at byte level, crashes included; its steps on tables are the functions the methods of `Metadata.MetadataStore` are proved to compute. No single object holds all three.
- Engine: chunk ids and manifest ids are injective digests of the bytes; version numbers and log sequence numbers are unbounded where the source uses u32 and u64.
- Engine: chunk data embedded in a log record is not replayed into segments there, since the engine always logs an empty list; its byte format is in `WalFormat`.
- Locks: no process crash in the middle of a schedule; schedules start from any state the crashing sequential engine can reach. `delete_prefix` and `update_watched_prefix` are not among the operations. A lock poisoned by a panic is not modelled.
- Locks: a put whose generated object id was used before is refused at once, standing for ids never repeating.
- SegmentStore.Store.AppendChunk: chunks of 4 GiB and more are excluded by a precondition, because their lengths would be cut to 32 bits; the engine's chunks are at most 256 KiB. Failed writes of the operating system are not modelled.
- SegmentStore.Store.Compact: the swap itself has no crash points here; they are in `Compaction.SegmentDir.Swap`, and `StoreRecovery.CollectAndOpen` opens the store after them.
- Wal.Log.Append: the last sequence number of 64 bits is excluded by a precondition.
- SegmentFormat: read-back is stated for V3 records; V2 headers are scanned as the source does. The reader's cache of open files is not modelled.
- Chunking: FastCDC's gear hash is a parameter. One law beyond positive, bounded and decided by the first `max` bytes is needed and assumed: input of at most `min` bytes is not cut.
- Watcher.Pending.ProcessOne: covers a rename applied without an error; an error keeps the entry queued. The engine's part of a rename is in `PrefixMove`, and which files exist is a parameter. Path normalisation, retries, process_updates, the last-synced table and the deletion decision of scan_inner are not modelled.
- PrefixMove: name validation and the ignore filter are parameters.
- Metadata: `write_value` and `remove_value` are single table updates; redb's own transactions are taken as atomic.
- Migration: marker files are written and published as one action each; the byte content of redb and sled is abstract.
- Hashing, CRC-32, zstd, XChaCha20-Poly1305, Argon2, redb and sled themselves.
- Vault key handling, fsck, stable-read fingerprints, `validate_logical_name`, statistics, store lock files, the virtual tree's construction, object-record and snapshot codecs, restoring a snapshot onto the file system.
- Everything in the command-line program except `format_http_date`.
