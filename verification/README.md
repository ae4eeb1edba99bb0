# FASTFFS: a verified model

FASTFFS is a filesystem for NOR flash. Names live in a small circular journal of (slot, head) records; files
are chains of extents in data sectors that share their space with 16-byte metadata records; a collector frees
sectors that nothing reaches, and moves packed roots when nothing else helps. This project models the portable
library under `src/` in Dafny and proves what it promises: that no power cut, no collection, no compaction and
no other writer changes a file, and that what was written is what is read.

## How the model is built

| layer | modules | source |
|---|---|---|
| flash | `Nor` | `src/fffs_flash.c` |
| namespace journal | `IndexLog`, `IndexRing`, `Journal`, `Wrapping` (values), `IndexJournal` (the class) | `src/fffs_index_log.c`, mount in `src/fastffs.c` |
| index back ends | `HashIndex`, `LogScan` (log scans and direct table), `NameIndex` | `src/fffs_hashtable_index.c`, `src/fffs_nocache_index.c`, `src/fffs_ram_index.c` |
| one data sector | `SectorMd` (bytes), `SectorView` (footer, records, bytes), `SectorOps`, `Extents`, `Finish`, `Leftover`, `Tears` | `src/fffs_file_md.c`, `src/fffs_sector.c` |
| files on the volume | `Files` (chains), `Content` (names and bytes), `Mounted` (struct fffs), `Counters`, `Fsinfo` | `src/fffs_file_md.c`, `src/fastffs.c` |
| collector | `Gc`, `GcPass`, `Compact`, `Strays` | `src/fffs_gc.c` |
| allocator | `Alloc` | `src/fffs_alloc.c` |
| writing | `Drafts`, `Writer`, `Streaming`, `Commit`, `OldChain`, `Closing`, `Opening`, `Storing`, `Naming`, `Deleting` | `src/fffs_file.c`, `src/fastffs.c` |
| writers side by side | `Notes`, `Sharing`, `Bystanders` | `src/fffs_file.c`, `src/fffs_alloc.c` |
| reading | `Reader` | `src/fffs_file.c` |
| power cuts | `Remount`, `Crashes`, `Recovery` | `src/fastffs.c`, `src/fffs_index_log.c` |
| whole runs | `Shelves` (what callers see), `Runs` | `src/fffs_file.c`, `src/fastffs.c` |
| particular volumes | `Witness` | `src/fffs_gc.c`, `src/fffs_file.c` |

Flash is a sequence of bytes. Programming ANDs, erasing sets all bits, and an interrupted program leaves any
byte image between the old and the intended one (`Nor.Torn`). An interrupted erase leaves arbitrary bytes; in the
journal it leaves no valid header. Every flash step of the classes adds the images that a power cut could leave
to a ghost set `cuts`, so a claim about `cuts` is a claim about every whole or torn prefix of an operation.

Objects of the source whose fields change are classes (`Nor.Device`, `HashIndex.HashTable`,
`LogScan.DirectTable`, `IndexJournal.IndexJournal`, `Mounted.Volatile`, `Reader.FileReader`). Their methods carry the loops of the code. The collector, allocator and writer work on
`Mounted.Volatile`. Its sectors are the decoded views of their bytes (`SectorView.View`), every program changes
the bytes and decodes them again. It has the journal (`Journal.State`), which stands behind its index
(`Volatile.Backed`), and the committed counters. Ghost fields hold the stored files, their chains and what each
open writer has written so far.

The invariant of a mounted volume is `Mounted.Sound`: every indexed slot heads a chain, the chain's data is the
file, every root starts with a name, sizes and offsets are true, and what open writers have finished is in
place. `Writer.Ready` adds the collector's walk, the allocator's exclusivity and the absence of live roots that
the index does not know. `Runs.Stands` is the invariant of a whole run: the volume is ready, its files are those of a
map from names to bytes, and every open writer is at work, in sectors, with a slot and under a name of its own.

An image in `cuts` is the data sectors with the namespace, or, for an index record, with the journal and the record
that was being written. `Remount.FlashOf` says what either can leave on flash, torn records and rotations included.

## Hypotheses

Each of these is what the proofs need of the state before a call. Where the code does not see to it, a lemma named
here says exactly what happens without it.

- Discovery: at most nine index sectors in sequence, or a sequence that does not wrap (`Journal.RotationDiscoverable`). Only events with a power cut need it. `Wrapping.MountExact` shows that it is exact, `Remount.SmallRing` that rings of up to nine index sectors always meet it.
- Hash table: one bucket stays empty (`HashIndex.FullTableNeverStops`).
- Opening: no live sector has an uncommitted record of the slot (`Mounted.NoBegun`; `Leftover.RewrittenWrong`). Every run keeps that for all slots without a writer (`Runs.Stands`), so only a power cut can break it.
- Compaction: no live root whose slot the index does not know (`Mounted.NoStrays`; `Strays.CopyExact`).
- Closing: no other writer is open for the slot (`Sharing.OnlyWriter`), and the chain noted at open is the slot's chain, or a branch of it, or gone, or part of the new file, or is looked up again (`Notes.Annotated`). `Opening.OpenWriter` leaves every writer with such a note, and everything that happens until the close keeps it so (`Notes.NoteKept`). `Closing.Close` says what a close does in each case.
- Deleting: writers of the slot, if any, have their extents in sectors off the file's chain (`Deleting.WritersApart`, which is part of `Writer.WriterIn`).
- Torn index record: no live root of the slot besides the old and the new one (`Journal.OnlyRoots`, `Remount.LoneRoots`; `Journal.TornAppendExact`).
- Names: no writer is open under the name, and other writers keep the names of the files that they replace (`Naming.NoWriterOf`). In a run that follows from callers not opening a name or a handle twice at a time (`Shelves.Sensible`).
- Geometry: sector size 256 to 65536 and a multiple of 256, 2 to 15 index sectors, program granule at most 26, at least two data sectors where the collector runs to the end of a pass (`GcPass.OneSectorPass` is about a single one).
- A file is smaller than 4 GiB.

## Results that differ from the documentation

- Format accepts up to 15 index sectors, but discovery misjudges ten or more headers that wrap around the ring: it stops at the end of the ring and drops the newest sectors (`IndexRing.DiscoveryExact`, `Wrapping.MountExact`). With eleven or more index sectors a run of appends from format on leads there, and a stored file is gone with the next mount, without any power cut (`Wrapping.WrappedLoss`).
- A second power cut while mount clobbers a torn tail record can leave a record that deletes a stored file or leads a name elsewhere; `Journal.ClobberCutExact` says exactly when, and `Journal.ClobberLosesFile` that it can happen to the replacement of every stored file.
- A torn head word can name a third sector with a live root of the slot, such as an interrupted compaction leaves. Then the slot gets that root (`Journal.TornAppendExact`).
- The hash table may be filled to its last bucket; then a removal never ends (`HashIndex.FullTableNeverStops`).
- With one data sector `fffs_gc_until_erased` counts no progress, so it ends if and only if nothing keeps it from erasing that sector, whether a walk is under way or not (`GcPass.OneSectorPass`). `Witness.StuckPass` builds a volume with one file where it does not end.
- The free-window search tests only the data part of a window for erased bytes. For packed roots the place of the record is free all the same, because data is programmed before its record and a root's data does not start with 0xff (`SectorMd.TornRootNeverOverwritten`, `Extents.WindowGranted`). For the first record of a sector, which may be a continuation, that holds if and only if its data is not all 0xff; otherwise a torn record leaves a sector in which the next window's record place has been programmed (`Tears.TornFirstExact`, `Tears.HalfTailBreaks`).
- A power cut between the two programs of a root record leaves an uncommitted record. If the same name is stored again and its root comes into the same sector, the code finishes the old record: the file is committed with the bytes of the interrupted one (`Leftover.FoundExactly`, `Leftover.LeftoverGranted`, `Leftover.RewrittenWrong`).
- An open notes the old chain before it allocates, and pins the slot only afterwards, so a compaction in between moves the old root. The note is true afterwards if and only if the head was not moved (`Opening.OpenWriter`); `Witness.StaleNote` builds such a writer. If the noted sector has no live record of the slot any more, the close leaves the old chain to the collector and gives the counters up; if a second compaction has moved the root back there, it buries that root and goes on where the note says, which is on the old chain, and no file notices. If the noted sector has become part of the new file behind its root, the close destroys the file that it has just committed (`Closing.Close`, `Closing.FileLost`); `Witness.LostFile` builds a volume and a writer where that happens.
- A close that fails because the journal is full leaves a live root. The volume is in order if and only if the index knows the slot (`Closing.Close`).
- Deleting a file whose slot has a second live root, such as one that an interrupted compaction left, makes that root one that the index does not know. The volume stays in order exactly if there was none (`Deleting.DeleteFile`, `Deleting.GoneStrays`).
- Compaction copies every live root of a sector and indexes the copies. A root that the index does not know comes back as a file, and one of an older version replaces the newer one (`Strays.CopyExact`).
- The byte counter gives itself up when the wrapped total is smaller than the file that goes (`Counters.CloseKeepsRight`, `Counters.DeleteKeepsRight`).

## Model

| member | source | states |
|---|---|---|
| `Nor.Device.ProgramAligned` | src/fffs_flash.c:89-122 | the padded loop ANDs exactly the requested range and leaves every other byte, for every offset, size and granule; each cut on the way is a torn outcome of one program of that range |
| `Nor.ProgramGranule` | src/fffs_flash.c:97-120 | one padded granule extends the programmed prefix by exactly its bytes |
| `Nor.TornGranule` | src/fffs_flash.c:97-120 | a torn padded granule is a torn outcome of the whole request |
| `Nor.Le16RoundTrip` | src/fffs_internal.h:72-91 | a stored little-endian word loads back |
| `HashIndex.HashTable.Insert` | src/fffs_hashtable_index.c:89-102 | map update, or refusal exactly for slot 0 or a new slot in a full table |
| `HashIndex.HashTable.Remove` | src/fffs_hashtable_index.c:104-117 | map removal; the probe invariant is kept |
| `HashIndex.HashTable.RemoveBucketAt` | src/fffs_hashtable_index.c:60-78 | backward shift ends and leaves a table without gaps that stores all other entries |
| `HashIndex.HashTable.FindSlotBucket` | src/fffs_hashtable_index.c:32-58 | finds the slot's bucket if the map has the slot, else the empty bucket where it belongs, or reports a full table |
| `HashIndex.HashTable.HeadForSlot` | src/fffs_hashtable_index.c:247-265 | map lookup |
| `HashIndex.HashTable.Iterate` | src/fffs_hashtable_index.c:229-245 | every stored slot exactly once |
| `HashIndex.ShiftMove` | src/fffs_hashtable_index.c:66-76 | moving an entry that probes through the hole keeps every other entry reachable |
| `HashIndex.ShiftKeep` | src/fffs_hashtable_index.c:66-76 | stepping over an entry that does not probe through the hole is safe |
| `HashIndex.ShiftDone` | src/fffs_hashtable_index.c:66-78 | at an empty bucket the hole can be emptied without leaving a gap |
| `HashIndex.FullTableNeverStops` | src/fffs_hashtable_index.c:66-76 | without an empty bucket the removal loop is still going after any number of turns |
| `IndexLog.FoldAt` | src/fffs_index_log.c:719-816 | replay gives each slot the head of its last record, and leaves an unmentioned slot alone |
| `IndexLog.CompactionKeepsMeaning` | src/fffs_index_log.c:522-580 | folding the rest and then the current records of the oldest sector equals folding oldest and then rest, for head equality as the notion of current |
| `IndexLog.NewestKeepsMeaning` | src/fffs_nocache_index.c:458-475 | the same for "no newer record" as the notion of current |
| `IndexRing.FlagsAreAtomic` | src/fffs_index_log.c:67-84 | the valid bit and the tombstone bit of a header each either happened or did not |
| `IndexRing.DiscoveryExact` | src/fffs_index_log.c:86-134 | discovery returns the true active and oldest sector and count if and only if there are at most nine headers or they do not wrap; otherwise exactly what it returns instead |
| `IndexRing.ScanResult` | src/fffs_index_log.c:90-108 | which header the scan settles on, wrapped or not, for every ring position and starting serial |
| `IndexRing.OldestFrom` | src/fffs_index_log.c:114-134 | following serials backwards from any sector of the sequence ends at its oldest sector |
| `IndexJournal.FindIndexSequence` | src/fffs_index_log.c:154-259 | the scanning loop computes the discovery function |
| `Journal.MountIdentity` | src/fastffs.c:107-190 | mounting an uninterrupted journal gives back exactly that journal, strict or not |
| `Journal.RotationKeepsInv` | src/fffs_index_log.c:632-685 | rotation, with or without compaction, keeps the namespace, consecutive serials and at most N-1 sectors in sequence |
| `Journal.RotationSparesSequence` | src/fffs_index_log.c:632-657 | the sector that rotation erases is never one in sequence, also when the append then reports a full index |
| `Journal.CompactFilled` | src/fffs_index_log.c:499-580 | during a compacting rotation the sectors that stay in sequence stay full, and the records of the oldest one are good ones |
| `Journal.Copied` | src/fffs_index_log.c:522-580 | the records that rotation copies fit one sector |
| `Journal.RotationCrash` | src/fffs_index_log.c:632-685 | after every power cut in a rotation, discovery, finish-interrupted and replay rebuild exactly the namespace from before it, and a whole journal |
| `Journal.TornAppend` | src/fffs_index_log.c:719-816 | for every subset of bits cleared in the slot word and then the head word, one mount yields the namespace before or after the append, and a whole journal |
| `Journal.TornAppendExact` | src/fffs_index_log.c:719-816 | with any live roots on the volume: one mount yields the namespace before or after the append if and only if the head word has not torn to a third live root of the slot; if it has, the slot gets that root |
| `Journal.AppendRefinesMap` | src/fffs_index_log.c:610-630 | an append is a map update or, in a full index, changes nothing; the invariant holds either way |
| `Journal.AppendCrash` | src/fffs_index_log.c:610-685 | a power cut anywhere in an append, its rotation included, leaves the namespace before or after it |
| `Journal.RunRefinesFold` | src/fffs_index_log.c:610-816 | through any run of appends, rotations, power cuts and mounts, on 2 to 15 index sectors, the namespace is the last-writer-wins fold of the appends that took effect; only where the power is cut must discovery be able to tell the sequence |
| `Journal.ClobberCutExact` | src/fffs_index_log.c:304-320 | a second cut inside the clobber of a record that an interrupted append left: the next mount finds the namespace before or after that append if and only if the cut has not left a record that deletes a stored slot or leads another slot to a root |
| `Journal.ClobberLosesFile` | src/fffs_index_log.c:304-320 | for every stored file: interrupt its replacement after the slot word and the clobber after the head word, and the mount has lost the file, old and new |
| `Wrapping.MountExact` | src/fffs_index_log.c:86-134 | mounting a whole journal gives it back if and only if it has at most nine sectors in sequence or does not wrap |
| `Wrapping.NewestDropped` | src/fffs_index_log.c:86-134 | otherwise the mount stops at the end of the ring: the newest sectors are out of the sequence, and the namespace is what the older records say |
| `Wrapping.WrappedLoss` | src/fffs_index_log.c:86-134 | with eleven or more index sectors there is a run of appends from format on whose last file the next mount does not find |
| `IndexJournal.IndexJournal.AppendRecord` | src/fffs_index_log.c:610-630 | the class's append is the specified one, and all its cuts are append cuts |
| `IndexJournal.IndexJournal.Rotate` | src/fffs_index_log.c:665-685 | erase, copy, commit and tombstone compute the specified rotation; all cuts are rotation cuts |
| `IndexJournal.IndexJournal.CompactOldestCopy` | src/fffs_index_log.c:522-580 | the copying loop writes exactly the surviving records, while the fresh sector has no valid header |
| `IndexJournal.IndexJournal.Mount` | src/fastffs.c:107-190 | discovery, interrupted compaction and replay with any scratch size compute the mount function |
| `IndexJournal.ReplayOneSector` | src/fffs_index_log.c:719-816 | chunked replay of a sector, with the torn-tail test, computes the replay function for every chunk size |
| `IndexJournal.RecordIsTerminal` | src/fffs_index_log.c:342-377 | true exactly if everything behind the record is erased |
| `LogScan.HeadForSlot` | src/fffs_nocache_index.c:427-456 | the backward scan answers what the folded namespace has |
| `LogScan.NewerRecordForSlot` | src/fffs_nocache_index.c:148-183 | whether a later record mentions the slot |
| `LogScan.Iterate` | src/fffs_nocache_index.c:328-390 | each live slot exactly once, with its head |
| `LogScan.CurrentIsNewest` | src/fffs_nocache_index.c:458-475 | the scanning notion of current keeps exactly the newest records |
| `LogScan.DirectTable.Set` | src/fffs_ram_index.c:25-40 | map update or removal, never refused |
| `LogScan.DirectTable.HeadForSlot` | src/fffs_ram_index.c:154-159 | map lookup |
| `LogScan.DirectTable.Iterate` | src/fffs_ram_index.c:137-152 | each live slot exactly once |
| `NameIndex.CandidatesDistinct` | src/fffs_index_log.c:23-39 | the 51 candidate slots of a name are distinct proper slots |
| `NameIndex.ResolveByProbe` | src/fffs_hashtable_index.c:126-199 | finds the first candidate that holds the name, else the first free one, else no space |
| `NameIndex.ResolveByScan` | src/fffs_nocache_index.c:228-326 | the backward scan with its two bit sets meets the same specification |
| `NameIndex.BackEndsAgree` | src/fffs_nocache_index.c:228-326 | for a uniquely stored name the specification has one answer, so all back ends agree |
| `NameIndex.NamesStayFindable` | src/fffs_hashtable_index.c:126-199 | through any run of opens, commits, deletes and compactions every stored name is found at its slot and no other name is |
| `SectorMd.LifecycleTorn` | src/fffs_internal.h:93-113 | torn lifecycle bytes: a live record stays live or becomes dead, the full hint never touches liveness |
| `SectorMd.EncodeRoundTrip` | src/fffs_file_md.c:66-143 | decoding an encoded record gives it back |
| `SectorMd.AppendRecord` | src/fffs_file_md.c:542-593 | after the record is programmed the walk yields the old records followed by the new one |
| `SectorMd.WindowWrite` | src/fffs_file_md.c:189-223 | any write, torn or whole, between claimed data and records leaves every record as it is |
| `SectorMd.TombstoneWrite` | src/fffs_file_md.c:329-408 | tombstoning a record, torn or whole, changes that record's state and nothing else |
| `SectorMd.FullHintWrite` | src/fffs_sector.c:118-122 | the full hint, torn or whole, leaves records and liveness alone |
| `SectorMd.WindowIsFree` | src/fffs_file_md.c:416-532 | a window is erased, between all claimed data and all records, large enough, in a sector without a live record of the slot |
| `SectorMd.FindSectorFreeWindow` | src/fffs_file_md.c:416-532 | the search loop computes the specified window |
| `SectorMd.TornRootNeverOverwritten` | src/fffs_file_md.c:416-593 | a window granted after a torn packed root lies behind everything that was written, record place included |
| `Tears.TornData` | src/fffs_file.c:533-561 | every cut of a data program leaves a sector in order |
| `Tears.TornTombstone` | src/fffs_file_md.c:329-408 | every cut of a record tombstone leaves a sector in order |
| `Tears.TornHint` | src/fffs_sector.c:118-122 | every cut of the full hint leaves a sector in order |
| `Tears.TornSectorTombstone` | src/fffs_sector.c:107-116 | every cut of a sector tombstone leaves a sector in order |
| `Tears.TornFinish` | src/fffs_file_md.c:609-641 | every cut of link, size or state of a begun record leaves a sector in order |
| `Tears.TornRecordExact` | src/fffs_file_md.c:542-593 | a torn record in a shared sector leaves order if and only if what is left of it is not a live record of a slot that has one there |
| `Tears.TornBegun` | src/fffs_file_md.c:595-607 | so a torn begun record always does |
| `Tears.TornFirstExact` | src/fffs_file_md.c:542-593 | a torn record with footer always leaves order if and only if the data before it is not all 0xff |
| `Tears.HalfTailBreaks` | src/fffs_file_md.c:416-532 | over data that is all 0xff there is a tear after which the search grants every slot a window whose record place has been programmed |
| `Tears.CutExact` | src/fffs_flash.c:124-131 | a cut program leaves the sectors of the volume in order if and only if it leaves its own one in order |
| `Tears.TombstoneImage` | src/fffs_file_md.c:329-408 | every image of a record tombstone on the volume is in order, so every image of a removal and of a dying old chain is |
| `Tears.HintImage` | src/fffs_sector.c:118-122 | every image of a full hint on the volume is in order |
| `Tears.DataImage` | src/fffs_file.c:533-561 | every image of a data program into a writer's window on the volume is in order |
| `SectorView.WalkNext` | src/fffs_file_md.c:189-223 | one step of a resumed walk yields the next record of the sector |
| `SectorOps.ReadMdForSlot` | src/fffs_file_md.c:225-284 | the first live record of the slot, or corrupt |
| `SectorOps.TombstoneMetadataForSlot` | src/fffs_file_md.c:329-408 | the slot's live record dies, all else stays, at every cut; with accounting on, a live root's size is taken off the counters and reported as accounted, otherwise the counters stay |
| `SectorOps.TombstoneSector` | src/fffs_sector.c:107-116 | the footer is dead afterwards |
| `Extents.WindowGranted` | src/fffs_file_md.c:416-532 | in a sane sector a window is free for data and record |
| `Extents.ProgramData` | src/fffs_file.c:533-561 | data, with its padding, extends what is in the window and disturbs nothing, at every cut |
| `Extents.ProgramExtentMetadata` | src/fffs_file_md.c:542-593 | the record is appended, with footer and full hint where due; every cut leaves all other records |
| `Extents.MarkFull` | src/fffs_sector.c:118-122 | only the hint changes |
| `Extents.FindWindow` | src/fffs_file_md.c:416-532 | a granted window, or at most a full hint |
| `Finish.ReadUncommitted` | src/fffs_file_md.c:410-414 | the begun record of the slot |
| `Finish.FinishExtent` | src/fffs_file_md.c:609-659 | link, size and state make the begun record the finished one; every cut leaves all live records and data |
| `Leftover.FoundExactly` | src/fffs_file_md.c:410-414 | the record that is finished is the writer's own if and only if no other uncommitted record of the slot is in the sector |
| `Leftover.LeftoverGranted` | src/fffs_file_md.c:416-532 | an uncommitted root of the slot does not keep the search from granting its sector to the slot again |
| `Leftover.RewrittenWrong` | src/fffs_file_md.c:609-659 | after a cut between the two programs of a root record, a root of the same slot begun behind it is not the one that goes live: the old record does, with the old data |
| `Leftover.CutBefore` | src/fffs_file_md.c:609-659 | the image between two programs is a cut |
| `Files.ChainLength` | src/fffs_gc.c:27-56 | a chain visits no sector twice, so it is shorter than the volume |
| `Files.ChainUnique` | src/fffs_file.c:274-315 | a slot and a head have at most one chain |
| `Files.ChainKept` | src/fffs_file_md.c:225-284 | a chain whose records and data are kept is the same file |
| `Content.PrefixRoundTrip` | src/fffs_file_md.c:14-64 | the staged prefix reads back as the name and the start of the payload, and never starts with 0xff |
| `Mounted.KeptSound` | src/fffs_gc.c:361-655 | a change that keeps needed records and open sectors keeps all files |
| `Mounted.Volatile.ProgramSector` | src/fffs_flash.c:124-131 | a program inside a sector, with its cuts |
| `Gc.ReachableFromChain` | src/fffs_gc.c:27-56 | on every chain the span-wise walk answers exactly whether the sector is on it |
| `Gc.ClassifyRecord` | src/fffs_gc.c:361-394 | a record is kept for an open file or because its file reaches it, else nothing needs it |
| `Gc.GcStep` | src/fffs_gc.c:396-655 | from every sound state, also in the middle of a walk, one step keeps every needed record and every open sector, at every cut, makes progress, lets no record become live, and comes past no live record of an open file without noting that |
| `GcPass.Pass` | src/fffs_gc.c:678-718 | a pass over at least two data sectors ends, under sectors left and then the walk's rank; what it notes for compaction is fit for it; a pass that trusts no map, starts with no walk under way and erases nothing has found a live record that is pinned or reached in every sector outside the reserve and those of open writers, so nothing there could have been erased; and an error means a sector whose footer is neither live nor fit for erasing |
| `GcPass.OneSectorPass` | src/fffs_gc.c:678-718 | with one data sector, from any state of the walk, the pass does not end, for any number of turns, if the sector is passed by or holds a record that is pinned or reached and not yet passed unseen; otherwise it ends, in a number of turns that is stated, save for a pass that trusts the map and first finishes a walk that marks the sector in it |
| `Witness.StuckPass` | src/fffs_gc.c:678-718 | a volume of three sectors with one small file on which the pass does not end, for any number of turns |
| `GcPass.CandidateTwins` | src/fffs_gc.c:77-108 | every live root of a noted sector heads its slot's file |
| `GcPass.CompactUntilErased` | src/fffs_gc.c:306-333 | over all candidates the files stay the same, and success means an erased sector; failure frees none |
| `GcPass.GcUntilErased` | src/fffs_gc.c:678-718 | ends, keeps all files, and returns an erased sector if it reports success; lack of space means that none outside the reserve and those of open writers is erased, and that before compaction began all of them held a live record that is pinned or reached; corruption that some footer is neither live nor fit for erasing |
| `GcPass.TwoPasses` | src/fffs_gc.c:686-716 | from any state of the walk: if the two passes before compaction erase nothing, everything outside the reserve and the sectors of open writers holds a live record that is pinned or reached |
| `Compact.HeadMoves` | src/fffs_gc.c:165-192 | a copied root, relinked to the sector after the source where it headed a span, heads the same file |
| `Compact.FindCompactionRootWindow` | src/fffs_alloc.c:91-188 | a granted window in another sector that no writer occupies |
| `Compact.CopyRootRecord` | src/fffs_gc.c:165-192 | copy and re-index keep all files, at every cut |
| `Compact.TombstoneCopiedRoots` | src/fffs_gc.c:194-232 | the cleanup after a half-way failure kills only roots whose copies are in use |
| `Compact.CompactRootOnlySector` | src/fffs_gc.c:234-304 | all names and bytes are the same afterwards, on success and on a mid-way lack of space, at every cut, inside its index records too; open files keep their place, no record of theirs appears or goes, and every live root that appears is a branch of its slot's chain |
| `Strays.CopyExact` | src/fffs_gc.c:165-192 | after a live root has been copied and indexed its slot has its file; so the files are the same if and only if that is the file that the index had for the slot |
| `Alloc.HalveReservations` | src/fffs_alloc.c:222-244 | every reservation is halved, disjointness is kept |
| `Alloc.ReserveAfter` | src/fffs_alloc.c:246-269 | reservations stay pairwise disjoint and outside the erased compaction reserve |
| `Alloc.TryReserved` | src/fffs_alloc.c:282-319 | the reserved sector is handed out only if it is erased and nobody's |
| `Alloc.AllocOnce` | src/fffs_alloc.c:321-388 | the cursor scan hands out only a sector that no writer occupies |
| `Alloc.TryCompactionReserve` | src/fffs_alloc.c:406-437 | a sector of the compaction reserve leaves the reserve when it is handed out |
| `Alloc.AllocNextSector` | src/fffs_alloc.c:441-497 | whichever rung of the ladder finds it, the sector is no other writer's head, current or in-span sector and not reserved for compaction; no file and no open file is disturbed; and it fails only if no sector is erased but those of open writers and the collector has found all of them, but for at most five, in use, or if a footer is unknown |
| `Drafts.ChainBuilt` | src/fffs_file.c:563-588 | linked live extents are a chain that stores the pieces |
| `Drafts.FileSays` | src/fffs_file.c:105-112 | the chain's file has the name and all bytes that were written |
| `Writer.Flush` | src/fffs_file.c:533-561 | what was cached is on flash, nothing else has changed |
| `Writer.FinishCurrent` | src/fffs_file.c:590-644 | the current extent gets its record |
| `Writer.FinishSpan` | src/fffs_file.c:563-588 | the head of the span gets its link |
| `Writer.WriterSurvives` | src/fffs_alloc.c:441-497 | collection and compaction during an allocation leave a writer's work intact |
| `Streaming.StartNextExtent` | src/fffs_file.c:590-644 | the stream goes on in a new sector, or fails with nothing lost |
| `Streaming.Write` | src/fffs_file.c:646-686 | whatever the chunk, exactly its bytes (on failure, which means that there is no room, a prefix) are appended to what was written; no file or open file is disturbed, at every cut; all other writers stay writable with the handle, extents, draft and note that they had |
| `Streaming.StayByWrite` | src/fffs_file.c:646-686 | what one writer does leaves every writer of another slot where it was |
| `Sharing.AllStay` | src/fffs_alloc.c:441-497 | allocation, collection and compaction leave every writer where it was |
| `Bystanders.StayBySpared` | src/fffs_file.c:702-775 | a close leaves every writer of another slot where it was |
| `Notes.NoteKept` | src/fffs_file.c:725-768 | a note that is known and safe to follow stays so while others work and while its own writer goes on, whichever of the cases it turns into |
| `Notes.TrueIsBranch` | src/fffs_file.c:186-235 | a true note about a stored file leads to a live root with the slot's chain behind it, and its link leads into that chain |
| `Sharing.HarmSeen` | src/fffs_file.c:756-768 | of a writer with a known note: the note is harmful if and only if the noted sector is the one being written or has an extent of the writer |
| `Commit.FinishAll` | src/fffs_file.c:702-760 | all extent records are live before the index record |
| `Commit.CommitIndex` | src/fffs_file_md.c:643-648 | the journal takes the record or is full; before it the old file is there, after it the new one, and the passage from one to the other is ready for a remount |
| `OldChain.Invalidate` | src/fffs_file.c:15-78 | a chain that no file needs dies as a whole, span by span, no file notices, at every cut, and its root's size is taken off the counters; if the note goes on elsewhere on the chain some of it dies, and no file notices either; a head without a record of the slot changes nothing; in any case only records of the slot die, among them the one at the head |
| `Closing.DropOld` | src/fffs_file.c:756-768 | the old chain goes as far as the note leads, with the not-accounted fallback that gives the counters up |
| `Closing.CloseCounts` | src/fffs_file.c:755-768 | whether the old file was accounted for or the counters were given up, counters that were right are right |
| `Closing.CloseOnFlash` | src/fffs_file.c:702-768 | what close does on flash for every note: true, a branch of the old chain, stale, or about the new file itself; in the last case the committed file is destroyed, in the others all other writers and files are intact |
| `Closing.FileLost` | src/fffs_file.c:756-768 | if a record on the chain of a stored file dies, no chain starts where the index says, so the slot has no file at all |
| `Closing.Close` | src/fffs_file.c:702-775 | crash-atomic replace, for every note but a harmful one: at every cut the volume has all files as before or all as after; afterwards the slot has the written bytes under the name, every other file is the same, all other writers stay writable, no uncommitted record of the slot is left and valid counters count the files; it fails exactly if the journal does not take the record, and then leaves the volume in order if and only if the index knows the slot; with a harmful note the file is in the index and destroyed |
| `Opening.OpenWriter` | src/fffs_file.c:159-248 | no file changes at any cut, the handle is ready to be written to, and all other writers stay writable; the noted chain is the slot's chain afterwards if and only if the allocation has not moved its head, and whatever it has done the note is one that a close can deal with; failure means that there is no room |
| `Opening.NoteExact` | src/fffs_file.c:186-235 | a note that was true is true of a later state with the same files if and only if the head is where it was, with the same link |
| `Opening.NoteFresh` | src/fffs_file.c:186-235 | after the allocation made by an open a note that was true is true, or leads to a branch of the slot's chain, or to nothing, or to the new root; and if it is not true no walk is under way |
| `Witness.StaleNote` | src/fffs_file.c:186-235 | a volume and a writable handle whose note, taken as open takes it, does not lead to the slot's chain after the steps of a compaction |
| `Witness.HarmfulNote` | src/fffs_file.c:590-644 | that writer, gone on in the noted sector, is writable with a harmful note |
| `Witness.LostFile` | src/fffs_file.c:702-775 | its close commits the new file and destroys it: the old file is gone, and no chain starts where the index says |
| `Storing.StoreFile` | src/fffs_file.c:159-775 | open, any chunking of writes and close: the file holds the concatenation, or space ran out and no file has changed; at every cut all files as before or all with this one; counters stay right; the file is lost only if the allocation of the open has moved the head of the old file |
| `Storing.WriteFile` | src/fffs_file.c:646-775 | the same from an open handle with any known note; if the note was true the file is not lost |
| `Storing.StoreThenRead` | src/fffs_file.c:159-775 | any mix of reads and seeks after that answers as the concatenated chunks would |
| `Storing.ReaderUndisturbed` | src/fffs_file.c:146-157 | a pinned stored file keeps head, path, records and data while writers and collector work |
| `Naming.NameStored` | src/fffs_file_md.c:14-64 | the name read from a stored file's root is the file's name |
| `Naming.Findable` | src/fffs_hashtable_index.c:126-199 | on the volume, while every file is in its name's window and no two have one name: a stored name resolves to its slot and head, and what a name resolves to has that name |
| `Naming.StoreByName` | src/fffs_file.c:159-775 | open by name, write and close: afterwards the name resolves to the stored file whatever is pinned, and still no two files have one name; only the slot that the name resolves to must be without leftovers |
| `Deleting.DeleteFile` | src/fastffs.c:237-271 | at every cut all files or all but this one; afterwards the volume is in order exactly if the slot had no second live root, and then every writer stays writable, also one of the same slot; valid counters count the files |
| `Deleting.GoneStrays` | src/fastffs.c:237-271 | every live root is indexed after a delete if and only if the file's head was the slot's only live root |
| `Deleting.DeleteCounts` | src/fastffs.c:263-268 | taking the size of the root off counters that are right makes them right for the files that are left |
| `Deleting.StayByDelete` | src/fastffs.c:237-271 | a delete leaves every writer where it was, and the note of one that was about to replace the file still safe to follow |
| `Remount.RecordCrash` | src/fffs_index_log.c:610-816 | a cut anywhere in an index record or its rotation, and a mount over the real data sectors: the files from before it or from after it |
| `Remount.QuietCrash` | src/fastffs.c:107-190 | a cut outside the journal and a mount: the journal is the same and the files are those that the cut left |
| `Remount.PassageBoots` | src/fastffs.c:107-190 | every flash image of an operation with one index record, cut in the data sectors, in the record or in the rotation, mounts to the files before or after |
| `Remount.EveryCutBoots` | src/fastffs.c:107-190 | in an operation with any number of index records every image, of a data sector, of an index record or of a rotation, mounts to the files before or after |
| `Remount.ImageBoots` | src/fastffs.c:107-190 | an image that holds the files before or after, or whose unfinished record makes the difference, mounts to one of them, whatever the record and the rotation have left of the journal |
| `Remount.SmallRing` | src/fffs_index_log.c:86-134 | on up to nine index sectors an image in an index record asks of a mount only that the slot has no third live root |
| `Crashes.CloseThenCrash` | src/fffs_file.c:702-775 | close with any note but a harmful one, a power cut at any whole or torn step, and a mount: all files as before or all as after |
| `Crashes.DeleteThenCrash` | src/fastffs.c:237-271 | delete, a power cut and a mount: all files, or all but this one |
| `Crashes.MoveHeadThenCrash` | src/fffs_gc.c:165-192 | the index record of a compaction step, a power cut and a mount: the same files |
| `Crashes.CompactThenCrash` | src/fffs_gc.c:234-304 | a whole compaction, a power cut at any point of it, its index records and rotations included, and a mount: the same files |
| `Recovery.MountAgain` | src/fastffs.c:107-190 | the mounted volume has all files; it is sound if and only if the cut left every sector in order, and ready for writers if and only if it also left no live root that the index does not know |
| `Recovery.ReadAfterCrash` | src/fffs_file.c:405-531 | after a power cut and a mount any reads and seeks answer as the bytes of the file, whatever the cut did to free space |
| `Reader.FileIsView` | src/fffs_file.c:274-315 | a stored file is a sequence of extents that read one after the other |
| `Reader.FileReader.constructor` | src/fffs_file.c:159-248 | the handle starts at the root, with true cache contents |
| `Reader.FileReader.Read` | src/fffs_file.c:405-495 | exactly the bytes from the position on, as many as asked for and there are |
| `Reader.FileReader.Hunt` | src/fffs_file.c:317-372 | the interpolating search ends; it finds the extent of the span that holds the target if there is one, else it leaves the handle alone |
| `Reader.FileReader.Seek` | src/fffs_file.c:497-531 | reaches any position from 0 to the size, refuses all others, and never reports corruption on a stored file |
| `Reader.FileReader.StillValid` | src/fffs_file.c:405-495 | changes that keep the file's records and data do not disturb a reader |
| `Reader.Session` | src/fffs_file.c:405-531 | any sequence of reads and seeks, while other work goes on, answers as the plain bytes would |
| `Counters.CloseKeepsRight` | src/fffs_file.c:755-768 | after the notes of a close the counters are right; they stay valid if and only if the wrapped total is not smaller than the replaced file |
| `Counters.DeleteKeepsRight` | src/fastffs.c:53-64 | the same for a delete |
| `Counters.AlongIsTotal` | src/fastffs.c:285-312 | a pass over the slots in any order sums up to the total |
| `Fsinfo.Refresh` | src/fastffs.c:285-312 | succeeds if and only if every indexed slot has its root; then the counters are valid and count the stored files, otherwise they are given up |
| `Runs.Run` | src/fffs_file.c:159-775 | any sequence of opens, writes, closes, removals, reads and collections with any number of writers at a time: at every moment the volume is ready, its files are those of the map, every writer is writable and alone in its sectors; every answer is the map's, or there was no room; each close stores what its writer has written; it goes on to the end unless a job leaves a volume that is not in order, and those are exactly a close with a harmful note, a failed close of a new file and a removal with a second live root |
| `Runs.Do` | src/fffs_file.c:159-775 | one job of such a run: the map goes on as the answer says, a close succeeds exactly if the journal takes its record, and the volume is in order afterwards if and only if the job was none of those three |
| `Runs.RunFromFormat` | src/fastffs.c:67-105 | the same from a formatted device on, without hypotheses about the volume |
| `Runs.CollectAll` | src/fffs_gc.c:678-718 | a collection while writers are open: all of them stay where they were |
| `Runs.NothingShared` | src/fffs_alloc.c:246-269 | at every moment of a run no two writers have a sector in common that they write to or have reserved |
| `Runs.QuietBoot` | src/fastffs.c:107-190 | at every moment of a run a mount of what is on flash finds the files of the map |
| `Runs.CutLeavesPrefix` | src/fastffs.c:107-190 | after a power cut anywhere in a run, in a data sector, an index record or a rotation, the mount finds exactly what the first jobs, up to some point, make of the map |
| `Runs.CountersRight` | src/fffs_file.c:755-768 | valid counters count the files at every moment of a run |
| `Runs.Resume` | src/fastffs.c:107-190 | after the mount any further jobs go on from that map, if the cut left the sectors in order, all live roots known and no record unfinished |
| `Shelves.MeansFound` | src/fffs_hashtable_index.c:126-199 | a name resolves on the volume if and only if the map has it, to a file with the map's bytes |
| `Shelves.MeansPut` | src/fffs_file.c:702-775 | with one file stored in the slot that its name leads to, the volume is the map with that name set |
| `Shelves.MeansRemove` | src/fastffs.c:237-271 | without the file of a name the volume is the map without that name |

## Left out

- Sector-size probing in `fffs_find_index_sequence`: the geometry is taken as known.
- `fffs_hash16`: an arbitrary function into 16 bits.
- Backend I/O errors; every flash step succeeds unless the power goes.
- A power cut during recovery, beyond what `Journal.ClobberCutExact` says about the clobber.
- NameIndex.NamesStayFindable: about slots and names alone; on the mounted volume, with its writers and power cuts, it is `Runs.Run`.
- Witness.StaleNote: takes the steps of an allocation that compacts one after the other; that a call of `Opening.OpenWriter` takes them does not follow from its contract, which leaves open which sector is found.
- Runs.Run: keeps no read handles open from one job to the next; what such a handle reads while others work is `Reader.Session` with `Storing.ReaderUndisturbed`.
- Runs.Resume: asks for order that not every image has. `Tears` says which programs leave it; a cut between the index record and the end of the old chain leaves a live root that is known only if the slot still has a file, and a cut in a writer's root leaves a record unfinished.
- GcPass.CompactUntilErased: how much space makes a compaction worth it (`gc_fsinfo_allows_compaction`) is a parameter, since it has no bearing on safety; the test may count the files afresh on its way, which changes only the counters (`Fsinfo.Refresh`).
- An append that writes flash and then fails to update a full hash table: the journal works with an unbounded map.
- `src/fffs_sector_reader.c`: records are read from the sector's bytes directly.
- Modes other than the default: lazy tombstones, allocation without a map, paranoid collection, RAM back ends without the journal.
- Directory iteration during changes, `fffs_fstat`, `fffs_list`, `fffs_format`, profiling, status names, sectors-per-file average and metadata estimate.
- The flags of `fffs_open` (create, exclusive, truncate), which only refuse calls.
- Reads through a handle whose file has been replaced or deleted.
- The serial numbers of data sectors, beyond that they are written.
