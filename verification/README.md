# Kopia repository core, modelled and proved in Dafny

Kopia's repository is a content-addressed store in layers. Blocks named by the hash of their
contents are encrypted into pack files. Index files say where each block is; they are written
once, merged on reading and compacted without locks by any number of managers. Above the blocks,
objects of any size are chunks and lists of chunks, and manifests are a small last-writer-wins
database. A cache sits between the manager and the storage.

The project has one module per part:

| module | part |
|---|---|
| `ByteStrings`, `ContentId`, `BlockInfo` | byte strings, content IDs and their binary keys, index entries |
| `IndexFormat`, `IndexBuilder`, `IndexReader` | the index file: bit layout, writing, searching |
| `ContainerHeap`, `MergedIndex`, `CommittedIndex` | the heap, lookup and k-way iteration over several indexes, and what the index files in use answer |
| `IndexCompaction`, `ConflictingTies`, `DroppedTombstones` | compaction, the protocol several managers run over shared storage, and what it promises when entries tie and when old tombstones are dropped |
| `Crypto`, `Postamble`, `PackFile` | naming and encryption of blocks, pack files and their recovery data |
| `BlockState`, `BlockPacking`, `BlockWrites`, `BlockRuns`, `PackAssertion`, `PackPacing`, `BlockLookup`, `OtherTexts`, `DamagedPacks`, `BlockListing`, `UnreferencedPacks`, `BlockRecovery`, `BlockManager` | the block manager: state machine, invariants, whole runs, its own assertion, when it writes files, lookups in the stored files of block IDs and of other texts, reading damaged packs, listings, packs no longer referenced, recovery from packs, and the object itself |
| `AtomicFlush` | changes made while index flushes are disabled |
| `BlockStores`, `StoreOfBlocks` | what the users of the block manager see of it, and that this is exact |
| `Manifests`, `ManifestRuns`, `DeletedManifest`, `ManifestManager`, `ManifestsInBlocks` | the manifest database, its runs over such a block store, its manager, and its compaction over the block manager |
| `ObjectSplitter`, `Objects`, `ObjectWriter`, `ObjectReader` | cutting, writing, reading, seeking and verifying objects |
| `ObjectsInBlocks` | objects over the block manager, end to end |
| `CacheSweep`, `BlockCache` | the block cache and its sweep |
| `FormatBlock`, `FormatInPacks` | the format block's checksummed copies, and finding one in every pack |

How the model is set up:

- Go strings and byte slices are sequences of bytes. Integer widths are written out: truncation
  to 32 bits, shifted fields and bitwise or are explicit.
- Everything from outside is a parameter: the clock, random names and padding, the iteration
  order of maps, the order of listings, and whether the storage accepts or deletes a file. The
  theorems hold for every choice, and so for every storage failure along the way.
- Hash, cipher, CRC, HMAC and the JSON form of lists are functions with the one law each that is
  used (decrypting undoes encrypting, a fixed width, decoding undoes encoding for the lists that
  the writer makes). A hash is never
  taken to be injective; where contents must not collide, that is said of the contents at hand.
- Objects that change in place are classes. Their methods are proved to make exactly the step of
  a pure state machine, and the theorems are about the runs of that machine.

Where a promise turns out not to hold of the code, the code is kept as it is. There is then a
case in which it fails, and a theorem that says exactly when it holds:

- A content ID survives the trip through its binary key exactly when it is canonical
  (`ContentId.KeyRoundTrip`); "AB" comes back as "ab" (`ContentId.CapitalsAreLost`).
- An entry survives the index format exactly when its fields fit (`IndexFormat.EntryRoundTrip`);
  one at an offset of 2^31 or more comes back deleted (`IndexFormat.HighOffsetReadsDeleted`).
- Lookups are those of a map for block IDs (`BlockLookup.LookupsAreSteps`). Other texts can share
  the key of a block: an ID in capitals reads the block and deletes it
  (`OtherTexts.CapitalsReadTheBlock`, `OtherTexts.CapitalsDeleteTheBlock`). The texts looked up as
  in a map in all valid states are exactly those of `OtherTexts.MapIffUnmistakable`.
- Compaction that drops old tombstones changes the lookups over the whole storage exactly as
  `DroppedTombstones.DroppingUncovers` says. A deleted block can come back
  (`DroppedTombstones.DroppedTombstoneBringsBack`). If nothing is left to merge, the merged file
  is empty, and every lookup fails from then on (`DroppedTombstones.EmptiedMergeStopsLookups`).
- Newest wins under compaction by any number of managers exactly when entries for one ID with the
  same timestamp are identical (`ConflictingTies.NewestWinsIffTiesAgree`). Otherwise two managers
  can even lose everything (`ConflictingTies.ConflictingTiesLoseEverything`).
- A block that was deleted, written again and deleted again before a flush stays readable
  (`BlockRuns.ReCreatedBlockSurvives`); deleting removes a block exactly when
  `BlockRuns.DeleteRemovesIff` says.
- The code's own assertion that a deleted entry of `packIndexBuilder` names no pack
  (block/block_manager.go:236) fails after a delete and a flush with index flushes disabled
  (`PackAssertion.TombstoneBreaksAssertion`). It holds exactly when
  `PackAssertion.AssertionHoldsIff` says, and `PackAssertion.StepBreaksIff` says exactly which
  calls break it. The inductive invariant is `BlockState.Inv`: an entry that is no longer pending
  names a pack, has no payload and fits the index format.
- Manifest compaction undoes a delete that was not flushed yet
  (`Manifests.CompactionUndoesDelete`), and so does a refresh once there are 16 blocks, because it
  compacts (`Manifests.RefreshUndoesDelete`). They keep every answer exactly when
  `Manifests.CompactPreservesIff` and `Manifests.ReloadPreservesIff` say.
- A manifest that was deleted and flushed can come back
  (`DeletedManifest.DeletedManifestComesBack`): a compaction writes again a manifest block that an
  earlier one deleted and that the index files still have as live, and the next compaction only
  uncovers it. Writing re-creates a block in this way exactly when `Manifests.FlushPlainIff` says,
  and the deletes of a compaction remove its blocks exactly when `Manifests.DeletesRemoveIff`
  says.
- Seeking to the very end of an object fails; a chunk that cannot be opened makes a read skip
  bytes and a seek lose its position, exactly as `ObjectReader.Reader.Read` and
  `ObjectReader.Reader.SeekTo` say.

## Model

| member | source | states |
|---|---|---|
| `ContentId.KeyRoundTrip` | block/content_id_to_bytes.go:7-38 | a content ID comes back from its binary key if and only if it is canonical: text that is not base 16, or lower-case base 16 behind an optional prefix byte other than 0 and 0xff |
| `ContentId.CapitalsAreLost` | block/content_id_to_bytes.go:7-38 | the text "AB" comes back from its key as "ab" |
| `ContentId.UpperSharesKey` | block/content_id_to_bytes.go:22-38 | an ID without prefix and the same text in capitals have one key; the capitals are not canonical and come first in the order of IDs |
| `ContentId.KeyInjective` | block/content_id_to_bytes.go:22-38 | distinct canonical IDs have distinct keys, so an index never confuses two blocks |
| `ContentId.HashIdCanonical` | block/block_manager.go:624-655 | every ID the manager makes, prefix and hash, is canonical and its key has the length of the hash plus one |
| `ContentId.HexReencode` | block/content_id_to_bytes.go:22-38 | text that decodes from base 16 re-encodes to itself if and only if it has no capital letters |
| `BlockInfo.EnumerationUnique` | block/builder.go:22-34 | a builder has one enumeration in ascending ID order, so the written file does not depend on map iteration order |
| `BlockInfo.WithPrefixContents` | block/index.go:60-88 | the part of a sorted listing under a prefix is exactly the entries with that prefix, still ascending |
| `BlockInfo.AddSeqIsAddAll` | block/builder.go:15-20 | adding the entries of one builder to another in any order keeps, for every ID, the entry that is not older |
| `IndexFormat.EntryRoundTrip` | block/format.go:36-74 | an entry parses back from its 20 bytes as it was formatted if and only if length, offset, timestamp, name and version fit their bit fields |
| `IndexFormat.HighOffsetReadsDeleted` | block/format.go:48-70 | a live entry at an offset of 2^31 or more is read back as deleted, at an offset 2^31 lower |
| `IndexFormat.OpensIff` | block/index.go:33-55 | any bytes open as an index file if and only if they begin with a header of version 1 and a key length above one, which is then read as it stands |
| `IndexFormat.EncodeOpens` | block/index.go:33-55 | the bytes written for any encodable builder open, and every row and pack name is found where the header and the row say |
| `IndexBuilder.PackIndexBuilder.Add` | block/builder.go:15-20 | the builder afterwards is the builder with the entry added unless the one there is newer |
| `IndexBuilder.PackIndexBuilder.SortedBlocks` | block/builder.go:22-34 | the result enumerates the builder in ascending ID order |
| `IndexBuilder.PackIndexBuilder.Build` | block/builder.go:45-82 | the outcome, bytes or error, is the encoding of the sorted entries, for every builder |
| `IndexBuilder.PrepareExtraData` | block/builder.go:84-103 | every distinct pack name is stored once, in order of first use, with its offset recorded |
| `IndexBuilder.WriteEntries` | block/builder.go:105-147 | rows follow in order; the first entry that cannot be formatted decides the error |
| `IndexReader.FindEntryPosition` | block/index.go:90-108 | binary search finds the first row whose ID is not below the one looked for |
| `IndexReader.FindEntry` | block/index.go:110-135 | for any text: an error if its key has another length; otherwise the entry at its position, if and only if that has the same key |
| `IndexReader.GetInfo` | block/index.go:138-180 | for any text, on a file that lists `s` under the header written for it, empty or not: exactly what `FileLookup` of `s` says, error and shared keys included |
| `IndexReader.LookupIsFind` | block/index.go:90-153 | for canonical IDs of the right key length, searching the file is looking up the builder |
| `IndexReader.Iterate` | block/index.go:60-88 | visits exactly the entries with the prefix, in ascending ID order |
| `IndexReader.BuildThenOpen` | block/builder.go:45-82 | writing any encodable builder and opening the bytes gives a file that holds exactly that builder, with its key length, 255 if it is empty |
| `IndexReader.EncodeInjective` | block/builder.go:45-82 | two builders with different entries never give the same file |
| `ContainerHeap.RootIsLeast` | block/merged.go:44-69 | in a heap-ordered sequence the root is not above any element |
| `ContainerHeap.Heap.Push` | block/merged.go:60-62 | keeps the heap order and adds exactly the element |
| `ContainerHeap.Heap.Pop` | block/merged.go:63-69 | removes exactly one element, which is not above any other, and keeps the heap order |
| `MergedIndex.GetInfo` | block/merged.go:23-42 | the first error if there is one, otherwise the fold of the answers |
| `MergedIndex.PickAllIsNewest` | block/merged.go:23-42 | the fold answers with one of the answers given, and none is preferred to it: later timestamp, or live over deleted at the same time |
| `MergedIndex.PickAllIs` | block/merged.go:23-42 | exactly which answer it is when several are equally new: the last of the live ones, or the first if all are deleted |
| `MergedIndex.MergedFindIsNewest` | block/merged.go:23-42 | merged lookup finds an ID if and only if some index has it, and then the newest entry |
| `MergedIndex.Iterate` | block/merged.go:90-130 | the k-way merge delivers every ID once, ascending, with an entry none of the sources has a newer one for |
| `MergedIndex.IterateAgreesWithFind` | block/merged.go:23-130 | iteration delivers an ID if and only if lookup finds it, and the two agree on the entry |
| `CommittedIndex.LookupIsMerged` | block/committed_block_index.go:26-38 | over index files of blocks, searching all of them for a block ID is merged lookup in the maps they were written from |
| `CommittedIndex.ExactLookup` | block/committed_block_index.go:26-38 | over any index files of blocks, the lookup of a block ID is an error if and only if one of the files has no entries, and otherwise merged lookup |
| `IndexCompaction.AddIndexBlockToBuilder` | block/block_manager_compaction.go:127-148 | adds the entries of one index file except the tombstones that the option leaves out, for every builder and cutoff |
| `IndexCompaction.CompactedBuilder` | block/block_manager_compaction.go:87-125 | the folding loop over the files, with the option, gives the compaction of what is kept of each |
| `IndexCompaction.KeptWithoutOption` | block/block_manager_compaction.go:138-142 | without the option nothing is left out, so the loop gives the merged file of the protocol |
| `IndexCompaction.CompactedDominates` | block/block_manager_compaction.go:87-148 | the fold of some files has, for every entry of one of them, one at least as new |
| `IndexCompaction.CompactedFrom` | block/block_manager_compaction.go:87-148 | every entry of the fold comes from one of the files |
| `IndexCompaction.CompactedReadsSame` | block/block_manager_compaction.go:87-125 | without dropping, readers of the whole storage cannot tell the merged file from the files it replaces |
| `IndexCompaction.NextKeepsInv` | block/block_manager_compaction.go:87-125 | each step of each manager (flush, begin compaction, write the merged file, delete one source, fail, crash) keeps: whatever was flushed is in storage or superseded there |
| `IndexCompaction.NothingIsLost` | block/block_manager_compaction.go:87-125 | in every interleaving of any number of managers, the newest entry for an ID in storage is the newest ever flushed |
| `IndexCompaction.EveryReaderSeesNewest` | block/block_manager_compaction.go:26-125 | a manager that loads the files in storage at any moment, in any order, finds for every ID the newest entry ever flushed and nothing that was never flushed |
| `ConflictingTies.NewestWinsIffTiesAgree` | block/block_manager_compaction.go:87-125 | over any set of indexes whose files do not collide: newest wins in every run that flushes some of them if and only if their entries for one ID with the same timestamp are identical |
| `ConflictingTies.CompactionForgetsTie` | block/block_manager_compaction.go:87-125 | for any two indexes that differ on an ID at the same time, compacting them loses one of the two entries |
| `ConflictingTies.ConflictingTiesLoseEverything` | block/block_manager_compaction.go:87-125 | if two flushed files tie on all entries and differ, there is a run of two compactions after which storage is empty |
| `DroppedTombstones.DroppingUncovers` | block/block_manager_compaction.go:87-148 | the lookup of any block ID over the whole storage, before and after: if every entry of the merged files is an old tombstone, and only then, the merged file is empty and the lookup fails; otherwise, unless another file is empty, it finds what was to be found before, except for an ID whose newest entry is a dropped tombstone that no remaining file holds, which gets the newest entry left; so a deleted block is live again if and only if that entry is live |
| `DroppedTombstones.DroppedTombstoneBringsBack` | block/block_manager_compaction.go:46-85 | a tombstone is compacted away, with other entries kept, while the file with the live entry is left out for its size: the lookup finds the block again |
| `DroppedTombstones.EmptiedMergeStopsLookups` | block/block_manager_compaction.go:127-148 | two files with one old tombstone each are compacted: whatever the other files hold, every block ID that was answered before is an error |
| `Crypto.ValidPrefixIff` | block/block_manager.go:644-655 | a prefix is valid if and only if it is empty or one lower-case letter that is no base-16 digit |
| `Crypto.IvOfId` | block/block_manager.go:851-860 | the initialisation vector of a block is recovered from its ID alone |
| `Crypto.DecryptsBack` | block/block_manager.go:809-820 | what was encrypted under a block's hash decrypts and passes the checksum |
| `Crypto.VerifiedIff` | block/block_manager.go:809-872 | bytes come back from decryption if and only if their own hash ends the vector; anything else is an invalid checksum |
| `Postamble.UvarintRoundTrip` | block/block_index_recovery.go:45-66 | every value below 2^64 comes back from its varint, with any bytes behind it and the exact length used, and no larger value does |
| `Postamble.PostambleRoundTrip` | block/block_index_recovery.go:45-147 | every postamble that can be written is found again behind any bytes whatever |
| `Postamble.FoundIff` | block/block_index_recovery.go:68-105 | a postamble is found if and only if the file ends in its payload, the checksum of that payload and their length |
| `Postamble.DecodedIff` | block/block_index_recovery.go:107-147 | a payload decodes if and only if it is flags of 1, a vector behind its length, an offset and a length |
| `Postamble.PostambleFits` | block/block_index_recovery.go:45-66 | every vector of at most 238 bytes fits, whatever the 32-bit fields |
| `PackFile.PreparePackDataBlock` | block/block_manager.go:342-395 | the packing loop, padding and recovery data give the specified file and entries, or the error, in the iteration order of the map |
| `PackFile.AddItemsPlaces` | block/block_manager.go:351-367 | the loop succeeds on pending items, places every payload and nothing else, one after the other |
| `PackFile.LocalIndexReadBack` | block/block_index_recovery.go:159-226 | the index appended to a pack is read back from the file's own end |
| `PackFile.LocalIndexIff` | block/block_index_recovery.go:197-226 | whatever the file holds, a local index is recovered if and only if the postamble names a range that decrypts to it and its hash ends the vector |
| `PackFile.ReadEntryIff` | block/block_manager.go:783-820 | whatever the pack file holds, an entry reads as some bytes if and only if its range is there and decrypts to them and the ID has their hash |
| `PackFile.PackPadded` | block/block_manager.go:381-388 | payloads and padding together end at a multiple of the unit, where the local index begins; at least one byte and at most a unit is added |
| `PackFile.RecoverIndexFromPackFile` | block/block_index_recovery.go:14-43 | on a recoverable pack file it delivers exactly the entries of that pack in ascending order; a missing or damaged postamble or index is an error |
| `PackFile.PackCorrect` | block/block_manager.go:342-395 | packing any pending items within the limits succeeds; the file starts with the given bytes, every payload decrypts from its own range, ranges are disjoint, and the index is recoverable from the file alone |
| `BlockPacking.FinishPackKeeps` | block/block_manager.go:299-340 | finishing a pack, successful or not, changes no answer and keeps the invariant; it fails only because storage refuses, and then changes nothing |
| `BlockPacking.FlushIndexesKeeps` | block/block_manager.go:262-293 | writing the index, successful or not, changes no answer; nothing happens while flushes are disabled; success leaves nothing unwritten |
| `BlockWrites.WriteKeeps` | block/block_manager.go:624-642 | after a write the ID reads as the bytes, even when pack or index are refused; no other answer changes; a known block or bad prefix changes nothing |
| `BlockWrites.WriteAnswers` | block/block_manager.go:624-642 | the answer is the prefix and the hash of the contents, which can be read under it, also when the block was there already; it is an error if and only if the prefix is invalid, or the pack is full and it or a due index flush is refused |
| `BlockWrites.InfoLength` | block/block_manager.go:730-745 | the length that block information reports is that of the contents |
| `BlockWrites.DeleteKeeps` | block/block_manager.go:97-139 | a delete removes the block and nothing else, except a block held inline over a live committed entry, where that entry remains |
| `BlockWrites.FlushKeeps` | block/block_manager.go:590-603 | a flush changes no answer wherever it fails; a successful one leaves nothing pending and nothing unwritten |
| `BlockRuns.RunRefines` | block/block_manager.go:97-642 | every run from a valid state keeps it valid and moves the plain map that it agrees with on block IDs along |
| `BlockRuns.ManagerIsAMap` | block/block_manager.go:590-727 | after every run of writes, deletes, flushes and counter changes of a new manager, under any storage failures, reading a block ID is lookup in a plain map |
| `BlockRuns.OrderIrrelevant` | block/merged.go:23-42 | with identical ties, merged lookup does not depend on the order of the index files |
| `BlockRuns.FreshManagerAgrees` | block/block_manager.go:423-508 | after a successful flush a manager that opens the same storage gives the same answer for every block |
| `BlockRuns.StoredOnlyIsRepaired` | block/block_manager.go:281-287 | an index file that was stored but could not be taken into use changes no answer, is seen by other managers, and flushing again leads to the state of a flush without the failure |
| `BlockRuns.DeleteRemovesIff` | block/block_manager.go:97-139 | a block cannot be read after its delete if and only if it was not held inline over a live committed entry |
| `BlockRuns.ReCreatedBlockSurvives` | block/block_manager.go:97-139 | flush, delete, write again, delete again leaves the block readable |
| `PackAssertion.TombstoneBreaksAssertion` | block/block_manager.go:228-243 | deleting a committed block and flushing with index flushes disabled reaches a state where the assertion on deleted entries fails |
| `PackAssertion.AssertionHoldsIff` | block/block_manager.go:228-243 | the assertion holds if and only if no deleted entry has left the pending ones |
| `PackAssertion.StepBreaksIff` | block/block_manager.go:146-293 | from a state where the assertion holds, a call breaks it if and only if it finishes a pack with a tombstone pending and does not write the index after it |
| `PackAssertion.OtherAssertionsHold` | block/block_manager.go:217-243 | in valid states all the other assertions on the pending blocks and the builder hold, apart from those on the clock |
| `PackPacing.PendingFits` | block/block_manager.go:146-181 | in every state a manager reaches the pending payloads were counted, and are less than a pack as long as no full pack was refused |
| `PackPacing.PackPayloads` | block/block_manager.go:146-181 | so the payloads of a pack exceed the limit by less than the block that filled it |
| `PackPacing.NoIndexSoon` | block/block_manager.go:171-179 | after an index was written, none is written without a flush for ten minutes, however many packs fill up |
| `PackPacing.DueIndexWritten` | block/block_manager.go:171-179 | a block that fills a pack after that time leaves nothing pending and nothing unwritten, if flushes are enabled and storage accepts the files |
| `BlockLookup.CommittedLookupIsFind` | block/committed_block_index.go:26-38 | in valid states searching the index files for a block ID is merged lookup in the maps they were written from |
| `BlockLookup.LookupsAreSteps` | block/block_manager.go:97-139 | in valid states reading and deleting a block ID through the index files are the steps of the state machine |
| `BlockLookup.WritesAreSteps` | block/block_manager.go:624-642 | in valid states writing, with its lookup through the index files, is the step of the state machine |
| `BlockLookup.ReadsAreAMap` | block/block_manager.go:698-727 | in every state a manager reaches, reading a block ID through the index files is lookup in a plain map |
| `BlockLookup.IndexEncodable` | block/builder.go:45-82 | every index file of a valid state can be held by the format, as long as its size stays below 2^32 |
| `BlockLookup.FlushedIndexOk` | block/block_manager.go:262-293 | the builder that is about to be written is such an index |
| `BlockLookup.StoredFileLists` | block/index.go:192-198 | opening the stored bytes of such an index gives a file that lists exactly its entries |
| `BlockLookup.FilesReadable` | block/committed_block_index.go:40-63 | all index files in use in a valid state hold what they were written from, if none is too large |
| `OtherTexts.MapIffUnmistakable` | block/index.go:90-153 | reading and deleting a text are map operations in all valid states if and only if its key is as long as those of block IDs and a search for it cannot come upon a block ID with the same key other than itself |
| `OtherTexts.UnmistakableOther` | block/content_id_to_bytes.go:22-38 | there are such texts that are not block IDs |
| `OtherTexts.OtherLengthIsAnError` | block/index.go:110-114 | a text whose key has another length is an error, not a block that is not there |
| `OtherTexts.CapitalsReadTheBlock` | block/index.go:110-153 | with one committed block, asking for its ID in capitals returns its bytes |
| `OtherTexts.CapitalsDeleteTheBlock` | block/block_manager.go:97-139 | deleting the ID in capitals leaves a tombstone whose file is, byte for byte, that of a tombstone of the block, which readers then no longer find |
| `DamagedPacks.ContentsIff` | block/block_manager.go:783-820 | a packed block reads as some bytes if and only if its pack is there with a range that decrypts to them and the ID has their hash; otherwise it is an error |
| `DamagedPacks.ReadsMatchIds` | block/block_manager.go:698-709 | whatever the pack files hold, reading a text never returns bytes with another hash than the one in it |
| `DamagedPacks.DamageIsNoticed` | block/block_manager.go:809-872 | whatever happens to the pack files, a block without collisions reads as before or not at all |
| `BlockRecovery.LostIndexesAreRecovered` | block/block_index_recovery.go:14-43 | in every state a manager reaches, the index recovered from the pack a block is read from has exactly the entry the manager answers with, so losing all index files loses no packed block |
| `BlockRecovery.FinishRecovers` | block/block_manager.go:313-340 | every pack written carries the entries of all its blocks, and packs written before are not disturbed |
| `BlockListing.ListingIsFind` | block/committed_block_index.go:65-71 | the committed listing under a prefix has an ID if and only if lookup finds it, and the same entry |
| `BlockListing.ListedIffTracked` | block/block_manager.go:537-560 | in valid states `ListBlocks` lists exactly the IDs under the prefix that can be read |
| `UnreferencedPacks.ReadPacksAreInUse` | block/block_manager.go:747-781 | the pack any readable block is read from counts as in use |
| `UnreferencedPacks.InUseIff` | block/block_manager.go:563-581 | in valid states a pack counts as in use if and only if some ID that the builder does not have as deleted has an entry naming it, in the builder or in the merged index files, there live or deleted |
| `UnreferencedPacks.DeleteReleases` | block/block_manager.go:563-581 | after a committed block is deleted its pack is referenced if and only if another block keeps it |
| `UnreferencedPacks.DeletedThenFlushed` | block/block_manager.go:747-781 | and once the tombstone is flushed the pack is referenced again |
| `BlockManager.Manager.GetBlockInfo` | block/block_manager.go:711-727 | for any text the entry or error of the exact lookup: pending, then the builder, then the index files |
| `BlockManager.Manager.CommittedInfo` | block/committed_block_index.go:26-38 | opens and searches every index file in use: the merged answer or the error, for any text |
| `BlockManager.Manager.SearchFile` | block/index.go:138-153 | opening and searching one stored file answers exactly as specified for its entries |
| `BlockManager.Manager.GetBlock` | block/block_manager.go:698-709 | for any text the bytes or the error of the exact lookup |
| `BlockManager.Manager.SetPendingBlock` | block/block_manager.go:141-144 | the entry is pending under its ID, and replaces the one in the builder unless that is newer; nothing else changes |
| `BlockManager.Manager.DeleteBlock` | block/block_manager.go:97-139 | for any text: forget, tombstone, not found or invalid ID, as the exact lookup says |
| `BlockManager.Manager.FinishPack` | block/block_manager.go:299-340 | makes the step of finishing a pack, all or nothing |
| `BlockManager.Manager.FlushPackIndexes` | block/block_manager.go:262-293 | makes the step of writing the index; a file that cannot be taken into use is stored, and the builder stays |
| `BlockManager.Manager.AddToPack` | block/block_manager.go:146-181 | makes the step of adding a block, finishing the pack when it is full and flushing when it is time |
| `BlockManager.Manager.WriteBlock` | block/block_manager.go:624-642 | makes the write step, with the exact lookup deciding whether the block is there; the answer is the prefix and the hash of the contents, or an error, which is that of the prefix if and only if it is invalid |
| `BlockManager.Manager.Flush` | block/block_manager.go:590-603 | makes the flush step |
| `BlockManager.Manager.DisableIndexFlush` | block/block_manager.go:194-199 | raises the counter and changes nothing else |
| `BlockManager.Manager.EnableIndexFlush` | block/block_manager.go:203-208 | lowers the counter and changes nothing else |
| `BlockManager.Manager.ListCommitted` | block/committed_block_index.go:65-71 | delivers the merged iteration of the stored files under the prefix |
| `BlockManager.Manager.ListBlocks` | block/block_manager.go:537-560 | in valid states the result is exactly the IDs under the prefix that can be read |
| `BlockManager.Manager.PacksInUse` | block/block_manager.go:773-781 | exactly the packs some listed entry names |
| `BlockManager.Manager.FindUnreferencedStorageFiles` | block/block_manager.go:747-781 | in valid states exactly the pack files that no block keeps; no readable block is read from one of them |
| `AtomicFlush.NothingWrittenWhileDisabled` | block/block_manager.go:194-208 | no index file is written while the counter is positive, whatever packs fill up |
| `AtomicFlush.ChangesAreAtomic` | manifest/manifest_manager.go:432-468 | every index file written after flushes are enabled again has all the changes to a set of blocks or none, and a manager opening the storage sees the set as before or as after |
| `AtomicFlush.ReadersSeeAllOrNothing` | manifest/manifest_manager.go:439-441 | the same in terms of the plain map: readers see the blocks before all changes or after all of them |
| `ManifestsInBlocks.CompactionIsAtomic` | manifest/manifest_manager.go:432-468 | whenever the storage is opened after a manifest compaction, whatever else happened, it has the manifest blocks as before, or the new block and none of the old ones |
| `BlockStores.PlainSteps` | block/block_manager.go:97-181 | with no block re-created, writing, deleting and settling blocks are operations on a map, and stay so, except that a write re-creates a block exactly when it is hidden by a tombstone, has a live indexed entry and stays inline |
| `StoreOfBlocks.WriteViews` | block/block_manager.go:624-642 | writing a block moves the view of the block manager as the block store says |
| `StoreOfBlocks.DeleteViews` | block/block_manager.go:97-139 | the same for deleting a block |
| `StoreOfBlocks.FlushViews` | block/block_manager.go:590-603 | the same for a flush, wherever it fails |
| `StoreOfBlocks.HiddenIff` | block/block_manager.go:97-139 | a block is hidden in the view if and only if a tombstone of the manager hides a live committed entry |
| `Manifests.MergeAllIsNewest` | manifest/manifest_manager.go:470-480 | merging keeps for every ID an entry none of the others is newer than |
| `Manifests.FirstOfNewest` | manifest/manifest_manager.go:470-480 | of several entries that are equally new the first one loaded stays |
| `Manifests.DeleteIs` | manifest/manifest_manager.go:250-265 | a delete hides the manifest and nothing else, and leaves something to be written if and only if the ID was known and is not already deleted at that time |
| `Manifests.LoadKeeps` | manifest/manifest_manager.go:306-334 | loading the blocks in any order changes no answer and keeps the manager consistent, which then knows all blocks |
| `Manifests.ReloadPreservesIff` | manifest/manifest_manager.go:275-304 | a reload preserves every answer if and only if there are fewer than 16 blocks or nothing pending disagrees with what was loaded |
| `Manifests.ReloadIndexes` | manifest/manifest_manager.go:415-430 | an automatic compaction and the flush after it, if both succeed, leave every block in an index file, so that no deleted block is hidden any more |
| `Manifests.RefreshUndoesDelete` | manifest/manifest_manager.go:415-430 | with 16 blocks or more, a refresh after a delete and before the next flush brings the manifest back |
| `Manifests.FlushKeeps` | manifest/manifest_manager.go:211-241 | flushing changes no answer and keeps manager and blocks consistent, also when the block store reports a failure and keeps the block |
| `Manifests.FlushPlainIff` | manifest/manifest_manager.go:211-241 | a flush leaves no block re-created if and only if the block it writes is not one that was deleted, that the index files still have as live and that stays inline |
| `Manifests.CompactPreservesIff` | manifest/manifest_manager.go:432-468 | compaction preserves every answer if and only if no ID is both pending and committed with different answers |
| `Manifests.CompactionUndoesDelete` | manifest/manifest_manager.go:432-468 | deleting a committed manifest and compacting before a flush brings it back |
| `Manifests.DeletesRemoveIff` | manifest/manifest_manager.go:452-465 | the deletes of a compaction remove all its old blocks if and only if none of them was re-created |
| `Manifests.CompactInv` | manifest/manifest_manager.go:432-468 | a settled compaction that re-creates no block keeps the manager consistent with the blocks, and fails only if its write does; if it succeeds, at most one of the known blocks is left |
| `ManifestRuns.ManifestsAreAMap` | manifest/manifest_manager.go:52-480 | after every run of puts, deletes, flushes, reloads with their automatic compaction, and compactions, with failures and with blocks packed and indexed at any time, reading is lookup in a plain map |
| `DeletedManifest.DeletedManifestComesBack` | manifest/manifest_manager.go:432-468 | after a run in which a compaction writes again a manifest block that was deleted, a manifest that was deleted and flushed is back |
| `ManifestManager.Manager.Put` | manifest/manifest_manager.go:52-83 | stores a manifest under the hex form of the random ID, or refuses one without a type label and changes nothing |
| `ManifestManager.Manager.Delete` | manifest/manifest_manager.go:250-265 | makes the delete step: a tombstone, unless the ID is unknown |
| `ManifestManager.Manager.GetRaw` | manifest/manifest_manager.go:131-148 | the content the database answers with, or not found |
| `ManifestManager.Manager.FlushPendingEntries` | manifest/manifest_manager.go:211-241 | makes the flush step and returns the block written, or the failure |
| `ManifestManager.Manager.MergeEntry` | manifest/manifest_manager.go:470-480 | the committed entries are those merged so far and this one |
| `ManifestManager.Manager.LoadManifestBlocks` | manifest/manifest_manager.go:306-334 | the committed entries are all entries of the blocks merged in the order of arrival |
| `ManifestManager.Manager.LoadCommittedBlocks` | manifest/manifest_manager.go:275-334 | makes the reload step: merge everything, forget tombstones, compact if there are 16 blocks or more |
| `ManifestManager.Manager.MaybeCompact` | manifest/manifest_manager.go:415-430 | compacts, and flushes the block store, exactly when there are 16 known blocks or more |
| `ManifestManager.Manager.Compact` | manifest/manifest_manager.go:432-468 | makes the compaction step with its outcome, writes and deletes as the block store does them, and leaves the counter of disabled flushes as it was |
| `ManifestManager.Manager.DeleteOtherBlocks` | manifest/manifest_manager.go:452-465 | forgets the old blocks in the order given and deletes each in the block store, up to the first that is gone, which is an error |
| `ObjectSplitter.ChunksConcat` | object/object_writer.go:68-116 | whatever the splitter, the chunks of a stream put together are the stream |
| `ObjectSplitter.FixedSplitter.Add` | object/object_splitter.go:58-66 | a cut after exactly every n-th byte fed so far |
| `ObjectSplitter.FixedChunkCount` | object/object_splitter.go:58-66 | the fixed splitter makes ceil(length / n) chunks, at least one |
| `ObjectSplitter.RollingHashSplitter.Add` | object/object_splitter.go:85-98 | decides as the function of the bytes fed so far, for any rolling hash |
| `ObjectSplitter.RollingChunkSizes` | object/object_splitter.go:85-98 | no chunk exceeds the maximum, and every chunk but the last is not empty and longer than the minimum or has the maximum length |
| `ObjectSplitter.RollingCutIff` | object/object_splitter.go:85-98 | a chunk ends with a byte if and only if it then has the maximum length, or is longer than the minimum and the hash is not zero and zero under the mask |
| `ObjectSplitter.RollingCutsFirst` | object/object_splitter.go:85-98 | over the whole stream every chunk ends at the first place where it may, and the rest has none, which fixes the chunks |
| `Objects.BlockIdsArePlain` | object/objectid.go:27-45 | a block ID the manager makes is never taken for an object ID with a type letter, and lists can hold it |
| `Objects.MoreLevels` | object/object_writer.go:107-145 | the bound on levels does not change an ID once it is enough |
| `Objects.ReadBack` | object/object_manager.go:59-86 | whatever the splitter and however many levels of lists, reading the ID gives exactly the bytes written |
| `Objects.VerifyBack` | object/object_manager.go:90-146 | verification succeeds and reports the exact length and exactly the blocks written |
| `Objects.VerifiedPresent` | object/object_manager.go:88-146 | whatever the store and the ID, verification reports only blocks that are there |
| `Objects.VerifyListIff` | object/object_manager.go:114-124 | a list verifies if and only if every entry does with the length it records |
| `Objects.VerifiesIffPresent` | object/object_manager.go:88-146 | a written object verifies, and reads, if and only if every one of its blocks is in the store |
| `Objects.ReadListIs` | object/object_reader.go:68-84 | any list reads as its entries cut to their recorded lengths, and is an error if and only if one cannot be read or is shorter |
| `Objects.IndirectIff` | object/object_manager.go:59-124 | an object with a list reads if and only if the list does, and verifies if and only if its index and the list do; a list that is missing, damaged or empty is an error |
| `Objects.DirectIds` | object/objectid.go:27-45 | an ID marked as direct reads and verifies as the block behind the mark |
| `Objects.LevelHalves` | object/object_writer.go:107-145 | if the shortest chunk holds two list entries, a list has at most half as many chunks as the level below, rounded up, and is shorter |
| `Objects.ListsEnd` | object/object_writer.go:107-145 | with such chunks every object below 2^63 bytes gets its ID within ceil(log2 n) levels of lists for n chunks, and no length leaves its range |
| `Objects.FixedEnds` | object/object_writer.go:107-145 | this holds for the fixed splitter, with n = ceil(length / chunk length) |
| `Objects.RollingEnds` | object/object_splitter.go:85-98 | this holds for the rolling-hash splitter with any hash, the default one |
| `Objects.EveryObjectReadsBack` | object/object_manager.go:59-146 | hence every object below 2^63 bytes has an ID, and reading and verifying it give the bytes, their length and their blocks |
| `ObjectWriter.Writer.FlushBuffer` | object/object_writer.go:85-105 | stores the buffer as the next chunk and lists it with its offset, length and ID |
| `ObjectWriter.Writer.Write` | object/object_writer.go:68-83 | however a stream is cut into calls, the writer's state is that of the whole stream; it fails only when a block is refused |
| `ObjectWriter.Writer.Result` | object/object_writer.go:107-145 | whenever lists of lists come to an end, it ends with an ID that is a function of the bytes written alone; the store gains exactly the object's blocks; it fails only when a block is refused |
| `ObjectWriter.StoredHolds` | object/object_writer.go:85-105 | without collisions the store then holds every block of the object under its ID |
| `ObjectWriter.WrittenReadsBack` | object/object_writer.go:107-145 | what `Result` promises gives the bytes back on reading the ID |
| `ObjectReader.Reader.OpenCurrentChunk` | object/object_reader.go:68-84 | succeeds if and only if the chunk opens and is long enough, and then holds the recorded slice of the content; otherwise nothing changes |
| `ObjectReader.Reader.Read` | object/object_reader.go:27-66 | if every chunk needed opens, returns exactly the next bytes of the content, as many as there are; if one does not, fails with the cursor at the beginning of the first such chunk |
| `ObjectReader.Reader.FindChunkIndexForOffset` | object/object_reader.go:90-110 | finds the chunk that holds the offset if and only if one does |
| `ObjectReader.Reader.SeekTo` | object/object_reader.go:112-151 | succeeds if and only if the target is inside the content and its chunk is open or opens, and then reads from there; on failure says where the cursor and the reported position are |
| `ObjectReader.Reader.Seek` | object/object_reader.go:112-121 | the same relative to the start, the cursor or the end |
| `ObjectReader.WriterMakesTable` | object/object_writer.go:85-105 | the list made of stored chunks is a valid seek table of them, and all of them open |
| `ObjectReader.OpenWritten` | object/object_manager.go:59-86 | opening a written object of several chunks gives a table of its chunks, which together are its bytes |
| `ObjectsInBlocks.ObjectsSurvive` | object/object_manager.go:59-86 | an object whose blocks a manager was given amid any other writes, deletes, flushes and failures reads back byte for byte, from that manager and from one opened afresh after a flush |
| `BlockCache.AdjustInjective` | block/block_cache.go:39-47 | two blocks never share a cache key |
| `BlockCache.AdjustedBlockId` | block/block_cache.go:39-47 | the cache key of a block is its hash followed by its prefix |
| `BlockCache.ReadsAreRight` | block/block_cache.go:49-96 | over every run of reads, evictions, cache failures and damaged files, a read that succeeds returns the block's own bytes, and none fails when the storage has the block |
| `BlockCache.CachedBlockStays` | block/block_cache.go:49-96 | a block read through the cache once is served from it until its file is swept away or damaged |
| `BlockCache.ServedFromCache` | block/block_cache.go:49-72 | so it is then read whatever the storage answers |
| `BlockCache.BypassedCache` | block/block_cache.go:49-72 | a read that does not use the cache is answered by the storage and leaves no trace in the cache |
| `BlockCache.SweptAway` | block/block_cache.go:49-72 | a block that was swept away is fetched from the storage again, and no other is |
| `BlockCache.RecentlyUsedStays` | block/block_cache.go:74-96 | a block read through the cache is not swept away while a file stays that was last marked as used before that, up to the threshold |
| `BlockCache.BlockCache.ReadAndVerifyCacheBlock` | block/block_cache.go:74-96 | the verified content of the file, which is touched, or nothing |
| `BlockCache.BlockCache.GetContentBlock` | block/block_cache.go:49-72 | makes the read step: cache first, then storage, then fill |
| `BlockCache.BlockCache.SweepDirectory` | block/block_cache.go:142-176 | every file is kept or taken off the heap, the total counts those not deleted, and with one length the files kept are as many as fit and the newest, in any listing order |
| `BlockCache.SurvivorsAreNewest` | block/block_cache.go:142-176 | after a sweep of files of one length exactly min(n, max / length) files are left, none older than one that went, and they fit |
| `CacheSweep.TotalIsLeft` | block/block_cache.go:155-167 | for any lengths the running total is the length of what is on the heap or could not be deleted |
| `CacheSweep.TotalIsOver` | block/block_cache.go:155-167 | with one length the limit is exceeded if and only if more files are left than fit |
| `FormatBlock.ChecksumVerifies` | format_block.go:131-145 | checksummed bytes verify and give the bytes back; the cache's HMAC works the same way |
| `FormatBlock.VerifiesIff` | format_block.go:131-145 | bytes verify if and only if they end in the checksum of the rest |
| `FormatBlock.RecoveredHasCopy` | format_block.go:97-129 | whatever the file holds, only a block that it has a checksummed copy of, at its start or end, is recovered |
| `FormatBlock.RecoverFromPrefix` | format_block.go:97-129 | any file that begins with the checksummed copy gives the format block back |
| `FormatBlock.RecoverFromSuffix` | format_block.go:97-129 | a file that ends with the copy gives it back if and only if its start is not taken for a copy of something else |
| `FormatBlock.SizeLimit` | format_block.go:248-263 | a copy is refused if and only if block and checksum exceed 65000 bytes |
| `FormatInPacks.PackStarts` | block/block_manager.go:342-395 | whatever the items, sizes and padding, a pack file begins with the format bytes |
| `FormatInPacks.EveryPackRecoversFormat` | block/block_manager.go:342-349 | in every state a manager reaches, the format block is recovered from each pack file |

## Left out

- Storage back ends (file system, S3, GCS, WebDAV), their retries, throttling and logging: a storage is a map of files that may refuse an operation.
- The algorithms behind hash, cipher, CRC, HMAC, JSON and gzip, and the key derivation: only the laws above are used.
- Goroutines and locks inside one process: the calls of one manager are atomic steps. `WriteBlock` checks for the block and adds it in one step, although the code releases the lock in between.
- Errors while listing or loading manifest blocks, and the retry of a load.
- Several manifest managers at once: concurrency between managers is modelled for index files, where the lock-free protocol is.
- Hashes of other widths than 16 bytes: index files are encrypted with the whole hash and decrypted with its last 16 bytes, which agree only at that width.
- Format version 0 of pack entries, `RewriteBlock`, and `RecoverIndexFromPackFile` with commit, which adds the recovered entries with `Add`.
- `getBlocksToCompact`: any selection of index files is a legal compaction in the protocol.
- Callbacks that stop an iteration with an error.
- The list cache and the on-disk cache of index files, `connect`, `open`, `initialize` and `upgrade`.
- `Find` over manifest labels, and the buzhash behind the rolling splitter, which may be any function of the bytes.
- Index files in `BlockState` and `IndexCompaction` are their decoded entries. `BlockLookup` justifies this for the block manager as long as no file is larger than 2^32 bytes; for the compaction protocol `IndexReader.BuildThenOpen` and `IndexReader.EncodeInjective` do for encodable builders.
- Objects.ReadBack: `depth` and `levels` bound the lists followed, which the code does not; `Objects.ListsEnd` gives a bound that is enough whenever the shortest chunk holds two list entries. The object and its lists are below 2^63 bytes, the range of the lengths.
- ObjectWriter.Writer.Result: asks that some number of lists on top of each other is enough, without which the code does not end.
- BlockPacking.FlushIndexesKeeps: an index file that is stored but cannot be taken into use is not a step of the runs; `BlockRuns.StoredOnlyIsRepaired` says what it does.
- BlockManager.Manager.GetBlock: says nothing once an index file in use is larger than 2^32 bytes.
- BlockManager.Manager.ListBlocks: asks that no index file in use is larger than 2^32 bytes.
- BlockManager.Manager.FindUnreferencedStorageFiles: the same.
- Objects.IndirectIff: an empty list makes the code panic; here it is an error.
- BlockCache.BlockCache.SweepDirectory: for files of different lengths nothing is said about which are left, since one file at most is dropped for one added, whatever their lengths; an error while listing is not modelled.
- BlockCache.ReadsAreRight: damage is taken not to produce a valid HMAC, and all places a block is fetched from to hold the same bytes.
- The cache is not placed between the manager and the packs in `BlockManager`; `BlockCache.ReadsAreRight` says why it would change no answer.
- BlockRuns.ManagerIsAMap: runs in which pack names are new, packs stay within the index format's sizes, only block IDs are deleted, the clock does not run backwards for a block and moves on before its delete, and a block is not written again under a tombstone that hides a live committed entry; `BlockRuns.ReCreatedBlockSurvives` is what happens otherwise.
- IndexCompaction.NothingIsLost: compaction without dropping old tombstones, whose effect is `DroppedTombstones.DroppingUncovers`; file names must not collide and ties must agree, which is necessary by `ConflictingTies.NewestWinsIffTiesAgree`.
- DroppedTombstones.DroppingUncovers: for an ID whose entries with the same timestamp are identical. An empty index file, which only such a compaction writes, is not part of the runs of the block manager.
- IndexCompaction.EveryReaderSeesNewest: a reader lists and loads the files in one step, where the code retries when a listed file is gone.
- ManifestRuns.ManifestsAreAMap: the clock moves on between changes of one manifest, block names do not collide, compactions, asked for or automatic, are those that `Manifests.CompactPreservesIff` allows, and no write re-creates a block, as `Manifests.FlushPlainIff` says when; after a refused write and before the next reload, IDs that are both pending and committed have equal entries.
- ManifestManager.Manager.Compact: its write may fill a pack but not reach an index file, because flushes are disabled meanwhile (`AtomicFlush.NothingWrittenWhileDisabled`).
