# Verified models of the recovery tools

Dafny models of the parts of the recovery image whose correctness is hardest to see, with proofs of what they promise:

- **Binary patches** (`applypatch/bsdiff.c`, `bspatch.c`): the suffix sort that renumbers its keys while sorting, the search, the scan, and the patch format. Modules `SuffixOrder`, `SuffixSort`, `SuffixPhases`, `QSufSort`, `BsSearch`, `BsScan`, `BsDiff`, `BsPatch`, `BsExact`, `Numbers`.
- **Image patches** (`applypatch/imgdiff.c`, `imgpatch.c`): merging and pairing chunks, the file layout, and applying it. Modules `ImgChunks`, `ImgFormat`, `ImgDiff`, `ImgPatch`, `ImgExact`.
- **Restartable patching** (`applypatch/applypatch.c`, `freecache.c`): every run of applypatch on a file target with crashes anywhere. File names are compared by what they resolve to. Modules `Paths`, `CrashModel`, `CrashSafety`, `CrashExact`, `CrashPatch`, `FreeCache`, `Sha1Text`, `PartitionLoad`.
- **Retouch masks** (`minelf/Retouch.c`): modules `Retouch` and `RetouchCode`, tied to the restart protocol in `Witnesses`.
- **Hash table** (`minzip/Hash.c`, `Hash.h`): open addressing with tombstones as a finite set. Modules `Bits`, `HashSlots`, `MzHash`, `HashRuns`.
- **Debug bridge** (`minadbd`): the pending ring and select loop, and the flow-controlled sockets, first as values and then as linked objects that show them. Modules `FdEvents`, `FdRuns`, `AdbSockets`, `AdbFlow`, `AdbStreams`, `AdbSent`, `AdbFreed`, `AdbLives`, `AdbEvents`, `AdbLists`, `AdbViews`, `AdbDevice`.
- **Boot message** (`recovery.cpp`): arguments that survive crashes. Modules `BootMessage`, `BootRestart`.
- **DER** (`asn1_decoder.cpp`, `verifier.cpp`): module `Der`.

Code that works in place is modelled in place (arrays, classes, loops) and proved against functions; the theorems are about those functions and about whole runs.

Conventions. bzip2 is any pair of functions where decompressing ignores what follows a compressed stream; inflate and deflate are any functions; SHA-1 is any function, or any hasher that may be fed in pieces. Replies of the kernel (`read`, `write`, `select`, directory listings, free space, open files) and of services are parameters. Integers are unbounded, and 8-, 32- and 64-bit limits are written out where the source depends on them; the size of `size_t`, which bounds DER lengths, is a parameter. File operations take effect in program order and are not lost afterwards. Names resolve without symbolic links, through directories that exist.

Where code and description disagree, the code is modelled:

- `ParseSha1` says it accepts a digest followed by a colon and more; it refuses that (`Sha1Text.SuffixRefused`).
- `fdevent_set` says it drops pending events no longer wanted; it drops the wanted ones (`FdRuns.KeepsTheUnwanted`).
- `search` is meant to find a longest match; it does exactly under the condition of `BsSearch.LongestExactly`, and `BsSearch.LongestMissed` is an input where it does not.
- applypatch is meant to be restartable; it is, exactly under the condition of `CrashExact.SafeExactly`, as long as chunks that reach the output only in part cannot pass its check (`CrashExact.SealedExactly`). A patch file for which they do is in `CrashPatch.ShortChunkLoses`.
- Retouch masking is meant to be idempotent; it is unless an entry writes something new into the list itself (`Retouch.OnlySpillsBreakMasking`, `Retouch.SpillBreaksMasking`). The converse fails, by `Retouch.DisturbedYetIdempotent`: whether a disturbed list still masks the same depends on what the rewritten list then says.
- `local_socket_event_func` consults `force_eof`, which can never decide anything there and is not modelled.
- In `retouch_mask_data` an offset that wraps past the end leads to the same error as a negative one, so the wrap is not modelled.

Reads outside a buffer, which the C code does not check, are modelled as refusals: a patch header or a chunk's source slice beyond its data, a raw chunk of negative length, and bonus data for a chunk that is not a deflate chunk.

## Model

| member | source | states |
|---|---|---|
| `SuffixSort.SelectSmallest` | applypatch/bsdiff.c:65-76 | The selection pass only permutes its part of I; afterwards exactly the first j places hold the smallest key and every later place a larger one |
| `SuffixSort.Number` | applypatch/bsdiff.c:77-77 | Every member of a run gets the run's last index as its label, and nothing else changes |
| `SuffixSort.Seal` | applypatch/bsdiff.c:77-78 | Labelling a run keeps V an order-consistent coarsening of the final suffix order; the part is done, a lone suffix being marked -1 |
| `SuffixSort.SplitShort` | applypatch/bsdiff.c:64-81 | The selection form of split sorts its part under the keys it reads while it is changing them: the part is permuted only, V is refined, every run of it is labelled by its end |
| `SuffixSort.Survey` | applypatch/bsdiff.c:83-89 | The counting pass finds where the zones of smaller, equal and larger keys will begin |
| `SuffixSort.GatherBelow` | applypatch/bsdiff.c:91-102 | The first exchange loop ends with exactly the smaller keys in the first zone, each exchange putting an equal or larger key where it belongs |
| `SuffixSort.GatherEqual` | applypatch/bsdiff.c:104-111 | The second exchange loop ends with exactly the keys equal to the pivot in the middle zone |
| `SuffixSort.Partition` | applypatch/bsdiff.c:83-111 | The pivot form divides its part into smaller, equal and larger zones, the middle one not empty, permuting only |
| `SuffixSort.SplitLong` | applypatch/bsdiff.c:83-119 | The pivot form with its recursive calls, although the first of them relabels suffixes before the middle zone is labelled |
| `SuffixSort.Split` | applypatch/bsdiff.c:60-119 | split terminates, permutes its part of I only, and leaves it labelled by runs that agree with the final order on twice as many bytes |
| `SuffixOrder.RelabelKeepsCoarse` | applypatch/bsdiff.c:77-115 | Giving a run of equal keys a label of its own keeps V an order-consistent coarsening |
| `SuffixPhases.Phase` | applypatch/bsdiff.c:140-153 | One pass over I, stepping over negative run lengths and joining them, doubles the number of bytes by which V is sorted |
| `SuffixPhases.ScanSplit` | applypatch/bsdiff.c:147-150 | Sorting one run leaves everything to its left sealed and everything to its right as it was |
| `SuffixPhases.Double` | applypatch/bsdiff.c:139-154 | The doubling loop ends, with I[0] the single run of all suffixes |
| `SuffixPhases.AllSorted` | applypatch/bsdiff.c:139-156 | When one sealed run covers everything, V is the inverse of the sorted order |
| `SuffixPhases.Invert` | applypatch/bsdiff.c:156-156 | The last loop turns V back into the order in I |
| `QSufSort.CountBuckets` | applypatch/bsdiff.c:126-130 | The counting loops leave in each bucket the number of bytes that are smaller |
| `QSufSort.Scatter` | applypatch/bsdiff.c:132-133 | Every suffix is put into the bucket of its first byte, each exactly once |
| `QSufSort.SealSingles` | applypatch/bsdiff.c:134-137 | The first labels and marks are a valid start of the doubling, although a lone suffix in bucket 0 is not marked |
| `QSufSort.QSufSort` | applypatch/bsdiff.c:121-157 | For every byte string, I ends as the permutation of 0..n that lists all suffixes, the empty one included, in strictly increasing order |
| `BsSearch.MatchLen` | applypatch/bsdiff.c:159-167 | The length returned is that of the longest common run from the two positions |
| `BsSearch.Search` | applypatch/bsdiff.c:169-193 | The result is a genuine match that cannot be lengthened, and it is not empty if a suffix in the range starts with the wanted byte |
| `BsSearch.MemLessIsBelow` | applypatch/bsdiff.c:188-188 | The comparison of the search is the order of the suffixes, except that it does not see that a proper prefix comes first |
| `BsSearch.FindEnds` | applypatch/bsdiff.c:169-193 | A search that meets no proper prefix of the target ends at a longest match; one that does ends at the last such suffix it met |
| `BsSearch.LongestExactly` | applypatch/bsdiff.c:169-193 | The match is a longest one exactly if the search met no suffix that is a proper prefix of the rest of the target, or the old data do not hold one byte more of the target than the last one it met |
| `BsSearch.LongestWithoutPrefix` | applypatch/bsdiff.c:169-193 | In particular it is if no non-empty suffix of the old data is a proper prefix of the rest of the target |
| `BsSearch.LongestMissed` | applypatch/bsdiff.c:169-193 | Counterexample: in "aba" the search for "ab" finds only "a" |
| `BsSearch.SearchAll` | applypatch/bsdiff.c:285-287 | Searching the whole array finds at least one byte exactly if the byte occurs in the old data |
| `BsScan.ScoreAhead` | applypatch/bsdiff.c:289-292 | The score counts the bytes that the previous offset would have matched, up to where it has got |
| `BsScan.NextMatch` | applypatch/bsdiff.c:284-301 | The scan loop ends; the score never goes negative; when it breaks, the match has at least one byte, and it equals the score or beats it by more than 8 |
| `BsScan.Forward` | applypatch/bsdiff.c:304-309 | The forward extension is one of greatest gain |
| `BsScan.Backward` | applypatch/bsdiff.c:311-318 | The backward extension is one of greatest gain |
| `BsScan.Cut` | applypatch/bsdiff.c:320-330 | An overlap of the two is cut where the gain is greatest |
| `BsScan.Stretch` | applypatch/bsdiff.c:303-334 | The two extensions are those of greatest gain; where they would overlap, they meet at the place that leaves most bytes matched; they stay inside both files |
| `BsDiff.RegionEncodes` | applypatch/bsdiff.c:336-361 | Appending one triple with its diff and extra bytes extends what the streams rebuild by exactly that region, and before it was appended the streams did not suffice |
| `BsDiff.Emit` | applypatch/bsdiff.c:336-365 | The emitted streams rebuild the target up to the new position, and every triple is needed |
| `BsDiff.DiffStreams` | applypatch/bsdiff.c:281-367 | The main loop ends; the streams are those of regions cut where a match that ends beats the alignment before it, each stretched as well as can be; they rebuild the target, their diff and extra bytes number exactly its size, no triple is left over, and there are at most one more triples than bytes |
| `BsDiff.Layout` | applypatch/bsdiff.c:261-271 | Magic, the two compressed lengths, the size and the three compressed streams stand at their places in the file |
| `BsDiff.AssembleReads` | applypatch/bsdiff.c:261-271 | Wherever a patch file stands in a larger blob, its header leads the interpreter to exactly its three streams |
| `BsDiff.WritePatch` | applypatch/bsdiff.c:224-410 | bsdiff and ApplyBSDiffPatchMem are inverse: for all old and new data the patch, anywhere in a blob, rebuilds new; it holds the streams of such regions; it fails only if a stream's compressed length cannot be written |
| `Numbers.OffRoundTrip` | applypatch/bspatch.c:66-82 | offtin inverts offtout on every number that can be written, negative ones included |
| `Numbers.OffBytes` | applypatch/bspatch.c:66-82 | Each byte of a number in a patch: sign and magnitude, least significant first |
| `Numbers.WriteRead4` | applypatch/utils.c:22-53 | Read4 inverts Write4 on every 32-bit number, negative ones included |
| `Numbers.WriteRead8` | applypatch/utils.c:30-65 | Read8 inverts Write8 on every 64-bit number |
| `Numbers.WriteBytes` | applypatch/utils.c:22-42 | Each byte that Write4 and Write8 put: two's complement, least significant first |
| `Numbers.ReadWrite4` | applypatch/utils.c:22-53 | Write4 inverts Read4 on any four bytes |
| `Numbers.ReadWrite8` | applypatch/utils.c:30-65 | Write8 inverts Read8 on any eight bytes |
| `BsPatch.FillBuffer` | applypatch/bspatch.c:84-98 | The buffer is filled from the stream exactly if the stream is long enough, and nothing else in it changes |
| `BsPatch.AddInPlace` | applypatch/bspatch.c:225-230 | Byte by byte: an old byte is added, modulo 256, where there is one, and every other byte stays |
| `BsPatch.Step` | applypatch/bspatch.c:219-250 | One triple succeeds exactly if both streams and the new file have room, and appends the added and the copied bytes |
| `BsPatch.RunStreams` | applypatch/bspatch.c:193-251 | The loop computes what the recursive reading of the three streams means, refusals included |
| `BsPatch.ApplyBSDiffPatchMem` | applypatch/bspatch.c:123-257 | Header checks and all: the result is the meaning of the patch at that offset, or a refusal |
| `BsExact.InterpretExactly` | applypatch/bspatch.c:193-251 | The three streams give an output exactly if some number of triples is just enough for it, none with a negative length or beyond its stream; then each byte is the one that the sums of lengths and moves say, old byte added where there is one |
| `ImgChunks.FindGroupEnd` | applypatch/imgdiff.c:716-729 | The scan finds the end of the run of adjoining normal chunks, or of the single deflate chunk |
| `ImgChunks.Compact` | applypatch/imgdiff.c:731-754 | The fused chunk is written in place without disturbing chunks not yet read |
| `ImgChunks.MergeAdjacentNormalChunks` | applypatch/imgdiff.c:712-760 | The in-place compaction leaves the merged list in front, computed from the list as it was |
| `ImgChunks.MergedTiles` | applypatch/imgdiff.c:712-760 | Merging keeps the covered byte sequence: what tiled the image still does |
| `ImgChunks.MergedByKind` | applypatch/imgdiff.c:712-760 | What merging does to a tiling list depends on the kinds of its chunks only |
| `ImgChunks.MergeLockstep` | applypatch/imgdiff.c:922-939 | Two tiling lists of equal kinds stay in lockstep through merging, so the branch "went awry" is never taken; no two normal chunks adjoin afterwards |
| `ImgDiff.ReconstructDeflateChunk` | applypatch/imgdiff.c:529-599 | The first of the two levels tried that reproduces the compressed bytes exactly, if any does |
| `ImgDiff.PairChunks` | applypatch/imgdiff.c:879-920 | Each pair of chunks is kept, or both are made normal together, by the same rule at every place: a deflate pair stays one exactly if the target can be reproduced and the bytes differ |
| `ImgDiff.PairedExactly` | applypatch/imgdiff.c:879-920 | The rule both ways: kept with only the parameters set, level 6 if that reproduces the bytes and else 9; or both normal over the same bytes as before |
| `ImgDiff.PairedReady` | applypatch/imgdiff.c:879-920 | Afterwards the lists still tile, have equal kinds, and every deflate chunk kept can be recompressed to its own bytes |
| `ImgDiff.MergedReady` | applypatch/imgdiff.c:928-939 | The second merge keeps all of that |
| `ImgDiff.PrepareChunks` | applypatch/imgdiff.c:848-939 | Preparation is refused exactly if the merged structures differ, and otherwise yields lists ready to be diffed |
| `ImgDiff.MakePatch` | applypatch/imgdiff.c:607-669 | The record made for a chunk yields the chunk's bytes when applied; it is raw exactly if the chunk is normal and either at most 160 bytes long or no longer than its patch, and otherwise holds the patch between the two chunks' data, the place of the source and the lengths |
| `ImgDiff.MakePatches` | applypatch/imgdiff.c:949-971 | Every chunk gets such a record, with bonus data for chunk 1 taken into account; bonus data for a normal chunk are refused, unless a chunk before it is too large |
| `ImgDiff.SizeHeader` | applypatch/imgdiff.c:973-991 | The computed header length is the number of bytes the records take |
| `ImgDiff.WriteHeaders` | applypatch/imgdiff.c:993-1038 | Each recorded offset is where the patch will stand |
| `ImgDiff.WriteFile` | applypatch/imgdiff.c:973-1046 | The file is magic, count, records and patches, laid out as the records say |
| `ImgDiff.ImgDiff` | applypatch/imgdiff.c:848-1046 | In image mode, applying the file written to the source image gives the target image byte for byte; a refusal for structure happens exactly if the structures differ, one for size only if the parts are too large |
| `ImgFormat.DecodeEncode` | applypatch/imgpatch.c:61-123 | Every record is read back from its bytes, wherever it stands, with negative window bits preserved |
| `ImgFormat.DecodesExactly` | applypatch/imgpatch.c:61-185 | A record is read at a place exactly if the bytes there are those it is written as |
| `ImgFormat.Layout` | applypatch/imgdiff.c:993-1038 | Where each field of a record stands |
| `ImgFormat.ParamsLayout` | applypatch/imgdiff.c:1023-1027 | Where each of the deflate parameters stands |
| `ImgPatch.ApplyRecord` | applypatch/imgpatch.c:70-229 | One chunk: patched from a source slice, copied raw, or expanded, patched and recompressed; or refused |
| `ImgPatch.ApplyImagePatch` | applypatch/imgpatch.c:39-233 | The loop over the records computes the meaning of the file, refusals included |
| `ImgPatch.ChunksApply` | applypatch/imgpatch.c:58-230 | Records whose patches stand at their recorded offsets yield the concatenation of their outputs |
| `ImgPatch.FileApplies` | applypatch/imgpatch.c:39-233 | A whole file whose records each yield their bytes yields all of them in order |
| `ImgExact.GivesExactly` | applypatch/imgpatch.c:70-229 | What a record gives, both ways: the bytes it holds; what its patch makes of the slice, nothing if it cannot be applied; or the patched expansion recompressed, if it has the length stated, bonus included |
| `ImgExact.ImageExactly` | applypatch/imgpatch.c:39-233 | A file gives an output exactly if it begins with the tag and a count and as many records follow, none for a negative count, that each give their bytes; the output is theirs in order |
| `Bits.AndMask` | minzip/Hash.c:191-191 | Masking with a power of two less one is the remainder, so a slot index is always in range |
| `Bits.RoundUpIsNext` | minzip/Hash.c:35-46 | roundUpPower2 is the least power of two that is not smaller |
| `HashSlots.EmptySlot` | minzip/Hash.c:193-211 | Under the load bound there is an empty slot, so every probe halts |
| `HashSlots.FillKeepsChains` | minzip/Hash.c:213-217 | Filling the first empty slot of a probe breaks no chain |
| `HashSlots.TombKeepsChains` | minzip/Hash.c:265-272 | A tombstone breaks no chain |
| `HashSlots.NothingBeyond` | minzip/Hash.c:193-211 | An item of the probed hash is never beyond the first empty slot |
| `MzHash.HashSizeSuffices` | minzip/Hash.c:26-28 | A table of mzHashSize(n) slots or more holds n entries within the load bound |
| `MzHash.FindEmpty` | minzip/Hash.c:155-158 | The probe of a resize halts at the first empty slot |
| `MzHash.Rehash` | minzip/Hash.c:137-172 | A resize keeps exactly the live entries and drops the tombstones |
| `MzHash.HashTable.constructor` | minzip/Hash.c:51-72 | A new table is empty, within its load bound, and of the size asked for rounded up |
| `MzHash.HashTable.Probe` | minzip/Hash.c:190-211 | The probe ends at a wanted entry, or at an empty slot and then no wanted entry exists anywhere |
| `MzHash.HashTable.Add` | minzip/Hash.c:213-239 | Adding keeps the load bound, resizing to twice the size exactly if it would be exceeded |
| `MzHash.HashTable.Lookup` | minzip/Hash.c:179-248 | A lookup succeeds exactly if an equal item of that hash is stored; otherwise the item is added if asked, and nothing else changes |
| `MzHash.HashTable.Remove` | minzip/Hash.c:255-285 | The item is removed, or it was not stored under that hash |
| `MzHash.HashTable.Clear` | minzip/Hash.c:77-97 | Clearing leaves an empty table of the same slots |
| `MzHash.HashTable.IterNext` | minzip/Hash.h:152-161 | The iterator moves to the next live slot and skips no other |
| `MzHash.HashTable.Iterate` | minzip/Hash.h:152-173 | A whole iteration visits each live entry exactly once |
| `HashRuns.Step` | minzip/Hash.c:179-285 | One operation answers as the finite set would, and the table goes on representing the set |
| `HashRuns.Run` | minzip/Hash.c:51-285 | Over any sequence of lookups, additions, removals and clears the table answers as a finite set does, without duplicates |
| `HashRuns.AddAll` | minzip/Hash.c:179-239 | Adding up to n items to a table made for n or more puts them all in, and the storage is the same array after every addition |
| `HashRuns.WithAllHolds` | minzip/Hash.c:179-239 | Then every item added has an equal one in the table, and nothing is in it that was not there or added |
| `HashRuns.FirstAdditions` | minzip/Hash.c:26-239 | A table made for n items still has the size it was made with after its first n additions, and holds exactly them |
| `CrashSafety.StepHolds` | applypatch/applypatch.c:709-1041 | Every step, a crash included, keeps the input in use where a rerun will find it |
| `CrashSafety.AlwaysRecoverable` | applypatch/applypatch.c:709-1041 | In every run, with crashes after any step and any number of reruns, there is always a finished target, or an accepted source or saved copy; the patch loop makes at most two passes |
| `CrashSafety.InstallsOnlyTheGoal` | applypatch/applypatch.c:997-1033 | Whatever changes the target file leaves it with the digest asked for |
| `CrashSafety.GivesUpOnlyWithoutInput` | applypatch/applypatch.c:737-794 | A call gives up before patching exactly if the target is not finished and neither source nor copy is accepted |
| `CrashSafety.NeverStranded` | applypatch/applypatch.c:737-794 | If what has the digest asked for loads as it is, a rerun never gives up for lack of input |
| `CrashSafety.OutIsApart` | applypatch/applypatch.c:941-946 | However the names are written, the temporary output is neither the target nor the saved copy |
| `Paths.ResolveGrown` | applypatch/applypatch.c:941-946 | Text added to a name is added to its last component, in the same directory, whatever dots and slashes the name has |
| `Paths.ResolveDetours` | applypatch/applypatch.c:854-854 | A doubled slash, a dot, and a way down and up again lead to the same directory, and the way up from the root to the root |
| `CrashExact.SourceIsOutput` | applypatch/applypatch.c:940-951 | Counterexample: a source that is the temporary output is lost |
| `CrashExact.SourceIsCopy` | applypatch/applypatch.c:892-902 | Counterexample: a source that is the saved copy is lost |
| `CrashExact.SourceIsExpendable` | applypatch/freecache.c:84-113 | Counterexample: a source that may be deleted to make room is lost |
| `CrashExact.InputDoesNotReload` | applypatch/applypatch.c:89-102 | Counterexample: an input that is not accepted again once it was saved as it was loaded is lost |
| `CrashExact.TargetIsCopy` | applypatch/applypatch.c:1027-1037 | Counterexample: a target that is the saved copy is deleted after it was installed |
| `CrashExact.SafeExactly` | applypatch/applypatch.c:709-1041 | For any names with a file as target, any digests and any way of loading: every run of every sealed call keeps something to go on from exactly if the source is a partition, nothing can be an input, or the names avoid these cases and inputs reload |
| `CrashExact.HonestSealed` | applypatch/applypatch.c:959-997 | If digests tell files apart and the patch makes the file asked for, no loss in the output goes unnoticed |
| `CrashExact.PassesExactly` | applypatch/imgpatch.c:82-83 | Chunks written only in part pass the check exactly if those written whole have by themselves the digest asked for |
| `CrashExact.SealedExactly` | applypatch/imgpatch.c:82-83 | A call with safe names installs only what was asked for exactly if that can never happen |
| `CrashExact.ShortPieceLoses` | applypatch/imgpatch.c:82-83 | If it can, a run ends with the torn output as the only file left |
| `CrashPatch.ProductMeans` | applypatch/imgpatch.c:39-233 | The pieces that reach the output are together what applying the patch gives, and it succeeds exactly if they do |
| `CrashPatch.ShortChunkLoses` | applypatch/imgpatch.c:82-83 | Counterexample: a patch file of two normal chunks, the digest of the second as the goal, and a run that ends with torn output and nothing else |
| `CrashPatch.PatchFinishes` | applypatch/applypatch.c:820-1041 | With room and a patch that makes the goal, a pass that nothing disturbs ends with the output under the target name |
| `CrashPatch.RerunFinishes` | applypatch/applypatch.c:709-1041 | Progress: from any files that offer something, a rerun that nothing disturbs takes steps of the protocol only, ends with success, and leaves the target with the digest asked for |
| `CrashPatch.UpdateSucceeds` | applypatch/applypatch.c:709-1041 | The whole update: in every run, with crashes, reruns and short writes, something to go on from is left, and a rerun that nothing disturbs ends with the new image as the target |
| `FreeCache.ReadDirectory` | applypatch/freecache.c:86-115 | Regular files of a directory are listed in order, the saved copy never |
| `FreeCache.EliminateOpenFiles` | applypatch/freecache.c:14-72 | Exactly the open files are struck out |
| `FreeCache.DeleteUntil` | applypatch/freecache.c:157-164 | Files are deleted in order and only while there is too little room |
| `FreeCache.MakeFreeSpaceOnCache` | applypatch/freecache.c:128-172 | Of the deletable things the directories list, the first so many are deleted in order, only while there is too little room; the answer is whether there is enough in the end, and if not, every deletable one was deleted; without the list of open files nothing is |
| `FreeCache.CandidatesChosen` | applypatch/freecache.c:74-126 | The candidates are exactly the regular, unopened files listed that are not the saved copy: all of them, once each, in the order listed |
| `FreeCache.CandidatesExpendable` | applypatch/freecache.c:74-126 | Only unopened regular files directly in the two directories are ever deleted, and none of their names, resolved, is the saved copy |
| `Sha1Text.ParseSha1` | applypatch/applypatch.c:528-552 | The loop accepts exactly forty hexadecimal digits and returns the bytes they stand for |
| `Sha1Text.HexUnhex` | applypatch/applypatch.c:528-552 | Digits written for a digest parse to that digest |
| `Sha1Text.UnhexHex` | applypatch/applypatch.c:528-552 | A string that parses is, but for case, what its digest is written as |
| `Sha1Text.SameDigest` | applypatch/applypatch.c:528-552 | Two strings parse to the same digest exactly if they differ in case only |
| `Sha1Text.SuffixRefused` | applypatch/applypatch.c:524-552 | A digest followed by a colon and more is refused, although the description admits it |
| `Sha1Text.FindMatchingPatch` | applypatch/applypatch.c:557-568 | The first matching string is found, or none matches |
| `PartitionLoad.Try` | applypatch/applypatch.c:233-283 | The hash context fed piece by piece always equals that of the whole prefix; a pair is unreadable, different or a match accordingly |
| `PartitionLoad.Load` | applypatch/applypatch.c:169-322 | The load succeeds exactly if some pair decides it: it matches and those before it in order of size could be read but did not; the data and digest are that prefix's |
| `PartitionLoad.Shortest` | applypatch/applypatch.c:124-130 | Whatever order qsort leaves among equal sizes, what is loaded is the shortest listed prefix that matches its digest |
| `PartitionLoad.DecidedIffMatched` | applypatch/applypatch.c:124-130 | With readable digests, the load succeeds exactly if some listed prefix matches |
| `Retouch.ApplyEntry` | minelf/Retouch.c:161-173 | One entry is rewritten in place if an offset is desired, and its shift inferred |
| `Retouch.MaskEntries` | minelf/Retouch.c:143-195 | The loop over the encoded entries does what the recursive reading of the list says, even where it rewrites the list; what the bytes encode is RetouchCode.DecodesExactly |
| `Retouch.RetouchMaskData` | minelf/Retouch.c:109-196 | The whole call, with its checks of tags and sizes; what it answers and leaves is RetouchCode.InferAnswers and MaskedImage |
| `Retouch.WalkMasks` | minelf/Retouch.c:147-195 | Where no entry changes a byte of the list, masking writes every entry and never reports a mismatch |
| `Retouch.CleanIsUndisturbed` | minelf/Retouch.c:155-159 | That is so if every entry lies wholly below the list |
| `Retouch.MaskComposes` | minelf/Retouch.c:109-196 | Where neither mask disturbs the list, masking with a and then with b is masking with b; so masking to 0 is idempotent |
| `Retouch.MaskedOrRefused` | minelf/Retouch.c:109-196 | An image whose list the mask does not disturb is masked as its list says, or refused |
| `Retouch.OnlySpillsBreakMasking` | minelf/Retouch.c:155-159 | If masking twice differs from masking once, an entry begins in the last three bytes below the list and writes something new into it; nothing else breaks idempotence |
| `Retouch.DisturbedYetIdempotent` | minelf/Retouch.c:155-159 | Such an entry need not break it: an image that is disturbed, and masks to the same again |
| `Retouch.InfersExactly` | minelf/Retouch.c:171-195 | Without a desired offset nothing is written, and d is reported exactly if every entry shows the shift d |
| `Retouch.InferAfterMask` | minelf/Retouch.c:109-196 | Where the mask does not disturb the list, inferring after masking with d reports d exactly if no two entries want different bytes at one place |
| `Retouch.SpillBreaksMasking` | minelf/Retouch.c:155-159 | Counterexample: an entry that begins below the list and ends inside it masks once and is refused the second time |
| `RetouchCode.DecodeCode` | minelf/Retouch.c:44-106 | Decoding inverts the documented encoding for every entry and each of the three forms, negative differences included |
| `RetouchCode.DecodesExactly` | minelf/Retouch.c:44-106 | Bytes decode to an entry of a form exactly if they are its code, so no other entry has it |
| `RetouchCode.ImageReads` | minelf/Retouch.c:109-159 | An image that carries an encoded list is read as carrying just that list |
| `RetouchCode.ReadableExactly` | minelf/Retouch.c:109-159 | Exactly the images that carry such a list can be read, and what is read is that list |
| `RetouchCode.InferAnswers` | minelf/Retouch.c:109-196 | For every image: not applicable exactly without tags, an error exactly if tagged and the list cannot be read |
| `RetouchCode.MaskedImage` | minelf/Retouch.c:109-196 | Masking an encoded image with d matches and reports d; each entry that no later one overlaps then shows its own contents plus d, and bytes that no entry covers stay |
| `Witnesses.UndisturbedReloads` | applypatch/applypatch.c:89-102 | What loads without its list being disturbed loads again as it is |
| `Witnesses.MaskedReloads` | applypatch/applypatch.c:89-102 | With the loader as it is, inputs reload, as restarting needs, if masking disturbs no file that loads as an accepted input, or leaves the accepted images as they are |
| `Witnesses.SpilledIsNeverSafe` | applypatch/applypatch.c:89-102 | Counterexample: with an image that masking breaks as the input, no file names make a call crash safe |
| `Witnesses.SpillingLoadsOnce` | applypatch/applypatch.c:89-102 | That image loads once, and what it loads as does not |
| `Witnesses.SelfDelimitingExists` | applypatch/bspatch.c:154-184 | A compression with the property asked of bzip2 exists |
| `Der.Context.GetByte` | asn1_decoder.cpp:61-69 | A byte is read off the window, or -1 at its end |
| `Der.Context.SkipBytes` | asn1_decoder.cpp:71-78 | Bytes are skipped exactly if the window has them |
| `Der.Context.DecodeLength` | asn1_decoder.cpp:80-104 | The length is that of the octets, short or long form, refused exactly if there are too many octets or too few bytes; the window only shrinks |
| `Der.Context.Enter` | asn1_decoder.cpp:109-160 | The child window is the content of the next element, inside the parent's window for any input |
| `Der.Context.SequenceNext` | asn1_decoder.cpp:162-168 | The next element is skipped exactly if it lies wholly in the window |
| `Der.Context.ConstructedSkipAll` | asn1_decoder.cpp:123-134 | All elements of the class [n] in front are skipped; something must follow |
| `Der.LengthHolds` | asn1_decoder.cpp:89-102 | A decoded length always fits size_t, so the shifts lose nothing |
| `Der.LengthCoded` | asn1_decoder.cpp:80-104 | A length that was read is told by the octets read |
| `Der.DerCoded` | asn1_decoder.cpp:80-104 | Lengths in the distinguished encoding are read, as far as they fit |
| `Der.Content` | asn1_decoder.cpp:140-160 | For any input the content window lies inside the window it was found in |
| `Der.ContentOf` | asn1_decoder.cpp:109-190 | An element, with any length octets the program reads, is found with exactly its content, and what follows it is what is left |
| `Der.ContentParses` | asn1_decoder.cpp:109-190 | And whatever is found is such an element |
| `Der.SkipOptional` | asn1_decoder.cpp:123-134 | However many optional elements there are, exactly those are skipped |
| `Der.Signature` | verifier.cpp:62-107 | On any input what is returned is a non-empty piece of that input |
| `Der.ReadPkcs7` | verifier.cpp:62-107 | The walk through the contexts computes that function |
| `Der.SignatureOf` | verifier.cpp:45-107 | For every block of the documented shape, with any optional elements and anything after, exactly the octets of the fifth element of the SignerInfo are returned, if it is an OCTET STRING with any; a SignerInfo with signed attributes is refused |
| `Der.SignatureExactly` | verifier.cpp:45-107 | A signature is returned exactly if the block is of that shape with that signature |
| `BootMessage.Split` | recovery.cpp:240-256 | The strtok loop returns the tokens of the text, as many as there is room for |
| `BootMessage.Store` | recovery.cpp:288-295 | The strlcat loop leaves the lines, cut to the field |
| `BootMessage.ReadFile` | recovery.cpp:265-283 | The loop over the command file returns its arguments as FilePiece and FileRoundTrip say, as many as there is room for |
| `BootMessage.FilePiece` | recovery.cpp:272-280 | Any piece of any file: line ends in front are passed over, what follows up to the next line end is the argument, the rest of the piece is not looked at |
| `BootMessage.FileRoundTrip` | recovery.cpp:265-283 | A file of one argument a line, with either line end and with or without the last, is read back as its first arguments |
| `BootMessage.FileExactly` | recovery.cpp:265-283 | It is read back whole exactly if every argument is shorter than the buffer |
| `BootMessage.StoredLines` | recovery.cpp:238-262 | A boot message of lines holds those behind the name of the program, at most 99, exactly if that name comes first |
| `BootMessage.FileTaken` | recovery.cpp:222-297 | Arguments of the command file are taken when the message holds none, and if they fit the next start finds them in the message, with or without the file |
| `BootMessage.GetArgs` | recovery.cpp:222-297 | Arguments come from the command line, else the boot message, else the command file: those written in the file, if the message holds none; and are stored as lines that are read back if they fit |
| `BootMessage.TokensLines` | recovery.cpp:240-295 | Lines read back as the arguments they were, with or without the last newline |
| `BootMessage.StoredExactly` | recovery.cpp:222-297 | What is stored is read back exactly if there are fewer than 100 arguments and 9 plus their lengths and newlines is at most 768 |
| `BootMessage.FoundFits` | recovery.cpp:238-262 | Arguments found in a boot message always fit one |
| `BootRestart.StepHolds` | recovery.cpp:222-406 | Every step, a crash or the loss of the command file included, keeps the stored arguments until they are cleared; they are cleared only with everything returned |
| `BootRestart.ReturnsAlong` | recovery.cpp:1428-1478 | Each call returns into a place of main that the calls made so far lead to |
| `BootRestart.EndedMeans` | recovery.cpp:1428-1490 | Where main ends, every wipe and install asked for has returned, no other was made, the package first and the cache last |
| `BootRestart.Dispatch` | recovery.cpp:1428-1478 | The if-else chain of main makes exactly the calls asked for, in that order, whatever they return |
| `BootRestart.Restartable` | recovery.cpp:148-188 | From storing a list that fits: in every run, every start reads exactly that list and writes the same text until the message is cleared; when it is, everything the list asks for has returned in that start, nothing else was done, and in order |
| `BootRestart.RestartsExactly` | recovery.cpp:222-297 | Once the command file is gone, a crash and a start bring the list back exactly if it fits |
| `BootRestart.FoundIsStorable` | recovery.cpp:238-283 | What is found in the message or the command file is a storable list |
| `FdEvents.PlistEnqueue` | minadbd/fdevent.c:474-482 | The node joins the end of a well-formed circular ring |
| `FdEvents.PlistRemove` | minadbd/fdevent.c:484-490 | A node leaves the ring from wherever it is |
| `FdEvents.PlistDequeue` | minadbd/fdevent.c:492-505 | The first node leaves the ring, or the ring is empty |
| `FdEvents.EventLoop.Register` | minadbd/fdevent.c:428-454 | The table grows by doubling, keeps what it held, and enters the event |
| `FdEvents.EventLoop.Install` | minadbd/fdevent.c:593-609 | A new event is registered and covered by select |
| `FdEvents.EventLoop.LastInUse` | minadbd/fdevent.c:275-278 | The search finds the last descriptor in use |
| `FdEvents.EventLoop.Remove` | minadbd/fdevent.c:611-625 | The event leaves the ring, whose order is otherwise kept, the table and the sets, and all else stays well formed |
| `FdEvents.EventLoop.Set` | minadbd/fdevent.c:628-652 | The sets follow what is wanted; pending events now wanted are dropped; an event left with none leaves the ring, whose order is otherwise kept |
| `FdEvents.EventLoop.Process` | minadbd/fdevent.c:404-424 | Every registered event has exactly what is ready added to it, none missed when the count runs out, and a ready descriptor always has an event |
| `FdEvents.EventLoop.FdCheck` | minadbd/fdevent.c:305-321 | Exactly the registered bad descriptors are found, and counted |
| `FdEvents.EventLoop.Poll` | minadbd/fdevent.c:365-424 | Every answer of select, errors included, adds exactly what was found, to the end of the ring, in the order of descriptors |
| `FdEvents.EventLoop.Take` | minadbd/fdevent.c:492-515 | The first event is taken off with what it has to report, and is no longer flagged |
| `FdRuns.ShownIsSound` | minadbd/fdevent.c:474-505 | The ring of a well-formed loop holds exactly the descriptors with something to report, once each |
| `FdRuns.Perform` | minadbd/fdevent.c:365-663 | Each act on the objects does to what the loop shows what the act says, ring order included, and a dispatch tells the callback what the first in the ring has to report |
| `FdRuns.Run` | minadbd/fdevent.c:260-663 | For any sequence of install, set, remove, poll and dispatch, the states shown are a run of exactly those acts, sound at every point; callbacks are told what the run says, and the loop shows the last state |
| `FdRuns.DueAfter` | minadbd/fdevent.c:365-652 | One act: an event is due afterwards exactly if it was found, or was due and neither told nor taken off |
| `FdRuns.DueExactly` | minadbd/fdevent.c:260-663 | Over every run an event is due exactly if it was found once and since then neither told to a callback nor taken off: none is lost, none invented |
| `FdRuns.KeepsTheUnwanted` | minadbd/fdevent.c:641-651 | Whenever fdevent_set changes what is wanted of a descriptor that has something to report, it keeps just what is not wanted, which is never what was meant |
| `AdbSockets.DrainMoves` | minadbd/sockets.c:267-294 | Draining moves bytes from the queue to the descriptor in order and loses none |
| `AdbSockets.CloseLinked` | minadbd/sockets.c:220-254 | Closing a socket in any state keeps peer links symmetric and each socket in exactly one list |
| `AdbSockets.EnqueueKeeps` | minadbd/sockets.c:130-181 | A payload accepted keeps every socket's books; that what is accepted is the payload is AdbStreams.AcceptedExactly |
| `AdbSockets.DispatchKeeps` | minadbd/sockets.c:256-385 | Serving a socket's events keeps them |
| `AdbSockets.HandleKeeps` | minadbd/adb.c:284-373 | Handling any packet keeps them |
| `AdbSockets.Driven` | minadbd/sockets.c:62-480 | Any sequence of packets and events, from any peer, leads to a valid device |
| `AdbSockets.NothingLost` | minadbd/sockets.c:130-181 | Bytes written and bytes queued are together the payloads accepted, in order; every OKAY was sent with an empty queue; between two WRTEs an OKAY was handled |
| `AdbSockets.OnlyTheRestIsDropped` | minadbd/sockets.c:199-217 | Every freed socket wrote a prefix of what it accepted |
| `AdbSockets.PeersAgree` | minadbd/sockets.c:220-254 | Peer links go both ways through every order of closing, and only live sockets have them |
| `AdbStreams.PushTakes` | minadbd/sockets.c:147-163 | The write loop of enqueue writes as much as the descriptor takes before another answer, and fails exactly if that answer is not EAGAIN |
| `AdbStreams.DrainTakes` | minadbd/sockets.c:267-294 | So do the loops over the queue, which is emptied exactly if the descriptor takes all of it |
| `AdbStreams.GatherTakes` | minadbd/sockets.c:320-338 | The read loop takes all the descriptor yields, up to one packet full, and sees the end exactly if it comes before |
| `AdbStreams.NextLedger` | minadbd/adb.c:284-373 | One operation adds to the books of each socket exactly the payload that named it and the bytes its descriptor took |
| `AdbStreams.AcceptedExactly` | minadbd/sockets.c:130-310 | In every run, of every socket there ever was, freed ones included: what it accepted are the data of the WRTEs that named it, in order, and as many bytes were written as its descriptor answered |
| `AdbStreams.PayloadsDelivered` | minadbd/sockets.c:130-310 | So payloads arrived are, in order, what the descriptor took and what is queued; those of a freed socket begin with what its descriptor took |
| `AdbFreed.NextFrees` | minadbd/sockets.c:199-254 | One operation frees a socket with bytes unwritten only if its own descriptor fails in it |
| `AdbFreed.OnlyFailureDrops` | minadbd/sockets.c:199-310 | In every run a freed socket had all its payloads written, unless its own descriptor failed, or ended while it was closing; neither peer nor transport nor closing everything drops a byte |
| `AdbSent.NextSays` | minadbd/adb.c:284-373 | One operation sends exactly the packets that follow from the packet or the answers |
| `AdbSent.SentExactly` | minadbd/sockets.c:130-367 | In every run the packets sent are exactly those, in that order: an OKAY for each payload written at once or each queue emptied, a WRTE for each packet read, a CLSE for each peer closed |
| `AdbSent.NothingReadIsLost` | minadbd/sockets.c:313-367 | In every run the data of the WRTEs sent for a socket are, in order, exactly the bytes its descriptor yielded |
| `AdbSent.IdsNameOne` | minadbd/sockets.c:88-97 | In all of a run an id names one socket only |
| `AdbLives.NextTurns` | minadbd/adb.c:284-373 | One operation, for each socket: live afterwards exactly if it was and is not closed, or is opened; ids at both ends stay |
| `AdbLives.OpenExactly` | minadbd/sockets.c:62-480 | In every run a socket is open exactly if an OPEN opened it and since then no CLSE named it, its descriptor neither failed nor ended, and the transport was neither lost nor restarted nor all closed; it has the id it was given then and that of the OPEN at the far end |
| `AdbEvents.ArmIsSet` | minadbd/fdevent.c:628-652 | What a socket wants and has pending changes as fdevent_set changes the event of its descriptor |
| `AdbEvents.NoticeIsPoll` | minadbd/fdevent.c:404-424 | and as polling does |
| `AdbEvents.TakenIsDispatch` | minadbd/fdevent.c:492-515 | and as dispatching does, which tells the callback what was pending |
| `AdbEvents.OthersApart` | minadbd/fdevent.c:404-652 | Acts on other descriptors leave the events of a socket as they are |
| `AdbFlow.EnqueueHeld` | minadbd/sockets.c:130-181 | A payload that arrives becomes a queued packet or an OKAY |
| `AdbFlow.WriteHeld` | minadbd/sockets.c:265-310 | Writing turns the one packet queued into an OKAY, or leaves it queued |
| `AdbFlow.ReadHeld` | minadbd/sockets.c:313-367 | Reading turns the right to read into a WRTE, or leaves it |
| `AdbFlow.StepInv` | minadbd/adb.c:284-373 | Every step of device or obeying host keeps exactly one right to send in each direction of each live socket |
| `AdbFlow.After` | minadbd/adb.c:284-373 | Every run of device and obeying host keeps it |
| `AdbFlow.OneAtATime` | minadbd/sockets.c:130-367 | With an obeying host a socket never has more than one packet queued, and never more than one WRTE unacknowledged |
| `AdbLists.WritePacket` | minadbd/sockets.c:147-163 | The write loop of enqueue, which treats an interrupted call as an error |
| `AdbLists.AppendParcel` | minadbd/sockets.c:170-176 | A packet joins the tail of a linked queue |
| `AdbLists.PopFirst` | minadbd/sockets.c:288-292 | The first packet leaves it, and pkt_last is cleared with the last one |
| `AdbLists.WriteQueue` | minadbd/sockets.c:267-294 | The nested loops on the linked packets write what the queue as a sequence says, and leave it linked |
| `AdbLists.ReadPacket` | minadbd/sockets.c:320-338 | The read loop, which fills at most one packet |
| `AdbLists.InsertLocalSocket` | minadbd/sockets.c:79-86 | A socket joins the end of a well-formed circular list |
| `AdbLists.RemoveSocket` | minadbd/sockets.c:99-110 | A socket leaves a list from wherever it is, in whichever list |
| `AdbViews.NumbersApart` | minadbd/sockets.c:62-110 | Different socket objects of a linked device stand for different sockets |
| `AdbDevice.Bridge.ShowsOne` | minadbd/sockets.c:46-60 | The socket objects show one device and no other |
| `AdbDevice.Bridge.constructor` | minadbd/sockets.c:46-60 | Empty lists, linked to themselves, show the device before any operation |
| `AdbDevice.Bridge.FindLocalSocket` | minadbd/sockets.c:62-77 | Walking the next pointers finds the first live socket with the id, or there is none |
| `AdbDevice.Bridge.CloseSocket` | minadbd/sockets.c:220-254 | Relinking lists, peers and disconnects in place leads from showing d to showing d with the socket closed |
| `AdbDevice.Bridge.DisconnectSocket` | minadbd/sockets.c:468-480 | A remote socket that loses its transport goes without a word, and its peer is destroyed or waits in the closing list |
| `AdbDevice.Bridge.EnqueuePacket` | minadbd/sockets.c:130-181 | The same for an arriving payload: written, linked behind the others, or the end of the socket; so its bytes are those of AdbStreams.PayloadsDelivered |
| `AdbDevice.Bridge.ServeWrite` | minadbd/sockets.c:265-310 | The same for the part of the callback that writes; when it says that reading may follow, the socket is still in a list |
| `AdbDevice.Bridge.ServeRead` | minadbd/sockets.c:313-367 | The same for the part that reads; so what it sends is that of AdbSent.SentExactly |
| `AdbDevice.Bridge.ServeEvents` | minadbd/sockets.c:256-385 | The same for a whole callback |
| `AdbDevice.Bridge.NoticeEvents` | minadbd/fdevent.c:404-424 | The same for events found pending |
| `AdbDevice.Bridge.HandleOffline` | minadbd/transport.c:83-94 | Walking the disconnect list empties it, and shows a device without live sockets |
| `AdbDevice.Bridge.CloseAllSockets` | minadbd/sockets.c:112-128 | Restarting the walk at the head after each close ends with a list linked to itself |
| `AdbDevice.Bridge.ConnectSocket` | minadbd/sockets.c:387-402 | A local and a remote socket are created, linked and made peers |
| `AdbDevice.Bridge.Handle` | minadbd/adb.c:284-373 | The protocol step on the objects leads from showing d to showing what the model makes of d |

## Left out

- BsPatch.FillBuffer: refuses a bzip2 stream that ends too early, where the source goes on asking for more of it.
- ImgDiff.MakePatches: refuses bonus data for a chunk that is not a deflate chunk, a case that is not defined in the source.
- ImgDiff.ImgDiff: begins from chunk lists that tile the images with complete deflate data, since splitting an image into chunks depends on inflate.
- ImgPatch.ApplyImagePatch: output is collected in full, so it holds for sinks that accept every byte; a sink that takes less of a normal chunk, which is not noticed, is modelled in CrashPatch.PatchProduct and CrashExact.SealedExactly.
- CrashSafety.AlwaysRecoverable: covers targets that are files; a target that is a partition is written without a way back and is not part of this model. That a rename or unlink may reach the disk later than what follows it is not modelled either.
- Retouch.OnlySpillsBreakMasking: goes one way; no condition on the disturbing entry alone could go the other, by Retouch.DisturbedYetIdempotent.
- PartitionLoad.Load: begins from the list of sizes and digests; splitting the name with strtok and strtol is not modelled.
- FreeCache.MakeFreeSpaceOnCache: free space is any function of what was deleted, so other programs writing to /cache meanwhile are not modelled; a failing statfs is the largest value of that function, as in the source.
- BootRestart.Restartable: reading and writing the boot message are taken to succeed and to be atomic; parsing of options by getopt_long is any function of the arguments; the menu, which is shown after the message was cleared, is not modelled.
- FdRuns.Run: the select form; the epoll form, the shell-exit descriptor, closing of descriptors, descriptors too large for an fd_set, and the 32-bit size in the clearing of a grown table are not modelled.
- FdEvents.EventLoop.Install: asks for a descriptor between 0 and 32000, as the program aborts on others, for which no event is registered, as is the case for one just opened.
- AdbSockets.Driven: one transport; socket ids do not wrap around.
- AdbStreams.AcceptedExactly: counts the bytes written by the answers of write on the ground that no call takes more than it was offered.
- AdbEvents.OthersApart: sockets and event loop are related act by act; one object holding both is not modelled.
- AdbDevice.Bridge.DisconnectSocket: takes the remote socket off the transport's list before its peer is closed, where the source does so afterwards; nothing looks at that list in between.
- AdbDevice.Bridge.HandleOffline: the transport's disconnect list is a sequence of objects rather than linked nodes; locks are not modelled.
- Der.SignatureOf: the octets of the skipped elements are not looked into, as the program does not.
- imgdiff's zip mode, ReadZip and ReadImage, which depend on well-formed foreign archives.
- bzip2, zlib, SHA-1, RSA and ECDSA themselves, verify_file and load_keys.
- WriteToPartition and device access; smart sockets, USB and transport threads.
- The edify language, the user interface, mounting, backup and restore.
- The HAVE_OEMLOCK branches of recovery.cpp.
