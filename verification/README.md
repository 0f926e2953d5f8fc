# Verified models of the razordata storage engine and SQL executor

razordata is an embedded SQL database written in Go. This Dafny project models the parts of it whose
correctness is hard to see from one function, and proves what its documentation and its comments say they
are for. Files are byte sequences; checksums, compression and hash functions are parameters. Each component
has a module of its own:

- **Storage structures.** `BTree` and `BTreeRun` (the paged B-tree, and runs of inserts on it), `SkipList` (the
  memtable), `FlushProtocol` and `LayeredStore` (flush worker, write path and level 0), `Manifest`,
  `SstFormat`/`SstWriter`/`SstReader` (sorted string tables), `Recovery` (write path, manifest and table files put
  together: what a restart reads), `EngineRead` (what a read of one key finds), `MergeIter` (prefix scans),
  `CatalogFormat`/`Catalog` (the persistent catalog). `Bytes` and `Codec` hold the key order and the integer
  encodings they share.
- **SQL front end.** `ExprSyntax`/`ExprParser`/`SqlParser`/`ExprPrinter` (expressions at token level) and
  `Fingerprint` (the bytes that key the plan cache).
- **Executor.** `Like`, `SampleSort`, `Grouping`/`Aggregates`, `VecEval`/`VecPipeline`: a fast form against a
  simple one.
- **Memory layer.** `BufferPool` and `Sketch`.

Code that changes state is a class or a method with the loops of the source, proved against functions; the
lemmas are about those functions. Concurrent code is a step system: one step for each channel operation,
mutex, counter update, atomic load or compare-and-swap, and the theorems hold for every interleaving.

## What turned out differently from the documentation

The models follow the code. Where the code does less than its comments say, a lemma gives the input, and another
says for all inputs when it happens.

- **B-tree: separators.** `Insert` of a key that some internal page routes by (or that a root split is about to lift)
  keeps the old value: insertion goes right of an equal separator, search goes left. `BTree.BTree.Insert` states that
  the new value is found if and only if the key is no such separator or already had that value.
  `BTree.BigTreeHasSeparator` says every tree of more than one page has such keys.
- **B-tree: lost keys.** If no page above routes by the key, and the way down meets a full internal page that is cut
  exactly at the key, and the child at the cut is full too, then insertion goes into the left half's empty right edge,
  and the split of that child is linked there, where no search passes. `BTree.LossBelow` is this guard and names what
  is lost: the keys of the child's upper half, but for those that a search still finds through its middle child.
  `BTree.BTree.Insert` says for every key what is found afterwards; for a child that is a leaf all keys of its upper
  half are lost (`BTree.LeafLoss`). The guard needs a stored key, so a run that inserts each key once is a map update
  every time (`BTreeRun.DistinctRun`), but such a run can lead to it: `BTreeRun.RunLoses` is one of 30,201 inserts
  into the empty tree, after which inserting a certain key again loses 100 others.
- **Sync.** `engine.Sync` returns nil at once when the active memtable has size 0, also while an earlier memtable is
  still queued (`LayeredStore.SyncTooEarly`), and the pair of an empty key and an empty value has size 0
  (`LayeredStore.SyncSkipsEmptyPair`); `LayeredStore.SyncNothingExact` is the exact condition.
- **Lost writes.** A memtable whose flush fails, and one that fills up after `Stop`, are dropped
  (`LayeredStore.FailedRunLoses`, `LayeredStore.StopLosesWrites`). `LayeredStore.LayersAreTheKept` says what the
  layers hold at every point of every run, shutdown included: the memtables that were neither refused nor failed, and
  the active one. `LayeredStore.LossExact` says for which keys that is the last value written. The two later looks at
  `done` in `requestFlush` can never fire (`FlushProtocol.LaterChecksAreDead`).
- **Reads.** A flush puts its file in front of level 0 and `readFromSST` searches level 0 from the back, so the oldest
  file wins; and a frozen memtable is in no list that `Read` looks at while its job waits or runs.
  `EngineRead.ReadExact` says at every point of every run when `Read` returns the last value written, and after a
  `Sync` without failures it returns the version that was flushed first (`EngineRead.ReadAfterSync`).
  `EngineRead.ReadIsStale` and `EngineRead.ReadMissesQueued` are runs in which nothing fails.
- **Flushed bounds.** A first key that is stored as nil makes the scan take the second key as `MinKey`, so the bounds
  cover all keys if and only if that is not so or there is no second key (`Manifest.KeyRange`).
- **Prefix filter.** The writer of a table takes the bits of its prefix filter modulo the number of bytes, the reader
  modulo the number of bits, so the filter denies prefixes that are there: `SstFormat.PrefixFound` says exactly which
  ones it finds, and `SstFormat.PrefixMissed` is a table of one key.
- **Plan cache.** The key leaves out DISTINCT on aggregates and the fraction of floats
  (`Fingerprint.DistinctAggregateCollides`, `Fingerprint.FloatsCollide`). Of an interval or a window function it has
  one byte and no tag, so any two of them collide (`Fingerprint.UntaggedCollide`), and a length that follows one can
  pass for a tag (`Fingerprint.LengthPassesForTag`). `Fingerprint.SameBytes` says that nothing else is lost.
- **Printing.** `<>` is printed in a form that does not parse back (`ExprPrinter.NotEqualIsLost`). BETWEEN is printed
  without parentheses: a comparison or an arithmetic operator after it becomes part of its upper bound
  (`ExprPrinter.BetweenDrawsIn`). `ExprPrinter.RoundTrip` says for all expressions which ones read back.
- **Group keys.** A zero byte in a string before the last column can pass for the end of the column; for which
  strings, `Grouping.ZeroBytesCollide` says exactly, and `Grouping.FamilyCollides` gives a family. Floats share a hash
  key if and only if they agree to three decimals (`Grouping.FloatsMerge`), and an integer and the float that it is
  converted to never do (`Grouping.FloatsSplit`). `Aggregates.DisagreementShows`: the two operators group two rows
  differently exactly when the hash key and the comparison disagree on them. On empty input without GROUP BY only the
  list form returns a row (`Aggregates.SameResult`).
- **Mixed types in a sort column** make ties non-transitive; `SampleSort.MixedTypesBreakTies` runs the sample sort
  with two workers on four rows: its output is no stable sort, and none exists. `SampleSort.StableSortExists` says
  when one exists for all inputs, and `SampleSort.OneColumnExact` what that means for one column.
- **Catalog ids.** `NextID` is documented as the next free id, but a table that is stored with an id of its own does
  not move the counter: `Catalog.TakenIdIsGiven` is a run in which `NextID` returns the id of a table. All ids it
  returns are free if and only if the counter is past every table (`Catalog.AheadExact`), as it is in every run that
  stores tables under ids below the counter only (`Catalog.NextIdIsFree`). A table with the top id makes the counter
  start again at 1: `Catalog.TopIdWraps` is a run in which `NextID` returns 1 twice, and `Catalog.RestartGoesBack`
  says when a restart lowers the counter. A column type that does not fit a byte, or is 0, comes back as TEXT
  (`Catalog.NormCacheSame`). The catalog's type code for TEXT is 61; a comment in the source says 58.
- **Buffer pool.** The first eviction pass takes any old unpinned page in map order, so eviction is
  least-recently-used if and only if all old pages are of one age (`BufferPool.LruExact`). While the hand is below 8
  every unpinned page is old; `BufferPool.LastPageMayGo` is a run in which the page used last may go. `admit` requires
  a strictly greater frequency; its comment says "at least as high".
- **Vectorized comparisons** of integers are exact, row-at-a-time ones go through floats. They agree for all operators
  if and only if the conversion keeps the two integers apart (`VecEval.RowPathRounds`); `VecEval.FirstRounding` finds
  the first pair that differs. Where integers are kept apart, a batch selects what the row path accepts
  (`VecEval.SelectsRowPath`).

## Model

| member | source | states |
|---|---|---|
| Bytes.CompareIsRankOrder | internal/ENG/ID/id.go:316-323 | byte-wise comparison of keys is the order of a real-valued rank, so it is a total order and agrees with equality |
| Bytes.CompareIsLexicographic | internal/ENG/ID/id.go:316-323 | a key is smaller, and its rank is, if and only if it is a proper beginning of the other or has the smaller byte where they first differ |
| BTree.ChildIndexSplits | internal/ENG/ID/id.go:316-323 | the child that search follows: separators before it are below the key, the next one is not |
| BTree.BTree.FindChild | internal/ENG/ID/id.go:316-323 | the loop returns the child at that position |
| BTree.SearchReadsContents | internal/ENG/ID/id.go:299-314 | in every tree that keeps the invariant, searching finds each stored key with its value and reports every other key missing, whatever stray entries its leaves begin with |
| BTree.ReadsAll | internal/ENG/ID/id.go:299-314 | on a valid tree the search reads the contents for every key at once |
| BTree.BTree.SearchPage | internal/ENG/ID/id.go:299-314 | the descent over the page table computes the search function |
| BTree.BTree.Get | internal/ENG/ID/id.go:151-161 | Get answers what the search of the page table finds, ErrNotFound or the closed error, whatever was inserted before; on a valid tree that is the map of contents |
| BTree.SplitKeepsInv | internal/ENG/ID/id.go:365-415 | splitting a full leaf or internal page keeps page sizes, key ranges, disjointness of ranges and depths, although an internal split leaves one child id in both halves |
| BTree.SplitKeepsContents | internal/ENG/ID/id.go:365-415 | splitting loses no entry and adds none, and every separator stays a stored key |
| BTree.SplitSeparates | internal/ENG/ID/id.go:365-415 | a split below the root changes which keys separate only by the key it lifts into the parent |
| BTree.BTree.SplitChild | internal/ENG/ID/id.go:365-415 | the in-place cuts and shifts produce exactly the split page table, using one new page id |
| BTree.PutKeepsHolds | internal/ENG/ID/id.go:325-348 | writing a key into the leaf that owns it is a map update; writing it at the very start of a leaf's range changes no contents |
| BTree.BTree.InsertIntoLeaf | internal/ENG/ID/id.go:325-348 | the leaf case overwrites or inserts in order, and touches no other page |
| BTree.LeavesAtOneDepth | internal/ENG/ID/id.go:365-415 | every path from a page to a leaf has the same length |
| BTree.SeparatesBelow | internal/ENG/ID/id.go:349-362 | a key that separates below a page does so on the way to its own leaf |
| BTree.Onward | internal/ENG/ID/id.go:349-362 | one step down, with the split of a full child, keeps what the rest of the insertion needs, both as the owner of the key and right of an equal separator |
| BTree.OwnSeparates | internal/ENG/ID/id.go:349-362 | a step down changes nothing about whether the key separates below |
| BTree.StepLoses | internal/ENG/ID/id.go:349-362 | a step down carries the guard, and what it says is lost, along unchanged |
| BTree.LossStored | internal/ENG/ID/id.go:349-362 | the guard names a last key that is stored below the page, is not the inserted one, and lies in the range that is lost |
| BTree.SharedPage | internal/ENG/ID/id.go:387-397 | a full page cut at the key shares with its right half a child that begins at the key |
| BTree.GoneKept | internal/ENG/ID/id.go:349-415 | when the shared child is split at the empty right edge, a search for a key of its lower half finds what is stored |
| BTree.GoneLost | internal/ENG/ID/id.go:349-415 | a search for a key of its upper half finds nothing if the child is a leaf, and else only what lies below its middle child |
| BTree.InsertTwin | internal/ENG/ID/id.go:325-363 | insertion below a page does not depend on the pages above it: two page tables that agree below stay so, and new pages get the same ids |
| BTree.SharedKeeps | internal/ENG/ID/id.go:349-415 | the insertion that meets the guard changes no page outside the range and leads every search to what the guard says |
| BTree.LastIsLost | internal/ENG/ID/id.go:299-314 | the last key of a full child that is split at the edge is lost, at any depth |
| BTree.LeafLoss | internal/ENG/ID/id.go:349-415 | if the child at the edge is a leaf, the stored keys that are lost are exactly those of its upper half |
| BTree.BeyondEdge | internal/ENG/ID/id.go:299-314 | a search that is led past the end of a page by a missing separator ends at a leaf without the key, at any depth the tree can have |
| BTree.ManyInside | internal/ENG/ID/id.go:365-415 | every page below the top level is at least half full, so the number of pages inside its range grows by a factor of 100 with each level |
| BTree.TreeIsShallow | internal/ENG/ID/id.go:109-116 | no tree over 32-bit page ids is deeper than 5 |
| BTree.Back | internal/ENG/ID/id.go:349-362 | what the recursive call did, a map update, a stray entry or a loss, is what the caller owes |
| BTree.InsertFramed | internal/ENG/ID/id.go:325-363 | on any page table of the right shape, with lost keys or without, the recursive insertion keeps the shape and the occupancy, leaves pages beside and above alone, and takes at most one new page for each level |
| BTree.InsertKeeps | internal/ENG/ID/id.go:325-363 | the recursive insertion is a map update if the key does not separate below the page and leaves the contents alone if it does, unless the guard holds, and then every search below the page answers as the guard says |
| BTree.BTree.InsertNonFull | internal/ENG/ID/id.go:325-363 | the method that splits and descends computes the recursive insertion as a function of the page table, whatever the table holds |
| BTree.GrowRootHolds | internal/ENG/ID/id.go:136-145 | splitting the root keeps invariant and contents |
| BTree.GrowRootSeparates | internal/ENG/ID/id.go:136-145 | the only key that becomes a separator by a root split is the one it lifts |
| BTree.GrowRootLost | internal/ENG/ID/id.go:136-145 | splitting the root changes nothing about the guard or what it says is lost |
| BTree.BTree.SplitRoot | internal/ENG/ID/id.go:136-145 | the new root is in place over the two halves of the old one, whatever the table holds |
| BTree.BTree.AllocPageID | internal/ENG/ID/id.go:109-116 | page ids count up from 1 and wrap at 32 bits |
| BTree.InsertDone | internal/ENG/ID/id.go:119-148 | after the descent from the root the tree holds the updated map, or the same map if the key separates, or every search answers as the guard says |
| BTree.InsertedWhole | internal/ENG/ID/id.go:119-148 | a tree keeps its page sizes, the one depth of its leaves and half full pages through every insert, also after one that has lost keys |
| BTree.InsertedAnswers | internal/ENG/ID/id.go:119-148 | an insert into a tree that holds its contents is a map update, no change, or the loss that the guard says; all other keys are found as before if and only if the guard does not hold |
| BTree.SomeIsLost | internal/ENG/ID/id.go:119-161 | if the guard holds some other stored key is not found afterwards, and the inserted key keeps its old answer |
| BTree.SeparatorsKnown | internal/ENG/ID/id.go:349-362 | a key that separates is stored |
| BTree.BigTreeHasSeparator | internal/ENG/ID/id.go:365-415 | every tree with more keys than fit a page has a stored key that separates |
| BTree.BTree.Insert | internal/ENG/ID/id.go:119-148 | Insert computes the function for every tree, so later inserts after a loss are determined too; on a tree that holds its contents it is a map update, or no change if the key separates, and keeps it so, unless the guard holds, and then every key is found exactly as the guard says; all other keys are found as before if and only if it does not hold; the new value is found if and only if the key does not separate or had that value |
| BTreeRun.SparedRun | internal/ENG/ID/id.go:119-148 | after any run of inserts of which none meets the guard the tree holds exactly the inserted keys, each with a value that was inserted for it |
| BTreeRun.DistinctRun | internal/ENG/ID/id.go:119-161 | after any run that inserts each key once the tree holds exactly the inserted pairs and finds them |
| BTreeRun.RunLoses | internal/ENG/ID/id.go:119-148 | a run of 30,201 inserts of different keys into the empty tree leads to a tree that holds them all and in which inserting one of them again, with any value, loses exactly 100 others |
| BTreeRun.Build | internal/ENG/ID/id.go:119-148 | calling Insert on a new tree for one key after the other, up to 40,000 times, is such a run |
| SkipList.StepKeeps | internal/ENG/LS/skiplist.go:73-137 | every atomic step of any insert keeps the chain sorted and duplicate-free, the upper links nil and the length exact, and removes no node |
| SkipList.NeverStuck | internal/ENG/LS/skiplist.go:73-137 | in every state of every run the next atomic step of every insert is defined: every node and every link that it follows is there |
| SkipList.FailsOnlyForLinks | internal/ENG/LS/skiplist.go:119-131 | a compare-and-swap fails only if some node was linked since this search began, and an insert retries at most once for each node linked since its call |
| SkipList.CasBetween | internal/ENG/LS/skiplist.go:125-128 | a compare-and-swap that succeeds links the node between a smaller and a greater neighbour |
| SkipList.LinkHolds | internal/ENG/LS/skiplist.go:119-128 | linking a node adds exactly its pair to the table |
| SkipList.StoreKeeps | internal/ENG/LS/skiplist.go:111-117 | storing into a found node replaces exactly its value |
| SkipList.ChainSorted | internal/ENG/LS/skiplist.go:73-137 | at every point of every run the chain is strictly sorted and holds each inserted key with the value that took effect last |
| SkipList.ReplayIsLast | internal/ENG/LS/skiplist.go:73-137 | the value that took effect last is that of the last entry of the key in the order of effects |
| SkipList.TakesEffect | internal/ENG/LS/skiplist.go:73-137 | every insert has exactly one entry, its pair, in the order of effects, made after its call and before its return |
| SkipList.LengthExact | internal/ENG/LS/skiplist.go:134-163 | the counter never exceeds the chain length and equals it when no insert is in flight |
| SkipList.KeysStay | internal/ENG/LS/skiplist.go:73-137 | a linked node stays linked with its key for the rest of the run |
| SkipList.Find | internal/ENG/LS/skiplist.go:139-159 | with no insert in flight Find returns the last value stored for the key, or nothing |
| SkipList.Iterate | internal/ENG/LS/skiplist.go:165-198 | iteration yields every pair once in key order |
| FlushProtocol.InvStep | internal/ENG/LS/flush.go:199-353 | every step of callers, worker, Stop and WaitForFlush keeps the invariant |
| FlushProtocol.RequestMoves | internal/ENG/LS/flush.go:263-318 | a step of requestFlush keeps the table in hand, or sends it once with its id, or refuses it once |
| FlushProtocol.PendingCounts | internal/ENG/LS/flush.go:263-318 | the pending counter equals queued jobs plus the running one plus a caller between Add and send, and is never negative |
| FlushProtocol.RunsOnceInOrder | internal/ENG/LS/flush.go:199-235 | jobs run in the order they were accepted, each once, and those that have not run are running or queued |
| FlushProtocol.WaitMeansRun | internal/ENG/LS/flush.go:320-325 | the counter is 0 if and only if every accepted job has run and none is in hand |
| FlushProtocol.ExitMeansDrained | internal/ENG/LS/flush.go:202-221 | when the loop exits the queue is empty, the counter 0, and no job is accepted afterwards |
| FlushProtocol.LaterChecksAreDead | internal/ENG/LS/flush.go:295-315 | inside the retry loop done is never closed, and a memtable is refused only after Stop |
| FlushProtocol.ErrorsKept | internal/ENG/LS/flush.go:387-402 | Close has an error to report if and only if some job failed |
| FlushProtocol.StepsRunDown | internal/ENG/LS/flush.go:263-353 | every step that is not a new call brings the end nearer |
| FlushProtocol.RunsEnd | internal/ENG/LS/flush.go:263-353 | a run without new calls is no longer than the measure of its start |
| FlushProtocol.QuietMeansReturned | internal/ENG/LS/flush.go:263-353 | when nothing can move every call has returned: no deadlock on the mutex, the full queue, the counter or the loop's exit |
| LayeredStore.InvStep | internal/ENG/LS/engine.go:62-139 | every step of the writer and of the flush system, shutdown included, keeps the record of what became of each frozen memtable |
| LayeredStore.SendStep | internal/ENG/LS/flush.go:295-317 | sending, refusing or holding a frozen memtable leaves the order of all frozen memtables as it is |
| LayeredStore.ResolveVisible | internal/ENG/LS/engine.go:62-120 | taking the first hit from the newest layer down reads the merged map |
| LayeredStore.LayersAreTheKept | internal/ENG/LS/engine.go:62-120 | at every point of every run lookup gives the merge of the memtables that were neither refused nor failed and of the active one, and the writes are the merge of all of them |
| LayeredStore.WrittenIsLast | internal/ENG/LS/engine.go:62-120 | at every point of every run the last value written of a key is the value of its last Write in the run |
| LayeredStore.UnharmedExact | internal/ENG/LS/engine.go:62-120 | a key reads the same without the lost memtables if and only if the last one that holds it is kept, or what the kept ones before it give is the same value |
| LayeredStore.LossExact | internal/ENG/LS/engine.go:62-120 | lookup gives the last value written if and only if the key is in the active memtable or unharmed by the lost ones |
| LayeredStore.NothingLost | internal/ENG/LS/engine.go:62-120 | while no memtable was refused and no job failed, lookup gives the last value written, before and after Stop |
| LayeredStore.SyncIsDurable | internal/ENG/LS/engine.go:124-139 | when Sync returns from its wait level 0 alone is the merge of the memtables that are not lost: it gives the last value written of exactly the unharmed keys, and of all if none was refused and none failed |
| LayeredStore.ExitIsDurable | internal/ENG/LS/flush.go:202-221 | when the loop has exited every accepted job has run and level 0 is the merge of those that succeeded; if none was refused or failed and none is in hand, level 0 and the active memtable are all writes |
| LayeredStore.SyncNothingExact | internal/ENG/LS/engine.go:128-130 | when Sync returns at once everything is flushed if and only if nothing is pending and the empty pair is not active |
| LayeredStore.SyncTooEarly | internal/ENG/LS/engine.go:124-139 | after a write that fills the memtable Sync returns nil with nothing in level 0 |
| LayeredStore.SyncSkipsEmptyPair | internal/ENG/LS/engine.go:128-130 | the empty pair alone is never flushed by Sync |
| LayeredStore.FailedRunLoses | internal/ENG/LS/flush.go:224-232 | after a failed Run the written key is in no layer |
| LayeredStore.StopLosesWrites | internal/ENG/LS/flush.go:279-283 | a memtable that fills up after Stop is in no layer |
| EngineRead.ReadExact | internal/ENG/LS/engine.go:141-217 | at every point of every run Read returns the last value written if and only if it is in the active memtable or the one just frozen, or the key was never frozen, or the oldest file with the key has the value that was frozen last |
| EngineRead.ReadAfterSync | internal/ENG/LS/engine.go:124-217 | after the wait of Sync, if nothing failed, Read returns the version of the key that was flushed first, which is right if and only if it equals the last |
| EngineRead.ReadMissesQueued | internal/ENG/LS/engine.go:102-175 | a run without failures in which Read finds nothing for a key that was just written |
| EngineRead.ReadIsStale | internal/ENG/LS/engine.go:177-217 | a run without failures and with no job pending in which Read returns an older value than the last |
| Codec.EncodeVarint | internal/ENG/LS/memtable.go:68-83 | the buffer loop writes the base-128 form of a length in at most nine bytes |
| Codec.DecodeVarint | internal/ENG/LS/memtable.go:85-96 | the shift loop computes value and length of what is read, cut to 64 bits |
| Codec.ReadsVarint | internal/ENG/LS/memtable.go:68-96 | decoding undoes encoding, whatever follows |
| Codec.UvarintUnique | internal/SQL/PL/memo.go:84-88 | equal varint encodings in front of any bytes mean equal numbers and equal rest |
| Codec.ReadsUvarint | internal/ENG/LS/catalog.go:229-232 | every 64-bit number comes back from its uvarint |
| Codec.UvarintBytes | internal/ENG/LS/memtable.go:68-83 | the i-th byte of a varint holds the i-th seven bits from the low end, and its top bit is set exactly while more follow |
| Codec.LittleEndianBytes | internal/ENG/LS/manifest.go:78-107 | the i-th byte of a fixed-width integer is its i-th byte from the low end |
| Codec.BigEndianBytes | internal/ENG/LS/catalog.go:911-936 | in the catalog it is the i-th from the high end |
| Manifest.RoundTrip | internal/ENG/LS/manifest.go:126-228 | parsing an encoded version gives it back, for any checksum function |
| Manifest.EncodeManifest | internal/ENG/LS/manifest.go:126-155 | the nested loops write exactly the encoding |
| Manifest.ParseManifest | internal/ENG/LS/manifest.go:157-228 | the offset loops compute the parse function on every input, valid or not |
| Manifest.KeyRange | internal/ENG/LS/flush.go:85-100 | the scan of a sorted memtable yields bounds that are among its keys and hold for all keys but the empty one; they hold for all if and only if the first of several is not stored as nil |
| Manifest.Manifest.Load | internal/ENG/LS/manifest.go:41-72 | a restart finds the version that was current |
| Manifest.Manifest.Apply | internal/ENG/LS/manifest.go:78-107 | the file on disk parses to the current version after success, and after a failed write or rename nothing has changed |
| Manifest.Manifest.Update | internal/ENG/LS/flush.go:79-153 | a flushed file becomes the first of level 0, in front of the files that were there, with bounds that cover its keys exactly when the scan does, other levels stay, and an empty memtable or a failure changes nothing |
| Manifest.DiskDecides | internal/ENG/LS/manifest.go:41-107 | the file alone determines the version |
| SstFormat.UnpackCompress | internal/ENG/LS/sst_dict.go:87-155 | a stored block comes back whichever of the three compressed forms was chosen |
| SstFormat.DecodesSeal | internal/ENG/LS/sst_reader.go:222-300 | decoding a sealed block gives exactly its pairs |
| SstFormat.ParsesIndex | internal/ENG/LS/sst_reader.go:61-94 | parsing the written index gives its entries |
| SstFormat.EntryPoints | internal/ENG/LS/sst_writer.go:203-222 | each index entry names its block's last key and the bytes the block was compressed to |
| SstFormat.SetBitOnly | internal/ENG/LS/sst_writer.go:124-125 | setting a bit sets that bit and no other |
| SstFormat.FilterExact | internal/ENG/LS/sst_writer.go:116-126 | a bit of the key filter is set if and only if one of the added keys hashes to it |
| SstFormat.PrefixExact | internal/ENG/LS/sst_writer.go:129-140 | a bit of the prefix filter is set if and only if the first eight bytes of one of the keys hash to it modulo the number of bytes |
| SstFormat.PrefixFound | internal/ENG/LS/sst_reader.go:115-129 | the prefix filter finds the start of a key it was built from if and only if both its hashes modulo the number of bits are below the number of bytes |
| SstFormat.PrefixMissed | internal/ENG/LS/sst_reader.go:115-129 | the filter of the one key "a" denies that a key may have the prefix "a" |
| SstFormat.NeverMissed | internal/ENG/LS/sst_reader.go:96-111 | the key filter has no false negative |
| SstFormat.OpensFile | internal/ENG/LS/sst_reader.go:23-59 | a finished file opens to its index and its filter |
| SstFormat.BlockRead | internal/ENG/LS/sst_reader.go:192-215 | reading the i-th block of a finished file gives the i-th group of pairs |
| SstFormat.IterationRoundTrip | internal/ENG/LS/sst_reader.go:302-355 | iterating a finished file yields exactly the added pairs in order, for any split into blocks |
| SstWriter.Writer.Add | internal/ENG/LS/sst_writer.go:61-111 | Add appends the pair, opens a block exactly when the pair does not fit, and keeps multi-pair blocks within the block size |
| SstWriter.Writer.FinishCurrentBlock | internal/ENG/LS/sst_writer.go:142-165 | the last block gets its trailer and an index entry with the last key |
| SstWriter.Writer.Filters | internal/ENG/LS/sst_writer.go:174-193 | the loops over the keys build both filters |
| SstWriter.Writer.UpdateIndex | internal/ENG/LS/sst_writer.go:211-222 | the index entries get offsets and sizes of the compressed blocks |
| SstWriter.Writer.Finish | internal/ENG/LS/sst_writer.go:167-254 | Finish lays out blocks, index, filters and footer of what was added, or nil for nothing |
| SstReader.OpenTable | internal/ENG/LS/sst_reader.go:23-59 | opening computes the open function on every input |
| SstReader.ParseIndexBlock | internal/ENG/LS/sst_reader.go:61-94 | the offset loop computes the index parse on every input |
| SstReader.Decode | internal/ENG/LS/sst_reader.go:222-300 | the nested loops over restart points compute block decoding on every input |
| SstReader.SearchIndexLoop | internal/ENG/LS/sst_reader.go:164-190 | the binary search loop computes the bisection |
| SstReader.BisectFirst | internal/ENG/LS/sst_reader.go:164-190 | on a sorted index the bisection finds the first block whose largest key is not below the key |
| SstReader.FindKey | internal/ENG/LS/sst_reader.go:131-162 | filter, index search, block read and scan compute the lookup |
| SstReader.FindIsLinear | internal/ENG/LS/sst_reader.go:131-162 | for strictly increasing keys Find agrees with a linear scan of all added pairs |
| SstReader.FinishedIsWhole | internal/ENG/LS/sst_reader.go:318-335 | every block of a finished file can be read and is not empty |
| SstReader.Iterator.LoadBlock | internal/ENG/LS/sst_reader.go:320-335 | loading a block succeeds exactly inside the index |
| SstReader.Iterator.Next | internal/ENG/LS/sst_reader.go:337-355 | Next yields the remaining pairs one by one and then false |
| Recovery.FlushMirrors | internal/ENG/LS/flush.go:28-153 | a finished flush leaves a disk whose manifest and files read back as the new level 0 and whose files answer single keys for it, for any split into blocks |
| Recovery.FileAnswers | internal/ENG/LS/engine.go:183-212 | a finished file, asked through its bounds, its filter and a scan, gives for every key but the empty one what its memtable holds |
| Recovery.RunMirrors | internal/ENG/LS/flush.go:28-153 | so does every run, with jobs that fail half way |
| Recovery.RestartReadsLevel0 | internal/ENG/LS/manifest.go:41-72 | at every point of every run a restart that parses the manifest and iterates the files it names reads exactly level 0 |
| Recovery.SyncThenRestart | internal/ENG/LS/engine.go:124-139 | after Sync has waited a restart reads exactly the memtables that are not lost, and all writes if none was refused or failed |
| EngineRead.ReadFromSST | internal/ENG/LS/engine.go:177-217 | the loops over levels, files from the back and pairs compute the lookup in the files, damaged and missing files included |
| EngineRead.ReadsTheDisk | internal/ENG/LS/engine.go:177-217 | at every point of every run that lookup, through bounds, filters and blocks on disk, answers every key but the empty one as the memtables flushed to level 0 do, oldest first |
| MergeIter.PrefixInterval | internal/ENG/LS/api.go:288-302 | a key has the prefix if and only if it lies between the prefix and its upper bound |
| MergeIter.PrefixUpperBound | internal/ENG/LS/api.go:290-302 | the loop from the last byte computes the upper bound |
| MergeIter.PruningExact | internal/ENG/LS/api.go:273-286 | a file is kept if and only if some string between its bounds has the prefix |
| MergeIter.MergeIterator.PopKey | internal/ENG/LS/api.go:314-340 | popping takes a least key and leaves every source behind it |
| MergeIter.MergeIterator.Next | internal/ENG/LS/api.go:310-356 | Next yields a live pair with the prefix that some source holds, and skips only keys for which some source holds a tombstone |
| MergeIter.MergeIterator.Drain | internal/ENG/LS/api.go:310-356 | a whole scan is strictly increasing, and misses no key unless some source holds a tombstone for it |
| MergeIter.AgreedKey | internal/ENG/LS/api.go:304-356 | a key with one value in all sources that hold it appears with that value if and only if it is not a tombstone |
| CatalogFormat.EntryRoundTrip | internal/ENG/LS/catalog.go:250-390 | an entry without column statistics comes back from its bytes with every column type outside 1 to 255 turned into TEXT and nothing else changed, so unchanged if and only if every column type fits a byte and is not 0 |
| CatalogFormat.PartsIndex | internal/ENG/LS/catalog.go:397-480 | an index definition comes back from its bytes |
| Catalog.FileRoundTrip | internal/ENG/LS/catalog.go:911-936 | bootstrap reads back the tables that a flush wrote, with the column types as a byte keeps them |
| Catalog.NormCacheSame | internal/ENG/LS/catalog.go:250-390 | the file gives the tables back unchanged if and only if all their column types fit |
| Catalog.AppliedSound | internal/ENG/LS/catalog.go:601-707 | every accepted operation keeps the name index inverse to the entries |
| Catalog.StepKeeps | internal/ENG/LS/catalog.go:601-707 | every operation, failed flush, crash before or after the rename, and restart keeps file and cache in agreement |
| Catalog.FileFollows | internal/ENG/LS/catalog.go:201-248 | at every point of every run, any table ids and column types, the file decodes to the tables of the last operation that got through its rename |
| Catalog.TableStep | internal/ENG/LS/catalog.go:601-707 | what one operation, failure, crash or restart does to one table: it comes only by a put that succeeds and was not there, goes only by a delete of its id, and gains only the indexes put on it, last |
| Catalog.LivesIn | internal/ENG/LS/catalog.go:601-707 | in every run a table that was put and not deleted since is there, as it was put, with the indexes put on it since in their order |
| Catalog.InLives | internal/ENG/LS/catalog.go:601-707 | every table that is there was put and not deleted since |
| Catalog.TablesInFile | internal/ENG/LS/catalog.go:201-248 | at every point of every run the file holds a table if and only if it was put and not deleted since, with the columns it was put with as a byte keeps their types, and with the indexes put on it since, in order |
| Catalog.IdsNeverRepeat | internal/ENG/LS/catalog.go:598-614 | NextID returns no id twice across failures, crashes and restarts, as long as no restart has found the top id |
| Catalog.RestartKeeps | internal/ENG/LS/catalog.go:201-248 | a restart finds the committed tables |
| Catalog.RestartGoesBack | internal/ENG/LS/catalog.go:240-246 | a restart lowers the id counter if and only if a table has the top id and the counter was above 1 |
| Catalog.TopIdWraps | internal/ENG/LS/catalog.go:240-246 | for every table with the top id there is a run in which NextID returns 1 twice |
| Catalog.AheadExact | internal/ENG/LS/catalog.go:598-614 | until the counter wraps around every call of NextID returns an id of no table if and only if the counter is past every table |
| Catalog.NextIdIsFree | internal/ENG/LS/catalog.go:598-647 | in every run, with failures, crashes and restarts, that stores tables only under ids below the counter, NextID returns an id of no table and one it has not returned before |
| Catalog.TakenIdIsGiven | internal/ENG/LS/catalog.go:598-647 | a run in which a table is stored as 1 and NextID then returns 1 |
| Catalog.SortedIds | internal/ENG/LS/catalog.go:919-923 | the ids of the cache once each in increasing order |
| Catalog.Catalog.Flush | internal/ENG/LS/catalog.go:911-936 | after a flush the file decodes to the cache, and a failed one leaves the file |
| Catalog.Catalog.NextID | internal/ENG/LS/catalog.go:601-614 | if the flush succeeds the counter is handed out and goes up by one, to 0 behind the top id, else it stays; no table changes |
| Catalog.Catalog.Put | internal/ENG/LS/catalog.go:619-647 | a new table, with any id and any column types, goes under its id and its name exactly if both are free and not empty, the catalog is open and the flush succeeds; no other table and no counter changes, and otherwise nothing does |
| Catalog.Catalog.Delete | internal/ENG/LS/catalog.go:651-669 | the table with the id, and its name, are removed and no other, or nothing changes and neither does the file |
| Catalog.Catalog.NextIndexId | internal/ENG/LS/catalog.go:788-798 | one more than the largest index id in the cache, or 1 |
| Catalog.Catalog.PutIndex | internal/ENG/LS/catalog.go:674-707 | an index with a name that is new to its table is appended behind the others, with a fresh id if it has none; no other table changes, and otherwise nothing does |
| Catalog.Catalog.Bootstrap | internal/ENG/LS/catalog.go:201-248 | the decoding loop computes the load function on every file |
| ExprParser.SoundBinary | internal/SQL/PS/ps.go:600-618 | what parseBinary returns is a precedence tree whose in-order reading is the consumed input, stopped at an operator below minPrec or at no operator |
| ExprParser.CompleteBinary | internal/SQL/PS/ps.go:600-618 | the tokens of a precedence tree are parsed to that tree and then continued |
| ExprParser.ParseExact | internal/SQL/PS/ps.go:600-659 | parseBinary returns a tree and a rest if and only if the tree is the precedence tree of what was consumed, the rest does not go on with its last operand and starts with no operator of at least minPrec |
| ExprParser.TreeUnique | internal/SQL/PS/ps.go:600-659 | a token string has at most one precedence tree |
| ExprParser.TwoOperators | internal/SQL/PS/ps.go:600-659 | for all binary operators p and q, `a p b q c` is `a p (b q c)` if q stands on a later rung of the list from OR to the arithmetic operators than p, and `(a p b) q c` if not |
| ExprParser.PrefixTakesOne | internal/SQL/PS/ps.go:455-466 | a prefix operator takes one operand, whatever binary operator follows |
| ExprParser.BetweenTakes | internal/SQL/PS/ps.go:538-553 | the bounds of a BETWEEN take every operator on a later rung than AND, and an AND or OR after them takes the whole BETWEEN |
| ExprParser.NotLikeTakes | internal/SQL/PS/ps.go:497-505 | the pattern of NOT LIKE takes the operators on later rungs than LIKE and no others |
| ExprParser.NotBetweenMeans | internal/SQL/PS/ps.go:520-536 | `x NOT BETWEEN a AND b` is the expression that `NOT x BETWEEN a AND b` is |
| ExprParser.NotInMeans | internal/SQL/PS/ps.go:508-517 | `x NOT IN (...)` is the expression that `NOT x IN (...)` is |
| ExprParser.NotLikeMeans | internal/SQL/PS/ps.go:497-505 | `x NOT LIKE a` is the expression that `NOT (x LIKE a)` is |
| ExprParser.InMeans | internal/SQL/PS/ps.go:563-598 | an IN list holds its items in order |
| ExprParser.NamesMean | internal/SQL/PS/ps.go:235-453 | a dotted name is table and column, and an aggregate keeps its DISTINCT |
| SqlParser.Parser.ParseBinary | internal/SQL/PS/ps.go:600-618 | the loop over the mutable parser computes the parse function, position and parameter numbering included; what that function answers is fixed by ParseExact and, operator by operator, by TwoOperators |
| SqlParser.Parser.ParseUnary | internal/SQL/PS/ps.go:455-466 | prefix operators bind as the parse function says |
| SqlParser.Parser.ParsePostfix | internal/SQL/PS/ps.go:468-494 | BETWEEN, IN and their negations as the parse function says |
| SqlParser.Parser.ParsePrimary | internal/SQL/PS/ps.go:235-453 | the modelled primary forms as the parse function says |
| SqlParser.Parser.ParseCaseExpr | internal/SQL/PS/ps.go:2335-2382 | CASE with its loop over WHEN clauses as the parse function says |
| SqlParser.Parser.ParseExpr | internal/SQL/PS/ps.go:620-622 | the entry point starts at the lowest precedence |
| ExprPrinter.RoundTrip | internal/SQL/RE/format.go:208-339 | an expression reads back as itself if and only if its operators and literals are spelled as the lexer reads them, its aggregates have one argument and no DISTINCT, a BETWEEN tests a primary and is followed by no operator that its upper bound would take, and parameters are numbered left to right |
| ExprPrinter.NotEqualIsLost | internal/SQL/RE/format.go:300-339 | no comparison with `<>` reads back |
| ExprPrinter.BetweenDrawsIn | internal/SQL/RE/format.go:235-276 | no comparison, concatenation or arithmetic on the right of a BETWEEN reads back |
| ExprPrinter.AstOfTree | internal/SQL/RE/format.go:208-298 | reading back renumbers parameters and changes nothing else |
| ExprPrinter.CleanPlain | internal/SQL/PS/ps.go:235-494 | whatever is parsed from tokens the printer can emit has no qualified name, IN, DISTINCT or negated postfix in it, and is worded as printed |
| ExprPrinter.Same | internal/SQL/PS/ps.go:600-659 | a tree of an expression that reads like the printed expression is the printed tree, parenthesis for parenthesis |
| ExprPrinter.WriteExpr | internal/SQL/RE/format.go:208-298 | the builder appends exactly the printed form |
| ExprPrinter.Format | internal/SQL/RE/format.go:208-298 | printing an expression is its printed form and nothing else |
| Fingerprint.SameBytes | internal/SQL/PL/memo.go:107-270 | two statements that agree on everything the encoding keeps have the same bytes, and no others do, unless a byte after an interval or a window function passes for a tag |
| Fingerprint.PlainQueriesDiffer | internal/SQL/PL/memo.go:235-270 | two SELECT statements of the fully encoded fragment have the same bytes if and only if they are the same |
| Fingerprint.PrefixFree | internal/SQL/PL/memo.go:235-270 | no statement's bytes are the start of another's, under the same condition |
| Fingerprint.ExprUnique | internal/SQL/PL/memo.go:107-223 | expressions are uniquely decodable in front of any bytes, through nested subqueries, as long as no byte after an untagged node passes for a tag |
| Fingerprint.StmtUnique | internal/SQL/PL/memo.go:235-270 | so are statements |
| Fingerprint.DistinctAggregateCollides | internal/SQL/PL/memo.go:165-168 | two queries that differ in DISTINCT on an aggregate share their bytes |
| Fingerprint.FloatsCollide | internal/SQL/PL/memo.go:119-124 | float literals share their bytes if and only if their integer parts agree |
| Fingerprint.UntaggedCollide | internal/SQL/PL/memo.go:107-223 | two queries that differ in an interval or a window function share their bytes |
| Fingerprint.LengthPassesForTag | internal/SQL/PL/memo.go:107-223 | for every name of nine bytes a query with an interval under a certain alias shares its bytes with one that selects NULL under the name |
| Fingerprint.Enc.WriteExpr | internal/SQL/PL/memo.go:107-223 | the encoder appends exactly the bytes of the expression |
| Fingerprint.Enc.WriteStmt | internal/SQL/PL/memo.go:235-270 | the encoder appends exactly the bytes of the statement |
| Fingerprint.KeyBytes | internal/SQL/PL/memo.go:318-323 | the bytes that are hashed are those of the statement |
| Like.MatchLike | internal/SQL/EX/eval.go:1642-1677 | the loop that remembers one wildcard returns true if and only if the text matches the pattern, and ends |
| Like.MatchesMeans | internal/SQL/EX/eval.go:1642-1677 | a text matches if and only if it can be cut into pieces, one for each pattern byte: any piece for `%`, one byte for `_`, that byte for any other |
| Like.NewStar | internal/SQL/EX/eval.go:1649-1653 | a new wildcard makes the last one irrelevant |
| Like.StarSegment | internal/SQL/EX/eval.go:1665-1670 | what follows a wildcard may be matched at its first possible place |
| Like.EndOfText | internal/SQL/EX/eval.go:1673-1676 | at the end of the text backtracking is of no use |
| SampleSort.CompareValuesOrder | internal/SQL/EX/sort_parallel.go:298-351 | on one type with nil the comparison is antisymmetric and transitive |
| SampleSort.CompareMeans | internal/SQL/EX/sort_parallel.go:298-351 | the comparison is negative exactly for nil before anything else, the smaller number of one type, the smaller string by its bytes, and false before true |
| SampleSort.LessRowMeans | internal/SQL/EX/sort_parallel.go:277-295 | lessRow holds if and only if the first sort column that is not even puts the first row first, in the direction of its key |
| SampleSort.LessRowWeak | internal/SQL/EX/sort_parallel.go:277-295 | on sort columns of one type lessRow is a strict weak order |
| SampleSort.UniformIsWeak | internal/SQL/EX/sort_parallel.go:277-351 | so rows with one type a sort column can be sorted stably |
| SampleSort.OneColumnExact | internal/SQL/EX/sort_parallel.go:298-351 | for one sort column lessRow is a strict weak order if and only if no row with a third type meets two rows that compare |
| SampleSort.StableSortExists | internal/SQL/EX/sort_parallel.go:158-162 | every list of rows has a stable sort if and only if lessRow is a strict weak order on them |
| SampleSort.MixedTypesBreakTies | internal/SQL/EX/sort_parallel.go:93-155 | with two workers the sample sort turns the rows 2, 2, 'a', 1 into 1, 2, 2, 'a', which puts 1 in front of the 'a' it ties with, and no stable sort exists for these rows |
| SampleSort.StableSortUnique | internal/SQL/EX/sort_parallel.go:158-162 | sortedness and the order of ties leave one possible output |
| SampleSort.TiesSharePart | internal/SQL/EX/sort_parallel.go:258-274 | rows that tie go to the same part |
| SampleSort.PartsPermute | internal/SQL/EX/sort_parallel.go:258-274 | the parts hold every row exactly once, for any splitters and any types |
| SampleSort.PartsOrdered | internal/SQL/EX/sort_parallel.go:258-274 | no row of an earlier part is greater than one of a later part |
| SampleSort.SampleSortSame | internal/SQL/EX/sort_parallel.go:93-155 | for any splitters, sorting the parts and concatenating them gives the result of one stable sort |
| SampleSort.SampleSortSorts | internal/SQL/EX/sort_parallel.go:93-155 | whatever is sampled, sorting the parts and concatenating them is a permutation of any rows, and the stable sort whenever lessRow is a strict weak order |
| SampleSort.SliceStable | internal/SQL/EX/sort_parallel.go:158-162 | the result is a permutation, and the stable sort whenever lessRow is a strict weak order on the rows |
| SampleSort.ParallelSorter.PickSplitters | internal/SQL/EX/sort_parallel.go:99-119 | the splitters are every fourth row of the sorted samples, taken at even steps from the rows |
| SampleSort.PartitionBySplitters | internal/SQL/EX/sort_parallel.go:258-274 | the loops put every row into its part in order |
| SampleSort.ParallelSorter.ParallelSort | internal/SQL/EX/sort_parallel.go:93-155 | on any rows the result is a permutation; with one type a sort column, in the first column in which two rows differ their values ascend or descend as the key says, and rows that agree in all sort columns keep their order; it is the one stable sort whenever lessRow is a strict weak order, and from two rows a worker on, if the pool takes all jobs, the sample sort with those splitters, else the sequential fallback |
| Grouping.ItoaLoop | internal/SQL/EX/distinct.go:93-113 | the buffer loop computes the decimal form, the least int64 included |
| Grouping.ItoaInjective | internal/SQL/EX/distinct.go:93-113 | different numbers have different decimal forms |
| Grouping.ItoaMeans | internal/SQL/EX/distinct.go:93-113 | every number but the least is written as its sign and its decimal digits without a zero in front |
| Grouping.CompareMeans | internal/SQL/EX/eval.go:1388-1440 | compare is negative exactly for NULL before anything else, the smaller number after conversion, the smaller string by its bytes, and false before true |
| Grouping.KeysLessMeans | internal/SQL/EX/aggregate.go:158-175 | keysLess holds if and only if in the first column that is not even the first key is below the second |
| Grouping.KeysLessWeak | internal/SQL/EX/aggregate.go:158-175 | on keys of one type a column keysLess is a strict weak order |
| Grouping.DistinctKeyColumns | internal/SQL/EX/distinct.go:53-91 | if no string before the last column can be mistaken, two hash keys are equal if and only if they agree column by column |
| Grouping.DistinctKeyInjective | internal/SQL/EX/distinct.go:53-91 | without floats the hash key is then injective and agrees with keysEqual, zero bytes in the last column included |
| Grouping.NoZerosSeparable | internal/SQL/EX/distinct.go:53-91 | no string before the last column can be mistaken if none has a zero byte |
| Grouping.ZeroBytesCollide | internal/SQL/EX/distinct.go:53-91 | a string with columns after it shares a hash key with a shorter one if and only if what follows some zero byte in it can be the beginning of the keys of the other columns, going on past its end |
| Grouping.FamilyCollides | internal/SQL/EX/distinct.go:53-91 | a whole family of pairs of different group keys with one hash key |
| Grouping.FloatsMerge | internal/SQL/EX/distinct.go:115-117 | within the range of int64 two floats share a hash key if and only if they agree to three decimals, which is right if and only if they are equal or differ there |
| Grouping.FloatsSplit | internal/SQL/EX/eval.go:1689-1713 | an integer and a float are grouped rightly if and only if the float is not what the integer is converted to |
| Aggregates.SameGroups | internal/SQL/EX/hashagg.go:64-85 | for separable keys without floats both forms of grouping build the same groups in the same order |
| Aggregates.SameResult | internal/SQL/EX/hashagg.go:64-107 | for such keys without parameters the two operators return the same rows if and only if there is input or a GROUP BY |
| Aggregates.DisagreementShows | internal/SQL/EX/hashagg.go:64-85 | the two forms group two rows alike if and only if the hash key and the comparison agree on their keys |
| Aggregates.GroupsMean | internal/SQL/EX/aggregate.go:67-100 | the groups are those of the distinct keys in the order of their first rows, each with exactly the input rows that belong to its key, in input order |
| Aggregates.HashRows | internal/SQL/EX/hashagg.go:64-85 | in the hash form the rows of a group are the input rows with its hash key |
| Aggregates.ListRows | internal/SQL/EX/aggregate.go:67-100 | in the list form they are the input rows with its key, if no column mixes integers and floats |
| Aggregates.KeysComeSorted | internal/SQL/EX/aggregate.go:101-115 | with a sort that sorts strict weak orders stably, keys of one type a column come out ascending by the first column that is not even, and even keys in the order of their first rows |
| Aggregates.RowsComeSorted | internal/SQL/EX/hashagg.go:87-89 | so do the groups of the hash form, by the group columns of their first rows |
| Aggregates.Aggregate.Materialize | internal/SQL/EX/aggregate.go:67-129 | one output row for each distinct key in the sorted order, with that key and the aggregates of exactly the input rows that belong to it, in input order; it fails if and only if a row cannot be evaluated or an aggregate fails; without rows it returns nothing, or without GROUP BY the aggregates of no rows |
| Aggregates.HashAggregate.Fill | internal/SQL/EX/hashagg.go:64-85 | the buckets in the order of their keys hold the groups by hash key |
| Aggregates.HashAggregate.Materialize | internal/SQL/EX/hashagg.go:64-107 | the same with hash keys: one output row for each distinct hash key, with the aggregates of exactly the input rows of that hash key, in input order, sorted by the first rows of the groups |
| VecEval.SwapMeans | internal/SQL/EX/eval_vec.go:426-438 | comparing the other way round with the swapped operator is the same |
| VecEval.OpMeans | internal/SQL/EX/eval_vec.go:368-422 | on integers, floats and strings each comparison holds exactly if the two values compare so by size, or by rank for strings |
| VecEval.RowPathRounds | internal/SQL/EX/eval_vec.go:368-422 | for any monotone conversion to floats the row path and the kernels agree on every operator always for strings and floats, and for integers if and only if they are equal or converted to different floats |
| VecEval.FirstRounding | internal/SQL/EX/eval_vec.go:368-384 | with the 53 bits of a float64 the first pair on which they disagree is 2^53 and 2^53 + 1 |
| VecEval.Kernel8 | internal/SQL/EX/eval_vec.go:217-277 | the 8-wide, 4-wide and tail loops select exactly the ascending matching indices |
| VecEval.Kernel4 | internal/SQL/EX/eval_vec.go:312-339 | so do the 4-wide and tail loops |
| VecEval.CompareColLit | internal/SQL/EX/eval_vec.go:165-181 | a column against a literal selects the rows on which the comparison holds |
| VecEval.CompareCols | internal/SQL/EX/eval_vec.go:147-162 | a column against a column likewise |
| VecEval.InvertSelection | internal/SQL/EX/eval_vec.go:442-454 | inverting a selection selects exactly the other rows in order |
| VecEval.EvalBatch | internal/SQL/EX/eval_vec.go:22-89 | under any nesting of NOT the selection is exactly the rows on which the predicate holds, with nil meaning all |
| VecEval.PathsAgree | internal/SQL/EX/eval_vec.go:22-89 | under any nesting of NOT a predicate holds on a row exactly if the row path accepts the row, if no comparison is between different integers converted to one float |
| VecEval.SelectsRowPath | internal/SQL/EX/eval_vec.go:22-89 | the selection is then ascending and holds exactly the rows that the row path accepts |
| VecPipeline.Scan.NextBatch | internal/SQL/EX/operators_vec.go:48-91 | batches hold the next rows of the source in order, up to 1024 |
| VecPipeline.Filter.NextBatch | internal/SQL/EX/operators_vec.go:129-156 | each batch delivers exactly the matching rows of its stretch, and dropped batches have none |
| VecPipeline.Counter.NextBatch | internal/SQL/EX/aggregate_vec.go:37-66 | COUNT over scan and filter is the number of matching rows modulo 2^64 |
| VecPipeline.Adder.Accumulate | internal/SQL/EX/aggregate_vec.go:135-193 | the 4-wide and tail loops, or the selection loop, add up the chosen cells modulo 2^64 |
| VecPipeline.Adder.NextBatch | internal/SQL/EX/aggregate_vec.go:105-132 | SUM over scan and filter is the sum over the matching rows modulo 2^64 |
| VecPipeline.WrapMeans | internal/SQL/EX/aggregate_vec.go:135-193 | the wrapped value differs from the exact one by a multiple of 2^64 |
| VecPipeline.SumCat | internal/SQL/EX/aggregate_vec.go:105-132 | the sum over two lists of rows is the sum of their sums |
| VecPipeline.SumOne | internal/SQL/EX/aggregate_vec.go:105-132 | the sum over one row is its cell |
| BufferPool.Pool.Get | internal/MEM/BF/bf.go:169-347 | a page is found or read with the disk's payload into a buffer of its own; pinned pages stay, other pages keep buffer and contents, and the pool outgrows its capacity only if every slot is held |
| BufferPool.Pool.Upsert | internal/MEM/BF/bf.go:375-460 | the caller's buffer, which may be the page's own already, becomes the page, with the same guarantees |
| BufferPool.Pool.Evict | internal/MEM/BF/bf.go:251-296 | a victim is unpinned and old or least recently used, its buffer is recycled, and there is none only if every slot is held |
| BufferPool.LruExact | internal/MEM/BF/bf.go:251-296 | eviction is least-recently-used if and only if no two old unpinned pages differ in age |
| BufferPool.ClockMeans | internal/MEM/BF/bf.go:251-269 | the hand goes up by one, wraps at 64 bits, and a page is old that was used more than eight ticks before it |
| BufferPool.LastPageMayGo | internal/MEM/BF/bf.go:252-269 | a run of a full pool in which the most recently used page may be evicted |
| BufferPool.Pool.Pin | internal/MEM/BF/bf.go:350-359 | pinning a resident page counts up |
| BufferPool.Pool.Unpin | internal/MEM/BF/bf.go:362-370 | unpinning counts down |
| Sketch.NibbleSet | internal/MEM/BF/wtinylfu.go:85-90 | writing a counter leaves its neighbour alone |
| Sketch.CountMeans | internal/MEM/BF/wtinylfu.go:57-75 | the true count is how often the key was recorded |
| Sketch.NeverUnder | internal/MEM/BF/wtinylfu.go:57-75 | the estimate is never below the true count, up to 15, for any hash |
| Sketch.ExactAlone | internal/MEM/BF/wtinylfu.go:57-75 | it is the true count if in some row no counted key shares the cell |
| Sketch.TinyLfu.Increment | internal/MEM/BF/wtinylfu.go:78-92 | every counter is the number of increments that hit it, saturated at 15 |
| Sketch.TinyLfu.Estimate | internal/MEM/BF/wtinylfu.go:57-75 | the least of the four counters |
| Sketch.TinyLfu.RecordHit | internal/MEM/BF/wtinylfu.go:94-99 | the hit is counted, and the key is hot exactly if its least counter is above 1 |
| Sketch.TinyLfu.Admit | internal/MEM/BF/wtinylfu.go:106-119 | the new key is counted, then admitted exactly if strictly more frequent |

## Left out

- BTree.BTree.Insert: asks for enough unused page ids, since 32-bit ids wrap around in the source; what is found after a second loss is given by the function of the page table only.
- BTree: Delete, rebalancing and Cursor, so a page that a delete has left less than half full is not covered; loading and flushing the file, page checksums, the counter of keys and the dirty flags. Pages are values in a map field, so two parents name one page by its id as in the source.
- SkipList: scratch slices from the pool, the random choice of the level (any level is allowed) and callers that change a key slice after inserting it; the mutex around the store into a found node is one step with it, so waiting for that mutex is not modelled. Find and iteration are modelled with no insert in flight.
- SkipList.NeverStuck: an insert that waits for the mutex of a found node is not modelled as waiting, because that mutex is held for one store only.
- SkipList.Find: says nothing about a lookup that overlaps an insert.
- FlushProtocol: the memtable that the flush manager keeps for itself, and file ids after 2^64 of them. A mutex is taken in any order.
- LayeredStore: one writer at a time, as the engine takes no lock, and compaction.
- EngineRead: the counters of hits, tombstones, and a Read that overlaps the moment in which the list of memtables changes.
- EngineRead.ReadsTheDisk: not for the empty key, which lies outside the bounds of a file whose memtable has it as nil.
- Recovery: a restart is read by iterating whole files of level 0, newest first; the lookup of one key in a file is SstReader.FindIsLinear. Crashes between the steps of a flush are failed jobs.
- Manifest: the creation time, the channel of changes, and the difference between ErrInvalidManifest and a run-time panic on malformed input (both are None).
- SstFormat: the dictionary trainer is any function with its size cap; a slice out of range is None; Open does not keep the prefix filter, which nothing in the repository asks.
- SstFormat.IterationRoundTrip: asks that index and filter are shorter than 2^32 bytes, because the footer cuts their sizes to 32 bits.
- SstReader.Iterator.Next: asks that every block can be read and is not empty, which FinishedIsWhole proves for finished files; on a damaged file the source may start over.
- MergeIter: which of several sources wins for a key, since the heap compares keys only; opening the files.
- CatalogFormat: the version stored with an entry.
- CatalogFormat.EntryRoundTrip: not for entries with column statistics; a file with any is not decoded here.
- Catalog: DeleteIndex, PutStats, the read-only accessors and the error values; names, SQL texts and lists are shorter than 2^63, and NextIndexId asks for index ids below the top one.
- ExprParser: lexing of characters (quotes inside strings, and a nested minus that prints as a comment), floats, aggregates with special syntax, windows, CAST, COALESCE, NULLIF, EXISTS, INTERVAL, subqueries and error positions.
- SqlParser.Parser.ParsePrimary: not for the primary forms named in the line before, which take tokens that the model does not have.
- ExprPrinter: characters, and the nodes that the model of the parser leaves out. COUNT, SUM, AVG, MIN and MAX are names like others here; the source reads them as keywords, to the same result for one argument.
- Fingerprint: the SHA-256 over the bytes, statements other than SELECT, compound statements among them, and the frame of a window function, of which nothing is written.
- Fingerprint.ExprUnique: asks that no byte after an interval or a window function passes for a tag, as LengthPassesForTag shows it must.
- SampleSort: NaN; the pool runs the jobs of different parts in any order, which cannot matter because each sorts a part of its own.
- Grouping: floats are real numbers; the conversion of an integer to a float64 is a parameter.
- Aggregates: evaluation of expressions and aggregates, and the sort itself, are parameters; repeated calls of Next.
- VecEval: NULL, the row-at-a-time fallback and mixed types.
- VecPipeline: the batch pool, sums of floats, AVG, MIN and MAX.
- BufferPool: concurrent loading, dirty pages, NUMA, persistent memory, statistics other than used, hint files.
- Sketch: the window is written and never read, as in the source.
