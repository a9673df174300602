# Verification of the oxiscale store and Noise transport

This Dafny project models three parts of oxiscale and proves what they promise:

1. **The store.** `MemoryStore` keeps one document of vectors behind a lock; `FileStore` adds a whole-document
   snapshot after every change (write a temporary file, rename it over the target).
2. **`FramedIo`.** The adapter that turns a stream of chunks into a stream of bytes.
3. **The TS2021 responder.** Parsing of the initiation, the prologue, the response frame, and the EarlyNoise frame.

## How it is laid out

| file | contents |
|---|---|
| `Wrappers.dfy`, `StoreTypes.dfy` | result types, bytes; the stored aggregates and the document |
| `Vectors.dfy` | first-match vectors: lookup, upsert, retain, filter, and the map they stand for |
| `StoreSpec.dfy`, `AbstractStore.dfy` | every mutating call as a function on documents; the five maps it refines |
| `KeyLaws.dfy` | what `consume_preauth_key` answers over whole runs |
| `MemoryStores.dfy` | the in-memory store as a class with loops, against `StoreSpec` |
| `Paths.dfy`, `Snapshots.dfy`, `FileStores.dfy` | extensions and the temporary path; flush and reopen; the file-backed class |
| `Machine.dfy` | the file-backed store as a transition system: tasks, flush steps, failures, crashes, restarts |
| `Ledgers.dfy` | a ledger of the calls begun and answered Ok, and of calls that the live documents can come from |
| `Recovery.dfy`, `Growth.dfy` | crash recovery and how the file grows, for orderly runs |
| `KeyGuards.dfy`, `AtMostOnce.dfy` | what keeps one key from being redeemed twice; at-most-once acknowledgement |
| `AnySchedule.dfy` | what holds under every interleaving |
| `Overlap.dfy` | why order is needed |
| `Exactness.dfy`, `KeyExactness.dfy` | that order is exact, for all calls and for one key |
| `FramedIos.dfy`, `EndToEnd.dfy` | the adapter, losslessness, and the frame across any fragmentation |
| `Wire.dfy`, `Handshake.dfy`, `EarlyNoise.dfy` | number encodings, the handshake messages, the EarlyNoise frame |

## The results, in words

- **Crash recovery.** Run any number of tasks with any serialisation, write and rename failures, torn writes, cancelled
  calls, loads, crashes and restarts. Call a run orderly if flush windows (snapshot to rename) do not overlap, and a
  load puts back only a document that begun calls can have made which include all acknowledged ones and all under way.
  After any orderly run, reopening gives exactly the document of a legal history of the run's own calls that contains
  every call answered Ok (`CrashRecovery`). If loads run alone, that history is a first part of the calls behind memory,
  and it only ever grows at the end (`PrefixRecovery`, `DurableIsMonotone`).
- **Order is exact.** The source does not keep flushes and loads apart, so the above is not true of every run. In any
  state reached in good order, a step keeps all acknowledged calls safe for ever if and only if it is in good order
  (`StepIsSafeIff`). Safe means that some legal history of the begun calls contains all acknowledged ones and makes the
  document a restart finds: the machine and the answers decide, not the calls that the ledger names (`OnlyFactsCount`).
  For a snapshot the condition is that no other task is between its snapshot and its rename (`SnapshotIsSafeIff`), and
  for a load that its document is explained as above (`LoadIsSafeIff`). A caller can check two sufficient conditions:
  the document comes from all acknowledged calls and all under way, or it is the one in memory.
- **At most once, and exactly when.** For one key less is needed: windows apart, and each load puts back a document that
  accepts no attempt on the key, or holds it for single use while none is acknowledged or under way since its last
  upsert. Then between two acknowledged consumes the key is upserted again, whatever fails and whenever it was issued
  (`UpsertBetweenTwoAcks`, `AtMostOnceFrom`), orderly runs are such runs (`OrderlyRunIsKeyOrderly`), and the condition on
  loads is exact (`LoadKeepsKeyIff`). Every store that opens with an unspent single-use key has a run with two
  overlapping flushes, and another with a load beside a call, in which the key is acknowledged twice
  (`AtMostOnceNeedsOrder`, `AtMostOnceNeedsQuietLoads`).
- **Any schedule.** With the temporary file written in one step, the target is always untouched or a whole
  serialisation of a document that memory really held, and memory itself never depends on the disk.
- **The document is five maps**, even with repeated ids on disk, over every run of calls; entries keep the order in
  which they were first inserted (`ReplayKeepsOrder`).
- **No byte is lost** by `FramedIo`, under any event sequence and any mix of reads, fills and consumes; the client
  recovers the EarlyNoise frame and exactly the bytes behind it, however the transport cuts them up.

## Where the code and its comments differ

The model follows the code.

- `crates/control-core/src/store/traits.rs:28-30` says `consume_preauth_key` answers true iff it flipped an unused key;
  for a reusable key the code answers true and flips nothing (`FlipsIff`).
- `crates/control-core/src/store/file.rs:61-66` says a missing file is treated as an empty store; `load` leaves memory
  as it is. Only `open`, which starts from an empty memory, gives an empty store.
- A flush that fails answers an error but leaves the change in memory, so memory can be ahead of the disk.

## Assumptions

- Decoding a successful encoding gives the document back (`Codec.Faithful`); the encoding may depend on the iteration
  order of the policy map, and may fail. Results that lead a run to a successful flush ask that the documents it
  serialises encode (`Encodes`); those of `Exactness.dfy` also that an empty file is no document, as in all three
  formats.
- Nobody else writes the target or the temporary file: one `FileStore` at a time per path (`TempSharedIff` says when
  two stores would meet in one temporary file).
- A crash is a crash of the process; there is no `fsync` in the source, so power loss is not modelled.
- The clock, the outcome of every I/O step, the events of the inner stream and the result of the cryptography are
  inputs.

## Model

| member | source | states |
|---|---|---|
| Vectors.UpsertedInPlace | crates/control-core/src/store/memory.rs:125-133 | the first entry that is the same is overwritten where it stands, and only if there is none is the new one pushed |
| Vectors.UpsertIsMapUpdate | crates/control-core/src/store/memory.rs:125-133 | find-then-overwrite-or-push is map update on the first-match view, duplicates included |
| Vectors.RemoveIsMapRemove | crates/control-core/src/store/memory.rs:135-139 | `retain` removes the id from the view entirely; no duplicate takes its place |
| Vectors.UpsertKeepsOrder | crates/control-core/src/store/memory.rs:70-78 | an upsert keeps every id where it stood, appends a new one, and keeps unique ids unique |
| Vectors.WithoutKeepsUnique | crates/control-core/src/store/memory.rs:137 | `retain` keeps unique ids unique |
| Vectors.WithoutConcat | crates/control-core/src/store/memory.rs:137 | `retain` keeps the survivors in order |
| Vectors.WithoutKeepsOrder | crates/control-core/src/store/memory.rs:137 | `retain` moves no id but the one it removes |
| Vectors.WithoutCounts | crates/control-core/src/store/memory.rs:137 | entries with the id are gone, each other is there as often as before |
| Vectors.WhereConcat | crates/control-core/src/store/memory.rs:102-112 | a per-network list follows the vector's order |
| Vectors.WhereInOrder | crates/control-core/src/store/memory.rs:102-112 | what a list answers stands in the vector in the same order |
| Vectors.WhereCounts | crates/control-core/src/store/memory.rs:102-112 | each entry of the asked group is listed as often as it is stored, every other never |
| Vectors.ListsPartition | crates/control-core/src/store/memory.rs:80-112 | over all networks the lists hold each stored entry exactly once |
| Vectors.UpsertMovesOneEntry | crates/control-core/src/store/memory.rs:125-133 | an upsert takes the old first match out of its list, puts the new entry into its own, and changes no other |
| StoreSpec.DeleteRemovesOneId | crates/control-core/src/store/memory.rs:135-139 | a delete removes exactly the nodes whose `id` it is, keeps the others in order, and changes nothing else |
| StoreSpec.ReplayKeepsVersion | crates/control-core/src/store/memory.rs:64-196 | no call touches the version |
| StoreSpec.ReplayKeepsUniqueIds | crates/control-core/src/store/memory.rs:64-196 | unique ids stay unique over every run of calls |
| StoreSpec.ReplayKeepsOrder | crates/control-core/src/store/memory.rs:64-196 | over every run the ids of networks, users and keys only grow at the end, and nodes the run does not delete keep their relative order |
| AbstractStore.CallRefinesMaps | crates/control-core/src/store/memory.rs:64-196 | every call acts on the five maps the document stands for |
| AbstractStore.RunRefinesMaps | crates/control-core/src/store/memory.rs:64-196 | over every run the document stands for the maps and answers as they do |
| KeyLaws.KeyOfIsFirst | crates/control-core/src/store/memory.rs:165-167 | the key of an id is the first entry with that `id` |
| KeyLaws.AnswerByExpiry | crates/control-core/src/store/memory.rs:54-62 | no key or an expiry that does not parse: false; no expiry: reusable or unused; a parsed expiry: in the future, and reusable or unused |
| KeyLaws.ConsumeFlipsOneEntry | crates/control-core/src/store/memory.rs:163-182 | only `used` of the first entry with the id changes, and only if the answer is true and the key is not reusable |
| KeyLaws.UnparseableMeansNever | crates/control-core/src/store/memory.rs:54-62 | over every run that leaves it alone, a key whose expiry does not parse is never accepted |
| KeyLaws.TouchesIffStores | crates/control-core/src/store/memory.rs:153-161 | a call touches a key exactly if it is an upsert that stores it under that id, whatever was there |
| KeyLaws.FlipsIff | crates/control-core/src/store/traits.rs:28-30 | a consume changes the store exactly if it answers true for a single-use key |
| KeyLaws.StoredKeyAfter | crates/control-core/src/store/memory.rs:153-182 | what one call does to the key stored under an id it does not upsert |
| KeyLaws.AnswersFromKeyAndClock | crates/control-core/src/store/memory.rs:163-182 | all answers of a run, from the stored key and the clock alone: reusable until expiry, single-use at the first unexpired attempt |
| KeyLaws.AnswerShape | crates/control-core/src/store/memory.rs:54-62 | with a clock that never runs back the answers are trues then falses, with the exact number of trues |
| KeyLaws.ExactlyOneWinner | crates/control-core/src/store/memory.rs:163-182 | any number of consumers of an unused, unexpired single-use key: exactly one true |
| KeyLaws.StaysUsed | crates/control-core/src/store/memory.rs:175-181 | a consumed single-use key stays used until something upserts it |
| KeyLaws.SingleWinner | crates/control-core/src/store/memory.rs:163-182 | between two accepted consumes of a single-use key some call upserts it |
| KeyLaws.SingleWinnerBetweenReplaces | crates/control-core/src/store/memory.rs:45-182 | the same over runs that also replace the whole document: an upsert or a replacement lies between |
| MemoryStores.FindFirst | crates/control-core/src/store/memory.rs:72 | the scan finds the first match, or the end |
| MemoryStores.Upsert | crates/control-core/src/store/memory.rs:72-76 | the scan-and-write computes `Upserted` |
| MemoryStores.Retain | crates/control-core/src/store/memory.rs:137 | the loop keeps exactly the other entries, in order |
| MemoryStores.Filter | crates/control-core/src/store/memory.rs:103-111 | the loop lists exactly the network's entries, in order |
| MemoryStores.PreauthKeyExpired | crates/control-core/src/store/memory.rs:54-62 | missing never expires, unparseable has always expired, otherwise `expiry <= now`, each said of the field |
| MemoryStores.MemoryStore.Snapshot | crates/control-core/src/store/memory.rs:39-41 | a copy of the whole document |
| MemoryStores.MemoryStore.Replace | crates/control-core/src/store/memory.rs:45-47 | the whole document is exchanged |
| MemoryStores.MemoryStore.UpsertNetwork | crates/control-core/src/store/memory.rs:70-78 | the first network with that `id` is overwritten, or the network appended; nothing else changes |
| MemoryStores.MemoryStore.UpsertUser | crates/control-core/src/store/memory.rs:92-100 | the first user with that id is overwritten, or the user appended; nothing else changes |
| MemoryStores.MemoryStore.UpsertNode | crates/control-core/src/store/memory.rs:125-133 | the first node with that id is overwritten, or the node appended; nothing else changes |
| MemoryStores.MemoryStore.DeleteNode | crates/control-core/src/store/memory.rs:135-139 | every node with that id is gone, the others keep their order; nothing else changes |
| MemoryStores.MemoryStore.GetNode | crates/control-core/src/store/memory.rs:114-123 | the first node with that `id`, which is lookup in the map the vector stands for |
| MemoryStores.MemoryStore.ListUsers | crates/control-core/src/store/memory.rs:80-90 | exactly the users whose `network_id` it is, each as often as stored, in order |
| MemoryStores.MemoryStore.ListNodes | crates/control-core/src/store/memory.rs:102-112 | exactly the nodes whose `network_id` it is, each as often as stored, in order |
| MemoryStores.MemoryStore.ListPreauthKeys | crates/control-core/src/store/memory.rs:141-151 | exactly the keys whose `network_id` it is, each as often as stored, in order |
| MemoryStores.MemoryStore.UpsertPreauthKey | crates/control-core/src/store/memory.rs:153-161 | the first key with that id is overwritten, or the key appended; nothing else changes |
| MemoryStores.MemoryStore.ConsumePreauthKey | crates/control-core/src/store/memory.rs:163-182 | the answer from the fields of the first key with that id, failing closed on an expiry that does not parse; only its `used` may change; a refusal changes nothing |
| MemoryStores.MemoryStore.SetPolicy | crates/control-core/src/store/memory.rs:188-196 | the network has that policy; nothing else changes |
| Paths.ExtensionAndStem | crates/control-core/src/store/file.rs:20-27 | the extension is what follows the last dot, the stem what precedes it; hidden files have none |
| Paths.FormatOfName | crates/control-core/src/store/file.rs:19-28 | `json` means JSON, `yaml` and `yml` mean YAML, `toml` means TOML, and nothing else means any |
| Paths.NoExtensionNoFormat | crates/control-core/src/store/file.rs:21 | a name without an extension is refused |
| Paths.FormatBySuffix | crates/control-core/src/store/file.rs:19-28 | the same read off the end of the name |
| Paths.TempName | crates/control-core/src/store/file.rs:79 | the temporary file has the target's name with `.tmp` in place of its extension |
| Paths.TempIsNoTarget | crates/control-core/src/store/file.rs:79-81 | the temporary file is no file any `open` accepts, and lies beside the target |
| Paths.TempSharedIff | crates/control-core/src/store/file.rs:79 | two stores share a temporary file exactly if their paths differ only in the extension |
| Snapshots.FlushIsAtomic | crates/control-core/src/store/file.rs:74-83 | Ok exactly if every step succeeds, and then the document is published; otherwise the target is untouched; no other file changes |
| Snapshots.FailedFlush | crates/control-core/src/store/file.rs:76-97 | which error a failed flush answers, and what it leaves in the temporary file |
| Snapshots.MissingFileIsEmpty | crates/control-core/src/store/file.rs:38-54 | a store opened without a file has version 1, no entries, and accepts no attempt |
| Snapshots.ReopensIffFormatReads | crates/control-core/src/store/file.rs:42-59 | after `with_format`, all that can be flushed comes back on reopening if and only if the extension's format reads what the chosen one writes; the extension's own format always does |
| Snapshots.ReopensIffFormatFits | crates/control-core/src/store/file.rs:42-59 | where no format reads all that another writes, that is so if and only if the format is the extension's |
| Snapshots.OneCallSimulates | crates/control-core/src/store/file.rs:122-178 | one call leaves memory as the in-memory store would, and answers as it does or with an error |
| Snapshots.CallFlushesUnlessFalse | crates/control-core/src/store/file.rs:163-169 | a false answer touches no file; any other call flushes what memory now holds and fails as the flush does |
| Snapshots.SimulatesMemoryStore | crates/control-core/src/store/file.rs:116-179 | the same over every session with any failures; without failures there is no error |
| FileStores.Disk.Write | crates/control-core/src/store/file.rs:80 | a write is whole, torn, or fails to open |
| FileStores.Disk.Rename | crates/control-core/src/store/file.rs:81 | a rename replaces the target in one step, and fails without a source |
| FileStores.FileStore.Open | crates/control-core/src/store/file.rs:42-54 | a `.json` file is decoded as JSON, `.yaml` and `.yml` as YAML, `.toml` as TOML, any other name is refused; a missing file gives an empty store; which error otherwise |
| FileStores.FileStore.WithFormat | crates/control-core/src/store/file.rs:56-59 | only the format changes |
| FileStores.FileStore.Load | crates/control-core/src/store/file.rs:63-72 | missing file or failure: memory unchanged; otherwise memory is the decoded file |
| FileStores.FileStore.FlushAll | crates/control-core/src/store/file.rs:76-83 | the files and the answer after a flush |
| FileStores.FileStore.UpsertNetwork | crates/control-core/src/store/file.rs:122-125 | memory first, then the flush; memory keeps the change if the flush fails |
| FileStores.FileStore.UpsertUser | crates/control-core/src/store/file.rs:131-134 | the user goes into memory first, then the whole document is flushed; Err keeps the change in memory |
| FileStores.FileStore.UpsertNode | crates/control-core/src/store/file.rs:144-147 | the node goes into memory first, then the whole document is flushed; Err keeps the change in memory |
| FileStores.FileStore.DeleteNode | crates/control-core/src/store/file.rs:149-152 | the deletion goes into memory first, then the whole document is flushed; Err keeps the change in memory |
| FileStores.FileStore.UpsertPreauthKey | crates/control-core/src/store/file.rs:158-161 | the key goes into memory first, then the whole document is flushed; Err keeps the change in memory |
| FileStores.FileStore.ConsumePreauthKey | crates/control-core/src/store/file.rs:163-169 | flushes only if the answer is true, and answers true only if the flush succeeds |
| FileStores.FileStore.SetPolicy | crates/control-core/src/store/file.rs:175-178 | the policy goes into memory first, then the whole document is flushed; Err keeps the change in memory |
| Machine.CallIsARun | crates/control-core/src/store/file.rs:76-83 | the steps of a call that nothing interrupts do exactly what the sequential store does, and acknowledge it exactly if that answers Ok(true) |
| Machine.NothingIsKeptApart | crates/control-core/src/store/file.rs:76-83 | whether a task can take a step depends on that task, memory and the file alone; a crash is possible at any time |
| Machine.EveryTaskCanGoOn | crates/control-core/src/store/file.rs:63-83 | a task under way can always finish or fail, and be dropped while it waits for the lock |
| Machine.RestartMayFail | crates/control-core/src/store/file.rs:42-54 | a start may fail, and may succeed exactly if the file can be read |
| Machine.DroppedCallStaysInMemory | crates/control-core/src/store/file.rs:122-125 | a call dropped before its snapshot leaves its change in memory, nothing on disk, and no answer |
| Machine.LoadIsARun | crates/control-core/src/store/file.rs:63-72 | the two steps of a load that nothing interrupts do what the sequential load does |
| Machine.OnlyWritesAndRenamesTouchFiles | crates/control-core/src/store/file.rs:76-83 | every other step, a crash included, leaves all files as they are |
| Machine.OnlyRenameChangesTarget | crates/control-core/src/store/file.rs:76-83 | no step but a rename, torn writes included, touches any file but the temporary one |
| Machine.WithoutRenameTargetStays | crates/control-core/src/store/file.rs:76-83 | over every run without a rename what a restart finds stays as it is |
| Recovery.StepKeepsExclusive | crates/control-core/src/store/file.rs:76-83 | orderly steps keep at most one flush window open |
| Recovery.SnapshotKeepsInv | crates/control-core/src/store/file.rs:77 | a snapshot contains its own call and everything acknowledged |
| Recovery.RenameKeepsInv | crates/control-core/src/store/file.rs:81-82 | the rename publishes its window's snapshot, acknowledges its call, and loses nothing acknowledged |
| Recovery.InstallKeepsInv | crates/control-core/src/store/file.rs:63-72 | a load in good order puts back the document it read, which calls explain that include all acknowledged and all under way |
| Recovery.UpToDateIsOrderly | crates/control-core/src/store/file.rs:63-72 | a load is in good order if the document it read comes from all acknowledged calls and all under way |
| Recovery.SameDocumentIsOrderly | crates/control-core/src/store/file.rs:63-72 | a load is in good order if the document it read is the one in memory, whatever is under way |
| Recovery.StepKeepsInv | crates/control-core/src/store/file.rs:42-83 | every orderly step keeps: disk, memory and each open flush hold the document of a legal history with every acknowledged call in it |
| Ledgers.LedgerHoldsAcks | crates/control-core/src/store/file.rs:122-178 | the ledger's acknowledged calls are exactly those a run answers Ok |
| Ledgers.MemoryIsWhatBegan | crates/control-core/src/store/file.rs:122-178 | without a load or a crash memory comes from every mutation of the run, in lock order |
| Ledgers.NothingInvented | crates/control-core/src/store/file.rs:42-83 | under every schedule, the calls named behind memory, the disk and documents under way are calls the run began |
| Recovery.CrashRecovery | crates/control-core/src/store/file.rs:42-83 | after any orderly run, reopening gives exactly the document of a legal history of the run's own calls that contains every acknowledged one |
| Growth.DurableIsMonotone | crates/control-core/src/store/file.rs:63-83 | where each load brings back what the file still holds and misses no call under way, the calls behind the file only grow at the end, and acknowledgements are never taken back |
| Growth.QuietIsOrderlyAndStraight | crates/control-core/src/store/file.rs:63-83 | disjoint flush windows and loads that run alone are in good order, and each load brings back what the file still holds |
| Growth.PrefixRecovery | crates/control-core/src/store/file.rs:42-83 | with disjoint flush windows and loads that run alone, reopening gives the document of a first part of the calls behind memory, with every acknowledged call in it |
| KeyGuards.StepKeepsKeyInv | crates/control-core/src/store/file.rs:42-83 | every step in good order for a key keeps: once an attempt on it is accepted it is closed in memory, once that is answered Ok also on disk and in the open flush |
| KeyGuards.RunKeepsKeyInv | crates/control-core/src/store/file.rs:42-83 | the same over every run that issues the key for single use, upserts in between included |
| AtMostOnce.CountingStarts | crates/control-core/src/store/file.rs:42-83 | in any state of an orderly run where memory, disk and the open flush guard the key, the invariant for the key holds, counting from now on |
| AtMostOnce.UpsertBetweenTwoAcks | crates/control-core/src/store/file.rs:158-169 | over every run in good order for the key: between two of the run's consumes answered Ok(true) it begins an upsert of the key |
| AtMostOnce.AtMostOnceFrom | crates/control-core/src/store/file.rs:163-169 | from any state where what is left to redeem is guarded, at most one Ok(true) over a run in good order for the key that does not upsert it |
| AtMostOnce.OrderlyRunIsKeyOrderly | crates/control-core/src/store/file.rs:42-83 | order for all calls is order for every key held for single use |
| AtMostOnce.OnceAfterIssue | crates/control-core/src/store/file.rs:158-169 | after an acknowledged upsert of a single-use key while the process runs, between two later consumes answered Ok(true) the key is upserted again |
| AtMostOnce.AtMostOnceAfterIssue | crates/control-core/src/store/file.rs:158-169 | and at most one later consume is answered Ok(true) if it is not upserted again |
| AtMostOnce.OncePerIssue | crates/control-core/src/store/file.rs:158-169 | over every orderly run since opening that issues the key for single use: between two consumes answered Ok(true) the key is upserted |
| AtMostOnce.AcknowledgedAtMostOnce | crates/control-core/src/store/file.rs:163-169 | at most one Ok(true) over an orderly run since opening, if nobody upserts the key |
| AtMostOnce.BetweenTwoConsumes | crates/control-core/src/store/memory.rs:163-182 | in a legal history an upsert lies between two accepted consumes of a single-use key |
| AtMostOnce.AcknowledgedMeansUsed | crates/control-core/src/store/file.rs:163-169 | once acknowledged, the key is used in memory and on disk until upserted |
| AnySchedule.TargetAlwaysWhole | crates/control-core/src/store/file.rs:74-83 | under every interleaving the target is untouched, or its bytes are a whole serialisation of a document memory held |
| AnySchedule.UndisturbedFlushPublishesMemory | crates/control-core/src/store/file.rs:76-83 | from any state, a flush without others mutating or flushing publishes exactly what memory holds |
| AnySchedule.MemoryIgnoresTheDisk | crates/control-core/src/store/file.rs:116-179 | under every interleaving without a load or a restart memory is what an in-memory store would hold, failed flushes or not |
| AnySchedule.SnapshotHoldsOwnCall | crates/control-core/src/store/file.rs:76-83 | however calls and flushes overlap, a snapshot is the document of the first calls of the run, the task's own call among them |
| Overlap.OlderSnapshotMayWin | crates/control-core/src/store/file.rs:76-83 | from any state with two open windows: both answered Ok, and the older snapshot is what a restart finds |
| Overlap.KeyMayBeRedeemedTwice | crates/control-core/src/store/file.rs:163-169 | from such a state a single-use key can be acknowledged twice |
| Overlap.AtMostOnceNeedsOrder | crates/control-core/src/store/file.rs:163-169 | every store that opens with an unspent single-use key has such a run |
| Overlap.CallCompletes | crates/control-core/src/store/file.rs:122-125 | a call that nothing disturbs ends with memory and disk equal, and is answered Ok |
| Overlap.LoadMayLoseACall | crates/control-core/src/store/file.rs:63-72 | a load between a call's mutation and its snapshot loses the call, which is answered Ok |
| Overlap.AtMostOnceNeedsQuietLoads | crates/control-core/src/store/file.rs:63-72 | disjoint flush windows alone do not give at-most-once: a run without a crash, with disjoint windows and one load beside a call |
| Overlap.TornFileMayBePublished | crates/control-core/src/store/file.rs:80-81 | a rename beside another task's write can publish a torn file |
| Exactness.OnlyFactsCount | crates/control-core/src/store/file.rs:42-83 | whether acknowledged calls stay safe depends only on the machine and on which calls began and were answered Ok |
| Exactness.TwoWindowsCanDestroyTheFile | crates/control-core/src/store/file.rs:76-83 | from any state with a snapshot taken beside an open window a run leads to an empty target, with the other window's call answered Ok |
| Exactness.StepIsSafeIff | crates/control-core/src/store/file.rs:42-83 | in every state reached in good order, a step keeps all acknowledged calls safe for ever if and only if it is in good order, with or without later loads |
| Exactness.SnapshotIsSafeIff | crates/control-core/src/store/file.rs:76-83 | a snapshot is safe to take if and only if no other task is between its snapshot and its rename |
| Exactness.LoadIsSafeIff | crates/control-core/src/store/file.rs:63-72 | a load at one go is safe if and only if begun calls that include all under way can have made the document on disk; so it is if their changes are on disk, or if the disk equals memory |
| KeyExactness.LoadKeepsKeyIff | crates/control-core/src/store/file.rs:63-72 | a load keeps a key from being redeemed twice if and only if the document accepts no attempt on it, or holds it for single use and no attempt since its last upsert is acknowledged or under way |
| KeyExactness.LoadKeepsKeySinceOpenedIff | crates/control-core/src/store/file.rs:63-72 | the same in every state reached since opening in good order for the key |
| KeyExactness.NoAttemptMissing | crates/control-core/src/store/file.rs:63-72 | a load is safe for the key if no such attempt is missing from the calls behind the document |
| FramedIos.AdvancedDrops | crates/noise/src/framed_io.rs:111-119 | `advance` drops exactly that many bytes across segments |
| FramedIos.FillMeaning | crates/noise/src/framed_io.rs:88-109 | `poll_fill_buf` skips exactly the empty chunks and answers what the next other event says: its whole first segment, an error, the end, or not yet |
| FramedIos.ZeroBytesMeansEnd | crates/noise/src/framed_io.rs:60-80 | a read with room answers zero bytes if and only if the inner stream ended |
| FramedIos.ReadMeaning | crates/noise/src/framed_io.rs:65-78 | a read answers the whole slice of a fill if there is room for it, and otherwise as much as there is room for |
| FramedIos.ConsumeUpToSliceNeverFails | crates/noise/src/framed_io.rs:111-119 | `expect` and `advance` succeed for any amount up to the returned slice |
| FramedIos.OpKeepsBytes | crates/noise/src/framed_io.rs:60-119 | one operation neither loses nor repeats a byte |
| FramedIos.EveryScheduleIsLossless | crates/noise/src/framed_io.rs:60-119 | over any events and any operations, delivered bytes then the unread rest are the bytes of all chunks pulled |
| FramedIos.ReadBuf.PutSlice | crates/noise/src/framed_io.rs:75 | bytes are appended to the caller's buffer in place, nothing else in it changes |
| FramedIos.FramedIo.PollFillBuf | crates/noise/src/framed_io.rs:88-109 | the loop terminates and computes `Fill` |
| FramedIos.FramedIo.Consume | crates/noise/src/framed_io.rs:111-119 | the chunk is advanced |
| FramedIos.FramedIo.PollRead | crates/noise/src/framed_io.rs:60-80 | the caller's buffer gains the whole slice of a fill, or as much as it has room for; with no room nothing happens |
| FramedIos.FramedIo.PollWrite | crates/noise/src/framed_io.rs:127-139 | a write is taken whole, refused with the sink's own error, or pending |
| FramedIos.FramedIo.PollFlush | crates/noise/src/framed_io.rs:141-143 | a flush answers as the sink does and sends nothing |
| Wire.U16IsBigEndian | crates/noise/src/responder.rs:66-76 | two bytes, the high one first, both ways |
| Wire.U32IsBigEndian | crates/noise/src/responder.rs:135 | four bytes, the highest first, both ways |
| Wire.HexAt | crates/tailcfg/src/key_exchange.rs:82-98 | each byte is two lower-case digits, the high one first |
| Wire.HexRoundTrip | crates/tailcfg/src/key_exchange.rs:82-98 | hexadecimal gives the key back |
| Wire.DecimalRoundTrip | crates/noise/src/responder.rs:88 | decimal printing gives the number back |
| Wire.DecimalShape | crates/noise/src/responder.rs:88 | digits only, and no leading zero |
| Handshake.ParseByBytes | crates/noise/src/responder.rs:62-84 | byte by byte: which initiation gets which error, in which order, and what an accepted one yields |
| Handshake.ParsePrint | crates/noise/src/responder.rs:62-84 | every supported initiation is parsed back, whatever trails it |
| Handshake.PrintParse | crates/noise/src/responder.rs:62-84 | an accepted input begins with the printed form of what was parsed |
| Handshake.PrologueText | crates/noise/src/responder.rs:88 | the text, then the version in decimal; for 113 it is `Tailscale Control Protocol v113` |
| Handshake.PrologueBindsVersion | crates/noise/src/responder.rs:66-88 | two accepted initiations get the same prologue if and only if their version bytes agree |
| Handshake.ResponseBytes | crates/noise/src/responder.rs:98-103 | type 2, the low sixteen bits of the length with the high byte first, the response |
| Handshake.ResponseRoundTripIff | crates/noise/src/responder.rs:98-103 | the response is read back if and only if it fits the sixteen-bit length |
| Handshake.Socket.WriteAll | crates/noise/src/responder.rs:101-102 | all the bytes, or the prefix the socket took |
| Handshake.Accept | crates/noise/src/responder.rs:52-120 | the error of the first failed check with nothing written; otherwise exactly the response frame |
| EarlyNoise.JsonText | crates/tailcfg/src/key_exchange.rs:82-98 | the characters in front of the key, its 64 lower-case digits, and the characters behind |
| EarlyNoise.JsonRoundTrip | crates/tailcfg/src/key_exchange.rs:46-51 | the JSON is 95 bytes and gives the key back |
| EarlyNoise.FrameBytes | crates/noise/src/responder.rs:132-136 | the nine header bytes one by one, then the text |
| EarlyNoise.HeaderLength | crates/noise/src/responder.rs:135 | the length field holds the low thirty-two bits, the highest byte first |
| EarlyNoise.FrameRoundTrip | crates/noise/src/responder.rs:132-136 | the length is exact, the frame decodes to its key, and its header is never that of a SETTINGS frame |
| EarlyNoise.FirstReplyIs | crates/noise/src/responder.rs:137 | the reply that counts is the first that is not to wait, and all later ones are left |
| EarlyNoise.WriteAll | crates/noise/src/responder.rs:137 | succeeds exactly if the sink's first reply other than to wait accepts, fails with the sink's error, and then writes the bytes once or not at all |
| EarlyNoise.Flush | crates/noise/src/responder.rs:138 | answers what the sink's first reply other than to wait says |
| EarlyNoise.WriteEarlyNoise | crates/noise/src/responder.rs:125-140 | exactly the frame is sent if the sink accepts it, nothing otherwise; the answer is the sink's to the write, or then to the flush |
| EndToEnd.FrameSurvivesFragmentation | crates/noise/src/responder.rs:229-238 | whatever the chunks, pauses, errors and read sizes, a client that has all it wants has exactly the frame, and what is left is what follows it |
| EndToEnd.ClientFinishes | crates/noise/src/framed_io.rs:60-109 | if no error and no end comes before the frame, as many polls as events and frame bytes are enough |
| EndToEnd.ClientLearnsKey | crates/noise/src/responder.rs:229-238 | sent bytes that begin with the frame bring the client to the key and leave exactly the rest, over any transport that keeps the order of the bytes |
| EndToEnd.WritePieces | crates/control-core/src/server/mod.rs:162-165 | the pieces go out in order up to the first failure |
| EndToEnd.ServeConnection | crates/control-core/src/server/mod.rs:146-167 | if the sink accepts the frame, what was sent brings the client to the key and leaves exactly the HTTP/2 bytes written; if not, nothing was sent |

## Left out

- CrashRecovery: asks for orderly runs, because the source does not have the property without order; the condition is
  exact step by step (`StepIsSafeIff`), and `Overlap.dfy` gives the runs that lose calls.
- UpsertBetweenTwoAcks, AtMostOnceFrom and their special cases: ask for windows apart and for loads that do not open the
  key again. The condition on loads is exact (`LoadKeepsKeyIff`); for snapshots no exact condition per key is given,
  because what a torn file decodes to, if anything, is up to the format.
- OnceAfterIssue, AtMostOnceAfterIssue: an upsert that makes the key reusable counts even if it was lost since, because
  an old load may still bring it back.
- UpToDateIsOrderly, SameDocumentIsOrderly: sufficient only; the exact condition is that of `LoadIsSafeIff`.
- DurableIsMonotone: asks in addition that a load brings back what the file still holds and no call under way is missing
  from it. A load of an older file may drop calls from memory that failed flushes left there and a later flush put on
  disk; none of them was acknowledged.
- TargetAlwaysWhole: takes each write of the temporary file as one step, because two tasks writing one file at once
  can tear it (`TornFileMayBePublished`).
- Two tasks writing the temporary file at the same time: the model sets the file to a prefix of the last writer's
  bytes; the interleaving of single bytes by file offset is not modelled, nor is that an open descriptor follows the
  file through a rename, so that bytes written after another task's rename land in the target itself.
- FlushAll: non-`NotFound` read errors, failed writes and failed renames are one error; messages are dropped.
- ServeConnection: the bytes HTTP/2 writes are given, in any pieces; what it reads and answers is not modelled.
- FromJson: accepts only the text that `Json` writes; serde also reads other spellings of the same object.
- Accept: base64 decoding comes before it, and the challenge key and the stream are made after it; the cryptography
  is a parameter.
- `poll_shutdown`, wakers and pinning: passed through to the inner object.
- Read methods of `FileStore` (`list_*`, `get_*`): each hands the call to the in-memory store.
- RFC 3339 parsing: a parameter (`Parse`) that gives the instant of a text, or none.
- Paths that are not normalised or not UTF-8.
- The HTTP edge, the control API, routing and the binary: plumbing around these parts.
- The address allocator, mapper, policy, state, change and DERP modules: one-line stubs.
