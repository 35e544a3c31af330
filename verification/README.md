# A verified model of Rend

Rend is a proxy in front of memcached. This project models its protocols in Dafny 4.11 and proves what they keep:
the store that cuts values into chunks, the two levels of storage with their locks, the connection that batches
requests, the binary protocol in both directions, and the bucketing of histograms. `dafny verify dfyconfig.toml`
checks everything. Nothing here is compiled or executed.

Each file is one module.

| module | models |
|---|---|
| `Bytes`, `Sequences`, `Memcached` | byte streams, 32-bit integers, the errors; sequences up to order; times to live |
| `Keys`, `Chunking` | the names of chunks and metadata in the backend; cutting a value up and putting it together |
| `ChunkReads`, `ChunkFrames` | the loop over the replies for the chunks of a value: what it makes of them, and its bytes |
| `PlainStore`, `ChunkedHandler` | the chunked handler with the backend to itself, against a plain store of values |
| `ChunkedConcurrent` | the chunked handler with any number of connections, one memcached command at a time |
| `LockedCoherence` | both orchestrators, any number of clients, and the locks: one handler call at a time |
| `TwoLevel`, `Orchestrators` | both orchestrators one operation at a time, with expiry, multi-key gets and the wire |
| `Headers`, `Requests`, `Responses` | the binary protocol: writers, parsers, responder and reader |
| `Demux`, `Replies`, `Batcher` | the batching connection: renumbering, handing back, queueing, the packed average |
| `Histogram` | leading zeros, buckets, and the table of thresholds |

## Where the code and what it says part company

The model does what the code does. Where that is not what a comment or the design says, a lemma states it.

* A get of a chunked value is said to be a miss when the number of chunks does not match
  (`handlers/memcached/chunked/handler.go:542-546`). The loop never looks at that number, and a quiet get that misses
  is answered by silence. `ChunkReads.AnswerIsSound` gives the exact condition under which the answer can be trusted,
  `ChunkedConcurrent.SilenceServesWhatWasNeverStored` a run in which the code serves a byte nobody stored, and
  `ChunkedConcurrent.OneVersionIffAnswered` says when no run does: if and only if no get can go unanswered, or the
  chunks are counted.
* A get-and-touch in the chunked handler leaves the expiry in the metadata record as it was, and an append stores the
  value anew with that record's expiry: `PlainStore.RecordsKept`, `PlainStore.GatThenAppendForgets`.
* A store whose absolute expiry is past is reported done by the chunked handler without being done. A set or an add of
  an absent key shows no difference; else an old value survives (`PlainStore.ExpiredSetKeepsOldValue`) or a refusal is
  not reported. `PlainStore.ChunkedIsPlain` has the exact condition.
* The batch orchestrator touches L1 without a time to live on a get-and-touch (`orcas/l1l2batch.go:638-641`).
  `Orchestrators.L1L2BatchOrca.Gat` says exactly when the levels then disagree about expiry, and exactly when L1 shows
  a value that L2 no longer shows: from the end of the time to live on, which `TwoLevel.BatchGatToThePast` shows to
  be at once when that is a moment that is past.
* The two levels are written one after the other. If the clock moves in between, a relative time to live gives two
  expiries: `TwoLevel.TickBetweenLevels` and, for get-and-touch, `TwoLevel.TickInGatHit` and `TwoLevel.TickInGatMiss`.
  A value that runs out between the two calls of a get-and-touch is reported as an inconsistency.
* A metadata record cut short by the end of the connection is taken for an empty one, without an error:
  `ChunkFrames.MetadataCutShort`.
* A locked get of no keys that asks for a closing noop does not get one: `Orchestrators.LockedEndIsEnd`.
* With a batch size of one, a batch of two can be sent: `Batcher.BatchesAreGoodSizes`.
* A pipeline of quiet gets that is ended by any other command swallows that command's header:
  `Requests.UnclosedBatch`.
* The writers know the quiet get-and-touch, the parser does not: `Requests.QuietGatIsUnknown`.
* `getBucket` puts up to three values below a power of four one bucket too high: `Histogram.BucketAgreesWithTable`.

## Model

| member | source | states |
|---|---|---|
| Bytes.BigEndian | protocol/binprot/headers.go:142-165 | numbers go out and come in with the most significant byte first |
| Bytes.TakeShort | protocol/binprot/headers.go:167-202 | a read past the end fails: with EOF if nothing was there and the unexpected EOF if something was; a discard always with EOF |
| Keys.ChunkKeyForm | handlers/memcached/chunked/keys.go:29-40 | chunk names are key, hyphen, decimal digits, for chunk 0 too |
| Keys.EncodeInjective | handlers/memcached/chunked/keys.go:22-40 | two backend names are equal if and only if kind, key and chunk number are, for keys of any content |
| Keys.NoChunkKeyIsMetaKey | handlers/memcached/chunked/keys.go:22-40 | a metadata name is never a chunk name |
| Keys.NamesAre | handlers/memcached/chunked/keys.go:22-40 | the metadata name is the key and "-meta", a chunk name the key, a hyphen and digits that read as the chunk number |
| Chunking.ChunkCountIsCeiling | handlers/memcached/chunked/handler.go:215-218 | the number of chunks is the length over the chunk size, rounded up |
| Chunking.ChunkStarts | handlers/memcached/chunked/keys.go:42-48 | chunk i starts inside the value exactly for i below the chunk count |
| Chunking.ChunkedLimitedReader.Read | handlers/memcached/chunked/chunkedLimitedReader.go:53-89 | a read delivers the next bytes of the current padded chunk, makes progress, ends at the chunk's end and takes nothing after the value |
| Chunking.ChunkedLimitedReader.NextChunk | handlers/memcached/chunked/chunkedLimitedReader.go:91-96 | moves to the next chunk and no further than the end |
| Chunking.ChunkedLimitedReader.CopyChunk | handlers/memcached/chunked/handler.go:295-300 | copying one chunk through a buffer of any positive size, with short reads below, ends and delivers exactly the padded chunk |
| Chunking.SplitThroughReader | handlers/memcached/chunked/handler.go:285-334 | the loop over the reader writes the padded chunks of the value in order, as many as its count |
| Chunking.SplitThenReassemble | handlers/memcached/chunked/localComm.go:160-179 | placing the chunks of any value, padding dropped, gives the value back |
| ChunkReads.AnsweredIsSound | handlers/memcached/chunked/handler.go:551-600 | when every chunk is answered, a get is a miss if some answer is foreign or not found, and else the value |
| ChunkReads.OutcomeIs | handlers/memcached/chunked/handler.go:551-600 | for any replies: the last unexpected error if there is one, else a miss if some reply is not found or foreign, and only else a value |
| ChunkReads.SilentMissCorrupts | handlers/memcached/chunked/handler.go:551-600 | an unmarked silent miss makes the loop hand out something else, for some value of that length |
| ChunkReads.AnswerIsSound | handlers/memcached/chunked/handler.go:542-600 | for every value the answer is that value or a miss, if and only if no get was silent or some answer marks a gap |
| ChunkFrames.RecordRoundTrip | handlers/memcached/chunked/types.go:37-77 | a metadata record is read back as it was written |
| ChunkFrames.RecordLayout | handlers/memcached/chunked/types.go:37-77 | which four bytes of the record are which number, and where its token lies |
| ChunkFrames.WriteRecord | handlers/memcached/chunked/types.go:58-77 | writes exactly the 40 bytes of the record |
| ChunkFrames.GetMetadataCommon | handlers/memcached/chunked/localComm.go:47-88 | reads one answer to a get for a record, or fails, off any stream of bytes |
| ChunkFrames.MetadataRoundTrip | handlers/memcached/chunked/localComm.go:47-88 | a frame with a record is read back to that record and exactly used up |
| ChunkFrames.MetadataErrorRoundTrip | handlers/memcached/chunked/localComm.go:59-68 | an error frame is read back to its error and exactly used up with its message |
| ChunkFrames.MetadataCutShort | handlers/memcached/chunked/types.go:37-44 | with any byte of the record missing, the record is taken for an empty one |
| ChunkFrames.GetLocalIntoBuf | handlers/memcached/chunked/localComm.go:113-182 | takes exactly one frame off the stream; a chunk goes to its place in the buffer, an error leaves the buffers alone |
| ChunkFrames.ReadChunks | handlers/memcached/chunked/handler.go:539-600 | for any mix of reply frames the loop stays inside its buffer, stops having consumed exactly through the noop, and has the outcome the replies determine |
| ChunkFrames.FramesAreReplies | handlers/memcached/chunked/localComm.go:113-182 | the bytes matter to that outcome only through the replies they carry |
| ChunkFrames.FrameSays | handlers/memcached/chunked/handler.go:553-563 | status 1 says that a chunk is not there, every other error status is a failure |
| PlainStore.ExptimeIsFixed | handlers/memcached/chunked/handler.go:191-207 | a computed expiry used as a time to live again is kept if and only if it reads as never or as a moment |
| PlainStore.ExptimeIs | handlers/memcached/chunked/handler.go:191-207 | only a moment can be over already, and it is if it lies before now; up to 30 days are seconds from now |
| PlainStore.GetShows | handlers/memcached/chunked/handler.go:476-603 | what a get answers: the value while its expiry has not come |
| PlainStore.StoreShows | handlers/memcached/chunked/handler.go:209-335 | an add is refused if and only if the key is shown, a replace if and only if it is not; what is stored is shown until its time is over, and a refused store changes nothing |
| PlainStore.ConcatShows | handlers/memcached/chunked/handler.go:347-465 | after an append what is shown is the old data and then the new, after a prepend the new and then the old; refused if and only if nothing is shown |
| PlainStore.TouchShows | handlers/memcached/chunked/handler.go:621-855 | both kinds of touch show the same value until the new time is over; get-and-touch answers with it |
| PlainStore.DeleteShows | handlers/memcached/chunked/handler.go:725-778 | a deleted key is not shown, and the answer says whether it was |
| PlainStore.OthersShown | handlers/memcached/chunked/handler.go:209-855 | no command changes what another key shows |
| PlainStore.ChunkedIsPlain | handlers/memcached/chunked/handler.go:209-855 | after one operation the chunked handler shows the values memcached would show, with the same answer, if and only if a store that is over already is a set or an add of an absent key, and an append meets no value whose expiry is not on record, unless it is empty and dropped |
| PlainStore.ExpiredSetKeepsOldValue | handlers/memcached/chunked/handler.go:209-213 | a set to a past moment leaves the old value to be shown, where memcached shows none |
| PlainStore.RecordsKept | handlers/memcached/chunked/handler.go:621-722 | every operation keeps the expiries on record right, except a get-and-touch that changes one |
| PlainStore.RunIsPlain | handlers/memcached/chunked/handler.go:209-855 | over whole runs that meet these conditions, with values running out as the clock moves, what is shown and answered is what the plain store shows and answers |
| PlainStore.AgreeIffUndisturbed | handlers/memcached/chunked/handler.go:209-855 | handler and plain store show and answer the same after every step of a run, if and only if every step meets its condition |
| PlainStore.CalmIsUndisturbed | handlers/memcached/chunked/handler.go:209-855 | a run without get-and-touch and without stores that are over already meets them |
| PlainStore.ChunkedConcatJoins | handlers/memcached/chunked/handler.go:449-465 | an append through the chunked handler leaves the old data followed by the new, a prepend the new followed by the old, unless the expiry on record is past |
| PlainStore.ConcatsKeepExpiry | handlers/memcached/chunked/handler.go:449-465 | any chain of appends and prepends, each before the value is over, succeeds and keeps its absolute expiry, however the clock moves; the value is then the prepended data, the last first, the old data, and the appended data in order |
| PlainStore.GatThenAppendForgets | handlers/memcached/chunked/handler.go:455-462 | a get-and-touch to 100 seconds and then an append leaves a value that never expires |
| ChunkedHandler.Handler.Store | handlers/memcached/chunked/handler.go:209-335 | set, add and replace: metadata and chunks in the backend represent the new value, and no other key's; the record has a freshly drawn token |
| ChunkedHandler.Handler.Concat | handlers/memcached/chunked/handler.go:347-465 | append and prepend read the value and store the old data followed by the new, or the new followed by the old, whatever chunks an older value left behind |
| ChunkedHandler.Handler.Get | handlers/memcached/chunked/handler.go:476-603 | the value and flags that were stored, or a miss, and nothing changes |
| ChunkedHandler.Handler.GetMany | handlers/memcached/chunked/handler.go:476-603 | a get of any number of keys has one such answer for each, in order |
| ChunkedHandler.Handler.Gat | handlers/memcached/chunked/handler.go:621-722 | the same with new expiries, the record excepted |
| ChunkedHandler.Handler.Touch | handlers/memcached/chunked/handler.go:781-855 | new expiries for chunks, metadata and record, or a miss |
| ChunkedHandler.Handler.Delete | handlers/memcached/chunked/handler.go:725-778 | the key is gone, the others are not |
| ChunkedHandler.Handler.Run | handlers/memcached/chunked/handler.go:209-855 | any run of operations, with values running out in between, has the values and answers of the abstract steps |
| ChunkedHandler.RunFromEmpty | handlers/memcached/chunked/handler.go:209-855 | from an empty backend, a run in which every operation meets its condition is answered as the plain store would answer it |
| ChunkedHandler.OtherKeysUnchanged | handlers/memcached/chunked/handler.go:209-855 | no operation touches another key |
| ChunkedHandler.PartsOfItem | handlers/memcached/chunked/handler.go:155-189 | overhead, key, token and data make up an item of 1184 bytes; keys of 1097 bytes and more leave no room |
| ChunkedConcurrent.StepKeepsInv | handlers/memcached/chunked/handler.go:209-855 | any command of any operation keeps it true that what lies under a backend name is that place of the data of the one store whose token it carries |
| ChunkedConcurrent.WholeHitIsOneVersion | handlers/memcached/chunked/handler.go:476-601 | in every run, a hit that counted all chunks has key, bytes and flags of one store |
| ChunkedConcurrent.HitIsOneVersion | handlers/memcached/chunked/handler.go:209-335 | under any interleaving and eviction a hit is exactly the content and flags of one store on its key that the backend had accepted, if absent chunks are answered as such; or in the variant that counts the chunks |
| ChunkedConcurrent.BaseWasAccepted | handlers/memcached/chunked/handler.go:347-465 | what an append was joined on to had been accepted by the backend too |
| ChunkedConcurrent.AcceptedIsThere | handlers/memcached/chunked/handler.go:220-280 | an accepted store has its record in the backend right after |
| ChunkedConcurrent.OneVersionIffAnswered | handlers/memcached/chunked/handler.go:542-600 | in every run whose absent chunks are answered in one of the given ways each hit is one version, if and only if silence is not among them or the chunks are counted |
| ChunkedConcurrent.SetsComeFromClients | handlers/memcached/chunked/handler.go:209-335 | stores that are not appends are byte for byte what some client sent |
| ChunkedConcurrent.ContentJoins | handlers/memcached/chunked/handler.go:449-465 | the content of an append is the content it was joined on to followed by the new bytes, of a prepend the other way round |
| ChunkedConcurrent.SetThenGet | handlers/memcached/chunked/handler.go:209-335 | from any reachable state, a set, an accepted add or an accepted replace that nobody disturbs comes to its end, and a get after it serves exactly what was stored |
| ChunkedConcurrent.ConcatThenGet | handlers/memcached/chunked/handler.go:347-465 | an append to a value that is there, undisturbed, and a get after it: old data and then the new; for a prepend the new and then the old |
| ChunkedConcurrent.AddRefused | handlers/memcached/chunked/handler.go:250-275 | an add that finds a record ends there with every item as it was |
| ChunkedConcurrent.NothingToFind | handlers/memcached/chunked/handler.go:476-855 | a get, append, prepend, touch, delete or replace that finds no record ends there with every item as it was |
| ChunkedConcurrent.TouchAlone | handlers/memcached/chunked/handler.go:781-855 | a touch that nobody disturbs writes the record back with its new expiry if and only if every chunk is there, and changes no other item |
| ChunkedConcurrent.DeleteAlone | handlers/memcached/chunked/handler.go:725-778 | a delete that nobody disturbs removes the record and as many chunks as it counts |
| ChunkedConcurrent.DeleteFindsItGone | handlers/memcached/chunked/handler.go:740-757 | a record that goes between the two commands of a delete leaves it nothing to do |
| ChunkedConcurrent.ErrorEndsRead | handlers/memcached/chunked/handler.go:553-585 | a read that meets an error reads on to its end and then has no value |
| ChunkedConcurrent.TouchGoesOn | handlers/memcached/chunked/handler.go:813-821 | an error from a chunk is no miss for a touch |
| ChunkedConcurrent.StepKeepsOthers | handlers/memcached/chunked/handler.go:209-855 | no command of an operation changes an item of another key or moves another operation |
| ChunkedConcurrent.SilenceServesWhatWasNeverStored | handlers/memcached/chunked/handler.go:551-580 | with silence for a missing chunk the code serves a zero byte for a value of one |
| LockedCoherence.StepKeepsInv | orcas/locked.go:150-322 | any handler call, lock movement or eviction from L1 keeps the invariant about both stores, all threads and all locks |
| LockedCoherence.LocksNameTheirHolders | orcas/locked.go:150-258 | in every run, a lock names a writer or reader if and only if that operation holds it, for its own key and in that mode |
| LockedCoherence.WaitingGetsItsLock | orcas/locked.go:123-258 | a waiting operation gets its lock at its next turn if and only if nobody holds the lock of its bucket in the same lock set, other than gets beside a get where many readers are allowed |
| LockedCoherence.QuietLocksAreFree | orcas/locked.go:150-258 | in every run, when nobody holds a lock every lock is free and every waiting operation gets its lock at its next turn |
| LockedCoherence.NoDeadlock | orcas/locked.go:150-258 | every run can be continued so that any operation that has begun comes to its end |
| LockedCoherence.StaysCoherent | orcas/locked.go:103-322 | in every run, a key without a writer is absent from L1 or equal in both levels; gets answer what L2 holds; the inconsistency branches are never taken |
| LockedCoherence.AnswersOfOneStore | orcas/l1l2.go:41-831 | every answer of concurrent operations of both orchestrators is that of one store on which they ran one at a time; the operations that have taken effect are in that order, each once, and no others |
| LockedCoherence.LogKeepsOrder | orcas/locked.go:103-322 | an operation that has its answer before another has its lock comes before it in that order, whatever follows |
| LockedCoherence.CoherentIffShared | memproxy.go:206-236 | the levels agree in every run if and only if the second orchestrator is given the locks of the first |
| LockedCoherence.FirstHalf | orcas/l1l2.go:41-831 | writes call L2 first and go on only after success; reads look into L1 first, but for the get-and-touch of the batch orchestrator |
| LockedCoherence.SecondHalf | orcas/l1l2.go:41-501 | what the L1 half of each write leaves under its key, for both orchestrators |
| LockedCoherence.ReadFills | orcas/l1l2.go:586-637 | what was found in L2 is put into L1 by the first orchestrator and not by the other |
| LockedCoherence.AloneStores | orcas/l1l2.go:41-241 | the one store of the results above: when a store is refused, and what a get then finds |
| LockedCoherence.AloneJoins | orcas/l1l2.go:243-366 | and after an append or prepend: old bytes then new, or new then old |
| LockedCoherence.AloneDeletes | orcas/l1l2.go:368-434 | and after a delete |
| LockedCoherence.AloneReads | orcas/l1l2.go:435-831 | and that reads and touches answer with what is there and change nothing |
| LockedCoherence.AloneKeepsOthers | orcas/l1l2.go:41-831 | and that other keys are found as before |
| TwoLevel.BothLevels | orcas/l1l2.go:41-501 | the second half of a write restores agreement in data, flags and expiry, and an add to L1 is not refused |
| TwoLevel.GatHits | orcas/l1l2.go:768-827 | a get-and-touch that hits in L1 hits in L2, where a touch has the same effect, and the levels agree |
| TwoLevel.GatMisses | orcas/l1l2.go:695-767 | what L2 finds after a miss in L1 is added to L1 with the new expiry, and the levels agree |
| TwoLevel.TickBetweenLevels | orcas/l1l2.go:41-501 | a write of either orchestrator whose halves are at different times leaves agreement if and only if its time to live is not relative, or the times are the same, or L1 has nothing to write an expiry to |
| TwoLevel.TickInGatHit | orcas/l1l2.go:768-827 | a get-and-touch that hits in L1 and touches L2 later reports an inconsistency if and only if the value ran out in between; exactly when the levels agree afterwards |
| TwoLevel.TickInGatMiss | orcas/l1l2.go:695-767 | one that misses in L1 and adds to it later leaves agreement if and only if its time to live is not relative or the times are the same |
| TwoLevel.TickInBatchGat | orcas/l1l2batch.go:602-669 | the batch orchestrator's leaves agreement if and only if the value is kept for ever or is by then not in L1 |
| TwoLevel.BatchGatBothLevels | orcas/l1l2batch.go:602-669 | agreement in expiry, or as far as a given moment, after the batch orchestrator's get-and-touch if and only if the value is kept for ever, or until then, or is not in L1; in data and flags, at any later time, if and only if its time to live is not over by then or it is not in L1 |
| TwoLevel.BatchGatToThePast | orcas/l1l2batch.go:602-669 | such a get-and-touch to a past moment leaves L1 showing a value that L2 does not show |
| TwoLevel.FirstLevelAnswers | orcas/l1l2.go:503-585 | hits in L1, in any order, are the answers of L2 |
| TwoLevel.AnswerShows | orcas/l1l2.go:503-662 | each answer of a get has the key, opaque and quiet flag of its index, and is a hit with data, flags and expiry exactly if the key is shown |
| TwoLevel.AnswerOnWire | protocol/binprot/respond.go:164-216 | on the wire: silence if and only if the key is not shown and was asked for quietly; else a frame with its own opaque that reads as the value shown, or as not found |
| TwoLevel.EndOnWire | protocol/binprot/respond.go:175-183 | behind the answers comes a noop with the client's opaque if and only if a noop ended the get |
| TwoLevel.NotStoredIsForConcat | orcas/l1l2.go:243-366 | the error of a store for "not stored" is met by an append or prepend to a key that is not shown and by nothing else |
| Orchestrators.L1L2Orca.Set | orcas/l1l2.go:41-92 | L2 and the answer are those of L2 alone; the levels agree; both hold the new value |
| Orchestrators.L1L2Orca.Add | orcas/l1l2.go:94-165 | the same for add, so that the refusal by L1 cannot happen |
| Orchestrators.L1L2Orca.Replace | orcas/l1l2.go:167-241 | L2 and the answer are those of L2 alone; the levels agree; L1 has the new value if and only if it had one |
| Orchestrators.L1L2Orca.Concat | orcas/l1l2.go:243-366 | the same as Replace for append and prepend, with old bytes then new, or new then old, in L2 |
| Orchestrators.L1L2Orca.Delete | orcas/l1l2.go:368-434 | L2 and the answer are those of L2 alone; the levels agree; a deleted key is in neither |
| Orchestrators.L1L2Orca.Touch | orcas/l1l2.go:435-501 | the same as Replace for touch |
| Orchestrators.L1L2Orca.Gat | orcas/l1l2.go:670-831 | L2 and the answer are those of L2 alone; a value found is in both levels with the new expiry; the inconsistency is never reported |
| Orchestrators.L1L2Orca.Get | orcas/l1l2.go:503-662 | one answer for every requested index with its key, opaque and quiet flag, in some order, as L2 alone would answer, then the noop if asked for; what was found is in L1 afterwards and the levels agree |
| Orchestrators.L1L2Orca.Refill | orcas/l1l2.go:594-637 | the back-fill loop sends every answer of L2, puts every hit into L1, drops nothing that L1 showed, and leaves agreement, expiry included |
| Orchestrators.SendHits | orcas/l1l2.go:526-585 | hits sent and misses collected are together what L2 would answer |
| Orchestrators.L1L2BatchOrca.Set | orcas/l1l2batch.go:41-85 | L2 and the answer are those of L2 alone; the levels agree; L1 has the new value if and only if it had one |
| Orchestrators.L1L2BatchOrca.Add | orcas/l1l2batch.go:87-141 | the same for add |
| Orchestrators.L1L2BatchOrca.Replace | orcas/l1l2batch.go:143-197 | the same for replace |
| Orchestrators.L1L2BatchOrca.Concat | orcas/l1l2batch.go:199-321 | the same for append and prepend, with old bytes then new, or new then old, in L2 |
| Orchestrators.L1L2BatchOrca.Delete | orcas/l1l2batch.go:323-388 | the same for delete |
| Orchestrators.L1L2BatchOrca.Touch | orcas/l1l2batch.go:390-451 | the same for touch |
| Orchestrators.L1L2BatchOrca.Get | orcas/l1l2batch.go:453-594 | one answer for every requested index, as L2 alone would answer, and no store changes |
| Orchestrators.L1L2BatchOrca.Gat | orcas/l1l2batch.go:602-669 | L2 alone answers; exactly when the levels agree in expiry afterwards, or as far as a given moment, and exactly at which later times L1 still shows only what L2 shows |
| Orchestrators.LockedGet | orcas/locked.go:206-258 | a get split by key sends the same multiset of answers and frames as the wrapped get |
| Orchestrators.LockedBatchGet | orcas/locked.go:206-258 | the same around the batch orchestrator |
| Orchestrators.LockedEndIsEnd | orcas/locked.go:220-236 | the closing noop is the same if and only if there are keys or none is asked for |
| Orchestrators.Run | orcas/l1l2.go:41-831 | over any run of both orchestrators with evictions from L1, L2 and all answers are those of one store, and the levels agree throughout; with get-and-touches of the batch orchestrator that have a time to live, until the earliest deadline they set |
| Orchestrators.ScriptUntilEarliest | orcas/l1l2batch.go:602-669 | any steps in order that come before the earliest such deadline are such a run |
| Headers.HeaderRoundTrip | protocol/binprot/headers.go:103-226 | a header in front of any bytes is read back, and only its 24 bytes are used |
| Headers.HeaderLayout | protocol/binprot/headers.go:142-165 | which of the 24 bytes is which field; data type and CAS are zero |
| Headers.HeaderRefused | protocol/binprot/headers.go:103-226 | exactly the wrong first byte is a wrong magic, and exactly fewer than 24 bytes a short stream |
| Headers.StatusCodes | protocol/binprot/types.go:54-148 | the status number of each application error |
| Headers.WriteHeader | protocol/binprot/headers.go:142-165 | all 24 bytes of a used buffer are overwritten |
| Headers.ReadResponseHeader | protocol/binprot/headers.go:167-202 | reads a header or reports a short stream or wrong magic |
| Requests.WriteCommand | protocol/binprot/commands.go:26-199 | the writers put exactly the encoding of the command on the wire, the quiet get-and-touch included |
| Requests.BinaryParser.Parse | protocol/binprot/parser.go:128-512 | the parser reads exactly one request, or fails, off any stream of bytes |
| Requests.CommandRoundTrip | protocol/binprot/parser.go:128-512 | a command is parsed back, with nothing more consumed, if and only if keys fit 16 and data 32 bits, a noop closes at least one quiet get, and it is no quiet get-and-touch |
| Requests.BatchIsParsed | protocol/binprot/parser.go:294-424 | a pipeline of gets is parsed to its keys and opaques in order, quiet for all but the closing get, with the closing noop and its opaque if and only if a noop closed it |
| Requests.StoreIsParsed | protocol/binprot/parser.go:139-152 | each of the six store opcodes is parsed to its own type with its own quiet flag and all its fields |
| Requests.ConcatIsParsed | protocol/binprot/parser.go:154-162 | the same for the four append and prepend opcodes |
| Requests.BareIsParsed | protocol/binprot/parser.go:267-292 | noop, both quits and version, and exactly which opcodes are unknown |
| Requests.CommandStarts | protocol/binprot/commands.go:26-199 | the first bytes of every command but a get: magic and opcode |
| Requests.GetStarts | protocol/binprot/commands.go:26-199 | the opcodes of the four gets |
| Requests.CommandLayout | protocol/binprot/commands.go:26-164 | what lies behind the header of each form of command, and where |
| Requests.QuietGatIsUnknown | protocol/binprot/commands.go:179-184 | the parser refuses a quiet get-and-touch as an unknown command, with its body left on the stream |
| Requests.StreamRoundTrip | protocol/binprot/commands.go:26-199 | any list of such commands is parsed back to the same list and the stream ends |
| Requests.ParsedWithinWidths | protocol/binprot/parser.go:128-512 | no parsed field is wider than its wire form |
| Requests.UnclosedBatch | protocol/binprot/parser.go:294-355 | a pipeline ended by another command drops its header; the stream stays in step if and only if that command has no body |
| Responses.BinaryResponder.Answer | protocol/binprot/respond.go:164-216 | a hit, a miss or, for a quiet miss, nothing is written |
| Responses.SilentIffQuietMiss | protocol/binprot/respond.go:164-173 | nothing is written if and only if the answer is a quiet miss |
| Responses.AnswerHeader | protocol/binprot/respond.go:164-216 | any other answer starts with a header that has the opcode of the kind and the opaque of the request |
| Responses.AnswerReadBack | protocol/binprot/respond.go:164-216 | and it is read as the data, flags and expiry of a hit, or as not found, with its own bytes used up |
| Responses.HitLayout | protocol/binprot/respond.go:196-216 | where flags, expiry and data of a hit lie |
| Responses.BinaryResponder.GetEnd | protocol/binprot/respond.go:175-183 | the noop frame exactly when it ended the pipeline |
| Responses.NoopReadBack | protocol/binprot/respond.go:175-183 | the noop frame is read as a noop with that opaque and no body |
| Responses.ReadLocal | handlers/memcached/std/localComm.go:55-98 | reads one frame, or fails, off any stream of bytes |
| Responses.HitRoundTrip | protocol/binprot/respond.go:196-216 | a hit is read back with its data, flags and expiry, its own bytes only consumed, if and only if the value fits 32 bits |
| Responses.CutShort | handlers/memcached/std/localComm.go:79-97 | a frame cut off in flags or expiry reads as zeros there, and is an error only if data was to come |
| Responses.ErrorRoundTrip | protocol/binprot/types.go:86-148 | an error frame is read back as its error if and only if it is an application error |
| Responses.ErrorCodes | common/datatypes.go:68-82 | the codes of the two directions match for application errors and for no other |
| Demux.BatchIntoBuffer | handlers/memcached/batched/conn.go:201-341 | the buffer is the batch's commands in order with consecutive opaques, the map their handles, the channels one for each request |
| Demux.GetAsksForItsKey | handlers/memcached/batched/conn.go:310-337 | the i-th command of a get, by its bytes, asks for exactly its i-th key under an opaque that the map gives its key, opaque, quiet flag and channel |
| Demux.CommandIsItsOwn | handlers/memcached/batched/conn.go:201-308 | any other command is the client's own in everything but the opaque, which the map gives its key, opaque, quiet flag and channel |
| Demux.WriteBuffer | handlers/memcached/batched/conn.go:149-169 | what is written is the encodings of the commands, one behind the other |
| Demux.SameOpaque | handlers/memcached/batched/conn.go:208-216 | two commands share an opaque if and only if their places are a multiple of 2^32 apart |
| Demux.OpaquesDistinct | handlers/memcached/batched/conn.go:201-341 | no two commands of a batch share an opaque |
| Replies.RepliesFit | handlers/memcached/batched/conn.go:343-478 | one reply for each command, in any order, finds every handle once |
| Replies.Conn.Dispatch | handlers/memcached/batched/conn.go:352-470 | takes one reply off the stream of bytes and sends it to the channel of its handle; exactly an unknown opaque is out of sync |
| Replies.Conn.ReadBatch | handlers/memcached/batched/conn.go:343-478 | takes exactly the bytes of the batch's replies, is never out of sync, delivers every reply in order and then closes every channel of the batch |
| Replies.Conn.ReadAll | handlers/memcached/batched/conn.go:343-478 | the same for batches one behind the other |
| Replies.RepliesReachTheirRequests | handlers/memcached/batched/conn.go:343-478 | for a server that answers every command once with its opaque, in any order, what is delivered is its reply to each command, with that reply's data and under the command's own key, opaque and quiet flag, on the channel of its request |
| Replies.ChannelsGetTheirOwn | handlers/memcached/batched/conn.go:201-478 | each request's channel gets the server's replies to its own commands, each once, and nothing else |
| Replies.OwnSlot | handlers/memcached/batched/conn.go:201-341 | the i-th command of a request has the i-th key, the place's own opaque and nothing else that is not the client's; its handle the key, opaque, quiet flag and channel the client gave |
| Replies.OwnAnswer | handlers/memcached/batched/conn.go:352-470 | what a get is sent for its i-th key: a miss for an error reply, else that reply's data, flags and, for a gete, expiry, under its own key, opaque and quiet flag |
| Replies.OwnAcknowledgement | handlers/memcached/batched/conn.go:352-470 | the same for every other request |
| Replies.HitOnWire | handlers/memcached/batched/conn.go:391-443 | replies with a value are, byte for byte, what the protocol writes for a hit |
| Replies.ErrorOnWire | handlers/memcached/batched/conn.go:356-389 | and error replies what it writes for an error |
| Replies.WrittenBatch | handlers/memcached/batched/conn.go:201-341 | a batch as written has handles for the channels of its requests and for no other |
| Replies.NothingAfterClose | handlers/memcached/batched/conn.go:343-478 | over any batches one behind the other no channel is closed twice and nothing is sent on a closed one |
| Replies.EveryChannelCloses | handlers/memcached/batched/conn.go:472-478 | and every channel of every batch is closed |
| Batcher.Batching.Loop | handlers/memcached/batched/conn.go:78-147 | the loop does what the abstract turns do, on every schedule |
| Batcher.NothingLost | handlers/memcached/batched/conn.go:78-147 | batches sent and the queue are the accepted requests in order |
| Batcher.TimeoutSendsAll | handlers/memcached/batched/conn.go:78-147 | when the time is up, every request accepted so far has been sent |
| Batcher.ArrivalSends | handlers/memcached/batched/conn.go:78-147 | an arrival sends the queue if and only if that is then full and no wait was on |
| Batcher.TimeoutSends | handlers/memcached/batched/conn.go:78-147 | a timeout sends the queue if and only if there is anything in it |
| Batcher.BatchesAreGoodSizes | handlers/memcached/batched/conn.go:78-147 | on every schedule a batch has one to batchSize requests, if and only if batchSize is at least two |
| Batcher.AveragesAreExact | handlers/memcached/batched/relay.go:187-195 | the unpacked halves are the number of batches and of commands, if and only if both fit 32 bits |
| Batcher.Batching.TakeAverage | handlers/memcached/batched/relay.go:187-195 | the same for the counter the batcher keeps, which is then reset |
| Histogram.Lzcnt | metrics/lzcnt.go:23-54 | the count brackets a positive argument between powers of two |
| Histogram.RowIs | metrics/histograms.go:42-98 | the literal table goes from each power of four on in steps of a third of it |
| Histogram.GetBucket | metrics/histograms.go:302-324 | the shifts and the index table compute the bucket by logarithm to base four |
| Histogram.BucketAgreesWithTable | metrics/histograms.go:302-324 | the bucket is at most 275, its threshold is above the value, the one before it at most 3 above; and not above if and only if the value is not just below a power of four |
| Histogram.BucketsAreMonotone | metrics/histograms.go:302-324 | a greater value never goes into a lower bucket |

## Left out

- ChunkedConcurrent.HitIsOneVersion: tokens of different stores are taken to be different; expiry is an eviction at any moment; a command that fails ends its operation where it is; the times in the metadata records are not followed.
- ChunkedConcurrent.Step: get-and-touch reads as get does, and its touches move no data, so it has no steps of its own.
- ChunkFrames.ReadChunks: frames are whole and carry the sizes their records say; connections that break inside a frame are not modelled.
- ChunkedHandler.Handler: the backend evicts nothing, and the clock stands still during an operation, so that nothing runs out in the middle of one.
- PlainStore.ChunkedIsPlain: the clock is past the first 30 days of the epoch and 30 days short of the end of 32 bits.
- LockedCoherence.StaysCoherent: L2 keeps what it is given, no handler fails between the two levels, and times to live are left to the sequential model; the lock tables themselves, with their bound on the number of lock sets, are taken as given; that what a get found ends up in L1 is stated of its last call here, and of whole gets in Orchestrators.
- LockedCoherence.AnswersOfOneStore: under the same conditions; the levels share one lock set, which LockedCoherence.CoherentIffShared shows to be needed.
- Orchestrators.Run: the clock stands still during an operation, apart from the TwoLevel.Tick lemmas; what is answered after the earliest deadline set by a get-and-touch through the batch orchestrator is not stated, because L1 may then show what L2 does not.
- Orchestrators.Server: a memcached server by its commands; its gete extension gives the absolute expiry.
- Requests.BinaryParser.Parse: opcodes that are parsed alike share a case; what a reader under the parser might fail with, other than the end of the stream, is not modelled.
- Demux.OpaquesDistinct: a batch that uses more than 2^32 opaques is excluded.
- Replies.ChannelsGetTheirOwn: the same exclusion; and the requests of a batch have channels of their own, which every caller makes afresh.
- Demux.BatchIntoBuffer: the byte buffer is kept as the list of its commands until it is written.
- Replies.Conn.ReadBatch: replies are whole frames without keys, whose lengths are right and fit 32 bits; write and read errors, which answer every waiting request, are not modelled; which error a reply carried is lost in the code and so here.
- Batcher.Batching.Loop: time is a sequence of arrivals and timeouts; the metrics are left out.
- GetE through the batched handler submits a plain get, and in the chunked handler it panics: neither is modelled.
- Option defaulting, pool sizing and the random choice of a connection in the batched relay: no protocol behind them.
- The in-memory handler: the stores here are memcached's commands instead.
- Histogram.Lzcnt: where the processor has an instruction for it, that takes the place of this function.
- Ring buffers and percentiles of the histograms, counters, the HTTP endpoint, logging, buffer pools and panic recovery.
- The text protocol, the client tools and the accept loop.
- Slices that share memory after `append`: keys and values are immutable sequences here. Floating-point rounding in chunk counts and minima: integers here.
