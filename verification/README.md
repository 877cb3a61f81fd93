# Edge gateway: acceptance and durable anchoring

This project models the part of the edge gateway that takes a signed sensor message from the ingress channel to a
finalized payload on the CPS chain, and proves what that path promises.

A message is verified, authorized, deduplicated and fanned out (`Pipeline`, with `AuthStage`, `CpsAuth`, `Ancestry`,
`Dedup`). The durable sink pushes it into a store of two FIFO queues (`Queues`, realised by the byte-level tables of
`RedbStore`). The batcher selects a prefix, encodes it and splits it while it is too large (`Planning`, `Packing`,
`Encoding`, `Fewest`, `Batcher`, with the byte formats in `Wire`). The anchor submits the stored bytes in order,
retries, and removes what is finalized (`AnchorWorker`). `Gateway` is the transition system of pusher, batcher and
anchor with crashes, restarts and new configurations, `Durability` what holds in all of its runs; the imperative
workers are proved to be runs of it. `EndToEnd` adds the policy's decisions and the durable sink to that system. Its
steps are guarded: a decision must be grounded, a stored message signed and allowed. The content lies in the
preconditions of `Backend.Durable.Note` and `Backend.Durable.Deliver`, which `Pipeline` has to meet. `Backend` and
`Pipeline` show that the event loop, the lookups, the batcher and the anchor, interleaved on one store, move in its
steps only. A crash cuts such a run short at any step, and `Session` starts the next one from there.

| file | content |
|---|---|
| `Prelude` | options, results, sequence helpers |
| `Wire` | little-endian integers, varints, `SignedEnvelope` and `SignedEnvelopeBatch` in Protocol Buffers format |
| `Queues`, `RedbStore` | the store contract, and the tables and records that refine it |
| `Packing`, `Planning`, `Encoding`, `Fewest` | splitting, selection, the real payload format, the number of batches |
| `Batcher`, `AnchorWorker` | the two workers as classes over the store |
| `Gateway`, `Durability` | the whole durable path as a state machine, and its run-level theorems |
| `Ancestry`, `CpsAuth` | the ancestor walk, and the cached policy around it |
| `AuthStage`, `Dedup`, `Pipeline` | the authorization scheduler, the timed set, the event loop that drives both |
| `EndToEnd`, `Backend`, `Session` | the whole gateway as a state machine, the durable half as the pipeline sees it, and how a session starts |

What the environment does is a parameter or a nondeterministic choice: clock readings (nondecreasing where the source
uses a monotonic clock), whether the disk, a sink or a submission succeeds (`readable`, `writable`, `answer`; a loop's
`works` says that everything it meets succeeds), which lookup finishes, when shutdown fires, what the chain reader
answers (a snapshot of all bindings and the tree; which snapshots really occurred is fixed outside the code).
Signature verification, SHA-256 and zstd are arbitrary functions; zstd is only assumed to have a left inverse. A
submission takes effect at most once and before the attempt returns; a failed or abandoned one may or may not have
taken effect.

Four natural readings of the source are too strong. For each there is a lemma with a concrete input, and one that says
exactly when the code meets the reading:

- "Fewest batches" (batcher/mod.rs:324): `Fewest.HalvingIsNotFewest`, a flush with compression on;
  `Fewest.FewestExactly` for every format, with a condition that can be computed before anything is split. Without
  compression every flush has the fewest batches: `Fewest.UncompressedFlushIsFewest`.
- "The oldest message" decides the age trigger (batcher/mod.rs:36, config.rs:36): `Planning.OverdueMayWait`;
  `Planning.NoneOverdueExactly`.
- Messages of one sensor are decided in arrival order (authorize.rs:32): `AuthStage.Overtaken`, and
  `Pipeline.Overtake` with the real stage and policy; `AuthStage.InOrderExactly`. Order among parked messages always
  holds: `AuthStage.ParkedComeBackInOrder`.
- Forgetting an id undoes its insertion (dedup.rs:76-84): `Dedup.EvictedStaysEvicted`; `Dedup.ForgetUndoesExactly`.
  That the forgotten id itself is new again always holds: `Dedup.ForgottenIsNew`.

## Model

| member | source | states |
|---|---|---|
| `Wire.LittleEndianRoundTrip` | crates/edge/src/batch_store/redb.rs:319-360 | an integer that fits the width is read back from its little-endian bytes |
| `Wire.VarintRoundTrip64` | crates/edge/src/protocol/mod.rs:369-404 | every 64-bit value is read back from its varint, whatever follows it |
| `Wire.VarintMinimal` | crates/edge/src/batcher/mod.rs:221-229 | no accepted varint of a value is shorter than the canonical one |
| `Wire.EnvelopeRoundTrip` | crates/edge/src/protocol/mod.rs:369-382 | decoding an encoded envelope gives it back |
| `Wire.EnvelopeFields` | crates/edge/src/protocol/mod.rs:369-382 | the last occurrence of a known field counts, even an empty one; other tags are skipped; a known field of another wire type is an error |
| `Wire.ReencodeNoLonger` | crates/edge/src/batcher/mod.rs:221-229 | re-encoding whatever the decoder accepted, unknown fields and groups included, is no longer than the bytes read |
| `Wire.BatchRoundTrip` | crates/edge/src/protocol/mod.rs:390-404 | a serialized batch decodes to exactly its envelopes in order |
| `Wire.WireExamples` | crates/edge/src/protocol/mod.rs:369-404 | concrete bytes of a little-endian integer, a two-byte varint, an envelope with its four tags, and an empty envelope in a batch |
| `Queues.ConsumeExact` | crates/edge/src/batch_store/redb.rs:144-185 | consuming ids succeeds iff they are distinct and all pending; then exactly those messages are gone, otherwise the error names one of them |
| `Queues.CommitPrefix` | crates/edge/src/batch_store/redb.rs:144-185 | committing a prefix of the queue always succeeds, leaves the rest and appends the numbered batches |
| `Queues.IdsNeverReused` | crates/edge/src/batch_store/redb.rs:99-220 | over every operation sequence, reopening included, both queues stay ordered and every new element has an id never used before |
| `Queues.ReconcileExactly` | crates/edge/src/batch_store/mod.rs:130-163 | refused iff ready batches carry another label, and then nothing changes; otherwise exactly the label is the configured one afterwards; which of the outcomes occurs, and what it reports |
| `RedbStore.MessageRecordRoundTrip` | crates/edge/src/batch_store/redb.rs:319-340 | a pending record is read back unchanged |
| `RedbStore.BatchRecordRoundTrip` | crates/edge/src/batch_store/redb.rs:342-370 | a batch record is read back unchanged |
| `RedbStore.DecimalRoundTrip` | crates/edge/src/batch_store/redb.rs:239-300 | the decimal text of a 32-bit version parses back to it |
| `RedbStore.FormatRoundTrip` | crates/edge/src/batch_store/redb.rs:239-300 | a stored descriptor reads back equal and leaves the counters alone |
| `RedbStore.NextCounter` | crates/edge/src/batch_store/redb.rs:303-317 | returns the current value, advances this counter by one and changes no other entry; a malformed counter is an error |
| `RedbStore.Store.PushMessage` | crates/edge/src/batch_store/redb.rs:99-123 | the abstract push iff the disk lets it through, else nothing changes |
| `RedbStore.Store.PendingMessages` | crates/edge/src/batch_store/redb.rs:125-142 | the oldest messages up to the limit iff the disk lets the reading through; an undecodable record among them is the only reason for a corruption error |
| `RedbStore.Store.ReadyBatches` | crates/edge/src/batch_store/redb.rs:187-204 | the same for ready batches |
| `RedbStore.Store.CommitBatches` | crates/edge/src/batch_store/redb.rs:144-185 | the abstract commit with consecutive new ids, or nothing: it fails exactly where the disk refuses or the abstract commit fails, and with that error |
| `RedbStore.ConsumeRows` | crates/edge/src/batch_store/redb.rs:152-164 | removing rows one by one agrees with consuming messages, including which id it fails on |
| `RedbStore.AppendBatches` | crates/edge/src/batch_store/redb.rs:165-182 | appends exactly the numbered batches and advances only the batch counter |
| `RedbStore.Store.ConfirmBatch` | crates/edge/src/batch_store/redb.rs:206-220 | the abstract confirm iff the disk lets it through, else nothing changes |
| `RedbStore.Store.SetFormatDescriptor` | crates/edge/src/batch_store/redb.rs:276-300 | if the disk lets it through, the abstract format is exactly the descriptor; else nothing changes |
| `RedbStore.ReconcileFormat` | crates/edge/src/batch_store/mod.rs:140-163 | a relabelling of ready batches is refused with their number and changes nothing; otherwise the configured label is stored and nothing else has changed; a database error exactly where the disk fails where it is needed |
| `Packing.LimitsExactly` | crates/edge/src/batcher/config.rs:49-87 | the default configuration is accepted, and a size limit iff it is positive and lets no payload above 8192 bytes through; ages and counts must be positive |
| `Packing.LeavesPartition` | crates/edge/src/batcher/mod.rs:336-362 | splitting partitions the messages in order into groups that fit or are single |
| `Packing.PackMeaning` | crates/edge/src/batcher/mod.rs:323-362 | reading the batches back gives the input in order minus the rejected messages; every payload is within the limit with the right count; a message that fits alone is never rejected |
| `Planning.SelectLenExact` | crates/edge/src/batcher/mod.rs:208-233 | the selection is the longest prefix within the count and expected-size limits |
| `Planning.CompressedSelection` | crates/edge/src/batcher/mod.rs:208-233 | with compression a selection is everything up to the message limit |
| `Planning.SelectLoop` | crates/edge/src/batcher/mod.rs:208-245 | the incremental loop computes that prefix and the trigger that fired |
| `Planning.FlushSound` | crates/edge/src/batcher/mod.rs:265-300 | a flush takes a nonempty prefix; its leaves are exactly the decodable messages of it |
| `Planning.WaitExact` | crates/edge/src/batcher/mod.rs:255-264 | waiting means no trigger fired and the reported time is the head's strictly positive remaining age |
| `Planning.NoneOverdueExactly` | crates/edge/src/batcher/mod.rs:234-245 | a queue is safe from overdue waiting messages, whenever it is looked at, iff a count or size trigger fires anyway or the head is its oldest message |
| `Planning.WaitsExactly` | crates/edge/src/batcher/mod.rs:208-264 | a step waits iff neither count nor size calls for a flush and the head is young |
| `Planning.OverdueMayWait` | crates/edge/src/batcher/mod.rs:236-243 | an overdue message behind a young head waits |
| `Fewest.FewestExactly` | crates/edge/src/batcher/mod.rs:323-362 | for any format, halving gives the fewest batches iff at each of its cuts the computed least numbers of the two sides add up to no more than that of the whole |
| `Fewest.CheapestLeast` | crates/edge/src/batcher/mod.rs:323-333 | the computed number is a lower bound for every division |
| `Fewest.CheapestReached` | crates/edge/src/batcher/mod.rs:323-333 | some division has the computed number of groups |
| `Fewest.BorderExactly` | crates/edge/src/batcher/mod.rs:358-361 | every division can be matched by one with a border there iff the least numbers of the two sides add up to no more |
| `Planning.HalvesFitIsFewest` | crates/edge/src/batcher/mod.rs:323-333 | if everything or both halves fit, no division has fewer groups |
| `Fewest.GreedyIsFewest` | crates/edge/src/batcher/mod.rs:323-333 | where parts of what fits fit, no division has fewer groups than filling each batch from left to right |
| `Fewest.GreedyIsCheapest` | crates/edge/src/batcher/mod.rs:323-333 | where parts of what fits fit, one pass from left to right gives the least number |
| `Fewest.UncompressedGreedy` | crates/edge/src/batcher/mod.rs:323-333 | without compression one pass from left to right gives the least number |
| `Fewest.UncompressedFlushIsFewest` | crates/edge/src/batcher/mod.rs:248-321 | what a step flushes without compression is never more batches than any division |
| `Fewest.HalvingIsNotFewest` | crates/edge/src/batcher/mod.rs:248-362 | with compression on, an aged queue of four envelopes of signed size is flushed as three batches although two do |
| `Encoding.RealRoundTrips` | crates/edge/src/batcher/mod.rs:364-373 | decompressing and decoding a payload recovers its envelopes |
| `Encoding.LabelWords` | crates/edge/src/batcher/config.rs:90-97 | the stored label spelled out: schema, version, encoding and the name of the compression |
| `Encoding.WireSizeBounds` | crates/edge/src/batcher/mod.rs:208-232 | the incremental tag, length and bytes sum bounds the real size of what decodes |
| `Encoding.WireSizeExact` | crates/edge/src/batcher/mod.rs:221-229 | for messages encoded as this gateway encodes them the sum is the real size |
| `Encoding.SelectionIsFull` | crates/edge/src/batcher/mod.rs:208-233 | of such messages an uncompressed selection takes as many as really fit: one more would exceed the size limit |
| `Encoding.UncompressedNeverSplits` | crates/edge/src/batcher/mod.rs:208-245 | without compression a selection of two or more messages always fits and is never split |
| `Batcher.PackInto` | crates/edge/src/batcher/mod.rs:336-362 | appends exactly the batches and rejections of the leaves; batches plus rejections are splits plus one |
| `Batcher.Pack` | crates/edge/src/batcher/mod.rs:326-332 | the same from an empty result, the empty input included |
| `Batcher.DecodeCandidate` | crates/edge/src/batcher/mod.rs:266-285 | separates what decodes from the ids of what does not, in order |
| `Batcher.Decide` | crates/edge/src/batcher/mod.rs:248-300 | between reading and committing a step does what the plan says |
| `Batcher.Worker.Finish` | crates/edge/src/batcher/mod.rs:254-321 | on what was read earlier, whatever was pushed since: the planned commit, or an error that changes nothing; an encoding error iff the plan is stuck, a database error iff a flush is due and the disk refuses, otherwise only the first message that is no longer pending |
| `Batcher.Worker.Step` | crates/edge/src/batcher/mod.rs:248-321 | one step on the store is the planned commit, or an error that changes nothing: an encoding error iff it could read and the plan is stuck, a database error iff it could not read or could not commit a flush, and no other |
| `Batcher.FlushShrinks` | crates/edge/src/batcher/mod.rs:248-321 | a flush removes a nonempty prefix of pending and only appends to ready |
| `Batcher.SuffixEncodes` | crates/edge/src/batcher/mod.rs:336-373 | where every run of neighbouring messages can be encoded, no step on any rest of the queue is stuck |
| `Batcher.Worker.FlushDue` | crates/edge/src/batcher/mod.rs:184-199 | terminates after a run of flushes, each the planned commit on what the one before left; the rest is a suffix: empty on `None`, otherwise below every trigger with the head due in exactly the returned, positive time; on a working disk it succeeds wherever all runs of messages encode |
| `Batcher.Worker.FlushAll` | crates/edge/src/batcher/mod.rs:200-206 | the same regardless of triggers, and success means an empty pending queue; on a working disk it succeeds wherever all runs of messages encode |
| `Gateway.RunKeepsInv` | crates/edge/src/batcher/mod.rs:248-321 | the invariant that ties queues, history, ledger and anchor phase holds after every run |
| `Gateway.StartExactly` | crates/edge/src/app.rs:256-334 | a start opens a session iff the configuration is valid and no ready batches carry another label; then only the label in the store may have changed |
| `Durability.DeliveredInOrder` | crates/edge/src/anchor/worker.rs:59-131 | in every run the collapsed finalized log is a prefix of commit order, every entry is a batch's exact stored bytes, and what is no longer ready is in the log |
| `Durability.RemovedOnlyAfterFinalized` | crates/edge/src/anchor/worker.rs:93-131 | in every run a batch leaves the ready table only in a cleaning step and after its bytes are finalized |
| `Durability.HistoryGrows` | crates/edge/src/anchor/worker.rs:59-131 | push order, commit order and the ledger are only appended to |
| `Durability.ExactlyOnePlace` | crates/edge/src/batcher/mod.rs:248-321 | in every run each pushed message is pending, or dropped for a reason that holds, or in one batch once |
| `Durability.SurvivorsInOrder` | crates/edge/src/batcher/mod.rs:248-321 | confirmed, ready and pending read one after another are the surviving messages in push order |
| `Durability.ChainTellsTheTruth` | crates/edge/src/anchor/worker.rs:59-131 | decoding the collapsed on-chain log, each entry by the format label stored when it was submitted, gives a prefix of the surviving envelopes in push order |
| `Durability.ReadyMatchesLabel` | crates/edge/src/batch_store/mod.rs:130-163 | across restarts with changing configurations, decoding a ready batch by the stored label recovers what it was built from |
| `Durability.OversizedNeverSubmitted` | crates/edge/src/anchor/mod.rs:119-129 | no batch above the CPS limit is ever committed or submitted, so the anchor's size check never fires |
| `AnchorWorker.DelayMonotone` | crates/edge/src/anchor/config.rs:32-38 | retry delays never decrease and stay within the maximum |
| `AnchorWorker.DelayDoubles` | crates/edge/src/anchor/config.rs:32-38 | the first delay is the minimum, each further one double the one before up to the maximum, and after sixteen doublings it stays |
| `AnchorWorker.DefaultDelays` | crates/edge/src/anchor/config.rs:32-48 | the default policy waits 1, 2, 4, 8, 16, 32 and then always 60 seconds |
| `AnchorWorker.Anchor.SubmitBatch` | crates/edge/src/anchor/mod.rs:119-129 | one attempt with exactly the stored bytes, whose result is what the chain answers; too large a payload is a permanent error without effect |
| `AnchorWorker.Anchor.BatchRead` | crates/edge/src/batcher/mod.rs:248-253 | the batcher's read is a step of its own, taken iff the disk lets the reading through |
| `AnchorWorker.Anchor.BatchCommit` | crates/edge/src/batcher/mod.rs:254-321 | its decision and commit are a later step, on what it read; others may push in between; the step records whether the disk refused |
| `AnchorWorker.Anchor.SubmitOnce` | crates/edge/src/anchor/worker.rs:98-110 | one attempt on the head of the page is one attempting step with the answer of the chain: the size check never replaces it |
| `AnchorWorker.Anchor.ConfirmOnce` | crates/edge/src/anchor/worker.rs:122-131 | one removal of the finalized head is one cleaning step, done iff the disk lets it through |
| `AnchorWorker.Anchor.RetrySubmit` | crates/edge/src/anchor/worker.rs:137-179 | ends with the head finalized, halted by a permanent error or shutdown, or with the budget used up, as its last attempt says; one delay follows each transient attempt, the policy's for its number; the budget is spent on attempts only, and a chain that accepts needs one |
| `AnchorWorker.Anchor.RetryConfirm` | crates/edge/src/anchor/worker.rs:122-179 | the same for the removal of the head, which leaves the rest of the page next; only shutdown ends it early |
| `AnchorWorker.Anchor.RetryLoad` | crates/edge/src/anchor/worker.rs:64-74 | the next page is the oldest ready batches at most four at a time, retried with the policy's delays while the disk refuses; only shutdown ends it early |
| `AnchorWorker.Anchor.AnchorPage` | crates/edge/src/anchor/worker.rs:84-88 | anchors the batches of a page one after another; it stops early only halted or with the budget used up, which went into attempts; with a working chain and disk two per batch do |
| `AnchorWorker.Anchor.Run` | crates/edge/src/anchor/worker.rs:59-90 | every execution over the real store, with pushes and batch commits interleaved, is a run of the transition system, so its ledger is in commit order; it stops early only at shutdown or a permanent error, and each unit of its budget is a loading or an attempt |
| `Ancestry.Walk` | crates/edge/src/auth/cps.rs:229-255 | true iff a strict descendant of the root within 256 steps, false iff the root itself or a chain that ends elsewhere; each error iff what it says happens at the end of the simple path, too deep iff 257 distinct nodes are no root |
| `Ancestry.OneEnd` | crates/edge/src/auth/cps.rs:233-251 | a simple path ends in one place, so at most one error fits |
| `Ancestry.CycleNeverLeaves` | crates/edge/src/auth/cps.rs:242-247 | a chain that revisits a node never meets another one, so a reported cycle can hide neither answer |
| `Ancestry.WellFormedDecides` | crates/edge/src/auth/cps.rs:220-255 | in a well-formed tree of height below 256 the walk never errs |
| `CpsAuth.Policy.TryAuthorize` | crates/edge/src/auth/cps.rs:194-204 | an allow is served only after a lookup of that sensor returned true, a denial only if one returned false less than the negative time to live ago |
| `CpsAuth.Policy.Begin` | crates/edge/src/auth/cps.rs:271-277 | first part of a call: an answer from the cache, or a miss |
| `CpsAuth.Policy.Look` | crates/edge/src/auth/cps.rs:280-282 | second part: the lookup of this call's sensor, on a reading of the chain that really happened, or its timeout; an error ends the call and stores nothing |
| `CpsAuth.Policy.Remember` | crates/edge/src/auth/cps.rs:207-212 | last part: stores the decision within capacity, evicting the least recently used; the chain reading it rests on had this very sensor below or outside the root |
| `CpsAuth.Policy.Lookup` | crates/edge/src/auth/cps.rs:220-255 | exact for the given sensor: a failed verification, a failed reading of its binding, a denial when it is unbound, and otherwise the walk's answer or error from its node |
| `CpsAuth.LookupSound` | crates/edge/src/auth/cps.rs:220-255 | an allow means verified and this sensor bound below the root, a denial verified and this sensor bound elsewhere or not at all |
| `CpsAuth.Policy.Collect` | crates/edge/src/auth/cps.rs:271-285 | a finished call is put on record with its answer and where that came from |
| `CpsAuth.Policy.Authorize` | crates/edge/src/auth/cps.rs:271-285 | one call, with the parts of other calls interleaved anywhere, answers only with what was decided for its sensor, and is put on record with this answer |
| `CpsAuth.InterleavedSound` | crates/edge/src/auth/cps.rs:194-285 | over every interleaving of the parts of concurrent calls, cached answers rest on decisions, each decision on a reading of its own sensor's binding under the policy's root, and every answer of a call on the cache when asked, the chain as read, or the timeout |
| `CpsAuth.ServedSound` | crates/edge/src/auth/cps.rs:194-204 | over every interleaving, an allow is served only after a true lookup, a denial only after a false one less than the negative time to live ago, and the size stays within capacity |
| `CpsAuth.UsedStays` | crates/edge/src/auth/cps.rs:194-285 | over every interleaving of calls a decision that was just served or stored stays in the cache while fewer than `capacity` distinct other keys are used: an allow at any later time, a denial exactly until its time to live has passed since it was decided |
| `CpsAuth.AllowStays` | crates/edge/src/auth/cps.rs:194-285 | from any reachable state: an allow that was just answered from the cache, to either kind of question, or just stored stays a hit at any later time while fewer than `capacity` distinct other keys are used |
| `Dedup.LiveIsSuffix` | crates/edge/src/pipeline/dedup.rs:108-117 | with expiries in order, stopping at the first live entry is the full filter |
| `Dedup.DedupCache.InsertIfNew` | crates/edge/src/pipeline/dedup.rs:88-106 | result and queue are those of the simple timed set |
| `Dedup.DedupCache.PruneExpired` | crates/edge/src/pipeline/dedup.rs:108-117 | leaves exactly the live entries, set and queue in agreement |
| `Dedup.DedupCache.EnforceCapacity` | crates/edge/src/pipeline/dedup.rs:119-127 | leaves exactly the newest `capacity` entries |
| `Dedup.DedupCache.Forget` | crates/edge/src/pipeline/dedup.rs:80-84 | removes exactly this id from set and queue |
| `Dedup.DuplicateExactly` | crates/edge/src/pipeline/dedup.rs:76-127 | in every run, forgetting included, an id is a duplicate iff some kept acceptance of it is within the time to live and fewer than `capacity` were kept from it up to the acceptance before the last |
| `Dedup.AcceptedApart` | crates/edge/src/pipeline/dedup.rs:76-127 | in every run an id that was kept is accepted again only a time to live or `capacity` kept acceptances later |
| `Dedup.EveryRunTracks` | crates/edge/src/pipeline/dedup.rs:76-127 | in every run the queue is exactly the end of the kept acceptances, and what is missing expired or was pushed out |
| `Dedup.ForgetUndoesExactly` | crates/edge/src/pipeline/dedup.rs:76-106 | forgetting a newly inserted id restores the earlier live entries iff the insertion evicted nothing |
| `Dedup.EvictedStaysEvicted` | crates/edge/src/pipeline/dedup.rs:80-127 | with room for one id, forgetting the second does not bring back the evicted first |
| `Dedup.ForgottenIsNew` | crates/edge/src/pipeline/dedup.rs:76-84 | after forgetting, the id is new at any later time |
| `AuthStage.ParkKeeps` | crates/edge/src/pipeline/authorize.rs:143-162 | parking below the limit keeps every scheduler invariant |
| `AuthStage.FinishKeeps` | crates/edge/src/pipeline/authorize.rs:166-190 | finishing a lookup keeps every scheduler invariant and frees at least one slot |
| `AuthStage.EveryRunOrderly` | crates/edge/src/pipeline/authorize.rs:105-206 | in every run: bounds hold, waiting sensors are the disjoint duplicate-free union of queued and running, a nonempty queue means full concurrency, busy means a lookup is running |
| `AuthStage.ParkedComeBackInOrder` | crates/edge/src/pipeline/authorize.rs:143-190 | in every run each parked message came back exactly once or still waits, per sensor in arrival order |
| `AuthStage.StartsInTurn` | crates/edge/src/pipeline/authorize.rs:193-206 | a sensor at queue index i moves up with every finished lookup and starts with number i + 1, whatever is offered meanwhile |
| `AuthStage.InOrderExactly` | crates/edge/src/pipeline/authorize.rs:143-149 | a sensor's messages are decided in arrival order iff none is offered with a known decision while others of that sensor are parked |
| `AuthStage.Overtaken` | crates/edge/src/pipeline/authorize.rs:143-149 | a later message is decided while an earlier one of its sensor waits |
| `AuthStage.GroupsTotal` | crates/edge/src/pipeline/authorize.rs:108-117 | the per-sensor lists hold exactly the waiting messages, so their lengths sum to the counter |
| `AuthStage.Stage.Counts` | crates/edge/src/pipeline/authorize.rs:105-118 | what the fields of every valid stage promise each other |
| `AuthStage.Stage.IsBusy` | crates/edge/src/pipeline/authorize.rs:137-140 | busy iff something waits, and then a lookup is running |
| `AuthStage.Stage.Admit` | crates/edge/src/pipeline/authorize.rs:143-162 | decided at once iff known; handed back iff full; otherwise the simple scheduler's parking step |
| `AuthStage.Stage.NextResolution` | crates/edge/src/pipeline/authorize.rs:166-190 | the finishing step for the sensor of the finished or panicked task, with exactly its messages in order |
| `AuthStage.Stage.StartQueued` | crates/edge/src/pipeline/authorize.rs:193-206 | starts lookups from the head of the queue while there is room |
| `Pipeline.BackoffMonotone` | crates/edge/src/pipeline/mod.rs:80-84 | delays to a required sink start at 100 ms, never decrease and stay within 5 s |
| `Pipeline.BackoffExact` | crates/edge/src/pipeline/mod.rs:80-84 | the delays are 100, 200, 400, 800, 1600, 3200 and then always 5000 ms |
| `Pipeline.RecallsRepeat` | crates/edge/src/pipeline/mod.rs:359-364 | what the cache calls a duplicate was completely published less than a time to live ago |
| `Pipeline.NothingLost` | crates/edge/src/pipeline/mod.rs:44-53 | without shutdown, once nothing is parked or in hand, every signed message was settled by a denial live at that moment, or the lookup it waited for denied it or failed, or its content was completely published and, with a required durable sink, stored |
| `Pipeline.Acceptor.DeliverTo` | crates/edge/src/pipeline/mod.rs:397-427 | an optional sink is tried once; a required one until it accepts or shutdown intervenes, or is still failing after any number of attempts; a pause of the closed form's length between any two attempts; only the durable sink stores, and once; a sink that works takes the message at the first attempt |
| `Pipeline.Acceptor.FanOut` | crates/edge/src/pipeline/mod.rs:394-430 | every sink is tried, even after shutdown; true iff every required sink accepted exactly once; no sink accepts twice; false only at shutdown; the store gains the message iff the durable sink accepted; if all work, one attempt each |
| `Pipeline.Acceptor.AcceptMessage` | crates/edge/src/pipeline/mod.rs:352-387 | a duplicate iff the timed set says so; a published message's id stays known iff its fan-out was complete |
| `Pipeline.Acceptor.Decide` | crates/edge/src/pipeline/mod.rs:341-349 | an allowed message is published or a duplicate, a denied one is settled as denied; exactly one message leaves the hand |
| `Pipeline.Acceptor.ResolveOne` | crates/edge/src/pipeline/mod.rs:326-335 | a message reaches deduplication iff its lookup allowed it, is denied iff it denied it, and undecided iff it failed |
| `Pipeline.Acceptor.Resolve` | crates/edge/src/pipeline/mod.rs:325-337 | the messages of the lookup are settled in arrival order, each with the fate that the answer calls for |
| `Pipeline.Acceptor.AdmitOne` | crates/edge/src/pipeline/authorize.rs:143-162 | a message is decided at once iff the cache knows its sensor, and then with that decision; handed back iff not and the stage is full; the stage has been offered exactly what the cache said |
| `Pipeline.Acceptor.Offer` | crates/edge/src/pipeline/mod.rs:291-299 | a decision known to the cache settles the message there and then, nothing is parked; without one it is parked iff there is room |
| `Pipeline.Acceptor.CollectTask` | crates/edge/src/pipeline/authorize.rs:166-190 | a lookup that ended is put on record with exactly its messages and exactly what the policy's call answered, a death of its task included |
| `Pipeline.Acceptor.Process` | crates/edge/src/pipeline/mod.rs:269-322 | a badly signed message is malformed; one whose sensor the cache knows is settled by that decision without waiting or parking, however full the stage; any other is parked at once if there is room, and else waits for one finished lookup at most, unless shutdown interrupts; what was decided meanwhile was settled in that order |
| `Pipeline.Acceptor.Run` | crates/edge/src/pipeline/mod.rs:241-265 | every received message has one fate, settled in order, or is parked once; a denial is live or the answer of the lookup the message waited for, a missing decision an error of that lookup, a duplicate a complete publication within the time to live; without shutdown no signed message is lost; whatever reached a sink was signed and allowed; kept ids are published again only when the cache may have let go of them; the store holds exactly what the durable sink accepted, in order; the loop ends only with nothing parked or at shutdown, after at most two events per message and one more; messages are settled in the order in which the stage decided them, so in arrival order per sensor iff no known decision jumped parked messages |
| `Pipeline.Overtake` | crates/edge/src/pipeline/authorize.rs:143-149 | a lookup that has filled the cache but is not collected lets a later message of its sensor be decided first |
| `Backend.Durable.Deliver` | crates/edge/src/pipeline/batch_sink.rs:59-72 | the durable sink pushes exactly the received bytes and time of a backed message, or changes nothing |
| `Backend.Durable.Note` | crates/edge/src/auth/cps.rs:283 | a remembered decision enters the run only if a real reading of the chain bears it out for its sensor |
| `Backend.Durable.AnchorOnce` | crates/edge/src/anchor/worker.rs:59-131 | each step of the anchor between two steps of the pipeline is a step of the whole gateway |
| `Backend.Durable.Others` | crates/edge/src/anchor/worker.rs:59-131 | batcher and anchor, interleaved with the pipeline on one store, push nothing and stay within the whole gateway's steps |
| `Backend.Durable.OnChain` | crates/edge/src/pipeline/mod.rs:18-40 | at every moment of the code, whatever can be read from the ledger is vouched for |
| `Session.Start` | crates/edge/src/app.rs:256-334 | with an invalid configuration refused as such; refused with a database error iff the disk does not let the label be read, or be written where it has to be; refused as incompatible iff ready batches carry another label, and then nothing changes; otherwise the label is stored, nothing else in the store has changed, and a valid pipeline runs with the configured root, limits and batching whose history goes on from the last session |
| `Session.Restart` | crates/edge/src/app.rs:256-334 | after a crash the next session, under whatever configuration, finds everything stored so far; it is refused exactly as a start on that store is, whose label is the former configuration's |
| `Session.Lifetime` | crates/edge/src/app.rs:256-334 | a session on a new store, a crash and a second session: the first starts iff its configuration is valid, the second finds stored exactly what the durable sink of the first accepted; on a working disk a valid one is refused iff the labels differ and the crash left ready batches |
| `EndToEnd.EveryRunWhole` | crates/edge/src/pipeline/mod.rs:18-53 | in every run what was pushed is what was stored, one for one and in order, and stored messages and decisions stay backed |
| `EndToEnd.OnlyVouchedOnChain` | crates/edge/src/pipeline/mod.rs:18-53 | in every run, crashes and restarts included, whatever can be read from the chain was stored by the pipeline and signed, and a real reading of the chain had the signing sensor itself bound below the root |

## Left out

- Signatures, SHA-256, SS58, HKDF, AEAD and zstd internals: arbitrary functions, zstd with a left inverse.
- libp2p, HTTP, MQTT, Meshtastic, the light client and subxt: network plumbing.
- Chain supervision, peer reference counts, CLI, TOML configuration, text rendering, metrics and health probes: mostly
  one-branch facts without effect on the modelled state.
- Task scheduling and wake-ups: steps interleave nondeterministically at the await points; wake-ups are only hints.
- Liveness under failures: with `works` the workers' loops are proved to get there; one that may go on for ever takes
  a `budget`, and what is proved holds for every budget, hence for every finite part of an execution.
- Sinks other than the durable one: `Pipeline` knows a sink only as accepting or failing.
- The `none` and `whitelist` policies: `Pipeline` is modelled with the `cps` policy, the only one that needs the
  stage.
- UTF-8 validity of the descriptor texts: texts are byte strings.
- Database files not written by this store: reading tolerates malformed records, the other operations assume the
  store's own invariant. Counters at 2^64 and a message count above 32 bits: preconditions, respectively reduction
  modulo 2^32.
- Byte vectors above `isize::MAX`: building one is modelled as an encoding failure.
- Planning.HalvesFitIsFewest: a sufficient condition that costs two encodings; the exact one is
  `Fewest.FewestExactly`.
- Fewest.GreedyIsFewest: needs that parts of what fits fit. That is proved without compression; zstd does not promise
  it, and `Fewest.Cheapest` takes the place of greedy filling there.
- Pipeline.Acceptor.FanOut: covers calls that return; a required sink that fails for ever without shutdown is covered
  by `Pipeline.Acceptor.DeliverTo` for every number of attempts.
- AuthStage.InOrderExactly: speaks of messages that differ, which `Ingress.serial` makes of any two; swapping two
  equal messages could not be observed.
