# DOCMIND: models and proofs

A Dafny model of the parts of DOCMIND that carry state, recursion or a promise about
meaning, and proofs about it. `dafny verify dfyconfig.toml` checks all of it.

**The durable sync queue** (`tools/windows/DocMindSyncQueue.cs`) is the centre.
`QueueModel` has its tables as maps and, for each operation, the tables and the
answer it must leave; `SyncQueue` is the queue itself, a class whose methods work
statement by statement and are proved to leave exactly that. Every public method
holds one lock throughout, so a run is any sequence of operations (`QueueRuns`), and
the theorems are about all runs: the tables stay sound (`QueueInvariant`), no event
and no rescan request is lost (`EventSafety`, `ScopeSafety`), chains of renames
collapse (`RenameChain`), nothing is due before its quiet period (`QuietPeriod`),
and a frozen batch stays as it is until it is settled exactly (`BatchSafety`), its
retries counted and dated (`RetrySchedule`). `EventHistory` says what every column
of a pending row means over a whole run, and `QueueAnswers` when each operation
succeeds and what it throws otherwise. `QueueDriver` ties the class to the runs.
Path normalization and the text order of the database are in `Text`, the facts
behind the selection and settlement loops in `Selection`.

**The embedding engine** (`tools/local_embedding/service.py`): `BatchPlan` has the
length-sorted order and the greedy token-fill grouping, `EmbeddingEngine` the loop,
the bisection when memory runs out, and the scatter back to the callers' order. The
model is a pointwise function, and any call of it may fail in any way.

**Metadata filters**: `MetadataEsFilter` is the translation to one search-engine
query with an evaluator for the engine's bool queries, `FilterMeaning` says what
each operator asks of the index, `Wildcards` the engine's patterns, `MetadataFilter`
the in-memory evaluator, and `PushdownAgreement` the theorem that the two agree on
string filters, with the documents on which they do not. The engine folds the case
of ASCII letters, memory of all letters: `CaseFolding` compares the two foldings,
and `FoldingExactly` says for exactly which texts they find the same values. A
comment in the source (`app/common/metadata_es_filter.py:81-87`) says that `not
contains` agrees on multi-valued fields; it does not, because flattening gives each
value a bucket of its own. The code is modelled as it is, and `NotContainsAgreesIff`
says exactly when the two agree.

**Smaller cores**: the importer's retry walk (`RetryChain`) and document loop
(`ImportLoop`), the guarded backfill and its rollback journal with other writers
acting and requests failing at any time (`Backfill`), the stream pool with its
poison flag and the worker-port pool (`Pools`), the in-place merge of nested
dictionaries (`DeepMerge`, `SharedMerge`, `SharedInputs`), the canonical key
(`CanonicalKey`), and the packager's link closure and self-verification
(`Packager`).

`DeepMerge` proves the merge for a private copy without sharing, which is what a
copy of parsed JSON is. Copying keeps sharing: when two keys of the defaults hold
one dictionary, so do they in the copy, and an override of one reaches the other.
`SharedMerge` says exactly when that comes out right for defaults of two levels, any
number of whose keys may share sections: if and only if the recursive merge wants
one value for all keys that keep one section. `SharedSectionFails` is the smallest
case where it does not. Sharing also lets the merge change its second input: a
section that took over a dictionary of the caller's overrides passes it on to the
next override of that section, which is merged into it in place. `OverridesChanged`
is such a run, and `InputsSafeExactly` says for exactly which overrides no run ever
writes into either input.

The rollback of the backfill does not always complete: a chunk that has a receipt
and is deleted by another writer makes its update fail with something other than a
conflict, which ends the run, there and on every rerun, with all earlier receipts
unreverted (`DeletedChunkStops`). `Job.Apply` and `Job.Rollback` say exactly when
they complete.

## Model

| member | source | states |
|---|---|---|
| `Text.NormalizePath` | tools/windows/DocMindSyncQueue.cs:153-162 | whatever path is accepted is relative, at most 1024 UTF-16 units, without drive, NUL, empty, `.` or `..` parts |
| `Text.NormalizeExactly` | tools/windows/DocMindSyncQueue.cs:153-162 | the answer is what stands between the white space, with backslashes turned and in normal form, and it is refused exactly when that is empty, too long, absolute, holds a colon or a NUL, or has an empty or climbing part |
| `Text.NormalizeAgain` | tools/windows/DocMindSyncQueue.cs:153-162 | a normalized path is its own normal form |
| `Text.SegmentsJoin` | tools/windows/DocMindSyncQueue.cs:159-160 | the parts joined by slashes are the path, and no part holds one |
| `Text.TextOrderTotal` | tools/windows/DocMindSyncQueue.cs:226-237 | the key order of the selection is total |
| `Text.TextOrderStrict` | tools/windows/DocMindSyncQueue.cs:226-237 | and a strict order |
| `SyncQueues.SyncQueue.constructor` | tools/windows/DocMindSyncQueue.cs:121-151 | a new database is empty and sound |
| `SyncQueues.SyncQueue.Enqueue` | tools/windows/DocMindSyncQueue.cs:164-169 | tables and answer are those of the specified capture, or the tables are untouched and the error is the specified one |
| `SyncQueues.SyncQueue.EnqueueScan` | tools/windows/DocMindSyncQueue.cs:171-174 | a scan captures a new file, reopens a held row, and otherwise changes nothing |
| `SyncQueues.SyncQueue.EnqueueCore` | tools/windows/DocMindSyncQueue.cs:176-224 | both entries refine their specification, errors included |
| `SyncQueues.SyncQueue.Observe` | tools/windows/DocMindSyncQueue.cs:191-201 | reopens exactly a held row whose key has no item in any seat of its source, keeping its generation |
| `SyncQueues.SyncQueue.Follow` | tools/windows/DocMindSyncQueue.cs:205-217 | a move inherits the oldest remembered path and removes exactly the row it leaves, unless it stays on the same key |
| `SyncQueues.SyncQueue.Record` | tools/windows/DocMindSyncQueue.cs:203-222 | the capture is all or nothing: an overflow restores every table |
| `SyncQueues.SyncQueue.Store` | tools/windows/DocMindSyncQueue.cs:207-220 | the row written has the new generation, the inherited origin and the quiet-period due time; it fails exactly when that time overflows |
| `SyncQueues.SyncQueue.Due` | tools/windows/DocMindSyncQueue.cs:239 | the ordered, limited selection of rows that are due |
| `SyncQueues.SyncQueue.Dirty` | tools/windows/DocMindSyncQueue.cs:240 | the same for rows whose dirty marker is unsent |
| `SyncQueues.SyncQueue.Entries` | tools/windows/DocMindSyncQueue.cs:226-237 | every returned row qualifies, the order is strict, and every qualifying row left out comes later than all returned ones |
| `Selection.SelectionUnique` | tools/windows/DocMindSyncQueue.cs:226-237 | that specification has at most one answer |
| `Selection.FirstExists` | tools/windows/DocMindSyncQueue.cs:226-237 | qualifying rows of one source always have a first one in the order |
| `SyncQueues.SyncQueue.Delay` | tools/windows/DocMindSyncQueue.cs:243-248 | moves the due time of exactly the named generation, or overflows without effect |
| `SyncQueues.SyncQueue.RememberFingerprint` | tools/windows/DocMindSyncQueue.cs:250-258 | stores a 64-unit fingerprint on exactly the named generation and answers whether it is there |
| `SyncQueues.SyncQueue.ResetForNewEpoch` | tools/windows/DocMindSyncQueue.cs:260-268 | clears the source's batch and marks, re-dates its rows by the quiet period, and leaves other sources alone |
| `SyncQueues.SyncQueue.Freeze` | tools/windows/DocMindSyncQueue.cs:270-294 | all or nothing: the batch with its items, or the first fault in the source's order of checks |
| `SyncQueues.SyncQueue.CheckEntries` | tools/windows/DocMindSyncQueue.cs:278-286 | a foreign or repeated entry throws only if nothing before it was stale; otherwise stale entries refuse the batch |
| `SyncQueues.SyncQueue.InsertItems` | tools/windows/DocMindSyncQueue.cs:289-290 | inserts exactly seats 0..n-1 and reports a taken primary key |
| `SyncQueues.SyncQueue.Acknowledge` | tools/windows/DocMindSyncQueue.cs:309-336 | one simultaneous update of the batch, or an error with all tables restored |
| `SyncQueues.SyncQueue.Settle` | tools/windows/DocMindSyncQueue.cs:317-333 | the per-item statements together are that simultaneous update; the first bad outcome decides the error |
| `Selection.ApplyNext` | tools/windows/DocMindSyncQueue.cs:317-333 | one statement of the loop extends the simultaneous update by one outcome |
| `SyncQueues.SyncQueue.Retry` | tools/windows/DocMindSyncQueue.cs:338-348 | counts the attempt, backs off up to five minutes, and changes nothing for another request |
| `SyncQueues.SyncQueue.EnqueueScope` | tools/windows/DocMindSyncQueue.cs:350-363 | stores the request under a fresh generation, or leaves the tables untouched |
| `SyncQueues.SyncQueue.CompleteScope` | tools/windows/DocMindSyncQueue.cs:377-380 | removes a request only at its own generation |
| `QueueDriver.Perform` | tools/windows/DocMindSyncQueue.cs:164-380 | every operation of the class is a step of the run theorems and keeps the invariant |
| `QueueInvariant.CaptureValid` | tools/windows/DocMindSyncQueue.cs:202-222 | a new event makes what is in flight at its key older than what is pending there |
| `QueueInvariant.ScanReopensHeld` | tools/windows/DocMindSyncQueue.cs:189-202 | in a sound state the NOT EXISTS guard never stops a held row from reopening, with its identity kept |
| `QueueInvariant.FreezeValid` | tools/windows/DocMindSyncQueue.cs:270-294 | a frozen batch has seats 0..n-1, n at most 250, distinct keys, and only live current events |
| `QueueInvariant.AckValid` | tools/windows/DocMindSyncQueue.cs:309-336 | an acknowledgement holds rows only where nothing stays in flight |
| `QueueInvariant.ResetValid` | tools/windows/DocMindSyncQueue.cs:260-268 | an epoch reset keeps the invariant |
| `QueueInvariant.NoFaultAt` | tools/windows/DocMindSyncQueue.cs:319-331 | an accepted acknowledgement has only legal outcomes |
| `QueueRuns.NextValid` | tools/windows/DocMindSyncQueue.cs:114-380 | every operation, thrown or not, keeps the invariant of all tables |
| `QueueRuns.RunValid` | tools/windows/DocMindSyncQueue.cs:114-380 | every reachable state: items only under a batch, ordinals 0..n-1, distinct keys, generations within the counter, no held row in flight |
| `QueueRuns.RunDistinct` | tools/windows/DocMindSyncQueue.cs:176-363 | live generations of pending and scope rows never coincide in any reachable state |
| `EventSafety.StepTakes` | tools/windows/DocMindSyncQueue.cs:176-336 | an event disappears in a step if and only if a newer event, a move away or a completing acknowledgement takes it |
| `EventSafety.RowSurvives` | tools/windows/DocMindSyncQueue.cs:176-336 | over any run, an event is still pending, unchanged in what identifies it, if and only if no step of the run took it |
| `EventSafety.NoEventLost` | tools/windows/DocMindSyncQueue.cs:176-224 | an accepted event gets a fresh generation and from then on is never lost in any run |
| `EventSafety.StaysGone` | tools/windows/DocMindSyncQueue.cs:176-333 | a generation that left its key never comes back there |
| `EventSafety.RunPathsLegal` | tools/windows/DocMindSyncQueue.cs:153-224 | no run stores an absolute, drive-qualified or climbing path |
| `EventHistory.EnqueueAnswers` | tools/windows/DocMindSyncQueue.cs:176-224 | an event is recorded exactly when its request is legal, the counter is not exhausted and its due time exists; which error is thrown otherwise |
| `EventHistory.ScanAnswers` | tools/windows/DocMindSyncQueue.cs:171-197 | the same for a scan, which answers the generation pending after it |
| `EventHistory.EventRecorded` | tools/windows/DocMindSyncQueue.cs:203-222 | what a recorded event stores: kind, paths, origin, times, a due time at once or after 120 seconds, and no observation, mark, hold or fingerprint |
| `EventHistory.ColumnsAfter` | tools/windows/DocMindSyncQueue.cs:191-336 | what every step makes of the mark, the hold, the observation count, the fingerprint and the due time of a row it keeps |
| `EventHistory.KindOfLastEvent` | tools/windows/DocMindSyncQueue.cs:203-222 | over any run a row is a deletion exactly when the last event recorded at its key was one, a move exactly when that was a move or a change of a file with a known origin, and a change otherwise |
| `EventHistory.RowIsLastEvent` | tools/windows/DocMindSyncQueue.cs:203-222 | and in all its lasting columns what that event told |
| `EventHistory.InitialHistory` | tools/windows/DocMindSyncQueue.cs:206-222 | over any run a row is a first registration exactly when an unbroken sequence of events other than deletions began with a creation |
| `EventHistory.MarksHistory` | tools/windows/DocMindSyncQueue.cs:191-336 | over any run a row is marked exactly when an acknowledgement marked it and no newer event, reopening or reset came after, and held likewise |
| `EventHistory.DirtyMisses` | tools/windows/DocMindSyncQueue.cs:226-336 | a pending event is missing from Dirty exactly when a batch is frozen or it was marked or held since its event, its reopening or the last reset |
| `EventHistory.DueMisses` | tools/windows/DocMindSyncQueue.cs:226-239 | and from Due exactly when a batch is frozen, it is held, or not due yet |
| `EventHistory.AnswerOrder` | tools/windows/DocMindSyncQueue.cs:226-237 | Due returns observed rows first, and both go by due time and then by key |
| `EventHistory.AnswerFaithful` | tools/windows/DocMindSyncQueue.cs:232-236 | an entry says of its event what the row says |
| `EventHistory.ResetReopensAll` | tools/windows/DocMindSyncQueue.cs:260-268 | a reset drops the batch and no row, every row of the source loses mark, observation and fingerprint, is due again at the right time and, unless held, is in Dirty; other sources are untouched |
| `QueueAnswers.FreezeAnswers` | tools/windows/DocMindSyncQueue.cs:270-294 | a batch is frozen exactly when its size is legal, none is frozen, and every entry is of the source, once, live and current; refused with an error exactly for an illegal size or a foreign or repeated entry before any stale one |
| `QueueAnswers.AckAnswers` | tools/windows/DocMindSyncQueue.cs:309-336 | an acknowledgement must name the batch, bring one outcome per item, and only legal ones; the first fault decides the error |
| `QueueAnswers.RetryAnswers` | tools/windows/DocMindSyncQueue.cs:338-348 | a retry must name the batch, and is counted, held if permanent, and dated 5, 10, 20, 40, 80, 160 and then 300 seconds later |
| `QueueAnswers.RememberAnswers` | tools/windows/DocMindSyncQueue.cs:250-258 | a fingerprint has 64 units, the answer says whether it was stored, and a stale generation changes nothing |
| `QueueAnswers.DelayAnswers` | tools/windows/DocMindSyncQueue.cs:243-248 | a delay beyond the calendar is an error, and one of a stale generation changes nothing |
| `QueueAnswers.ScopeAnswers` | tools/windows/DocMindSyncQueue.cs:350-363 | a request stores the caller's own path, old path and kind under a fresh generation, or throws for an illegal path or an exhausted counter |
| `QueueAnswers.CompletionAnswers` | tools/windows/DocMindSyncQueue.cs:378-381 | a completion removes the request of exactly its generation |
| `ScopeSafety.StepTakesScope` | tools/windows/DocMindSyncQueue.cs:350-380 | a rescan request leaves in a step if and only if a later request replaces it or its own generation completes |
| `ScopeSafety.ScopeSurvives` | tools/windows/DocMindSyncQueue.cs:350-380 | the same over any run: completing an older scan never drops a newer request |
| `RenameChain.ChainStaysOne` | tools/windows/DocMindSyncQueue.cs:204-220 | along any chain of moves exactly one pending row remains, a move from the origin, through autosaves, scans, resets and unrelated steps |
| `RenameChain.RenamesCollapse` | tools/windows/DocMindSyncQueue.cs:204-220 | for every chain length: one pending move at the last key, from the first path or from what an earlier row at it remembered |
| `QuietPeriod.QuietRun` | tools/windows/DocMindSyncQueue.cs:199-325 | under the sender's discipline every waiting row stays dated at least 120 seconds after its change |
| `QuietPeriod.NeverDueEarly` | tools/windows/DocMindSyncQueue.cs:226-239 | after any disciplined run, whatever is due is a deletion, a first registration, or has been quiet for 120 seconds |
| `QuietPeriod.DelayKeepsQuietIff` | tools/windows/DocMindSyncQueue.cs:243-248 | a delay keeps the period if and only if it does not bring a waiting row forward |
| `QuietPeriod.DirtyDelayBreaksQuiet` | tools/windows/DocMindSyncQueue.cs:240-248 | delaying an entry obtained from Dirty can make it due at once: the discipline is needed |
| `BatchSafety.SelectionFreezes` | tools/windows/DocMindSyncQueue.cs:226-294 | a non-empty selection with a legal payload always freezes, as items 0..n-1, touching nothing else |
| `BatchSafety.FrozenBatchImmutable` | tools/windows/DocMindSyncQueue.cs:270-348 | until it is acknowledged or the epoch is reset, a batch keeps identity, payload and items through any run |
| `BatchSafety.AckAccepts` | tools/windows/DocMindSyncQueue.cs:309-331 | an acknowledgement with the batch's request id succeeds if and only if it brings one legal outcome per item |
| `BatchSafety.AckSettlesFrozen` | tools/windows/DocMindSyncQueue.cs:309-336 | it clears the source's batch and changes exactly the rows whose key and generation match an item, each by its own outcome |
| `BatchSafety.SelectFreezeAcknowledge` | tools/windows/DocMindSyncQueue.cs:226-336 | the whole round: select, freeze, anything that does not clear the batch, acknowledge: exactly the entries no newer event replaced are settled |
| `RetrySchedule.BackoffShape` | tools/windows/DocMindSyncQueue.cs:344 | the delay doubles from five seconds and stays at five minutes once six attempts are counted |
| `RetrySchedule.StepCounts` | tools/windows/DocMindSyncQueue.cs:338-348 | an accepted retry dates the next attempt by the count so far; no other step touches the batch's box |
| `RetrySchedule.RetriesCounted` | tools/windows/DocMindSyncQueue.cs:338-348 | over any run that does not clear the batch, its counter is exactly the accepted retries |
| `BatchPlan.GreedyIsLongest` | tools/local_embedding/service.py:74-84 | scanning upwards and stopping at the first failure finds the longest well-filled prefix |
| `BatchPlan.FailureIsFinal` | tools/local_embedding/service.py:75-81 | on sorted lengths a prefix that fails the fill bound is never followed by one that meets it |
| `BatchPlan.TakeIsMaximal` | tools/local_embedding/service.py:72-84 | wherever the loop stands in the order, a prefix of the window beyond one text meets the fill bound if and only if it is no longer than the group taken there |
| `BatchPlan.GroupSizes` | tools/local_embedding/service.py:70-84 | exact group sizes: one text on the processor or beyond 2048 tokens, two beyond 1024, otherwise the short batch as far as the fill bound allows |
| `BatchPlan.AreaBounded` | tools/local_embedding/service.py:70-84 | wherever the loop stands, the group's padded area is at most the larger of 8192 and 1024 times the short batch: 16384 tokens for the engine's 16 |
| `BatchPlan.EveryBatch` | tools/local_embedding/service.py:64-87 | both for every batch of every plan: batch g of the sorted order is the longest well-filled prefix of its window, within the area budget |
| `BatchPlan.PlanPartitions` | tools/local_embedding/service.py:69-87 | the groups partition the sorted order |
| `BatchPlan.TotalWaste` | tools/local_embedding/service.py:69-88 | for any fill bound, the padded total of all groups is held to that bound or to half; at most twice the real tokens from a bound of half on |
| `BatchPlan.PaddedCovers` | tools/local_embedding/service.py:70-86 | the padded area is never less than the tokens |
| `BatchPlan.PlanBounds` | tools/local_embedding/service.py:64-88 | the same for any texts, through the sort, with every text in one group; the engine's bound of 85 gives at most twice the real total |
| `BatchPlan.OrderSorted` | tools/local_embedding/service.py:67 | the order is longest first and stable |
| `BatchPlan.EveryIndexOnce` | tools/local_embedding/service.py:67 | and a permutation of the indices |
| `BatchPlan.CutPartitions` | tools/local_embedding/service.py:70-87 | the pieces of a plan, laid end to end, are the order |
| `BatchPlan.RemainingIsCut` | tools/local_embedding/service.py:70-87 | what the loop still has to encode is the order cut along the plan |
| `EmbeddingEngine.GTEEngine.Batch` | tools/local_embedding/service.py:48-54 | one counted model call: the vectors in order, out of memory, or unusable output |
| `EmbeddingEngine.GTEEngine.Retry` | tools/local_embedding/service.py:55-62 | the vectors in order after at most 2n-1 calls; it gives up on memory only when a call made with a single text did not fit |
| `EmbeddingEngine.GTEEngine.Fill` | tools/local_embedding/service.py:74-84 | the running token comparison selects exactly the longest well-filled prefix |
| `EmbeddingEngine.GTEEngine.Group` | tools/local_embedding/service.py:71-84 | the next group is the planned one |
| `EmbeddingEngine.GTEEngine.Scatter` | tools/local_embedding/service.py:85-86 | writes the vectors at their texts' positions and nowhere else |
| `EmbeddingEngine.GTEEngine.EncodeGroups` | tools/local_embedding/service.py:70-87 | the loop encodes exactly the planned groups, within two calls per text |
| `EmbeddingEngine.GTEEngine.Encode` | tools/local_embedding/service.py:63-88 | position i of the answer is the embedding of text i, for every input and every pattern of failures; a failure has its cause among the calls actually made, out of memory only in a call with a single text |
| `MetadataEsFilter.Atomic` | app/common/metadata_es_filter.py:116-134 | each filter becomes one clause that means "all of must and none of must_not" |
| `MetadataEsFilter.QueryMeans` | app/common/metadata_es_filter.py:147-177 | the composed query is knowledge-base membership and the AND or OR of those meanings |
| `MetadataEsFilter.TranslateSays` | app/common/metadata_es_filter.py:194-312 | no translated filter is empty |
| `FilterMeaning.EqualMeans` | app/common/metadata_es_filter.py:264-273 | `=` finds the value's leaf, `≠` any document with the key and not that leaf |
| `FilterMeaning.RangeMeans` | app/common/metadata_es_filter.py:275-282 | a range finds documents with the key and its own operator's leaf |
| `FilterMeaning.InMeans` | app/common/metadata_es_filter.py:284-293 | `in` finds a document with some member's leaf, `not in` one with the key and no member's |
| `FilterMeaning.MembersMean` | app/common/metadata_es_filter.py:472-504 | the members are those of a list, of a text read as a list, or the parts of a text between commas, without white space and case |
| `FilterMeaning.SplitsAtCommas` | app/common/metadata_es_filter.py:489 | the parts joined by commas are the text, and no part holds one |
| `FilterMeaning.EmptyMeans` | app/common/metadata_es_filter.py:238-262 | `empty` finds documents without the key or with a blank value, `not empty` exactly the others |
| `FilterMeaning.TextMeans` | app/common/metadata_es_filter.py:295-312 | the four text operators ask for the escaped text, `not contains` for its absence |
| `FilterMeaning.UntranslatedExactly` | app/common/metadata_es_filter.py:194-236 | a filter is left to memory exactly when its key is empty, its operator unknown, or its value has no reading for the operator |
| `MetadataEsFilter.PlanPushdown` | app/common/metadata_es_filter.py:329-346 | a plan exists if and only if the logic is known and every filter translates, and it is all of them in order |
| `MetadataEsFilter.RequestMeans` | app/common/metadata_es_filter.py:147-346 | the same end to end, for every supported non-empty request |
| `MetadataEsFilter.EmptyRequestIsKb` | app/common/metadata_es_filter.py:147-177 | without filters the query is the whole knowledge base |
| `Wildcards.EscapeSplits` | app/common/metadata_es_filter.py:576-578 | the three replacement passes act as one character-wise escape |
| `Wildcards.ParseEscaped` | app/common/metadata_es_filter.py:576-578 | escaped text is read back as exactly its own characters |
| `Wildcards.ContainsPattern` | app/common/metadata_es_filter.py:295-297 | `*text*` matches exactly the strings containing the text |
| `Wildcards.SuffixPattern` | app/common/metadata_es_filter.py:310-312 | `*text` matches exactly the strings ending with it |
| `MetadataFilter.FilterOut` | app/common/metadata_utils.py:40-129 | the ids of exactly the buckets that match |
| `MetadataFilter.DatesCompare` | app/common/metadata_utils.py:49-68 | two dates are compared by year, month and day: each of the six operators exactly |
| `MetadataFilter.DatesOnly` | app/common/metadata_utils.py:59-67 | what is no date never matches a filter that names one |
| `MetadataFilter.IntegersCompare` | app/common/metadata_utils.py:79-123 | two integer literals are compared as numbers, each operator exactly |
| `MetadataFilter.TextsCompare` | app/common/metadata_utils.py:79-123 | texts of which one is no literal are compared themselves, in lower case |
| `MetadataFilter.QuotedCompare` | app/common/metadata_utils.py:79-123 | two text literals are compared as what they read |
| `MetadataFilter.MembershipMeans` | app/common/metadata_utils.py:100-103 | `in` finds an equal member of a list or a part of a text, `not in` is the opposite, and neither holds of anything else |
| `MetadataFilter.TextOperators` | app/common/metadata_utils.py:96-107 | contains finds a part, not contains its absence, start with and end with look at the ends |
| `MetadataFilter.EmptinessMeans` | app/common/metadata_utils.py:108-111 | empty finds exactly the empty value, not empty every other, an unknown operator nothing |
| `MetadataFilter.MetaFilter` | app/common/metadata_utils.py:131-150 | the early-exit fold is the AND, or the OR, over all filters |
| `MetadataFilter.NoneForever` | app/common/metadata_utils.py:143-147 | leaving an AND early on an empty set loses nothing |
| `CaseFolding.MatchesAlike` | app/common/metadata_es_filter.py:558-573 | where no two letters of text and value are equal under one folding only, starting, ending and containing agree under both |
| `PushdownAgreement.FoldingExactly` | app/common/metadata_es_filter.py:295-312 | for each of the four operators, index and memory find the same values if and only if every letter of the text folds the same for both: a condition on the text alone |
| `PushdownAgreement.PositiveAgreesIff` | app/common/metadata_es_filter.py:295-312 | contains, start with and end with agree with memory on documents with any number of values if and only if some matching value is within the keyword limit or none matches |
| `PushdownAgreement.NotContainsAgreesIff` | app/common/metadata_es_filter.py:299-304 | not contains agrees if and only if the document has no value, or all values contain the text and one of them is within the keyword limit, or some value lacks it and no value within the limit contains it |
| `PushdownAgreement.PushdownAgrees` | app/common/metadata_es_filter.py:295-346 | for any request of string filters under and/or, over documents whose letters fold alike against the text, push-down and memory return the same documents |
| `PushdownAgreement.TwoValuesDiverge` | app/common/metadata_es_filter.py:81-87 | a document with two values on which the comment's claim fails |
| `PushdownAgreement.OtherLettersDiverge` | app/common/metadata_es_filter.py:558-573 | the Kelvin sign against the ASCII text k, and É against é: memory finds the value and the index does not |
| `PushdownAgreement.TryPushdown` | app/api/db/services/doc_metadata_service.py:838-952 | a definitive answer if and only if the index is missing or a complete search of a supported request stayed within the limit |
| `PushdownAgreement.FilterDocIds` | app/common/metadata_utils.py:272-293 | whichever way a request is routed, the answer is the in-memory one |
| `RetryChain.RepeatsForever` | app/scripts/docmind_ai_ref_sequential_import.py:368-370 | once an identity repeats, the walk never ends |
| `RetryChain.LastCounts` | app/scripts/docmind_ai_ref_sequential_import.py:360-364 | an identity is known exactly when some registration carries it, and the last one that does counts |
| `RetryChain.DepthUnique` | app/scripts/docmind_ai_ref_sequential_import.py:365-377 | the outcome of the walk is determined by the registrations |
| `RetryChain.RetryDepth` | app/scripts/docmind_ai_ref_sequential_import.py:357-377 | raises if and only if following the retries never ends, and otherwise counts the ancestors named |
| `RetryChain.Recover` | app/scripts/docmind_ai_ref_sequential_import.py:379-422 | when each retry deepens the chain, at most the maximum minus the starting depth retries are made, and the outcome is the first answer that ends the loop |
| `ImportLoop.Importer.Counted` | app/scripts/docmind_ai_ref_sequential_import.py:1319-1374 | at a loop head processed is completed + skipped + newly deferred + already deferred |
| `ImportLoop.TrailingMeasures` | app/scripts/docmind_ai_ref_sequential_import.py:1338-1363 | the consecutive count is the deferrals since the last success |
| `ImportLoop.Importer.FatesMean` | app/scripts/docmind_ai_ref_sequential_import.py:1319-1362 | which document is passed over, deferred, skipped because it was indexed before, or completed |
| `ImportLoop.Importer.DeferRegistration` | app/scripts/docmind_ai_ref_sequential_import.py:424-467 | records the deferral once and stops exactly at the limit |
| `ImportLoop.Importer.Attempt` | app/scripts/docmind_ai_ref_sequential_import.py:1319-1374 | one document gets the fate its state before the run decides, and the run stops at it exactly on a failure, at the limit, or at the resource gate, which a skipped document does not meet |
| `ImportLoop.Importer.Run` | app/scripts/docmind_ai_ref_sequential_import.py:1319-1385 | the counters at the end, and the run ends at the first document that fails, reaches the deferral limit or meets a closed gate, and completes only if there is none |
| `Backfill.RollbackInverts` | tools/backfill_docmind_search_fields.py:101-176 | the rollback script restores the exact content, and neither write touches a protected field |
| `Backfill.OtherWritesValid` | tools/backfill_docmind_search_fields.py:173-184 | other writers at any time keep what the journal says true |
| `Backfill.RewriteValid` | tools/backfill_docmind_search_fields.py:162-179 | a write whose intent names the fields the store held keeps the invariant, and what it overwrites is what others last gave the chunk |
| `Backfill.ReceiptValid` | tools/backfill_docmind_search_fields.py:185-197 | a receipt right behind its intent, with the overwritten fields and the version written, keeps the invariant |
| `Backfill.RevertValid` | tools/backfill_docmind_search_fields.py:95-107 | a version that still stands means nobody touched the chunk, and the rollback brings back exactly what others last gave it |
| `Backfill.WroteValid` | tools/backfill_docmind_search_fields.py:172-197 | however the update request ends, index and journal stay in step, because an unmoved version means the store still holds what was scanned |
| `Backfill.WroteAdds` | tools/backfill_docmind_search_fields.py:169-197 | a write adds at most its own receipt, remembers what was scanned, and moves no other chunk's record |
| `Backfill.NeverToldKeeps` | tools/backfill_docmind_search_fields.py:139-144 | a chunk no other writer ever wrote is given as it was at the start |
| `Backfill.Job.Others` | tools/backfill_docmind_search_fields.py:139-184 | any writes and deletions by others keep the invariant and move only the chunks they name |
| `Backfill.Job.WriteGuarded` | tools/backfill_docmind_search_fields.py:172-197 | a moved version is a counted conflict and changes nothing; an answered write is receipted and counted; an unanswered one is neither |
| `Backfill.Job.Intend` | tools/backfill_docmind_search_fields.py:162-171 | the intent, with the fields about to be overwritten, is in the journal before other writers and the update act |
| `Backfill.Job.Change` | tools/backfill_docmind_search_fields.py:162-197 | a written chunk's remembered original is its scanned content, given by the start or the last other writer; the request is answered exactly when it does not fail and the chunk is still there, and one that writes nothing met another writer |
| `Backfill.UpToDateMeans` | tools/backfill_docmind_search_fields.py:156-158 | a chunk is left as it is exactly when writing its fields would change nothing |
| `Backfill.Job.Apply` | tools/backfill_docmind_search_fields.py:139-200 | scanned = changed + unchanged + conflicts, changed counts exactly the journal's receipts and unchanged the scanned chunks without an intent, at most the write that ends a failed run lacks one, and a completed run has served every chunk nobody else wrote; it completes if and only if every chunk found without its fields has its request answered |
| `Backfill.NothingStopsApply` | tools/backfill_docmind_search_fields.py:172-184 | without faults and deletions, whatever others write, it completes |
| `Backfill.AllBrought` | tools/backfill_docmind_search_fields.py:139-200 | then each such chunk holds its start content with all its fields |
| `Backfill.Job.RollbackOne` | tools/backfill_docmind_search_fields.py:95-112 | one receipt: reverted, a counted conflict, or a failure that counts nothing and, when only the answer is lost, has still taken effect |
| `Backfill.Job.Rollback` | tools/backfill_docmind_search_fields.py:90-114 | however it ends, each chunk holds exactly what others made of the start unless a write of the backfill stands there; it completes if and only if every receipt has its request answered in its turn, and then none with a receipt stands; otherwise nothing behind the receipt that stopped it is rolled back |
| `Backfill.NothingStopsRollback` | tools/backfill_docmind_search_fields.py:90-112 | without faults and deletions, whatever others write, it completes |
| `Backfill.DeletedChunkStops` | tools/backfill_docmind_search_fields.py:108-112 | a receipted chunk deleted before its turn and not written again stops the rollback and every rerun, however the requests fare |
| `Backfill.DeletedChunk` | tools/backfill_docmind_search_fields.py:90-200 | such a run: applied, deleted by another writer, no request fails, and the rollback does not complete |
| `Backfill.RoundTrip` | tools/backfill_docmind_search_fields.py:90-200 | apply, completed or not, and a completed rollback: every chunk is as if the backfill had never run, and one nobody else wrote is what it was at the start, except a write whose lost answer ended the apply; without faults and deletions both complete, with no exception |
| `Pools.StepConserves` | tools/local_embedding/compare_concurrency.py:51-76 | items in the queue and items held are always the original set, each once |
| `Pools.StepFences` | tools/local_embedding/compare_concurrency.py:63-71 | the flag is set before a poisoned stream returns, so nobody works with it |
| `Pools.PoolSafe` | tools/local_embedding/compare_concurrency.py:51-76 | both over any interleaving of any handlers |
| `Pools.FlagHasCause` | tools/local_embedding/compare_concurrency.py:65-71 | over any run the flag is set only once synchronize failed on an item, and stays clear in a run where it never fails |
| `Pools.FlagDecides` | tools/local_embedding/compare_concurrency.py:51-63 | while it is clear nobody is refused, once set nobody is admitted and nobody begins |
| `Pools.HolderFinishes` | tools/local_embedding/compare_concurrency.py:58-76 | whoever holds an item can always give it back by himself, and sets the flag only if synchronize fails |
| `Pools.RequestServed` | tools/local_embedding/compare_concurrency.py:51-76 | a request that finds the flag clear and an item free is served, leaves the pool as it was, and any handler outside can enter next |
| `Pools.ParallelEngine.Act` | tools/local_embedding/compare_concurrency.py:51-76 | the shared queue and flag take exactly the steps of those theorems |
| `Pools.FourDistinct` | tools/avdc_embedding/pool.py:23 | four entries make a set of four exactly when they differ |
| `Pools.NextDisjoint` | tools/avdc_embedding/pool.py:23-27 | checking one accumulated set is checking all pairs of groups |
| `Pools.ValidateGroups` | tools/avdc_embedding/pool.py:15-29 | accepts exactly 1 to 24 pairwise disjoint groups of four available processors |
| `Pools.WorkersDisjoint` | tools/avdc_embedding/pool.py:92-111 | at any moment of any run, handlers waiting for workers use disjoint processors |
| `DeepMerge.MergeIdempotent` | app/api/utils/api_utils.py:593-605 | merging the same overrides again changes nothing |
| `DeepMerge.MergeHolds` | app/api/utils/api_utils.py:583-591 | at every path: a plain value is in the merge exactly when the overrides have it there, or the defaults have it and the overrides say nothing there or on the way |
| `DeepMerge.TurnShowsMerge` | app/api/utils/api_utils.py:596-603 | when every stacked pair has had its turn, in any order, each dictionary shows the recursive merge |
| `DeepMerge.TurnKeeps` | app/api/utils/api_utils.py:597-603 | one turn keeps the invariant of the stack |
| `DeepMerge.ShowsUnique` | app/api/utils/api_utils.py:593-605 | a dictionary represents at most one value |
| `SharedMerge.SharingDemands` | app/api/utils/api_utils.py:593-605 | on any heap, keys of the root that keep one shared dictionary come out right only if the merge wants one value for all of them |
| `SharedMerge.AgreementSuffices` | app/api/utils/api_utils.py:596-605 | for shared sections, where the merge agrees, every finished run shows it and leaves everything outside the copy as it was |
| `SharedMerge.SharingExactly` | app/api/utils/api_utils.py:593-605 | for defaults of two levels with any sharing of sections, a finished run shows the recursive merge if and only if the merge wants one value for all keys that keep one section |
| `SharedInputs.RunReady` | app/api/utils/api_utils.py:596-603 | without clashing overrides, at every point of every run everything outside the copy is as it was and every waiting pair has nothing to write there |
| `SharedInputs.ClashReached` | app/api/utils/api_utils.py:596-603 | wherever two overrides of one section clash, some order of the overrides leads to a write into a dictionary outside the copy |
| `SharedInputs.InputsSafeExactly` | app/api/utils/api_utils.py:561-605 | for defaults of two levels with any sharing of sections, no run in any order ever writes into either input if and only if, where two overrides of one section hold dictionaries under one key, the second has nothing to add to the first |
| `SharedInputs.OverridesChanged` | app/api/utils/api_utils.py:593-605 | one section under two keys and an override of each: a run to its end that changes a dictionary of the overrides |
| `SharedInputs.NoClashEnds` | app/api/utils/api_utils.py:596-603 | without clashing overrides the loop comes to its end |
| `SharedInputs.AgreementEnds` | app/api/utils/api_utils.py:596-605 | so it does where the merge agrees with the sharing, and with the recursive merge |
| `SharedInputs.SharedSectionFails` | app/api/utils/api_utils.py:593-605 | one empty section under two keys and an override of one of them: the loop ends, and no finished run shows the merge |
| `SharedInputs.MergeSections` | app/api/utils/api_utils.py:594-605 | the loop over a copy with shared sections and no clash: it ends, neither input has changed, and it shows the recursive merge if and only if the merge agrees with the sharing |
| `DeepMerge.Merger.Turn` | app/api/utils/api_utils.py:597-603 | one dictionary is overlaid in place and exactly its descents are pushed, each once, on any heap |
| `DeepMerge.Merger.MergeInto` | app/api/utils/api_utils.py:594-605 | the loop ends with the recursive merge at the root, no dictionary outside the copy has changed, and its turns are a run in the sense of the sharing theorems |
| `CanonicalKey.RawExactly` | app/common/misc_utils.py:317 | dictionary keys are kept apart exactly |
| `CanonicalKey.EntriesCount` | app/common/misc_utils.py:317 | no two entries of a dictionary collapse |
| `CanonicalKey.CanonicalExactly` | app/common/misc_utils.py:310-328 | canonical forms are equal if and only if the values are, whatever the key order |
| `CanonicalKey.HashableTogether` | app/common/misc_utils.py:341-345 | equal values are hashable together |
| `CanonicalKey.OwnKeyExactly` | app/common/misc_utils.py:341-345 | a value is its own key exactly when it holds no list or dictionary at any depth |
| `CanonicalKey.KeyExactly` | app/common/misc_utils.py:331-345 | keys are equal if and only if the values are |
| `CanonicalKey.EqualityIsSymmetric` | app/common/misc_utils.py:331-345 | so lookup works from either side |
| `Packager.ClosedHoldsChain` | tools/package_docmind.py:73-87 | the linked documents are the least closed set |
| `Packager.Collect` | tools/package_docmind.py:71-87 | the worklist ends with exactly the selected paths and the Markdown files linked from them through tracked, safe links |
| `Packager.CollectedSafe` | tools/package_docmind.py:35-85 | everything collected is safe |
| `Packager.Verify` | tools/package_docmind.py:45-62 | accepts exactly archives whose manifest names each other member once, with its size and hash |
| `Packager.AcceptableMeans` | tools/package_docmind.py:45-62 | that is: the members are the manifest and the listed files, nothing twice, each file safe and of the listed length and hash |
| `Packager.TamperedRefused` | tools/package_docmind.py:58-61 | an accepted archive with one file's bytes replaced is refused unless length and hash are the same |
| `Packager.BuildVerifiesIff` | tools/package_docmind.py:92-121 | a built archive verifies if and only if schema and commit are the expected ones and no path has the manifest's name |

## Left out

- SQLite itself: schema, WAL and PRAGMA settings, migration, crash durability. A table is a map, a transaction is all or nothing, and a counter at its maximum is an error.
- Unicode normalization and the case-fold table are arbitrary functions; strings with unpaired surrogates or NUL characters are not distinguished further, and null and empty strings are the same.
- `Count`, `Outbox`, `Scopes`, `Dispose` and the collector's file watcher: the collector is any sequence of steps.
- SyncQueues.SyncQueue.Retry: the attempt counter is an unbounded natural number, the source reads it back as a 32-bit integer.
- SyncQueues.SyncQueue.Acknowledge: an outcome list the caller passes as null is not modelled.
- Torch, tokenizer and GPU: the model is a pointwise function with arbitrary failures, token counts are given, and `tools/avdc_embedding/service.py`, the same loop with another size rule, is not repeated.
- Device memory: the padded area is bounded, how much memory it takes is not modelled.
- Elasticsearch beyond bool, exists, term, terms, prefix, wildcard and range: case folding is ASCII only, keyword sub-fields drop values longer than a limit that is a parameter, and leaves outside the agreement theorem are evaluated by an arbitrary function.
- A metadata key whose own name contains a dot, and so another key's keyword sub-field.
- PushdownAgreement.PushdownAgrees: stated for contains, not contains, start with and end with on non-empty text, where texts and values do not hold the two letters whose lower case is not one letter of its own, U+0130 and U+03A3; that all others lower letter by letter is an assumption about the host language; `empty` on a missing field, comma-separated `in`, and literal coercion of `=` differ by construction.
- MetadataFilter.FilterOut: a digit is the same for both evaluators, though `isdigit` and the pattern of the translation differ on superscripts; comparing values that are not two strings or two integers, membership in an object, and literal parsing follow Python's dynamic typing and are parameters; a bucket's value is a string as flattening makes it.
- The filter modes of `apply_meta_data_filter` that ask a language model.
- ImportLoop.Importer.Run: server answers and what the resource gate decides after each document are inputs.
- RetryChain.Recover: the polling of a reprocessed registration is the server's answer; that each retry deepens the chain by one is an assumption about the server.
- Backfill.RoundTrip: a write whose answer was lost has an intent and no receipt, and is not rolled back; the source behaves the same, and at most one chunk of a run is concerned.
- Backfill: the dry run, the verify mode and the index refresh, and the tokenizer, which is an arbitrary function from contents to lexical fields.
- Pools.WorkersDisjoint: a worker that goes on computing after the pool gave up on its answer may be handed its next request; it stays on its own processors.
- Pools: HTTP parsing and authentication, health checks and start-up; the port pool is the same protocol without the flag.
- DeepMerge.Merger.MergeInto: `deepcopy` is taken at its result, a fresh copy that shares what the defaults share; the method is for copies without sharing, `MergeSections` for shared sections.
- SharedInputs.InputsSafeExactly: about every point of every run; where overrides clash, a later turn may write the old value back, and overrides that share dictionaries themselves may keep the loop from ending.
- SharedInputs.MergeSections: for overrides without a clash.
- SharedMerge.SharingExactly: for sharing among the sections of two-level defaults; for sharing deeper down only the demand on the root's own keys, `SharingDemands`, is stated.
- CanonicalKey.KeyExactly: for scalars, lists, tuples and dictionaries; sets, NaN and the `repr` fallback are not modelled, and scalars are taken up to Python's equality.
- Packager: `selected`, `safe_path`, the link pattern, Git, tar and JSON decoding are functions; the check for required inputs is not modelled.
