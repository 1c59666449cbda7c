# Verification of agentsearch's concurrent, durable and arithmetic cores

agentsearch queries many sources for one target, keeps an offline password corpus, watches targets for
changes and reads bounded blockchain histories. This Dafny project models the parts of it in which a mistake
would be hard to see, and proves what the program relies on. `dafny verify dfyconfig.toml` checks all of it.

## What is modelled

**Source orchestration.** `SourceBatch` is the pairwise fan-out: producer goroutines, one consumer, unbuffered
row and acknowledgement channels, one cancellation flag. Every goroutine is a program counter and a rendezvous
is one step that moves both sides; any enabled step may come next, the caller may cancel at any moment, sources
and the consumer may panic. A source is a script: its rows, how it ends when left alone, and whether it may
panic after it was stopped. `SourceSearch` runs batches one after the other and proves that, unless the caller
cancels, a parallel search shows exactly what the sequential one shows, and that every run ends with everything
joined. `WorkerPool` is the website search, a fixed pool with a submitter and a draining consumer, and proves
that jobs are neither lost nor copied. The pool needs at least one worker, which the website source's
constructor checks.

**Offline corpus.** `CorpusFormat` is the file layout, `CorpusImport` the streaming builder with its in-place
index, `CorpusReader` opening, scrubbing and searching, `CorpusParse` the text lines, `RangeMatch` the linear
scan of a remote range response. `Activation` is the pair of checksummed slots under torn and shortened
writes, `CorpusOpen` the chain from `Activate` over `Open` to an answer, and `Leases`
the protocol of update lock, control gate and leases among agents that may die anywhere. SHA-256 is a function
parameter. A total injective function from byte strings to 32 bytes does not exist, so injectivity is never
assumed of it: a theorem that needs it names the two byte strings that would have to collide, or asks that the
one body being written does not collide with the one body it is written over.

The runs of `Activation` are all those in which a publication leaves its slot old, new or unreadable. Torn writes
make such runs, in a generous crash model: of the sectors between the first and the last any byte may be old or
new, and the file may end anywhere, also grown by zeros. In it one thing is false of the code, and the exact
condition is proved: an aborted record whose checksum ends in zeros can be cut so short that only zeros are missing,
and a later write that dies after extending the file completes it (`ShortSlotRevives`).

**Watch monitor.** `MonitorSnapshot` is canonical evidence, difference, projection and merge; `MonitorLog` is
the two-generation log at the level of bytes, with the process dying after any number of file-system effects;
`MonitorEngine` puts both together: the log is written first, the baseline replaced second, and an observation
repeated after any number of crashes is logged once. Attempts may differ in the length of their timestamps,
which the code prints without trailing zeros; the theorems ask that the batch fits half a generation with the
longest of them. One expectation is false of the code: the revision also rises when a new target meets no good
source, because an empty list and a nil one are encoded differently (`RevisionRisesForNothing`); the guard before
the save keeps that off the disk (`NothingGood`).

**Bitcoin.** `BitcoinChecksum` is the shift register of BIP 173, section "Bech32", and BIP 350, section
"Bech32m", on 32-bit vectors; `BitcoinAddress` the two address branches; `BitcoinTx` one transaction with its
bounded sums and edges; `BitcoinHistory` the pages, the retention cap and the counterparties.

**Rate limiter.** `RateLimit` is the limiter's table and its two critical sections, over every interleaving of
waiters and deferrals under one monotone clock.

`Common`, `Bytes` and `Sorting` hold what several of these share: optional values, big-endian numbers, byte
order, and what a sort or the iteration of a map promises.

The code's own comments agree with it wherever they touch what is modelled here.

## Model

| member | source | states |
|---|---|---|
| SourceBatch.StepInv | internal/sources/orchestration.go:43-132 | every step of every goroutine of one batch, in any interleaving, keeps the invariant that ties producers, consumer cursor, accepted rows and cancellation together |
| SourceBatch.StreamAt | internal/sources/orchestration.go:104-131 | row `k` of source `j` has one place in the stream, registry order first and emission order second |
| SourceBatch.EmitTold | internal/sources/orchestration.go:82-96 | an Emit that returned nil stands for a row the real consumer accepted, at the row's own place in the stream |
| SourceBatch.BatchReports | internal/sources/orchestration.go:47-60 | when the call returns every producer is joined, and the report is a panic somebody raised, the refusal the consumer gave, or exactly the scripts' failures in registry order |
| SourceBatch.Progress | internal/sources/orchestration.go:43-132 | in every reachable state that has not returned, some goroutine other than the caller's context can step: consumer errors, panics and cancellation leave nobody stuck |
| SourceBatch.StepRank | internal/sources/orchestration.go:43-132 | every step other than the parent's cancellation strictly lowers a rank computed from the scripts, and cancellation does not raise it |
| SourceBatch.CallKeepsConsumer | internal/sources/orchestration.go:118-125 | calling the consumer, whatever its verdict, keeps the cursor and the accepted rows in step |
| SourceSearch.SearchSequential | internal/sources/manager.go:55-81 | the loop over the snapshot returns exactly what the sequential search shows: rows, refused row, ordered failures, the consumer's error or a stopped source's panic, or, when the context ends before some source or at the end, what was shown until then with the context's error joined last |
| SourceSearch.PanicInstead | internal/sources/manager.go:85-140 | a source that panics after its row was refused changes nothing but that the search unwinds instead of returning the consumer's error |
| SourceSearch.SequentialSkips | internal/sources/manager.go:55-81 | sources that return and whose rows are all accepted only extend the two accumulators |
| SourceSearch.SequentialStops | internal/sources/manager.go:66-69 | a consumer that stops inside source `n` ends the search there, with the rows accepted so far |
| SourceSearch.SelectSame | internal/sources/manager.go:40-53 | selecting the supported sources first, as the parallel path does, does not change what the sequential search shows |
| SourceSearch.MoveInv | internal/sources/orchestration.go:16-33 | launching, stepping and collecting batches keeps the accumulated rows and failures equal to the sequential ones so far |
| SourceSearch.RunsEnd | internal/sources/orchestration.go:16-33 | no run of a parallel search is longer than a bound computed from its scripts |
| SourceSearch.RunsReturn | internal/sources/orchestration.go:16-132 | a run that cannot be extended has returned: there is no stuck state |
| SourceSearch.DeliveredInOrder | internal/sources/orchestration.go:104-131 | at every moment of every run the rows handed over are a prefix of the registry-order concatenation |
| SourceSearch.EmitIsTruthful | internal/sources/orchestration.go:82-96 | over whole searches, a source's Emit has returned nil only for rows the consumer accepted at their own place |
| SourceSearch.CalledInOrder | internal/sources/orchestration.go:104-131 | when the consumer is called for source `i` every earlier source of the batch has closed, without a panic, with all its rows accepted; so nothing of a later source is delivered after a panic |
| SourceSearch.FewLive | internal/sources/orchestration.go:14-22 | at most two invocations are live at any moment and none once the batch has returned |
| SourceSearch.ParallelRefinesSequential | internal/sources/orchestration.go:16-132 | without caller cancellation the parallel search shows exactly what the sequential one shows on the same snapshot, rows, refused row and ordered failures, or unwinds with a panic a source or the consumer raised |
| SourceSearch.ConsumerErrorIsReal | internal/sources/orchestration.go:24-27 | also under cancellation, a consumer error is the verdict on the last row handed over, and all rows before it were accepted |
| WorkerPool.StepInv | internal/sources/websites/source.go:57-101 | every step of workers, submitter and consumer keeps the invariant of the website search |
| WorkerPool.StepPlaces | internal/worker/pool.go:50-66 | a step moves or submits a job but never copies or loses one |
| WorkerPool.Progress | internal/worker/pool.go:43-106 | with at least one worker some goroutine can always step until the search has returned |
| WorkerPool.StepRank | internal/sources/websites/source.go:57-101 | every step, cancellation included, strictly lowers the rank |
| WorkerPool.RunsReturn | internal/sources/websites/source.go:57-101 | every run is bounded by the number of workers and sites, and one that cannot be extended has returned |
| WorkerPool.OneResultPerSite | internal/sources/websites/source.go:69-77 | a search that finishes delivers exactly one result for each enabled site with a URL and none for any other |
| WorkerPool.UndisturbedFinishes | internal/sources/websites/source.go:88-101 | a search nobody cancels and whose consumer accepts everything finishes |
| WorkerPool.JoinedOnReturn | internal/sources/websites/source.go:82-101 | whatever disturbs it, on return all workers have exited, the results channel is closed and the submitter is done, and the returned error is the consumer's or the caller's cancellation |
| WorkerPool.ClosedForGood | internal/worker/pool.go:71-75 | once closed the results channel is never sent on and never closed again |
| RateLimit.HostLimiter.Poll | internal/ratelimit/limiter.go:48-59 | one turn of the wait loop: grant and record, or report a positive sleep after which the host is open unless extended |
| RateLimit.HostLimiter.Defer | internal/ratelimit/limiter.go:73-87 | a deferral moves the recorded time forward when it is later than the recorded one and otherwise changes nothing |
| RateLimit.TableIsExact | internal/ratelimit/limiter.go:46-87 | the table holds, per host, exactly the latest reopening time asked for by past grants and deferrals |
| RateLimit.GrantedExactly | internal/ratelimit/limiter.go:52-58 | a waiter is granted if and only if every earlier grant is a full delay old and every earlier deferral has expired |
| RateLimit.GrantsAreSpaced | internal/ratelimit/limiter.go:52-58 | over every interleaving recorded grants of one host are at least the delay apart |
| RateLimit.DeferralIsKept | internal/ratelimit/limiter.go:71-87 | no grant is recorded before a deferral made earlier expires |
| RateLimit.NeverDecreases | internal/ratelimit/limiter.go:55-86 | the recorded time of a host never decreases |
| Leases.StepInv | internal/passworddb/activation.go:101-352 | every step of Import, Verify, Activate, Open, Close and Prune, death included, keeps the file and lock invariant |
| Leases.DeletionIsSafe | internal/passworddb/activation.go:292-349 | in every interleaving a generation that is damaged, loses its lease file or is removed is named by no valid slot, leased by nobody, and not selected by an Open that has yet to lease it |
| Leases.ReadersSeeIntact | internal/passworddb/activation.go:107-138 | from selection to Close an Open works on a complete generation, and every generation a slot names is complete |
| Leases.LeaseIsReady | internal/passworddb/activation.go:120-127 | an Open that has selected a generation can take its lease at once |
| Leases.WaitsUpwards | internal/passworddb/locks.go:20-62 | an agent only waits for a lock above everything it holds in the order update, control, lease |
| Leases.NoWaitingRing | internal/passworddb/activation.go:101-352 | no set of agents can wait for one another in a circle, in any state |
| Activation.EncodeSlot | internal/passworddb/activation.go:22-33 | the buffer filled field by field is the image of the record: magic, version, sequence, id, manifest digest, zeros and the digest of all that |
| Activation.DecodeExact | internal/passworddb/activation.go:34-53 | the decoder yields a record if and only if the bytes are that record's image and its sequence is positive |
| Activation.TornParts | internal/passworddb/activation.go:242-247 | a mixture at sector granularity is made of one whole old or new body and one whole old or new checksum |
| Activation.TornExact | internal/passworddb/activation.go:242-247 | a write that dies anywhere, leaving any beginning of a mixture of old and new bytes, can leave only the old record, the new one or nothing, if and only if two mixtures that can be computed before the write read as one of these |
| Activation.TornReads | internal/passworddb/activation.go:34-53 | they do when the body in the slot and the one being written do not collide and a slot cut short is not merely without the zeros that end its checksum |
| Activation.ShortSlotRevives | internal/passworddb/activation.go:62-97 | otherwise an aborted record does come back: its checksum ends in a zero byte, only that byte was missing, and a later write dies after extending the file |
| Activation.ReadSelection | internal/passworddb/activation.go:62-97 | the loop finds the readable slot with the highest sequence; it fails exactly for an unsupported slot or for two different records of one sequence |
| Activation.PlanWrite | internal/passworddb/activation.go:218-226 | the next sequence and the slot to overwrite in 64-bit arithmetic, with exhaustion detected by the wrap to zero |
| Activation.Publish | internal/passworddb/activation.go:214-247 | succeeds if and only if both slots have a known format, do not conflict and a sequence is left; then exactly the new record's image is in the slot that is not selected |
| Activation.AttemptKeeps | internal/passworddb/activation.go:214-259 | one Activate that leaves its slot old, new or unreadable leaves two readable slots exactly one apart and selects the previous record or the one being published; a completed write selects the latter |
| Activation.SelectionNeverFails | internal/passworddb/activation.go:77-97 | from an empty root, over any run of publications each leaving its slot old, new or unreadable, the selection is never in conflict and never unsupported |
| Activation.SelectionMoves | internal/passworddb/activation.go:214-259 | the selection only moves to the generation being published, one sequence further, and never disappears |
| Activation.SelectedWasPublished | internal/passworddb/activation.go:214-259 | whatever is selected carries the id and manifest digest of one of the publications before |
| Activation.TornRunIsRun | internal/passworddb/activation.go:242-247 | runs whose processes die in torn or shortened writes are such runs, as long as each record written is clear of what is in the one slot it is written to |
| CorpusOpen.Activate | internal/passworddb/activation.go:181-259 | publishes if and only if the generation passes the whole scrub and the slots allow it, and records the digest of the manifest that was scrubbed |
| CorpusOpen.Open | internal/passworddb/activation.go:101-139 | opens if and only if a generation is selected, exists and loads under the manifest digest in its slot; the snapshot then holds its lease |
| CorpusOpen.Answer | internal/passworddb/reader.go:54-102 | over arbitrary contents of all files an answer is the key's count in the generation whose manifest digest the slot records, or two byte strings compared on the way collide; unchanged files always answer |
| CorpusOpen.AnswerAfter | internal/passworddb/activation.go:101-259 | after any run of publications of verified generations, each leaving its slot old, new or unreadable, an answer is genuine for one of them |
| Bytes.Be64 | internal/passworddb/format.go:60-65 | a 64-bit number and its 8-byte big-endian field determine each other |
| Bytes.CopyInto | internal/passworddb/format.go:70-77 | copying into a buffer writes the field at its place and nothing else |
| CorpusFormat.PrefixMonotone | internal/passworddb/format.go:26 | bytewise key order never runs against the order of the 20-bit prefixes |
| CorpusFormat.PrefixDecides | internal/passworddb/format.go:26 | a smaller prefix means a smaller key |
| CorpusFormat.CheckIndex | internal/passworddb/format.go:78-109 | accepted if and only if the header fits, the offsets ascend from 0 to the count within capacity, empty ranges carry the empty digest and the largest range is the manifest's |
| CorpusFormat.IndexTiles | internal/passworddb/format.go:85-108 | accepted offsets tile the record sequence |
| CorpusReader.VerifyContents | internal/passworddb/reader.go:160-199 | accepted if and only if every range has its digest and is sorted within its prefix with positive counts, and the whole file has the manifest's digest although it is hashed in pieces |
| CorpusReader.AcceptedIsSorted | internal/passworddb/reader.go:160-190 | whatever is accepted is one globally strictly ascending, duplicate-free sequence with positive counts, cut by the offsets exactly where prefixes change |
| CorpusReader.RangedSorted | internal/passworddb/reader.go:180-185 | ranges sorted one by one within their own prefixes make one sorted whole |
| CorpusReader.LoadVersion | internal/passworddb/reader.go:105-157 | accepted if and only if manifest digest, manifest, index digest, index, size and header are all in order |
| CorpusReader.Verify | internal/passworddb/activation.go:142-176 | accepted if and only if the generation loads and passes the scrub |
| CorpusReader.Snapshot.Close | internal/passworddb/reader.go:37-53 | the lease is given back at the first close and only then; a second close does nothing |
| CorpusReader.Snapshot.Lookup | internal/passworddb/reader.go:54-102 | closed, resized and corrupt ranges are refused, and on a sorted range the answer is the key's count |
| CorpusReader.Find | internal/passworddb/reader.go:93-101 | the binary search returns the key's count in any ascending run of records, 0 when it is absent |
| CorpusReader.RangeAnswers | internal/passworddb/reader.go:78-101 | one key's range gives the same answer as the whole file |
| CorpusReader.LookupFailsClosed | internal/passworddb/reader.go:71-101 | against any later data file of the right size a lookup fails or returns the verified count, unless the range digest collides |
| CorpusReader.FailClosed | internal/passworddb/activation.go:196-241 | for arbitrary later manifest, index and data, Open plus Lookup give the verified count or an error, unless one of three named pairs of byte strings collides |
| CorpusParse.HexRoundTrip | internal/passworddb/import.go:44-46 | decoding the hexadecimal form of a key gives the key back |
| CorpusParse.ParseCount | internal/passworddb/import.go:47-56 | the accumulation accepts exactly the nonzero decimal numbers that fit 64 bits and never overflows |
| CorpusParse.ParseLine | internal/passworddb/import.go:28-63 | a line is accepted if and only if it is a well-formed terminated record whose prefix does not fall and whose byte-order mark opens a new prefix |
| CorpusParse.ParseRendered | internal/passworddb/import.go:28-63 | parsing a rendered record gives the record back |
| Sorting.SortSorts | internal/passworddb/import.go:145 | sorting leaves no later element below an earlier one |
| CorpusImport.ReadLine | internal/passworddb/import.go:177-186 | the scan finds the first newline of the rest of the input |
| CorpusImport.SortedNeighbours | internal/passworddb/import.go:146-150 | in a sorted group a repeated key shows up in neighbours |
| CorpusImport.Importer.MakeIndex | internal/passworddb/format.go:70-77 | every range digest of a fresh index is the digest of nothing |
| CorpusImport.Importer.PutOffsets | internal/passworddb/import.go:151-154 | the offsets up to a limit are stored and the rest of the index is untouched |
| CorpusImport.Importer.HasDuplicate | internal/passworddb/import.go:146-150 | a duplicate is reported exactly when the sorted group does not ascend strictly |
| CorpusImport.Importer.Write | internal/passworddb/import.go:155-162 | the group goes to the file, and its digest is that of the same bytes |
| CorpusImport.Importer.Flush | internal/passworddb/import.go:141-170 | a group is appended sorted and the index stays exact, or a key occurs twice |
| CorpusImport.Importer.Add | internal/passworddb/import.go:191-200 | one record joins its group, and it is refused only when its prefix range is full or an earlier group repeats a key |
| CorpusImport.OffsetHolds | internal/passworddb/format.go:63-65 | storing one offset makes the index exact one prefix further and changes nothing else |
| CorpusImport.GrowBuilt | internal/passworddb/import.go:151-168 | adding a sorted group keeps every range's digest and order exact |
| CorpusImport.Next | internal/passworddb/import.go:173-190 | one line is read and parsed, or the input cannot be accepted whatever follows |
| CorpusImport.ReadAll | internal/passworddb/import.go:173-201 | the loop ends with every entry of the input read in order, or no import can accept the input |
| CorpusImport.SealIndexOk | internal/passworddb/import.go:211-215 | the finished index passes the index check |
| CorpusImport.SealScrubbed | internal/passworddb/import.go:211-219 | the finished data file passes the scrub |
| CorpusImport.Seal | internal/passworddb/import.go:211-244 | what is written at the end is a generation that verifies |
| CorpusImport.Import | internal/passworddb/import.go:68-276 | accepts exactly the inputs of well-formed lines in ascending prefix groups that fit a range, without a repeated key and with the expected digest; what it seals verifies and holds exactly the input's records |
| CorpusImport.EntriesSize | internal/passworddb/import.go:97-102 | an input holds at most one record per 43 bytes, the bound the size estimate uses |
| CorpusImport.OffsetsCount | internal/passworddb/import.go:151-154 | the stored offset at `p` is the number of input records with prefix below `p`, for every `p` |
| CorpusImport.LookupAgrees | internal/passworddb/reader.go:78-101 | looking up any 20-byte key in an imported generation gives its count in the input, or 0 |
| RangeMatch.MatchItems | internal/sources/hibp/passwords.go:60-92 | every item is checked even after a match, and a malformed or repeated suffix fails the whole response |
| RangeMatch.MatchRange | internal/sources/hibp/passwords.go:52-93 | succeeds if and only if the suffix is valid, no line is too long, every line is blank or well-formed, suffixes are distinct and at least one is listed; then it gives the suffix's count |
| RangeMatch.SuffixDecides | internal/sources/hibp/passwords.go:22-36 | the 5-digit prefix and the 35-digit suffix together determine the key |
| RangeMatch.ScanRendered | internal/sources/hibp/passwords.go:58-63 | scanning a rendered response yields its lines, with either line ending |
| RangeMatch.RangeAgrees | internal/sources/hibp/passwords.go:52-93 | on the rendered records of the key's prefix, in any order, the scan gives the key's count in the whole dataset |
| RangeMatch.BackendsAgree | internal/sources/hibp/passwords.go:52-93 | the linear scan of the key's range and the indexed lookup of the imported dataset return the same count; on an empty range the scan fails and the lookup is 0 |
| MonitorLog.ParsesOnce | internal/monitor/store.go:294-310 | the complete records and the torn tail of a file are determined by its bytes |
| MonitorLog.Split | internal/monitor/store.go:294-313 | reading finds exactly the complete lines and the torn tail |
| MonitorLog.ReadFile | internal/monitor/store.go:286-319 | a file is refused when it is too long or a complete record has no identity, and otherwise repaired to its whole records |
| MonitorLog.AppendedOk | internal/monitor/store.go:347-392 | every point an append can reach has pairwise distinct identities and two files within 8 MiB |
| MonitorLog.Log.Load | internal/monitor/store.go:284-326 | after a crash that tore the tail, reopening leaves exactly the whole records and `seen` is exactly their identities |
| MonitorLog.Log.Preflight | internal/monitor/store.go:348-358 | a batch is refused before any write when it exceeds half a generation or an event has no identity |
| MonitorLog.Log.Rotate | internal/monitor/store.go:360-371 | the newer file becomes the older one and `seen` is reloaded from what remains |
| MonitorLog.Log.WriteRecord | internal/monitor/store.go:382-391 | one record is written whole, or its torn beginning is all that reached the disk |
| MonitorLog.Log.Append | internal/monitor/store.go:347-397 | wherever the process dies, the files hold the log before the call or the batch up to some event, plus a torn tail; a completed append adds exactly the events not yet kept |
| MonitorLog.TotalFits | internal/monitor/store.go:19-20 | distinct records that fit a batch need no more room than the batch |
| MonitorLog.NoSecondRotation | internal/monitor/store.go:360-371 | within the replays of one batch a second rotation cannot happen, because two half generations fit one file |
| MonitorLog.AttemptReplays | internal/monitor/store.go:347-397 | each further attempt keeps every record that earlier attempts wrote |
| MonitorLog.ReplayedOnce | internal/monitor/store.go:347-397 | over any number of cut attempts no identity is written twice, and a completed one leaves every event of the batch retained exactly once |
| MonitorSnapshot.EvidenceOrder | internal/monitor/snapshot.go:116-121 | evidence order is total |
| MonitorSnapshot.CanonicalEvidence | internal/monitor/snapshot.go:122-152 | the result holds each cleaned item once, in order; it fails exactly for too many items or a refused one |
| MonitorSnapshot.CleanStable | internal/monitor/snapshot.go:128-144 | cleaning a cleaned item again leaves it alone while its value is within the bound and refuses it beyond, when normalisation is idempotent within the bound and nothing cleaned is redacted further |
| MonitorSnapshot.CanonicalAgain | internal/monitor/snapshot.go:379-383 | canonical evidence passes the baseline parser if and only if there is not too much of it and no value outgrew its bound in being normalised |
| MonitorSnapshot.Collect | internal/monitor/snapshot.go:260-265 | the map holds, per kind, exactly the items the other side lacks |
| MonitorSnapshot.Diff | internal/monitor/snapshot.go:248-325 | the changes are exactly: one MODIFIED per kind that lost one item and gained one, otherwise one ADDED or REMOVED per item, each once and in order |
| MonitorSnapshot.DiffIsPatch | internal/monitor/snapshot.go:245-325 | applied to the old evidence set the changes give the new one, and there are none exactly when the sets are equal |
| MonitorSnapshot.KeyInjective | internal/monitor/snapshot.go:58 | a source key determines name and type, even for names containing the separator |
| MonitorSnapshot.Merge | internal/monitor/snapshot.go:329-357 | the result overrides the old source map pointwise, keeps absent sources, is strictly sorted, lists the differences in order and bumps the revision exactly when the encodings of the two source lists differ |
| MonitorSnapshot.RevisionRises | internal/monitor/snapshot.go:353-355 | that is exactly when the sources changed, or when an empty list that is not nil meets no good source |
| MonitorSnapshot.RevisionRisesForNothing | internal/monitor/snapshot.go:326-357 | a target without a baseline none of whose sources is good gets revision 1 although its sources did not change |
| MonitorSnapshot.ParseState | internal/monitor/snapshot.go:358-395 | accepted if and only if the revision is not the last, there are not too many sources or items, keys ascend, and all evidence is canonical as it stands |
| MonitorSnapshot.MergeQuiescent | internal/monitor/snapshot.go:329-357 | merging the same sources again changes nothing and yields no change |
| MonitorSnapshot.CheckIncomplete | internal/monitor/snapshot.go:153-174 | a row counts as incomplete exactly for an inconclusive status, an error, or one metadata entry that admits a partial answer, in whatever order the entries are met |
| MonitorSnapshot.Project | internal/monitor/snapshot.go:181-243 | the outcome is exactly: an error for an invalid identity or an uncleanable good source, else the good, partial and failed sources in key order with canonical evidence and sorted unique provenance |
| MonitorSnapshot.ProjectPermuted | internal/monitor/snapshot.go:181-243 | the projection does not depend on the order of the rows |
| MonitorSnapshot.GoodSources | internal/monitor/snapshot.go:219-241 | what is called good is sorted and comes from sources all of whose rows are conclusive and complete |
| MonitorSnapshot.OnlyGoodChanges | internal/monitor/engine.go:206-271 | the baseline of a source changes only if the projection called it good |
| MonitorEngine.MergedUnique | internal/monitor/engine.go:212-217 | observing the same data over the same baseline finds the same changes |
| MonitorEngine.Quiet | internal/monitor/engine.go:206-271 | once the merged baseline is saved, recording the same observation writes nothing |
| MonitorEngine.NothingGood | internal/monitor/engine.go:267-271 | a call without a good source writes nothing to log and baseline, so a revision that rose for nothing never reaches the disk |
| MonitorEngine.BoundedStable | internal/monitor/store.go:328-346 | the size bound of the identity function is compatible with changes of any size |
| MonitorEngine.ExactlyOnce | internal/monitor/engine.go:206-271 | over any number of calls cut anywhere, when one has saved its baseline every change is in the retained log exactly once, none was written twice, and later calls change nothing |
| MonitorEngine.AtMostOnce | internal/monitor/engine.go:206-271 | while every call is cut before its save the baseline is untouched and no change is written twice |
| MonitorEngine.Store.Record | internal/monitor/engine.go:206-271 | one call, dying after any number of effects, is a step of such a run: the log is appended up to some event, and the baseline replaced only after all of them and only for a good source; a batch above half a generation and a snapshot the parser would not accept are refused whole |
| MonitorEngine.Repeat | internal/monitor/engine.go:206-271 | any calls for one observation, each cut anywhere and started on what the one before left on disk, make such a run |
| BitcoinChecksum.AddGenerators | internal/models/bitcoin.go:133-137 | the generator loop adds exactly the generators selected by the bits shifted out |
| BitcoinChecksum.Polymod | internal/models/bitcoin.go:127-140 | the loops compute the shift register over the whole word |
| BitcoinChecksum.StepLinear | internal/models/bitcoin.go:130-138 | one step is linear over exclusive or |
| BitcoinChecksum.StepInjective | internal/models/bitcoin.go:130-138 | for every symbol one step is injective on 30-bit registers |
| BitcoinChecksum.RunLinear | internal/models/bitcoin.go:127-140 | over words of any length the register of a sum is the sum of the registers |
| BitcoinChecksum.BurstDetected | internal/models/bitcoin.go:127-140 | two different words of one length whose differences lie within six neighbouring symbols never have the same checksum, for any length |
| BitcoinAddress.SymbolInjective | internal/models/bitcoin.go:34 | different characters of the witness alphabet are different symbols |
| BitcoinAddress.Expand | internal/models/bitcoin.go:43-50 | the human-readable part expands to high bits, a zero and low bits |
| BitcoinAddress.Regroup | internal/models/bitcoin.go:56-68 | five-bit symbols regroup into whole bytes and a remainder, and the padding test is that the remainder's bits are zero |
| BitcoinAddress.Classify | internal/models/bitcoin.go:66-84 | after the checksum exactly three shapes are accepted |
| BitcoinAddress.WitnessAddress | internal/models/bitcoin.go:26-86 | of single-byte characters: accepted if and only if the text has one case, starts with bc1 and is one of the three version, length and checksum combinations |
| BitcoinAddress.AcceptedFarApart | internal/models/bitcoin.go:25-86 | two accepted witness addresses of equal length and checksum variant never differ only within six neighbouring characters |
| BitcoinAddress.Base58Address | internal/models/bitcoin.go:90-124 | accepted if and only if the digits give 25 bytes with a valid double-hash checksum and a known version byte |
| BitcoinAddress.RawDecides | internal/models/bitcoin.go:93-107 | a Base58 text is determined by the bytes it stands for |
| BitcoinAddress.TrimsUnique | internal/models/bitcoin.go:21 | trimming leaves one text |
| BitcoinAddress.ParseAddress | internal/models/bitcoin.go:17-125 | of single-byte characters: accepted if and only if they are at most 100 and, trimmed, accepted by the witness or the Base58Check branch; letters that fold to ASCII from beyond it, which the code accepts, are outside |
| BitcoinTx.AddOutputs | internal/sources/bitcoin/parse.go:143-155 | accepted if and only if every output is well-formed and the total is within the money supply, with exact sums per address and no overflow on the way |
| BitcoinTx.AddInputs | internal/sources/bitcoin/parse.go:115-142 | accepted if and only if the input is one coinbase or all inputs are well-formed spends within the supply, with exact sums per address |
| BitcoinTx.Edges | internal/sources/bitcoin/parse.go:172-204 | the edges are exactly: output amounts to others when the target is the sole known funder, one inbound edge when another is, otherwise co-occurrence without amounts |
| BitcoinTx.Normalize | internal/sources/bitcoin/parse.go:100-211 | accepted if and only if the transaction is acceptable for the target; then direction, absolute net value and the edges in address order are exact |
| BitcoinTx.AllPaid | internal/sources/bitcoin/parse.go:143-155 | every coin is counted at exactly one of a list of distinct covering addresses |
| BitcoinTx.Conserved | internal/sources/bitcoin/parse.go:164-204 | when the target is the only known funder its net value is the sum of the edges, the outputs without address and a nonnegative fee |
| BitcoinHistory.Aggregate | internal/sources/bitcoin/parse.go:227-265 | count, total, direction, first and last time of every counterparty are those of all its appearances |
| BitcoinHistory.PeersPermuted | internal/sources/bitcoin/parse.go:214-265 | the counterparties do not depend on the order the transactions are added up in |
| BitcoinHistory.PeerFits | internal/sources/bitcoin/parse.go:251-255 | a counterparty's total stays within 100 times the money supply, far below 64 bits |
| BitcoinHistory.Counterparties | internal/sources/bitcoin/parse.go:214-277 | over a retained history the totals are exact and bounded, and the first 256 addresses are reported |
| BitcoinHistory.CounterpartiesUnique | internal/sources/bitcoin/parse.go:214-265 | the counterparties are a function of the set of retained transactions |
| BitcoinHistory.ReadPage | internal/sources/bitcoin/source.go:132-145 | a page yields a batch if and only if every transaction is acceptable and none contradicts another or an earlier one; a refusal is for the first transaction that fails and says which of the two it is |
| BitcoinHistory.Truncate | internal/sources/bitcoin/source.go:149-166 | exactly the newest hundred are kept, ties by id |
| BitcoinHistory.History | internal/sources/bitcoin/source.go:116-178 | for any page limit the result is what the whole pages before the stop show, never part of a page, cut to the newest hundred; every earlier page was full, below the cap and ended with a new cursor, and the stop is exactly the one the first page to break that calls for |
| BitcoinHistory.Observe | internal/sources/bitcoin/source.go:62-79 | from the replies to the report: the transactions of the history and their exact counterparties; the stop is the history's unless it ended well and contradicts the transaction count, and complete if and only if it is no error |

## Left out

- SourceSearch.SearchSequential: cancellation enters as the number of context checks that pass; what a source does once cancelled is part of its script.
- SourceSearch.ParallelRefinesSequential: speaks of runs the caller does not cancel; under cancellation the order, acknowledgement, error and joining theorems hold instead. A panic may cut the rows short in either search.
- SourceBatch.StepInv: redaction, normalisation and diagnostics inside `invoke` are left out; a row is a value. Cancelling the caller's context cancels the batch's context in the same step.
- WorkerPool.OneResultPerSite: what a worker makes of a site is left out; a result is named by its site.
- RateLimit.HostLimiter.Poll: URL parsing, the early returns for a missing host or a non-positive delay, and the timer itself are left out.
- Leases.StepInv: file contents enter as complete or not, and time-outs of waiting locks as a death of the waiter.
- Activation.TornExact: tears inside the first or the last sector, slot files longer than a slot, and power loss after a failed sync are left out of the torn writes; the code reports the last as uncertain.
- CorpusOpen.Open: the locks are in `Leases`; here the generation is read at one moment.
- CorpusReader.Snapshot.Close: waiting for running lookups and closing the data file are left out.
- CorpusReader.Snapshot.Lookup: the permit channel, the context and clearing the key are left out.
- CorpusReader.FailClosed: the data file is read once per lookup; a file changed between the size check and the read is a file with those bytes.
- CorpusReader.LoadVersion: the manifest parser is a function parameter, its texts and times enter as whether they have the accepted form.
- CorpusImport.Import: free space, acquisition evidence, directory creation, permissions and syncs are left out, and storage returns what was written; the manifest's encoder and decoder are parameters that agree on valid manifests.
- CorpusImport.Importer.Flush: `group` and `current`, which the closure captures, are arguments here.
- MonitorLog.Log.Append: a write that fails without the process dying is treated as its death, since the engine stops on any storage error; the identity of a record is a function parameter.
- MonitorSnapshot.CanonicalEvidence: redaction, the encoding test and value normalisation are function parameters, idempotent where that is needed; letters beyond ASCII are not folded.
- MonitorSnapshot.Project: provenance entries enter as their encodings, and metadata keys fold as ASCII.
- MonitorSnapshot.Merge: a change does not repeat the provenance of its source.
- MonitorEngine.Store.Record: the baseline it starts from was loaded, so its revision is not the last one.
- MonitorEngine.ExactlyOnce: the observation log, the alerts, corrupt baselines and other targets' batches between two attempts are left out.
- BitcoinAddress.ParseAddress: characters are single bytes, so white space and letter case beyond ASCII are left out; the code folds the Kelvin sign to a letter and accepts it.
- BitcoinTx.Normalize: the address normaliser is a function parameter, and the form of the transaction id enters as a flag.
- BitcoinHistory.Aggregate: the encoding of counterparties and transactions as evidence texts is left out.
- BitcoinHistory.History: the provider's replies are arbitrary; requests, retries and their counter are left out.
- BitcoinHistory.Observe: the balance statistics and the encoding of the evidence are left out.
- The concurrent collection of a watch cycle and its time budgets: `cycle` only hands bounded results to `record` in order.
- Baseline files on disk: replacing one is a single step, and the bytes of a baseline enter as the value they encode; redaction of names and provenance is a function parameter of the parser.
- HTTP clients, provider sources, JSON decoding, report rendering, command line, diagnostics and secret erasure: input and output or long lists of easy cases.
