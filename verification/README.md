# Verification of the server's core

A Dafny model of the parts of the server whose correctness depends on order: who may
do what next, what survives a crash, and what a reader sees meanwhile. Each module
follows one source file or one subject of it.

**The assembly queue** (`staging_disk`, `assembly_*`, `artifacts_dir`). Clients,
workers and cleanup share one table and one directory tree. `assembly_machine` takes
one SQL statement, one file operation, one clock tick or one crash as one step, and
keeps the gaps between them: a request looks up its receipt, judges it, checks each
artifact, expires it, pins chunk by chunk and inserts in separate steps, and anything
may happen between two of them. The clock counts nanoseconds and never goes back. A
statement's own reading is some second not after the present, as it is bound before the
statement runs. A run is any sequence of steps from an empty server, so each result is
about every interleaving. `assembly_moves` states what a step may change;
`assembly_safety` and `assembly_chunks` hold the inductive invariants; `assembly_runs`,
`assembly_lease`, `assembly_schedule`, `assembly_receipts`, `assembly_answers`,
`assembly_expiry` and `assembly_causes` say what follows for whole runs: what must have
happened before an answer, an expiry, an error. `assembly_progress` and `assembly_jobs` say
what a request and a job come to when nothing interferes; `assembly_limits` has the runs
that show the two time limits cannot be loosened. `artifacts_dir` has the loops over
chunks and directories in place, and `assembly_table` the statements.

**Canonical artifacts** (`artifact_store`, `artifact_selection`, `mapping_cache`). The
selection of one artifact per identity on rows and files that it updates, with legacy
rows, lost files and a crash between publishing a file and committing its row; what any
history of uploads leaves; and why a cached mapping is never stale.

**Envelopes** (`envelope`, `envelope_*`). The cursor parser and the writers of the wire
format (Sentry's developer documentation, Envelopes, "Serialization Format"), and the state
machine that sends, claims, retries and gives up stored envelopes: one statement, one send
or one receive is a step. `envelope_retry` has the machine and what its runs exclude,
`envelope_backoff` when a failed envelope is tried again, and `envelope_limits` the
histories which show that neither can be had for less.

**Smaller cores.** The byte-capped LRU (`byte_capped_lru`, `lru_history`, `lru_budget`,
`lru_calls`), the Dart symbol rewriter (`dart_symbol_map`), native stack symbolication
(`native_symbolication`, `symbolicated_frames`), the hang frame (`hang_frame`), the rate
limiter (`rate_limiter`) and keyset paging (`keyset_paging`, `listings`).

`dafny verify dfyconfig.toml` checks all of it.

## What is assumed

- SHA-1, SHA-256, the JSON codecs of headers and cursors, the symbol file parser and
  lookup, the hexadecimal parser and LIKE are parameters: arbitrary functions. Where a
  result needs more it asks for it: equal SHA-256 digests mean equal bytes
  (`ArtifactSelection.Collisionless`), the JSON headers of the envelope in question are one
  line each, not blank, and read back (`Envelope.Faithful`), the cursors of the listed rows
  decode to what was encoded (`KeysetPaging.Faithful`).
- The two envelope writers format the event id into JSON by hand, so their envelopes are
  faithful if the id needs no escaping.
- New staging ids and lease owners are ids that were never used (UUIDs).
- A completed file operation is atomic and durable.
- An SQL statement sees one state and reads the clock no later than that. A request's lookup
  of the envelope it inserted (`src/api/ingest.rs:229-234`) finds that envelope or nothing:
  retention does not delete it in between.

## Where the code and its comments differ

- `src/ingest/abuse.rs:16` calls the limiter a sliding window. It is a window that starts
  over (`src/ingest/abuse.rs:51-54`), so a minute can hold `2 x limit - 1` allowed calls
  (`RateLimiter.TheBoundIsMet`) and never exceeds the limit exactly if that is 1
  (`RateLimiter.SlidesExactlyForOne`).
- `src/util/byte_capped_lru.rs:3-5` says the cache tracks the sum of the resident costs.
  What the count cap evicts is never subtracted (`src/util/byte_capped_lru.rs:33`,
  `src/util/byte_capped_lru.rs:60`), so the total is that sum and what was thrown out:
  `LruBudget.TrackedIsAnUpperBound`, `LruBudget.TotalCanExceed`. Once that is more than
  the budget, the cache holds one entry after every put smaller than the budget:
  `LruBudget.ThrashesForGood`. When an addition saturates, the total bounds the sum exactly
  if the sum is less than 2^64:
  `LruBudget.SaturatedTotal`, `LruBudget.TotalCanFallShort`.
- `src/worker/dart_symbol_map.rs:216` promises every occurrence of `Instance of '<sym>'`.
  One that lies in the symbol of an earlier one is passed over, and no other:
  `DartSymbolMap.RewrittenUnlessInside`. So all are rewritten exactly if a quote stands
  between any two: `DartSymbolMap.EveryOccurrenceExactly`.
- The backoff of a failed envelope (`src/worker/processor.rs:97-99`) binds what the poller
  reads, not what it sends from an earlier reading, nor a worker. It holds exactly if no
  message for the envelope is on its way when the failure is recorded, be it still to be
  sent by the request that inserted it, read by the poller and not yet sent, in the channel,
  or taken by a worker and not yet claimed: `EnvelopeBackoff.BackoffHoldsUnlessOutstanding`.
- A lost artifact need not stay lost: content paths are shared by all identities of a
  project, and by uploads that crashed before their commit
  (`src/util/artifact_store.rs:254-282`). So a slot starts over when an upload finds its
  file lost, not when it is lost: `ArtifactSelection.LostFilesStartOver`.

## Model

| member | source | states |
|---|---|---|
| AssemblyTable.ClaimFindsWork | src/worker/dif_assembly.rs:264-280 | the claim's subquery finds a row exactly when some row is pending or has a lease that has run out |
| AssemblyTable.ClaimTakesTheFirst | src/worker/dif_assembly.rs:264-280 | and the row it finds is the one queued first, in a second the one of the least id |
| AssemblyTable.ClaimIsDetermined | src/worker/dif_assembly.rs:264-280 | `ORDER BY updated_at, id LIMIT 1` never has two answers |
| AssemblyTable.EarliestExists | src/worker/dif_assembly.rs:270-272 | every non-empty set of rows has a first one in (updated_at, id) |
| AssemblyChunks.PerformKeepsContents | src/worker/dif_assembly.rs:188-227 | no file operation changes the bytes of an inode that exists |
| AssemblyChunks.PerformKeepsStaged | src/worker/dif_assembly.rs:188-227 | only a removal in the directory itself takes a staged name away; retiring an upload or re-uploading it does not |
| AssemblyMoves.StepMoves | src/worker/dif_assembly.rs:53-441 | every step of every actor, from any state, is one of the moves the invariants are proved for |
| AssemblySafety.ExecuteEvolves | src/worker/dif_assembly.rs:121-127 | each statement takes a row along queued, claimed, renewed, published, expired and never back or sideways |
| AssemblySafety.ExecuteKeepsTable | src/worker/dif_assembly.rs:162-176 | each statement keeps one row per key, and lease, state and result consistent |
| AssemblySafety.OwnIdStep | src/worker/dif_assembly.rs:142-184 | the staging directory a request still answers for belongs to no row and no job, at every step of anyone |
| AssemblySafety.IdsStep | src/worker/dif_assembly.rs:53-441 | one inductive step for all identity facts: rows, requests, jobs, directories and condemned directories |
| AssemblyRuns.RunKeepsIds | src/worker/dif_assembly.rs:53-441 | those facts hold in every state of every run |
| AssemblyRuns.OneRowPerKey | src/worker/dif_assembly.rs:162-184 | however requests, expiries and crashes interleave, two rows never share (project, checksum, debug id) |
| AssemblyRuns.RowsLiveOnce | src/worker/dif_assembly.rs:121-127 | no step of any run deletes a pending or processing row, changes its key or chunks, or revives a published one |
| AssemblyRuns.LosersRemoveTheirOwn | src/worker/dif_assembly.rs:162-184 | a request that lost the insert or misses chunks removes a directory no row or other request has, and touches nothing else |
| AssemblyChunks.ProtectedDirsAreKept | src/worker/dif_assembly.rs:403-441 | no actor is ever about to unlink anything in the directory of an active row or of an admission under way, if just that admission keeps in time |
| AssemblyChunks.OldDirsAreNotAdmitted | src/worker/dif_assembly.rs:415-431 | a directory old enough for cleanup is not being filled, if the admission that fills it takes less than the retention |
| AssemblyChunks.OwnPinStep | src/worker/dif_assembly.rs:188-227 | pinning keeps: every chunk passed so far is staged unless it is listed missing, and only a complete pin reaches the insert |
| AssemblyChunks.StagedStep | src/worker/dif_assembly.rs:188-227 | a chunk staged in a protected directory stays, on the same inode once the row is there |
| AssemblyChunks.JobStagedStep | src/worker/dif_assembly.rs:142-184 | every step leaves a pending or processing row's chunks staged |
| AssemblyChunks.PinsStep | src/worker/dif_assembly.rs:403-441 | one inductive step for all pinning facts of one directory, over requests, workers, chunk retention and staging cleanup |
| AssemblyRuns.RunKeepsPins | src/worker/dif_assembly.rs:142-227 | those facts hold in every state of a run for each directory whose own admission takes less than the retention |
| AssemblyRuns.QueuedJobsKeepTheirChunks | src/worker/dif_assembly.rs:329-331 | if its own admission took less than the retention, then between any two moments of an active row's life all its chunks are staged, with the same bytes, which hash to their names |
| AssemblyLease.PublishedOnce | src/worker/dif_assembly.rs:318-328 | over any run two publishes of a row are the same publish |
| AssemblyLease.TakeoverIsFinal | src/worker/dif_assembly.rs:341-391 | once another worker took the row, no later act of the old one changes it |
| AssemblyLease.HolderTookLast | src/worker/dif_assembly.rs:245-248 | the holder of a lease is the last one who claimed the row |
| AssemblyLease.OnlyTheHolderPublishes | src/worker/dif_assembly.rs:318-328 | whoever publishes claimed the row and nobody claimed it since |
| AssemblyLease.ConversionsAreBounded | src/worker/dif_assembly.rs:282-290 | however often workers die or stall, at most MAX_CLAIMS conversions of a row are started |
| AssemblySchedule.PromptWorkersHoldTheirLeases | src/worker/dif_assembly.rs:369-390 | a worker that has written its lease in time holds it from claim to publish, whatever other workers do |
| AssemblySchedule.OneWorkerPerJob | src/worker/dif_assembly.rs:264-280 | so no two such workers convert one row at a time |
| AssemblySchedule.WorkersCanRenew | src/worker/dif_assembly.rs:369-390 | while it converts, such a worker can always write its lease anew, for LEASE_SECONDS from now |
| AssemblySchedule.AbandonedJobsAreTakenUp | src/worker/dif_assembly.rs:264-280 | a job that nobody has renewed for LEASE_SECONDS is free, and the claim then finds a row |
| AssemblySchedule.TakenRowsSortFirst | src/worker/dif_assembly.rs:264-280 | while a row waits, only rows queued no later are claimed, and a claim moves a row behind |
| AssemblySchedule.OvertakenAtMostOnce | src/worker/dif_assembly.rs:264-280 | after its second has passed, a waiting row is overtaken at most once by each other row |
| AssemblySchedule.WaitingIsBounded | src/worker/dif_assembly.rs:264-280 | and before it is claimed at most as many claims happen as rows sorted before it: no starvation |
| AssemblyReceipts.ConversionStep | src/api/chunked_upload.rs:373-416 | a conversion only gets past the checksum with all chunks, in order, within the size limit, hashing to the checksum |
| AssemblyReceipts.SuccessMoves | src/worker/dif_assembly.rs:318-328 | a row becomes a success only by its lease holder's publish of a finished conversion |
| AssemblyReceipts.ReceiptsArePublished | src/worker/dif_assembly.rs:282-337 | every stored success was published by a lease holder from a file that hashes to the checksum |
| AssemblyReceipts.RequestsAreFollowed | src/worker/dif_assembly.rs:66-120 | whatever a request holds in mind between its steps was published before, and each artifact it passed was seen |
| AssemblyReceipts.OkAnswersAreBacked | src/worker/dif_assembly.rs:76-120 | an ok answer was published before by the lease holder for this key, under the version that answers, and every listed artifact's canonical file was found by this request |
| AssemblyAnswers.ErrorsArePublished | src/worker/dif_assembly.rs:296-328 | every stored error was published by a lease holder of a row for its key, at the row's time |
| AssemblyAnswers.RequestsAreTold | src/worker/dif_assembly.rs:66-184 | whatever answer a request has in hand between its steps is already true, by a step of its own |
| AssemblyAnswers.AnswersAreTrue | src/worker/dif_assembly.rs:76-184 | an error answer was published for the key less than ERROR_RETENTION_SECONDS before the time read; each chunk called missing was asked for and its own link failed; `assembling` means this request's lookup found an active row of the key or its insert left one |
| AssemblyAnswers.MissingChunksWereNotUploaded | src/worker/dif_assembly.rs:195-216 | if the request's admission took less than the retention, a chunk called missing was not uploaded when the request came to link it |
| AssemblyExpiry.ConsultationsAreTraced | src/worker/dif_assembly.rs:76-120 | what a request holds in mind of a receipt is what it read of it, step by step since its lookup |
| AssemblyExpiry.ExpiryHasCause | src/worker/dif_assembly.rs:88-125 | a request expires only the receipt it found, and only as an error a minute old, a success of another version, or with an artifact that has no canonical row or no file |
| AssemblyExpiry.ReceiptsAreAnswered | src/worker/dif_assembly.rs:88-119 | once all its artifacts were found, a receipt is answered with its stored response exactly if none of that was so, and expired otherwise |
| AssemblyExpiry.AdmissionsAreCleared | src/worker/dif_assembly.rs:66-127 | a file is only asked for when the request found no receipt or expired it |
| AssemblyCauses.ErrorsHaveCauses | src/worker/dif_assembly.rs:282-328 | behind every published error is a step of its own worker: claimed too often, a chunk gone, too large, another checksum, or a failed conversion |
| AssemblyCauses.SuccessesNameWhatWasStored | src/api/chunked_upload.rs:478-540 | a success names exactly the artifacts its worker stored, in whatever order |
| AssemblyCauses.RefusalsHaveCauses | src/worker/dif_assembly.rs:132-161 | a refused request names no chunks, or one that is no hash, or its pinning or insert failed |
| AssemblyCauses.RowsAreWellFormed | src/worker/dif_assembly.rs:132-140 | every row asks for at least one chunk, by names of 40 lower-case digits |
| AssemblyProgress.RequestsAreTheSame | src/worker/dif_assembly.rs:60-65 | two requests are for the same row exactly if project, checksum and the digits of the debug id agree, in whatever case |
| Hex.LowerIgnoresCase | src/worker/dif_assembly.rs:60-60 | checksums and hashes are the same exactly if they differ in case alone |
| Hex.DigitsAreKept | src/util/id.rs:19-24 | of a debug id only its digits count, one after another |
| AssemblyProgress.CurrentReceiptIsAnswered | src/worker/dif_assembly.rs:76-119 | from any state, a request for a current receipt whose artifacts are all there can answer with it by its own steps, changing nothing |
| AssemblyProgress.RequestsAreAdmitted | src/worker/dif_assembly.rs:132-186 | from any state, a well-formed request without a receipt can queue a row for its key and chunks with all of them staged, or else answer exactly which are not uploaded and leave everything as it was |
| AssemblyJobs.ConcatJoins | src/api/chunked_upload.rs:373-395 | the file is its parts one after another |
| AssemblyJobs.JobsAreConverted | src/worker/dif_assembly.rs:282-337 | from any state, a job that is first in line can be published: as a success with the artifacts it stored exactly if it was claimed less than MAX_CLAIMS times and its file fits and has the checksum, as an error otherwise; no other row changes |
| AssemblyJobs.JobsAreCleanedUp | src/worker/dif_assembly.rs:329-331 | and then its directory can be removed |
| AssemblyJobs.FilesAreAssembled | src/worker/dif_assembly.rs:49-337 | so a file whose chunks are uploaded can be asked for, converted and asked for again by anybody, who is told of its checksum and name |
| AssemblyLimits.SlowAdmissionLosesItsChunk | src/worker/dif_assembly.rs:142-184 | in any deployment an admission of exactly the retention can end with a queued job whose chunk is gone |
| AssemblyLimits.LateWorkerIsNotAlone | src/worker/dif_assembly.rs:264-280 | in any deployment a worker one second late with its lease can find a second one on its row |
| ArtifactsDir.MissingExactly | src/worker/dif_assembly.rs:190-209 | the missing list holds exactly the requested chunks that are not uploaded, each once |
| ArtifactsDir.ArtifactsDir.PinOne | src/worker/dif_assembly.rs:195-209 | one chunk of the pin loop: linked exactly if it is uploaded |
| ArtifactsDir.ArtifactsDir.LinkEach | src/worker/dif_assembly.rs:189-216 | the pin loop links every uploaded chunk and lists the others |
| ArtifactsDir.ArtifactsDir.PinChunks | src/worker/dif_assembly.rs:188-227 | either all chunks are staged and nothing else changed, or the missing ones are named and the disk is as before |
| ArtifactsDir.ArtifactsDir.RemoveStaging | src/worker/dif_assembly.rs:393-399 | removes the one directory and nothing else |
| ArtifactsDir.ArtifactsDir.Assemble | src/api/chunked_upload.rs:340-416 | succeeds exactly when all chunks are there, fit the limit and hash to the checksum, with their concatenation; otherwise says which error and why |
| ArtifactsDir.JoinedJoins | src/api/chunked_upload.rs:373-395 | the assembled file is the contents of its chunks one after another |
| ArtifactsDir.ArtifactsDir.CleanupStaging | src/worker/dif_assembly.rs:403-441 | keeps exactly the directories younger than the retention or of an active row |
| ArtifactsDir.ArtifactsDir.RemoveIfStale | src/util/chunk_store.rs:58-77 | removes a chunk exactly if it is as old as the cutoff |
| ArtifactsDir.ArtifactsDir.SweepShard | src/util/chunk_store.rs:50-77 | one shard: old chunks go, newer ones and other shards stay, counts add up |
| ArtifactsDir.ArtifactsDir.RemoveIfEmpty | src/util/chunk_store.rs:79-86 | removes the shard exactly if no chunk is left in it |
| ArtifactsDir.ArtifactsDir.CleanupStaleChunks | src/util/chunk_store.rs:34-88 | exactly the chunks newer than the cutoff stay, no staged file is touched, and the reported counts are the differences |
| ArtifactStore.NativeQuality | src/util/artifact_store.rs:43-61 | counts the functions with a line, the files with a path and the functions with a name |
| ArtifactStore.ArtifactTable.StoreArtifact | src/util/artifact_store.rs:90-313 | the code path by path, crash between publish and commit included, has the effect the lemmas below are about |
| ArtifactStore.ArtifactTable.Update | src/util/artifact_store.rs:214-234 | keeps file and quality, fills in architecture, hash and an absent release |
| ArtifactSelection.FilesAreWrittenOnce | src/util/artifact_store.rs:260-282 | no upload, crashed or not, changes or removes a file that exists |
| ArtifactSelection.StoredIsTruthful | src/util/artifact_store.rs:236-313 | every content file keeps the bytes its name is the hash of, and rows keep telling the truth about theirs |
| ArtifactSelection.CommitKeepsTheBetter | src/util/artifact_store.rs:197-212 | a committed upload leaves the better of the known artifact and the new one, names its file and returns its path |
| ArtifactSelection.CommitWritesTheRow | src/util/artifact_store.rs:214-311 | a committed upload leaves the winner's quality, digest, path, code and source, the first release ever named, and its file if it won |
| ArtifactSelection.OffersAreCounted | src/util/artifact_store.rs:43-61 | a native upload is worth its functions with a line, its files with a path and its functions with a name; other kinds are worth nothing |
| ArtifactSelection.RefusedExactly | src/util/artifact_store.rs:106-178 | an upload is refused, and changes nothing, exactly if it or an old file that has to be inspected first cannot be read |
| ArtifactSelection.OldRowsAreMeasured | src/util/artifact_store.rs:140-178 | a row without recorded quality is worth what its file is now, and one without architecture only for the architecture of its file |
| ArtifactSelection.LostRowsAreWorthNothing | src/util/artifact_store.rs:179-195 | a row whose file is lost is found and worth nothing |
| ArtifactSelection.CrashLeavesSlots | src/util/artifact_store.rs:260-311 | a crash between publish and commit changes no slot |
| ArtifactSelection.LegacyRowsHaveOneArch | src/util/artifact_store.rs:169-173 | a row without architecture that one architecture takes over was never a candidate of another |
| ArtifactSelection.OthersLeaveSlots | src/util/artifact_store.rs:125-138 | an upload to one identity changes no other identity's winner, row or file |
| ArtifactSelection.CanonicalIsBest | src/util/artifact_store.rs:84-89 | after any uploads, crashes and losses a slot that keeps its own file holds the best of what it held and what it was offered |
| ArtifactSelection.RecordedIsFound | src/util/artifact_store.rs:140-195 | what a slot's row records is what the next upload finds known exactly if its file is there |
| ArtifactSelection.BestSinceRepair | src/util/artifact_store.rs:84-89 | from one upload to the slot on, until an upload finds its file lost, the slot records the best of what it was offered since, through any uploads, crashes and losses |
| ArtifactSelection.LostFilesStartOver | src/util/artifact_store.rs:179-195 | after any history, once an upload finds the slot's file lost, the slot holds the best of what is offered from that upload on |
| ArtifactSelection.BestOfIsBest | src/util/artifact_store.rs:32-37 | that best is one of them; none has more lines, or as many and more files, or as many of both and more functions, or all the same and a smaller digest |
| TextOrder.LessIsLexicographic | src/util/artifact_store.rs:250-253 | digests, sort keys and other texts are ordered by their first difference |
| ArtifactSelection.OrderDoesNotMatter | src/util/artifact_store.rs:84-89 | the best depends on which candidates there are, not on their order or repetition |
| ArtifactSelection.UploadOrderDoesNotMatter | src/util/artifact_store.rs:84-89 | two histories that keep the slot's file and offer it the same candidates leave it the same winner |
| ArtifactSelection.RowsNameExistingFiles | src/util/artifact_store.rs:254-311 | at every point of any history of uploads, crashes and losses a written row names an existing file whose bytes hash to its name, unless just that file was lost and is not back |
| ArtifactSelection.MappingsStayFresh | src/util/artifact_store.rs:254-282 | a content path read at any two times gives the same bytes, even if lost and published again between |
| MappingCache.GetMmap | src/worker/native_symbolication.rs:603-623 | gives the cached mapping or reads the file, and caches what it read at its size |
| MappingCache.GetMmapIsThreeActs | src/worker/native_symbolication.rs:603-623 | a miss that nothing interrupts is a lookup, a mapping and a put |
| MappingCache.RunsAreFollowed | src/worker/native_symbolication.rs:603-623 | every such run is a history of the store and one of the cache, in which each put is of a mapping taken earlier |
| MappingCache.HitsAreFresh | src/worker/native_symbolication.rs:603-623 | in every run that interleaves store events, lookups, mappings and puts, a hit on a content path is what reading the file now gives |
| Envelope.Parse | src/sentry_protocol/envelope.rs:61-134 | the cursor loop computes the parse the lemmas below are about, error for error |
| Envelope.ParseSaysExactly | src/sentry_protocol/envelope.rs:61-134 | the answer is what the text says, and no other: a header line, then item lines with their payloads up to an empty line or the end; or the first place where a line is none or does not decode, or a payload is not there |
| Envelope.TakenPayload | src/sentry_protocol/envelope.rs:103-131 | a payload is as long as announced, or else ends at the next newline; at most one newline follows it |
| Envelope.StopsExactly | src/sentry_protocol/envelope.rs:82-116 | the items end exactly at an empty line or where nothing but line ends is left, and break off exactly where the text does |
| Envelope.ReadItem | src/sentry_protocol/envelope.rs:82-131 | one turn of the loop, and where the cursor is after it |
| Envelope.ReadPayload | src/sentry_protocol/envelope.rs:103-130 | the payload by length or up to the newline, the overflow, the missing bytes and the newline after |
| Envelope.LineEndIs | src/sentry_protocol/envelope.rs:66-69 | a line ends at its first newline, whatever follows |
| Envelope.FastPathAgrees | src/sentry_protocol/envelope.rs:50-55 | the event id of the fast path is the one the full parse finds |
| Envelope.ItemReadsBack | src/sentry_protocol/envelope.rs:82-131 | one written item is read back and reading goes on right behind it, whatever bytes follow |
| Envelope.HeaderReadsBack | src/sentry_protocol/envelope.rs:91-109 | a written item header is read back, and the payload is taken from right behind it |
| Envelope.ItemsReadBackOnly | src/sentry_protocol/envelope.rs:82-131 | items that read back all announce their payload or have it on one line |
| Envelope.WrittenReadsBack | src/sentry_protocol/envelope.rs:61-134 | a written envelope parses to itself, with every payload byte for byte, exactly when each payload is one line or has its length given |
| Envelope.CutItem | src/sentry_protocol/envelope.rs:82-131 | an item cut anywhere is the end, incomplete, or whole |
| Envelope.TruncationIsNoticed | src/sentry_protocol/envelope.rs:61-134 | a written envelope cut anywhere behind its header line parses to its first items or is reported incomplete: no payload is ever shortened |
| Envelope.CountParts | src/api/minidump.rs:205-210 | the budget sum is the base and the bytes of the kept parts |
| Envelope.BuildEnvelope | src/api/minidump.rs:150-228 | writes the event and the longest prefix of the parts that fits the budget, possibly none, and parsing that gives exactly those, byte for byte |
| Envelope.FitIsUnique | src/api/minidump.rs:202-219 | there is only one such prefix |
| Envelope.CountedLength | src/api/minidump.rs:197-227 | the bytes written are the bytes counted, piece by piece |
| Envelope.CrashReportReadsBack | src/api/minidump.rs:150-228 | a minidump envelope parses to its event and the kept parts |
| Envelope.ReportHoldsItsParts | src/api/minidump.rs:150-200 | the items are the event, the dump and the attachments in order, each with its own bytes, length, name and types |
| Envelope.WrapStoreBody | src/ingest/store.rs:4-14 | writes the one-event envelope of the body, which parses back for every body |
| ByteCappedLru.Cache.MakeRoom | src/util/byte_capped_lru.rs:35-41 | the eviction loop drops exactly the oldest entries that have to go |
| ByteCappedLru.Cache.Resize | src/util/byte_capped_lru.rs:32-42 | count cap first, uncredited, then the byte budget |
| ByteCappedLru.Cache.Get | src/util/byte_capped_lru.rs:44-46 | finds the key's value and makes it the newest |
| ByteCappedLru.Cache.Put | src/util/byte_capped_lru.rs:48-64 | evicts, replaces or inserts, and counts with saturation |
| ByteCappedLru.Cache.Pop | src/util/byte_capped_lru.rs:66-71 | removes the entry and its bytes |
| ByteCappedLru.ExcessIsLeast | src/util/byte_capped_lru.rs:52-59 | eviction stops as soon as the rest fits, and no sooner |
| LruBudget.StepAccounts | src/util/byte_capped_lru.rs:32-71 | a call keeps total = resident + uncredited exactly when its addition does not saturate |
| LruBudget.TrackedIsAnUpperBound | src/util/byte_capped_lru.rs:32-71 | after any history that never saturates the total is the resident bytes plus what the count cap threw out |
| LruBudget.BudgetHolds | src/util/byte_capped_lru.rs:32-64 | if the total bounded the resident bytes before, a resize, and a put smaller than the budget whose guard does not wrap around, leave at most the budget resident |
| LruBudget.BoundedThroughout | src/util/byte_capped_lru.rs:32-71 | over any history, saturating or not, the total bounds the resident bytes at all times exactly if these are less than 2^64 at all times |
| LruBudget.BudgetHoldsThroughout | src/util/byte_capped_lru.rs:32-64 | so such a call keeps to the budget after any history whose resident bytes stayed less than 2^64 |
| LruBudget.PutEmptiesExactly | src/util/byte_capped_lru.rs:52-59 | a put smaller than the budget evicts everything exactly if the newest entry does not fit beside it and what the count cap threw out |
| LruBudget.LostGrows | src/util/byte_capped_lru.rs:33 | without saturation what the count cap threw out is never credited again |
| LruBudget.ThrashesForGood | src/util/byte_capped_lru.rs:48-64 | once that exceeds the budget, each put smaller than the budget leaves only its own entry in the cache |
| LruBudget.WrappedPutEvictsNothing | src/util/byte_capped_lru.rs:52-59 | a put smaller than the budget whose guard wraps around evicts nothing by bytes |
| LruBudget.SaturatedTotal | src/util/byte_capped_lru.rs:60-63 | a call whose addition saturates leaves the greatest total, which bounds the resident bytes exactly if they are less than 2^64 |
| LruBudget.TotalCanFallShort | src/util/byte_capped_lru.rs:60-63 | some history leaves a total smaller than the resident bytes |
| LruBudget.TotalCanExceed | src/util/byte_capped_lru.rs:60-63 | some history without saturation leaves a total greater than the resident bytes |
| LruCalls.GetInWords | src/util/byte_capped_lru.rs:44-46 | a get finds the key's entry whenever there is one and makes it the newest; otherwise nothing changes |
| LruCalls.PutInWords | src/util/byte_capped_lru.rs:48-64 | a put smaller than the budget makes room by evicting as few of the oldest as needed, any other evicts none; then it replaces the key's entry, or comes on top and the count cap applies |
| LruCalls.PopInWords | src/util/byte_capped_lru.rs:66-71 | a pop removes the key's entry and its bytes and nothing else |
| LruCalls.ResizeInWords | src/util/byte_capped_lru.rs:32-42 | a resize keeps the newest that the count allows, and of those as many as fit |
| LruCalls.PutIsFound | src/util/byte_capped_lru.rs:44-64 | what was put can be got back at once |
| LruHistory.HistoryIsOrdered | src/util/byte_capped_lru.rs:44-64 | after any history the entries stand in the order of last use, no key twice |
| LruHistory.EvictedIsOldest | src/util/byte_capped_lru.rs:32-64 | what a call evicts was last used before everything that stays |
| LruHistory.ValuesAreLatest | src/util/byte_capped_lru.rs:44-64 | a resident value is what the last put of its key stored |
| LruHistory.CountHolds | src/util/byte_capped_lru.rs:24-30 | there are never more entries than the cap |
| DartSymbolMap.RewriteLoop | src/worker/dart_symbol_map.rs:219-245 | the scanning loop computes the rewriting the lemmas below are about; `None` exactly if no symbol is in the map |
| DartSymbolMap.OnlySymbolsChange | src/worker/dart_symbol_map.rs:214-245 | the text splits into pieces around quoted symbols; rewriting maps the symbols and keeps every other piece in place |
| DartSymbolMap.UnchangedIsItself | src/worker/dart_symbol_map.rs:214-218 | when nothing changes the rewriting is the text itself |
| DartSymbolMap.RewriteTwice | src/worker/dart_symbol_map.rs:214-245 | rewriting with f and then g is rewriting once with g after f, if no value of f holds a quote |
| DartSymbolMap.ComposesExactly | src/worker/dart_symbol_map.rs:214-245 | the law holds for all texts and all second maps exactly when no value f can put between quotes holds a quote |
| DartSymbolMap.NestedOccurrenceIsKept | src/worker/dart_symbol_map.rs:216-245 | one such text: the occurrence inside the symbol of another stays |
| DartSymbolMap.SymbolStandsThere | src/worker/dart_symbol_map.rs:219-245 | the symbols of the split text stand in it at their offsets |
| DartSymbolMap.SymbolsAreApart | src/worker/dart_symbol_map.rs:219-245 | no symbol starts inside another |
| DartSymbolMap.RewrittenUnlessInside | src/worker/dart_symbol_map.rs:216-245 | an occurrence that a later quote closes is rewritten exactly if it does not lie in the symbol of an earlier one |
| DartSymbolMap.EveryOccurrenceExactly | src/worker/dart_symbol_map.rs:216-245 | every occurrence that a later quote closes is rewritten exactly if a quote stands between any two of them |
| DartSymbolMap.ParseMap | src/worker/dart_symbol_map.rs:199-212 | a symbol maps to the first text of the last pair that names it; pairs with other members and an odd last entry are skipped |
| DartSymbolMap.DeobfuscateExceptions | src/worker/dart_symbol_map.rs:87-104 | every exception keeps its place; its type is mapped if it is in the map and its value rewritten |
| NativeSymbolication.CallerAdjustments | src/worker/native_symbolication.rs:329-381 | frame by frame: whether and how the address is adjusted, and which frames count as crashing |
| NativeSymbolication.HeuristicIsAllOrNothing | src/worker/native_symbolication.rs:329-381 | one addressed frame is left to the heuristic exactly when no mode and no addressed frame says anything, so all are or none is |
| NativeSymbolication.Innermost | src/worker/native_symbolication.rs:337 | the last frame with an address |
| NativeSymbolication.First | src/worker/native_symbolication.rs:580-586 | the first image that fits, none only if none does |
| NativeSymbolication.LocatedAddress | src/worker/native_symbolication.rs:446-474 | a located offset leads back to the address, inside the image, or is the relative address itself |
| NativeSymbolication.PushResolved | src/worker/native_symbolication.rs:545-578 | appends one frame per inlining level, outermost first |
| NativeSymbolication.Stacktrace.Symbolicate | src/worker/native_symbolication.rs:294-327 | the loop replaces the frames by their blocks and counts addressed and resolved frames |
| NativeSymbolication.EachFrameIsReplacedInPlace | src/worker/native_symbolication.rs:294-327 | every frame's block is not empty and stands in its place; unresolved frames are unchanged; resolved ones show their levels outermost first at the same address |
| NativeSymbolication.LengthIsFramesAndLevels | src/worker/native_symbolication.rs:545-578 | the new length is the old one and the extra inlining levels |
| NativeSymbolication.ResolvedHaveAddresses | src/worker/native_symbolication.rs:307-325 | no more frames are resolved than have an address |
| SymbolicatedFrames.CallsAreAsTold | src/worker/native_symbolication.rs:329-381 | how a frame's address is looked up follows from the mode, the frame and its place alone |
| SymbolicatedFrames.LocatedExactly | src/worker/native_symbolication.rs:446-474 | the address is looked up as it is in the image the mode names by debug id or else by number, or from the load address of the first image that holds it |
| SymbolicatedFrames.FramesShowWhatIsFound | src/worker/native_symbolication.rs:294-327 | every frame's block shows exactly the levels that lookup gives, outermost first, in-app unless in a system library, and is the frame itself exactly if it gives none |
| SymbolicatedFrames.ResolvedAreCounted | src/worker/native_symbolication.rs:294-327 | the resolved frames counted are those whose lookup gives something |
| HangFrames.FindHangFrame | src/worker/fingerprint.rs:56-85 | the innermost named non-wait frame other than the entry point, else the innermost non-wait image |
| HangFrames.ChoiceIsUnique | src/worker/fingerprint.rs:52-55 | that description picks one answer |
| HangFrames.ImageName | src/worker/fingerprint.rs:35-37 | the part after the last slash |
| HangFrames.ChoiceInWords | src/worker/fingerprint.rs:8-85 | in terms of paths and names: five images and three kinds of functions only wait, redacted names say nothing, the app's first frame is not to blame, and of the rest the innermost is |
| HangFrames.EntryPoint | src/worker/fingerprint.rs:57-59 | the outermost in-app frame |
| HangFrames.OneWaitFrame | src/worker/fingerprint.rs:60-83 | a wait frame that is not in-app, put anywhere, changes nothing |
| HangFrames.WaitFramesDoNotMatter | src/worker/fingerprint.rs:56-85 | nor do any number of them at any positions |
| HangFrames.ReportHang | src/worker/fingerprint.rs:95-140 | fingerprint, title and culprit are made of the type, the image and the name of the choice |
| HangFrames.WaitFramesDoNotSplitIssues | src/worker/fingerprint.rs:108-140 | so hangs that differ only in such frames are reported alike |
| RateLimiter.Limiter.Check | src/ingest/abuse.rs:41-71 | one call advances its own key's window; a new key in a full table makes the key used longest ago be forgotten |
| RateLimiter.TableIsInCallOrder | src/ingest/abuse.rs:41-71 | the tracked keys stand in the order of their last calls |
| RateLimiter.ForgottenIsOldest | src/ingest/abuse.rs:41-71 | a key is forgotten only for a new one in a full table, and only the one called least recently |
| RateLimiter.CountsNext | src/ingest/abuse.rs:50-58 | one call keeps: the window counts the calls allowed since it started, and the stretch before it is sparse |
| RateLimiter.FewerThanTwiceTheLimit | src/ingest/abuse.rs:41-71 | a half-open minute holds at most 2 x limit - 1 allowed calls, a window at most the limit, exactly as many as it counts |
| RateLimiter.TheBoundIsMet | src/ingest/abuse.rs:41-71 | for every limit some calls reach 2 x limit - 1 |
| RateLimiter.SlidesExactlyForOne | src/ingest/abuse.rs:41-71 | a minute never exceeds the limit, as under a sliding window, exactly for limit 1 |
| RateLimiter.KeysAreIndependent | src/ingest/abuse.rs:41-71 | calls of other keys make no difference to a key that stays tracked |
| RateLimiter.RateIsLimited | src/ingest/abuse.rs:41-71 | so over any history of all keys a tracked key stays under twice its limit in any minute |
| KeysetPaging.PrecedesOrders | src/api/events.rs:78-86 | the keyset condition is a strict total order on (key, id) |
| KeysetPaging.RankedIsTheOrder | src/api/events.rs:79-101 | a query gives every row once, in order |
| KeysetPaging.RestAfter | src/api/events.rs:78-86 | the rows after the last row of a page are exactly the rest |
| KeysetPaging.PageIsAPrefix | src/api/events.rs:104-113 | a page is full and has a cursor to its last row, or is the end and has none |
| KeysetPaging.BadCursorsAreRefused | src/api/issues.rs:148-163 | a page is refused exactly if its cursor does not decode |
| KeysetPaging.WalkIsTheOrder | src/api/events.rs:71-118 | the walk from any cursor ends and gives exactly the rows after it |
| KeysetPaging.EveryRowOnce | src/api/events.rs:71-118 | from the first page on: every matching row once, nothing else, in descending order, for all limits and ties |
| Listings.EveryEventOnce | src/api/events.rs:71-118 | so for the events of an issue |
| Listings.EveryIssueOnce | src/api/issues.rs:85-226 | and for a project's issues under every filter and each sort column |
| EnvelopeRetry.EnvelopeTable.Claim | src/worker/processor.rs:32-65 | claims exactly a pending, failed or stuck row, and changes only that row |
| EnvelopeRetry.EnvelopeTable.MarkFailed | src/worker/processor.rs:84-106 | counts the failure and sets the next attempt, or gives the row up, whatever its state |
| EnvelopeRetry.EnvelopeTable.ProcessEnvelope | src/worker/processor.rs:32-82 | undisturbed, a message leaves its row untouched or done, failed with its delay, or dead with the fifth failure |
| EnvelopeRetry.EnvelopeTable.PollEnvelopes | src/worker/mod.rs:190-205 | sends the offered rows in the query's order as far as the channel has room, and nothing else |
| EnvelopeRetry.AttemptsAreFailures | src/worker/processor.rs:84-106 | attempts are exactly the failures recorded among the steps since the row was inserted, however runs overlap |
| EnvelopeRetry.FinalRowsAreLeftAlone | src/worker/processor.rs:44-53 | done and dead envelopes are never claimed or offered |
| EnvelopeRetry.RunOkStep | src/worker/processor.rs:32-53 | no live run's envelope can be claimed from under it, if the runs of that envelope keep to the stale limit |
| EnvelopeRetry.OneRunPerEnvelope | src/worker/processor.rs:32-82 | then no two runs work on one envelope |
| EnvelopeRetry.FifthFailureIsDeath | src/worker/processor.rs:84-106 | then an envelope is dead exactly after five failures, and never has more |
| EnvelopeRetry.FinalRowsStay | src/worker/processor.rs:32-106 | then nothing but retention changes a done or dead row |
| EnvelopeLimits.SlowRunReopensADoneEnvelope | src/worker/processor.rs:32-82 | a run one second over the limit can overlap with another one and fail a done envelope |
| EnvelopeLimits.SlowRunFailsADeadEnvelope | src/worker/processor.rs:84-106 | and it can fail a dead envelope a sixth time |
| EnvelopeRetry.DelaysDouble | src/worker/processor.rs:97-99 | the delays are 5, 10, 20 and 40 seconds; neither cap is reached |
| EnvelopeBackoff.FailedEnvelopesAreOfferedLate | src/worker/mod.rs:190-205 | the poller reads a failed envelope only that long after its last failure |
| EnvelopeBackoff.ReadsAreDue | src/worker/mod.rs:190-201 | the poller reads only pending and failed envelopes whose time has come and runs older than a minute, and all of them if they are fewer than 50 |
| EnvelopeBackoff.StrandedEnvelopesAreRead | src/worker/mod.rs:190-201 | an envelope neither done nor dead that nothing has touched for a minute is in the next read that is not full |
| EnvelopeBackoff.EarlyOffersWereRead | src/worker/mod.rs:190-205 | and sends one before its time only if it had read the row before the failure was recorded |
| EnvelopeBackoff.OutstandingStep | src/worker/mod.rs:53-74 | while an envelope backs off, no step of anyone adds a message for it, anywhere on its way |
| EnvelopeBackoff.EarlyClaimsWereOutstanding | src/worker/mod.rs:53-74 | a worker claims a failed envelope before its time only if a message for it was on its way when the failure was recorded: unsent, read, in the channel or in hand |
| EnvelopeBackoff.BackoffHoldsUnlessOutstanding | src/worker/processor.rs:97-99 | the backoff of a failure can be skipped exactly if a message for the envelope is on its way when the failure is recorded |
| EnvelopeLimits.QueuedOfferSkipsTheBackoff | src/worker/mod.rs:53-74 | one such history with a second message in the channel and no late run |
| EnvelopeLimits.ReadOfferSkipsTheBackoff | src/worker/mod.rs:190-205 | one where the channel and all hands are empty at the failure, and only the poller has read the row |

## Left out

- Deleting a project, which deletes its rows by cascade while jobs run.
- I/O errors other than a missing file: in the queue's state machine a request may fail at any pin or insert and a worker at any write; the loops in `artifacts_dir` have no other error path.
- `create_dir_all` of a chunk's staging directory and shard is one step.
- `remove_dir_all` of a staging directory is one step per file and one for the emptied root; its shard directories go with the root.
- Flushing to disk (`sync_all`) and the temporary files that renames start from.
- The conversion of an assembled file (`process_assembled`, Dart maps, CFI): `StoreArtifact` and `EndConversion` stand for whatever artifacts and result it comes to.
- Upload of chunks beyond the write of a verified chunk under its hash and the touch of a known one.
- The program-counter heuristics (`caller_lookup_addr`, `in_open_tail`) and demangling: part of the `lookup` parameter of `NativeSymbolication.Tools`.
- `NativeQuality` sees a parsed symbol file with each function's own locations; parsing and address lookup are not part of this model.
- LruBudget.BudgetHolds: says nothing of a put whose tracked total and bytes reach 2^64 together; `LruBudget.WrappedPutEvictsNothing` says what such a put does.
- `Put` of the LRU in a debug build, where the addition of `src/util/byte_capped_lru.rs:53` panics instead of wrapping around; the wrap of a release build is modelled.
- `invalidate_map_path` and the Dart map cache, whose keys are paths that can be overwritten.
- SQL text building in `list_issues`: the filters are modelled as the condition the text expresses. The count column is compared as a number, as SQLite's column affinity makes it.
- Transactions, alerts, snoozing, percentiles, normalizing and indexing of events; HTTP, authentication, configuration, the frontend.
- JavaScript source maps and their cache, whose files are overwritten in place.
