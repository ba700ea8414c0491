# HugRS, modelled and verified

HugRS is a caching proxy for model files. A file is cut into fixed-size chunks, each stored under its SHA-256;
a SQLite store counts how many file slots refer to each chunk; a collector and an evictor reclaim chunks nobody
refers to; and one actor per file downloads each chunk once and hands byte slices to any number of range
subscribers. This project models those parts in Dafny and proves what they keep, in every run.

`dafny verify dfyconfig.toml` checks everything.

## How it is laid out

- **Metadata.** `Schema` has the three tables as one value and each transaction as a function of it. `Metadata`
  is the store as a class whose methods follow the SQL statement by statement and are proved to commit exactly
  those functions. `RefCounts` runs transactions from an empty store; `Linking`, `GroupedDelete`, `Reconciliation` and
  `Dedup` prove what linking, deletes, repair and deduplication amount to.
- **Reclaiming.** `GcSpec` and `Eviction` say what batches and eviction orders are, `EvictionLog` what an eviction
  did act by act; `Service` has the loops.
- **Chunks and storage.** `ChunkMath`, `Chunker` and `Completeness` are the chunk arithmetic, `Ranges` what a
  client's range stands for; `LocalStorage` is the two-path blob store; `Fetch` is the download with its retries
  and the self-healing read.
- **Sessions.** `Schedule` chooses the next chunk, `InOrder` says when that order is in order, `Delivery` and
  `Positions` what a subscriber then has; `ActorState`, `Actor` and `FileSession` are the actor, and
  `SessionGuarantees` states what a whole run means. `ChunkFlight` and `MetadataFlight` are the two single-flight protocols as atomic steps.
- **Serving.** `Pipeline` and `CachedStream` stream a complete file from the cache. `Serving` interleaves
  sessions, events, transactions, collection and damaged blobs; `EndToEnd` reads its results in terms of files,
  `Reading` follows one reader to its end, `Arrival` a download to its file being complete, and `BlobSafety` says
  when collection can take a blob that is needed.
- `Wrappers`, `Bytes`, `Seqs`, `Sums` and `Oldest` are helpers.

Main results, in the system's terms:

- Every reachable store has exact counts, no dangling link and no marked live chunk; the floor at zero in the
  replace statement never acts; and a zero count without a mark comes only from a displaced chunk
  (`RefCounts.RunsKeepCounts`).
- A subscriber that joins before any of its chunks is complete, among spans that are disjoint or start together,
  has been sent a prefix of its range at every moment and all of it at the end (`SessionGuarantees.InOrderRun`,
  and `RunDeliversInOrder` for what the actor's `Run` returns). Whatever the joins, a subscriber open at the end
  has been sent every position of its range exactly once, except the positions in chunks completed before it
  joined, which it never gets (`SessionGuarantees.BytesAccountedFor`, `RunAccountsForBytes`).
- In every interleaving a chunk handed out is the upstream bytes or an error, and a collection's row delete
  removes exactly the listed rows nobody links (`Serving.ServedIsTruth`, `Serving.SweepTakesOnlyUnlinked`). If
  stores and collections keep apart, every linked chunk also keeps its blob (`BlobSafety.LinkedKeepBlobs`).
- A reader is done after at most eight actions, and fails exactly when upstream gave nothing or the backend refused
  (`Reading.ReadersEnd`). A chunk stored while its file is there is linked or its event queued, and a file is complete
  exactly when every chunk's event was processed (`Arrival.PublishedIsLinkedOrQueued`,
  `Arrival.CompleteExactlyWhenProcessed`).
- Overlapped streaming equals one read after another for every prefetch depth (`Pipeline.StreamChunks`),
  and a complete file is streamed up to the first chunk whose blob is missing or found out
  (`CachedStream.StreamCachedFile`).
- Collection equals its preview, and eviction terminates, fits the limit and takes a prefix of the
  least-recently-accessed order, collecting before and after each step (`Service.CacheService.RunGc`,
  `Service.CacheService.EvictIfNeeded`, `EvictionLog.EvictionCollects`).

## Where the code and a natural reading differ

The model follows the code. In each of these places the exact condition is proved.

- *Late subscribers.* A completed chunk is never selected again (src/session.rs:734), so a subscriber that asks
  afterwards does not get it: it is served in full exactly when it joined before any of its chunks completed
  (`ServedInFullExactlyWhenEarly`; `LateSubscriberGetsNothing` is a run of two rounds where it gets nothing).
- *Order.* CHANGELOG.md:18 announces in-order delivery. Every first chunk has urgency zero, so first chunks are
  all taken first, in joining order. With a fixed audience a subscriber is served in order exactly when the first
  chunks alone are in order within its span (`FixedAudienceInOrder`; `OverlapBreaksOrder` is a run out of order
  for one subscriber and in order for the other).
- *Zero count and mark.* docs/superpowers/plans/2026-06-28-cli-admin-implementation.md:83 wants the two to
  coincide. A transaction breaks that exactly when it replaces the last link of a chunk by another chunk
  (`RuleBreaksExactlyAtLastLink`, `DisplacedChunkIsUnmarked`); reconciliation restores it.
- *Grouped delete.* On counts that are wrong to begin with, one grouped update and one-by-one unlinking can
  leave different marks; they agree exactly when counts cover losses (`GroupedDeleteIsUnlinking`).
- *Metadata probes.* A leader that leaves by `?` (src/server.rs:223-225) keeps its key in the map for good:
  nobody behind it is ever answered and the key is never probed again (`EarlyErrorHoldsKey`;
  `WaiterLeftBehind` is such a run).
- *Chunk receivers.* A receiver registered after the send sees only closure, even when it is the creator's own
  (`SharedDownload`, `CreatorCanMissTheSend`).
- *Local store.* A blob deleted without compression is seen again with compression exactly when a compressed
  copy survived (`ReappearsExactlyWhenCompressedCopySurvives`).
- *Healing.* A download does not overwrite a blob that exists, so damage under a name the session did not
  remember stays (`Fetch.ChunkReader.Subscribe` says exactly when the blob is good afterwards).
- *Collection under a download.* Blobs go before rows are rechecked (src/service.rs:292-302), and a download skips
  writing a blob that is there (src/session.rs:361). So the row of a chunk can be linked and its blob gone with
  nothing damaged from outside (`CollectionCanTakeALinkedBlob`). A step takes a needed blob exactly when it is the
  collection of one whose chunk is linked, or stored and not yet linked (`StepStocks`).

## Assumptions

Upstream serves one fixed byte sequence per file id: a 200 carries the whole file, a partial response of the
asked length is the asked range, and anything else may happen. SHA-256 is a function without collisions, zstd an
encode/decode pair that is lossless. SQLite transactions are atomic, a failed one changes nothing, ids are never
reused and foreign keys are enforced. Every statement's clock reading is a parameter. The chunk size is any
positive number. Urgency is any function of distance and range length that is monotone in distance, does not grow
with the length and is zero exactly at distance zero; exact division is one (`ExactIsAdmissible`).

## Model

| member | source | states |
|---|---|---|
| Metadata.MetadataStore.AddFile | src/metadata.rs:113-140 | a new file gets the next id ever, or a taken (name, source) is refused and nothing changes |
| Eviction.TouchedAccess | src/metadata.rs:185-192 | a touch makes the given time the repository's earliest access and leaves every other repository's alone |
| Eviction.TouchedIsEvictedLast | src/metadata.rs:185-192 | a repository touched after every other access is evicted only once all others are gone |
| Metadata.MetadataStore.DeleteFile | src/metadata.rs:194-213 | deletes the file of that name and source if there is one, else changes nothing |
| Metadata.MetadataStore.DeleteFileByIdTx | src/metadata.rs:215-264 | per-hash grouped deltas in one update commit the file's whole unlinking |
| Metadata.MetadataStore.DeleteFilesByRepo | src/metadata.rs:266-281 | deletes every file of the repository, each once, and reports how many |
| Metadata.MetadataStore.EnsureChunk | src/metadata.rs:389-403 | a missing chunk appears marked with count zero; an existing one keeps its row |
| Metadata.MetadataStore.LinkFileChunk | src/metadata.rs:424-443 | a free slot is linked and counted; a taken slot is left alone even when keys would fail |
| Metadata.MetadataStore.EnsureChunkAndLink | src/metadata.rs:446-491 | statement by statement equal to the stored-event transaction, rolled back when the file is gone |
| Linking.StoredEventLinks | src/metadata.rs:479-488 | on any tables: with its file there the event commits and its slot is linked to its hash, other slots unchanged; a slot that has the hash already keeps its recorded size |
| Linking.StoredEventCounts | src/metadata.rs:459-490 | on any tables: every count moves by the change in its links, floored at zero; a gain takes the mark off; a new row carries the event's two sizes; nothing else changes |
| Linking.AttachedCounts | src/metadata.rs:424-443 | on any tables: refused for a missing key, nothing on a taken slot, else one link and one count more and the mark off |
| Linking.DeletedFileCounts | src/metadata.rs:215-264 | on any tables: the file's row and links go, counts fall by the links lost, exactly the chunks it leaves at zero are marked, at its time |
| Linking.LinkedExactlyWhenStored | src/metadata.rs:424-491 | over any run a slot of a file still there is linked exactly when a step linked it while the file was there |
| Linking.RowsRecordEvents | src/metadata.rs:389-403 | over any run a chunk row holds the two sizes announced when it was inserted |
| Linking.RunTakesSteps | src/metadata.rs:113-702 | every step of a run has its effect: the file added or gone, the slot linked, the listed zero-count rows and no others deleted, the counts repaired |
| Metadata.MetadataStore.ReconcileChunkRefs | src/metadata.rs:283-370 | dry run and apply run report the same five numbers; a dry run changes nothing |
| Metadata.MetadataStore.ListReposByAccess | src/metadata.rs:372-387 | the repositories of the oldest accesses, oldest first, up to the limit |
| Metadata.MetadataStore.ListOrphanChunksBatch | src/metadata.rs:613-638 | the oldest marked zero-count chunks, oldest first, up to the limit |
| Metadata.MetadataStore.ListOrphanChunksStats | src/metadata.rs:640-653 | number and footprint of the marked zero-count chunks |
| Metadata.MetadataStore.DeleteChunksBatch | src/metadata.rs:664-702 | removes exactly the candidates still at zero and lists each once |
| Metadata.MetadataStore.GetFileDownloadedSize | src/metadata.rs:531-539 | the sum of the file's linked sizes |
| Metadata.MetadataStore.GetFileChunks | src/metadata.rs:511-529 | the file's links in index order, each once |
| Metadata.MetadataStore.OriginalBytes | src/metadata.rs:713-717 | the sum of recorded file sizes |
| RefCounts.RunsKeepCounts | src/metadata.rs:215-491 | after any transactions from an empty store: counts are link counts, no link dangles, live chunks carry no mark, the floor at zero never acts, unmarked zero counts are displaced ones |
| RefCounts.PushedOutIsCounted | src/metadata.rs:471-478 | the displaced chunk still counts the replaced link, so flooring at zero changes nothing |
| RefCounts.StoreAndLinkKeeps | src/metadata.rs:446-491 | a stored event, even for a deleted file, keeps the store consistent |
| RefCounts.DeleteFileKeeps | src/metadata.rs:215-264 | deleting a file keeps the store consistent, also when it repeats a chunk |
| RefCounts.DeleteChunksKeeps | src/metadata.rs:664-702 | the recheck of zero means no foreign key fails and no linked row goes |
| RefCounts.RuleBreaksExactlyAtLastLink | src/metadata.rs:471-488 | a transaction leaves a zero count unmarked exactly when it replaces a chunk's last link |
| RefCounts.DisplacedChunkIsUnmarked | src/metadata.rs:471-478 | a three-step run that reaches a zero count without a mark |
| RefCounts.RepoDeleteIsUnlinking | src/metadata.rs:266-281 | a repository delete is the one-by-one unlinking of its files' links in any order |
| GroupedDelete.GroupedDeleteIsUnlinking | src/metadata.rs:215-264 | the grouped delete agrees with unlinking one by one exactly when counts cover losses, on any tables |
| Metadata.DeltasApplied | src/metadata.rs:229-257 | updating per group touches exactly the chunks that lose links |
| Reconciliation.ReconcileRepairs | src/metadata.rs:283-370 | from any counts and marks: repaired, sizes kept, correctly orphaned chunks keep their age and others get the time of their turn, a second pass reports zero |
| Reconciliation.ReportCountsChanges | src/metadata.rs:319-339 | the report counts exactly the rows an apply run changes |
| Reconciliation.ReportIsWhatChanges | src/metadata.rs:319-361 | the five numbers are the rows, those whose count changes, those fixed, those that get a mark, those that lose one |
| Reconciliation.ReconcileMakesConsistent | src/metadata.rs:345-361 | reconciled tables are consistent and zero count means marked again |
| Dedup.LinkedBytesConserved | src/metadata.rs:446-539 | bytes downloaded per file sum to count times size per chunk, so live chunks never exceed linked bytes |
| Oldest.TakeOldest | src/metadata.rs:618-620 | the least values first, ties in any order, cut at the limit |
| Service.CacheService.GcDryRun | src/service.rs:266-272 | previews the number and footprint of what collection would take |
| Service.CacheService.DeleteBlobs | src/service.rs:292-300 | removes the listed blobs and remembers footprints, stopping exactly at the first refusal |
| Service.Reclaimed | src/service.rs:309-314 | counts deleted hashes and sums the footprints remembered for them |
| GcSpec.ReclaimedIsStored | src/service.rs:301-314 | what a preview or batch counts for a chunk is the stored size announced when its row was inserted |
| Service.CacheService.GcExecuteBatch | src/service.rs:281-318 | one batch removes rows and blobs of the oldest marked orphans, reports them exactly, succeeds when the backend does, and cut short leaves the rows and has removed blobs up to the refused one |
| Service.CacheService.RunGc | src/hugrsctl_cli.rs:117-139 | batches until none is left: the preview's numbers, max(1, ceil(n/b)) batches of at most b, oldest first, rows and blobs; no marked orphan stays |
| GcSpec.SweepAdvance | src/hugrsctl_cli.rs:119-136 | one more batch keeps the loop's totals, order and batch count right |
| Service.CacheService.EvictIfNeeded | src/service.rs:320-348 | terminates, ends within the limit, evicts least recent first and only while over the limit, and its acts are exactly those of the loop: a batch at the top of each turn, again after each eviction |
| EvictionLog.EvictionCollects | src/service.rs:320-348 | such acts begin with the oldest marked orphans, evict only with none left and over the limit, collect after each eviction, and what is gone from rows and blobs is what was collected |
| Eviction.BytesFollowFiles | src/metadata.rs:713-717 | what is compared with the limit grows by the size of a file added and falls by that of a file deleted |
| Service.CacheService.Collect | src/service.rs:322-322 | removes rows and blobs of the oldest marked orphans, min(32, n) of them, or leaves the rows and has removed blobs up to a refused one |
| Service.CacheService.EvictRepoFiles | src/service.rs:341-342 | exactly the victim's files go and consistency stays |
| Eviction.EvictedArePrefix | src/service.rs:336-342 | no evicted repository was accessed after one that outlived it |
| ChunkMath.PieceIsSlice | src/session.rs:579-580 | a session's start and end cut out exactly chunk i |
| Chunker.AssembleChunks | src/chunker.rs:21-28 | the loop concatenates the chunks |
| Chunker.AssembleInvertsChunking | src/chunker.rs:17-28 | assembling what was cut gives the data back |
| Chunker.ChunksAreSlices | src/chunker.rs:17-19 | as many chunks as sessions count, and chunk i is the slice sessions download |
| Chunker.HashedChunksRoundTrip | src/chunker.rs:30-44 | hashed chunks carry position, length and hash of their slice and assemble to the data |
| Completeness.CompleteIffAllLinked | src/service.rs:173-188 | with fitting links the byte count reaches the size exactly when every chunk is linked |
| LocalStorage.LocalBackend.Put | src/storage/local.rs:32-47 | writes one of the two paths by mode and threshold, returns the length of what is now there, and changes no other key |
| LocalStorage.LocalBackend.Get | src/storage/local.rs:49-59 | prefers the compressed path when compressing, else the plain one |
| LocalStorage.LocalBackend.Exists | src/storage/local.rs:61-73 | whether either path the mode sees is there |
| LocalStorage.LocalBackend.Delete | src/storage/local.rs:75-87 | removes the plain path, and the compressed one only when compressing |
| LocalStorage.StoreRoundTrip | src/storage/local.rs:32-87 | over disks left by either mode: exists iff get succeeds, get returns only matching content, put reads back, delete falsifies both |
| LocalStorage.RunsLeaveBlobs | src/storage/local.rs:32-87 | after any run in any modes a file is on either path exactly when a put chose that path and no later delete saw it |
| LocalStorage.ReappearsExactlyWhenCompressedCopySurvives | src/storage/local.rs:75-87 | when a deleted blob is visible after reopening in another mode |
| Fetch.Download | src/session.rs:236-325 | the range exactly when some allowed attempt is usable after retryable ones; so whenever the k-th answer is the exact range or the whole file after only transport, server or body errors and wrong lengths; at most max(1, retries) requests; total backoff 250*k*(k-1) ms for k requests |
| Fetch.ChunkReader.ReadCachedChunk | src/session.rs:178-221 | verified bytes match hash and length; anything else is deleted and reported missing |
| Fetch.ChunkReader.FetchChunk | src/session.rs:327-388 | succeeds exactly when a download is answered, matches what is remembered and can be stored; writes unless a blob has that name, remembers the hash, announces one event; errors change nothing |
| Fetch.ChunkReader.ReadOrFetch | src/session.rs:112-164 | the remembered blob if it passes, else a download; exactly when it succeeds and what is remembered after |
| Fetch.ChunkReader.Subscribe | src/session.rs:98-174 | verified, the chunk as upstream has it or an error, never a checksum error; and exactly when the blob is good afterwards |
| ChunkFlight.SharedDownload | src/session.rs:139-173 | one unfinished download per chunk; early receivers get its one result, late ones only closure |
| ChunkFlight.ReceiversSeeTheDownload | src/session.rs:155-172 | what a receiver there before the send gets is what that download came back with |
| ChunkFlight.SubscriberJoins | src/session.rs:139-173 | a subscriber joins the download of its chunk if there is one, else starts one, and gets a receiver on it |
| ChunkFlight.SendReaches | src/session.rs:157-165 | a send reaches every receiver the session has by then |
| ChunkFlight.RemoveFrees | src/session.rs:166-166 | removal frees the chunk for a new download; receivers from after the send see closure |
| ChunkFlight.CreatorCanMissTheSend | src/session.rs:139-173 | a run where the creator itself registers after the send |
| MetadataFlight.SharedProbe | src/server.rs:204-249 | one probe per key; a returned leader answered each waiter once with its outcome; unanswered after leaving exactly on an early exit |
| MetadataFlight.ProbedIsAnswered | src/server.rs:222-247 | a returned leader returns exactly what its own probe came back with, and everyone behind it has been answered that and nothing else |
| MetadataFlight.LeaderFinishes | src/server.rs:236-249 | from any reachable state a leader whose probe came back can finish: key free, everyone queued answered its outcome |
| MetadataFlight.ArrivalJoinsCurrentLeader | src/server.rs:204-214 | an arrival queues behind the leader not yet at removal, else leads |
| MetadataFlight.EarlyErrorHoldsKey | src/server.rs:222-228 | after an early exit the key stays held and nobody behind it is answered, ever |
| MetadataFlight.KeyHeldExactlyAfterEarlyError | src/server.rs:236-239 | a leader done with its key leaves it held exactly when it left early |
| MetadataFlight.WaiterLeftBehind | src/server.rs:204-225 | a run of three steps that leaves a waiter behind a leader gone early, unanswered |
| Schedule.SelectNextChunk | src/session.rs:724-755 | the least urgency over all live subscribers, ties to the first scanned; none exactly when none is wanted |
| Schedule.SelectedIsLeastFraction | src/session.rs:724-751 | with exact division: distance over asked length, cross-multiplied, is least for the chosen chunk over all chunks asked for and missing, strictly so against those scanned before |
| Schedule.SelectedIsNext | src/session.rs:733-751 | the chosen chunk is the first its subscriber still lacks, whatever the rounding |
| Schedule.ZeroOnlyAtFirst | src/session.rs:737-742 | distance is zero exactly at a range's first chunk |
| Schedule.ExactIsAdmissible | src/session.rs:735-743 | division over the reals, unlike the floats of the cited lines, is monotone in distance, does not grow with the length, and is zero exactly at distance zero |
| InOrder.CompatibleSpansInOrder | src/session.rs:724-755 | spans disjoint from or starting with all others complete in order, whenever subscribers come and go |
| InOrder.InOrderExactlyWhenFirstsAre | src/session.rs:724-755 | each subscriber of a fixed audience is served in order exactly when all first chunks, in joining order, are in order within its span |
| InOrder.OverlapBreaksOrder | src/session.rs:728-751 | a whole-file reader and one starting at chunk 2: the schedule's run 0, 2, 1 is out of order for the first and in order for the second, whatever the urgency |
| Delivery.InOrderDelivery | src/session.rs:763-782 | in-order completion sends a prefix of the range, all of it exactly when the span is complete |
| Ranges.ResolveIsIntersection | src/session.rs:416-430 | a request is accepted exactly when it asks for a byte of the file, and stands for exactly those bytes |
| Actor.AcceptedJoin | src/session.rs:534-542 | exactly the requests for bytes the file has join, in order, with the range they asked for and nothing sent |
| Actor.ForwardChunk | src/session.rs:763-782 | every live channel gets exactly the bytes its range shares with the chunk, or nothing |
| Actor.ForwardError | src/session.rs:784-789 | every live channel gets one error, others nothing |
| Actor.FindNext | src/session.rs:709-716 | the first chunk of a span neither complete nor in flight |
| Actor.ComputeActiveCursors | src/session.rs:704-722 | exactly the next missing chunks, sorted, without duplicates |
| Actor.BudgetShares | src/session.rs:35-41 | the base, half or a quarter of it by number of cursors, never nothing from two on |
| Actor.SchedulePrefetches | src/session.rs:654-702 | adds exactly the chunks after some cursor that are in range, not complete or in flight, and not cached when that cursor's turn looks; at most max(budget, cursors) |
| ActorState.JoinSound | src/session.rs:534-542 | a joining subscriber keeps every fact about the session |
| ActorState.CleanSound | src/session.rs:791-793 | dropping closed channels keeps every fact about the session |
| ActorState.ClosedLeave | src/session.rs:791-793 | exactly the subscribers whose channel is closed leave, the others in order; nothing sent or completed changes |
| ActorState.CompleteSound | src/session.rs:600-631 | a completed chunk reaches everyone it concerns once and keeps every fact about the session |
| FileSession.FileSessionActor.Drain | src/session.rs:534-542 | queues exactly the valid requests, clipped, in order |
| FileSession.FileSessionActor.CleanSubscribers | src/session.rs:791-793 | drops exactly the closed channels |
| FileSession.FileSessionActor.CleanupPrefetches | src/session.rs:757-761 | keeps exactly the prefetches neither complete nor cached |
| FileSession.FileSessionActor.DownloadAndForward | src/session.rs:578-649 | on success the chunk is handed out and counted; otherwise errors or silence and nothing counted |
| FileSession.FileSessionActor.StartRound | src/session.rs:534-545 | requests queued, closed channels dropped, arrived prefetches forgotten, and nothing else |
| FileSession.FileSessionActor.Drive | src/session.rs:551-558 | the chunk leaves the prefetches, is handed out, and prefetching follows; a failure hands out errors only |
| FileSession.FileSessionActor.OneRound | src/session.rs:531-564 | one turn of the loop, whole: its start, its choice, what it left, or how the loop was left |
| FileSession.FileSessionActor.Run | src/session.rs:521-574 | at most chunk_count + 1 rounds, each beginning where the last left off and taking up what came from outside; ends with nothing wanted, nobody there, or a chunk that did not arrive |
| FileSession.TracedSelects | src/session.rs:551-558 | over a whole run, each completed chunk is the one the schedule selects then |
| FileSession.TracedClean | src/session.rs:757-761 | over a whole run, prefetches in flight are in range and neither complete nor cached after cleanup |
| FileSession.DoneBounded | src/session.rs:521-574 | no chunk completes twice, so completions are bounded by the chunk count |
| SessionGuarantees.ExactAccounting | src/session.rs:521-607 | each chunk reaches a channel at most once; at the end it lacks exactly those completed before it joined |
| Positions.SentAreBytesAt | src/session.rs:763-782 | a channel's messages carry exactly the bytes at the positions its range shares with the chunks handed out, in that order |
| SessionGuarantees.BytesAccountedFor | src/session.rs:521-607 | for any joins, every position of the range has been sent exactly once but for those in chunks completed before the join, which are never sent |
| SessionGuarantees.ServedInFullExactlyWhenEarly | src/session.rs:534-564 | full length exactly when no chunk of the span was complete at joining |
| SessionGuarantees.LateSubscriberGetsNothing | src/session.rs:534-564 | a whole run of two rounds in which a late subscriber is sent nothing of its range |
| SessionGuarantees.InOrderRun | src/session.rs:521-607 | early joins and compatible spans: always a prefix of the range, all of it at the end |
| SessionGuarantees.FixedAudienceInOrder | src/session.rs:521-574 | in a run with a fixed audience a subscriber is served in order exactly when the first chunks are in order within its span |
| SessionGuarantees.FixedAudienceServed | src/session.rs:521-574 | and then that subscriber has been sent exactly its range, whatever becomes of the others |
| SessionGuarantees.RunDeliversInOrder | src/session.rs:521-574 | what the actor's task leaves a well-placed subscriber: a prefix of its range, all of it if nothing was left |
| SessionGuarantees.RunAccountsForBytes | src/session.rs:521-574 | what the actor's task leaves any open subscriber when nothing was left, position by position |
| Pipeline.PopOrRead | src/service.rs:407-448 | the chunk read is the current one, whether it was waiting or is read now |
| Pipeline.Refill | src/service.rs:485-522 | the queue ends with the next indices, contiguous, as many as depth and rows allow |
| Pipeline.CutIs | src/service.rs:524-542 | what is cut is the part of the chunk in the range; slicing fails exactly on an empty first chunk or one beside the range |
| Pipeline.StreamChunks | src/service.rs:400-551 | for every depth the items sent are those of sequential reading |
| Pipeline.SequentialDelivers | src/service.rs:524-549 | right chunks deliver a prefix of the range, all of it when no read failed |
| Pipeline.SequentialStops | src/service.rs:406-551 | reading goes on to the first read that fails, sends exactly what lies before its chunk, and ends with one error there |
| CachedStream.ReadsAreRight | src/service.rs:437-483 | verified reads of a complete file are the right chunk or an error whatever happened to blobs |
| CachedStream.StreamRows | src/service.rs:385-400 | the relevant rows of a complete file deliver the range, for any depth, up to the first chunk whose blob is missing or found out |
| CachedStream.StreamCachedFile | src/service.rs:362-554 | exactly when not found, when the range is refused, and when slicing the rows is out of bounds; content length; a complete file streams its range up to the first chunk whose blob is missing or found out |
| CachedStream.IntactStreamsWhole | src/service.rs:406-551 | every blob of the range intact when read: exactly the range and no error, with verification on or off |
| Serving.StepKeeps | src/session.rs:98-390 | every atomic step keeps links, remembered hashes, events and readers right |
| Serving.ServedIsTruth | src/session.rs:98-390 | in every interleaving a served chunk is upstream's and the checksum comparison never fails |
| Reading.ReadersEnd | src/session.rs:98-390 | whatever happens around it a reader always has a next action and is done after at most eight, served the right chunk, or failed exactly when upstream gave nothing or the backend refused to store |
| Reading.RememberedIsServed | src/session.rs:112-130 | a remembered chunk whose blob is intact when loaded is served from it without a download |
| Reading.DamagedIsForgotten | src/session.rs:131-134 | a damaged blob is deleted when loaded and its hash forgotten; a missing one leads there too |
| Reading.DownloadIsServed | src/session.rs:327-388 | a download is served, its blob written unless one has that name, its hash remembered and one event queued |
| Reading.CheckComparesHashes | src/session.rs:338-353 | a download that differs from what is remembered is refused, any other goes on |
| Reading.DeniedChangesNothing | src/session.rs:247-365 | a reader without an answer from upstream, or whose chunk is not taken by the backend, fails and leaves everything else |
| Reading.OpenRemembersLinks | src/service.rs:565-569 | a session remembers the hashes of its file's links when it opens |
| Serving.SweepTakesOnlyUnlinked | src/service.rs:281-318 | whatever happened since the listing, the row delete succeeds and takes exactly the listed rows without links |
| BlobSafety.StepStocks | src/service.rs:292-300 | undamaged, the step that leaves a linked or pending chunk without its blob is exactly the collection of a needed blob |
| BlobSafety.LinkedKeepBlobs | src/service.rs:281-318 | in every run in which stores and collections keep apart, every linked chunk has its blob and it is upstream's |
| BlobSafety.CollectionCanTakeALinkedBlob | src/session.rs:355-365 | an undamaged run that ends with a linked chunk whose blob was collected |
| EndToEnd.ServedIsSlice | src/session.rs:579-607 | a served chunk is the file's bytes start..end |
| EndToEnd.CompleteIsWhole | src/service.rs:173-188 | in every reachable state complete by count means every chunk linked under its own hash |
| Arrival.LinkedExactlyWhenProcessed | src/service.rs:117-137 | in every run a slot is linked exactly when its event was processed while its file was there |
| Arrival.CompleteExactlyWhenProcessed | src/service.rs:173-188 | in every run a file is complete by count exactly when the event of each of its chunks was processed while it was there |
| Arrival.PublishedIsLinkedOrQueued | src/session.rs:366-378 | in every run a chunk stored while its file was there is linked or its event still queued, as long as the file stays |
| Arrival.DownloadedFileIsComplete | src/service.rs:117-188 | so with the queue empty, a file each of whose chunks was downloaded while it was there is complete |

## Left out

- HTTP routing, headers, redirects, etag validation, the git and LFS proxy, the S3 backend, configuration and command-line parsing and printing: they do not bear on the properties above.
- Columns that no decision reads (backend, path, etag and header columns, created_at) and `get_stats` apart from the sum eviction uses.
- `mark_chunk_orphaned`, `clear_chunk_orphaned` and `delete_chunk`: bare helpers outside the transactions a run is made of.
- `is_chunk_linked`, `list_files`, the deletes by name across sources and the header backfill: loops over operations modelled here.
- Integer widths: sizes, counts and indices are unbounded; the sums the code keeps in 64 bits are not shown to fit.
- Floating point: urgency is any monotone function that is zero exactly at distance zero, so results hold for the rounded division too, but that rounding is monotone is an assumption about it.
- Wall-clock time: statements read a clock parameter; equal and decreasing readings are allowed.
- Task panics, cancelled tasks and poisoned locks.
- Client backpressure: a channel accepts every message; in `StreamCachedFile` the client does not go away midway.
- The mailbox race at actor exit: a request queued after the last drain is not modelled, nor the replacement of an exited actor.
- A 200 response that is longer than the chunk without being the whole file: outside the assumption on upstream.
- FileSession.FileSessionActor.Run: a download that arrives carries the right chunk, which is what `Fetch.ChunkReader.Subscribe` and `Serving.ServedIsTruth` establish separately.
- CachedStream.StreamCachedFile: the deletion of a damaged blob by the stream is part of what may happen to blobs between reads, not an effect of the method.
- Service.CacheService.RunGc: the pause between batches is not modelled and nothing else runs in between; `Serving.SweepTakesOnlyUnlinked` covers interleaving.
- BlobSafety.LinkedKeepBlobs: gives a condition under which blobs stay; a run that breaks it may still end well, since a later download writes a missing blob again.
- Metadata.MetadataStore.TouchRepo: its contract is the table update itself; what a touch means is stated by the two `Eviction` rows.
- Metadata.MetadataStore.ListReposByAccess: equal access times may come in any order, as SQL leaves it.
