# Vigilo: storage, planning and scoring, modelled in Dafny

Vigilo freezes datasets and evaluation runs as immutable, content-addressed
files, hands chunks of cases to workers, and folds their results into
scorecards. This project models the parts whose correctness is not visible in
any one function, and proves what they promise over every input and every
interleaving. `dafny verify dfyconfig.toml` checks all of it.

| module | models |
|---|---|
| `IndexFormat`, `IndexTraversal`, `IndexBuilding`, `IndexCapacity` | the ordinal index: pages, construction level by level, bounded depth-first reading, encoded sizes |
| `CaseReading`, `CasePublication` | a worker's two passes over one claimed chunk, and what they give on a published run |
| `ShardPlan`, `ChunkManifest`, `PlacementCheck`, `Admission`, `AdmissionRuns`, `AdmissionAuthority`, `AdmissionProgress` | the chunk policy, its resumable folds, the placement read-back, and admission of a run by competing owners |
| `GateChain` | gate counts as a linked chain of pages |
| `Batching`, `Upload`, `UploadAuthority`, `Leases`, `UniqueIds` | cutting, uploading and checkpointing a dataset, its lease deadlines, and external duplicate detection |
| `BlobStore`, `ReadCache`, `CircuitBreaker` | conditional object creation, the read cache, keyed breakers |
| `Scorecard`, `ScorecardMerge`, `ScorecardAccumulation`, `ScorecardGrouping`, `Aggregation`, `AggregateScore`, `AggregateMeaning`, `Normalization` | scoring |
| `Base`, `Folds` | shared vocabulary and algebraic folds |

Conventions. A BLAKE3 digest is an injective constructor, so equal digests mean
equal bytes, and a hash chain determines the chunks folded into it. Floating
point is exact real arithmetic. Integer widths are written out where the code
checks them. Ledgers are values changed by one atomic step per transaction;
clocks, jitter, network answers and cancellation are arbitrary inputs, and so are
JSON sizes except those of index entries and pages. Code that updates state in
place is a class or a loop here too, proved against a function or predicate that
is then reasoned about.

Three promises hold only under a condition, which is proved exactly:

- An index is readable exactly when the root and the heaviest path below it fit
  4 MiB (`BuildThenTraverse`). At the default limits every index that can be
  built is readable (`DefaultsReadable`), and so it is whenever height times the
  largest possible page fits (`ReadableByEntries`). The widest limits that pass
  validation, which no command sets, admit 4096 entries a page; under them a
  dataset of 16,777,216 one-case batches, small enough for preparation
  (`OneCaseBatchesPrepare`), and a 128-character alias give an index whose last
  page cannot be read (`BuiltButUnreadable`).
- Run planning stamps a renewal after its commit, so a read deadline can outlive
  the lease; it cannot exactly when that pause is at most 150 seconds
  (`KeepAliveExactCondition`, `KeepAliveCanOutliveLease`).
- The merge functions accept a score sum that exceeds its count by one epsilon,
  whether or not scoring ever produces one, and epsilons add up:
  accumulating chunks before merging refuses what one fold over all chunks
  accepts exactly when a shard's chunks list their gates in different orders or
  its accumulated sum leaves that tolerance (`AccumulationMatchesFold`,
  `AccumulationCanRefuse`), and a mean exceeds one exactly when its sum exceeds
  its count (`MergedMean`, `MeanCanExceedOne`). Chunks whose sums stay within
  their counts never meet this limit (`ExactSumsAreTolerable`).

Placements may be changed from outside at any step. An active run was still
found exact, placement by placement, by the owner that activated it; a placement
that differs at its check fails the run; and one found exact stays exact unless
it is changed from outside afterwards (`AdmissionSafety`, `DifferenceFails`,
`ExactSince`). A run that nobody disturbed or cancelled can always still be
activated (`CanActivate`).

Both ledger protocols, admission and upload, are fenced: a lease is claimed only
while nobody holds one, it ends only in the ways the code allows, an owner
without it moves nothing in the ledger, and an interrupted upload can always be
finished by a new owner (`AdmissionAuthority`, `UploadAuthority`).

A written gate chain is read back exactly when its gates are ordered and within
the case count (`ReadGates`). Planning always meets that: it writes the entries
of an ordered map whose counts never exceed the shard's cases.

One guarantee is wider than the code's own cases suggest: replacing any result
of a binding that is not required leaves the outcome unchanged, even if the
binding has several (`OptionalResultsInert`).

## Model

| member | source | states |
|---|---|---|
| `IndexFormat.LeavesSpan` | vigilo/src/contracts/case_storage/formats.rs:360-395 | The leaves under sound rows are contiguous and cover exactly the range of those rows, at any height. |
| `IndexFormat.Grow` | vigilo/src/contracts/case_storage/formats.rs:323-350 | Adding objects to an immutable store changes neither the soundness nor the leaves of an index already in it. |
| `IndexFormat.RowMisses` | vigilo/src/case_reader.rs:524-526 | A row outside the request hides no leaf inside it, so skipping it loses nothing. |
| `IndexFormat.OverlapsMeans` | vigilo/src/case_reader.rs:524-526 | The skip test keeps a row exactly when its range and the request share a position. |
| `IndexTraversal.IndexCursor.Request` | vigilo/src/case_reader.rs:474-487 | A cursor exists exactly for nonempty requests inside the root's range. |
| `IndexTraversal.IndexCursor.OpenRoot` | vigilo/src/case_reader.rs:505-515 | Loading the root keeps what is still to be delivered; a refusal means the whole walk fails with nothing delivered. |
| `IndexTraversal.IndexCursor.Descend` | vigilo/src/case_reader.rs:532-540 | Descending puts exactly the child's walk in front of what was pending and stays within 4 MiB, or the row's walk fails. |
| `IndexTraversal.IndexCursor.Visit` | vigilo/src/case_reader.rs:516-541 | One loop round delivers the next pending leaf, or changes only bookkeeping and strictly reduces the pages left, or fails as the walk does. |
| `IndexTraversal.IndexCursor.Next` | vigilo/src/case_reader.rs:497-543 | Each call takes exactly one leaf off the pending walk with its stored content, ends exactly at the end, and terminates. |
| `IndexTraversal.IndexCursor.Drain` | vigilo/src/case_reader.rs:488-496 | Exhausting a cursor yields the walk's leaves in order, each with its own bytes, and an error exactly when the walk fails. |
| `IndexTraversal.WalkSelects` | vigilo/src/case_reader.rs:497-543 | On a sound index a range walk is the flat filter of the leaves, and it fails exactly when the resident bytes plus the heaviest path exceed 4 MiB. |
| `IndexTraversal.HeaviestBound` | vigilo/src/case_reader.rs:532-535 | No path is heavier than its height times the largest page. |
| `IndexBuilding.RowsAfterCursor` | vigilo/src/db/workflows/dataset_upload/queries.rs:142-152 | Reading a level in bounded ledger pages past an exclusive cursor returns every row once, in order. |
| `IndexBuilding.AddRow` | vigilo/src/dataset_ingestion.rs:368-401 | One row either joins the open page or closes it, exactly as the greedy packing does. |
| `IndexBuilding.BuildLevel` | vigilo/src/dataset_ingestion.rs:355-411 | The paged loop stores exactly the greedy packing of the whole level, and fails exactly when that does. |
| `IndexBuilding.BuildIndex` | vigilo/src/run_planning.rs:385-442 | The loop over levels ends at one root or at the height limit, exactly as the recursive construction does. |
| `IndexBuilding.PackBounds` | vigilo/src/dataset_ingestion.rs:375-400 | Every packed group is nonempty, within the entry limit, and its size estimate is within the byte limit. |
| `IndexBuilding.PackGreedy` | vigilo/src/dataset_ingestion.rs:375-400 | No page is closed while the next entry still fits it: it is full, or the entry would pass the byte limit. |
| `IndexBuilding.LevelSound` | vigilo/src/dataset_ingestion.rs:414-450 | A finished level is sound and has exactly the leaves of the rows it was made from. |
| `IndexBuilding.BuiltMeansChildren` | vigilo/src/run_planning.rs:385-465 | A built root opens to a sound page whose leaves are the original children, however many levels were needed. |
| `IndexBuilding.BuildThenTraverse` | vigilo/src/run_planning.rs:385-465 | Building then walking any range returns exactly the children that meet it, and fails exactly when root plus heaviest path exceed 4 MiB. |
| `IndexCapacity.JsonIsCompact` | vigilo/src/contracts/case_storage/codec.rs:70-81 | An encoded page is its entries with separators inside a frame shorter than the 256 bytes the packing reserves, and no entry exceeds 542 bytes. |
| `IndexCapacity.WidthIsDigits` | vigilo/src/contracts/case_storage/codec.rs:70-81 | The encoded width of every stored number is its count of decimal digits. |
| `IndexCapacity.PackRefuses` | vigilo/src/dataset_ingestion.rs:376-400 | Packing a level fails exactly when some entry would not fit a page of its own. |
| `IndexCapacity.PackedPageFits` | vigilo/src/dataset_ingestion.rs:414-433 | No packed page is refused for its encoded size or its entry count. |
| `IndexCapacity.LevelWritten` | vigilo/src/dataset_ingestion.rs:355-411 | With no page of this level written before, a level is written exactly when every entry fits a page of its own. |
| `IndexCapacity.BuiltWeight` | vigilo/src/case_reader.rs:532-540 | The root and the heaviest path below it weigh at most one largest page per level, whatever the store held before. |
| `IndexCapacity.ReadableWithinHeight` | vigilo/src/case_reader.rs:505-509 | If height times the page byte limit fits 4 MiB, every range of a built index can be read. |
| `IndexCapacity.ReadableByEntries` | vigilo/src/case_reader.rs:505-509 | If height times a page of the largest entries fits 4 MiB, every range of a built index can be read. |
| `IndexCapacity.DefaultsReadable` | vigilo/src/contracts/case_storage/limits.rs:65-79 | At the default limits every range of every index that was built can be read, under any admitted alias. |
| `IndexCapacity.CutByCount` | vigilo/src/dataset_ingestion.rs:376-379 | When a full page of the largest entries fits, pages are cut by entry count alone. |
| `IndexCapacity.OneCaseBatchesPrepare` | vigilo/src/dataset_ingestion/input.rs:243-253 | 4096 * 4096 one-case batches of at most 480 bytes stay within the 8 GiB that preparation may use, and their ordinals within 32 bits. |
| `IndexCapacity.BuiltButUnreadable` | vigilo/src/contracts/case_storage/limits.rs:86-93 | At the widest accepted limits an index of 4096 * 4096 one-case batches under a 128-character alias is built, and every request that reaches its last page fails. |
| `CaseReading.Fold` | vigilo/src/case_reader.rs:312-344 | One file's records extend the pass exactly when ordinals stay consecutive; the pass keeps count, hash input and, while the byte budget lasts, all cases. |
| `CaseReading.FindPlanned` | vigilo/src/case_reader.rs:239-277 | The claim is accepted exactly when the published page at index start / 100 holds exactly this chunk at exactly that position; that a published chunk is found there is `CasePublication.PublishedChunkPrepared`. |
| `CaseReading.ChunksApart` | vigilo/src/contracts/case_storage/formats.rs:575-611 | On an accepted chunk page no two chunks share an ordinal or an ID, and n chunks span at most 100 * n ordinals. |
| `CaseReading.ProveMembership` | vigilo/src/case_reader.rs:278-350 | The pass succeeds exactly when every touched file is sound, the in-range cases are consecutive and complete, and their projection is the planned one. |
| `CaseReading.Prepare` | vigilo/src/case_reader.rs:222-366 | Preparation succeeds exactly for claims whose assigned cases exist; what is left to deliver is those cases whether they were cached or will be read again, and they are cached exactly when the rest of a batch fits beside them. |
| `CaseReading.PreparedCases.Next` | vigilo/src/case_reader.rs:393-438 | Each call delivers the next part of what is undelivered; it errs only when a file became unreadable. |
| `CaseReading.DrainPrepared` | vigilo/src/case_reader.rs:369-380 | Draining returns exactly the assigned cases in order. |
| `CaseReading.RedeliverIsScan` | vigilo/src/case_reader.rs:405-436 | The second reading, which refuses files without cases, accepts the same files and gives the same cases as the first. |
| `CaseReading.PublishedChunkIsSlice` | vigilo/src/case_reader.rs:219-221 | Over an index built from a dataset's files, the cases assigned to ordinals lo..hi are that slice of the dataset. |
| `CasePublication.BuiltIsPublished` | vigilo/src/run_planning.rs:385-465 | Building the batch index and the chunk index publishes the run: every claim can be found and every range walked from the two roots. |
| `CasePublication.PublishedChunkPrepared` | vigilo/src/case_reader.rs:212-277 | Chunk i of a published run, when its walks fit 4 MiB, is found, is preparable, and is assigned ordinals 100*i up to 100*(i+1) or the end of the dataset. |
| `CasePublication.ReadChunk` | vigilo/src/case_reader.rs:212-380 | Preparing and draining a claim gives exactly its assigned cases, and for chunk i of a published run exactly the dataset's slice 100*i..100*(i+1). |
| `ShardPlan.ShardTotalsClosed` | vigilo/src/case_reader.rs:193-207 | The closed formulas for a shard's chunk and case totals equal counting its chunks one by one. |
| `ShardPlan.ShardsPartitionCases` | vigilo/src/case_reader.rs:180-187 | After any number of chunks the 128 shards together hold exactly the cases of those chunks. |
| `ShardPlan.OrderedListIsComplete` | vigilo/src/contracts/case_storage/formats.rs:846-885 | Ordered shards with right totals never sum above all cases, and reach them only if no shard is missing. |
| `ShardPlan.CheckPlan` | vigilo/src/case_reader.rs:180-208 | A manifest is accepted exactly when it is the canonical plan: every used shard, in order, with exact totals. |
| `ShardPlan.LastChunkOrdinals` | vigilo/src/run_admission.rs:204-214 | The computed last chunk is a real chunk of its shard, is the last one, and has a nonempty range inside the dataset. |
| `ChunkManifest.PushPlanned` | vigilo/src/db/workflows/run_shard_summary/plan.rs:36-65 | The next planned chunk is never refused; it advances its own shard's manifest and no other. |
| `ChunkManifest.FoldPlanned` | vigilo/src/db/workflows/run_shard_summary/plan.rs:36-65 | Folding a shard's planned chunks alone gives the same manifest as the interleaved fold. |
| `ChunkManifest.FoldExactly` | vigilo/src/db/workflows/run_shard_summary/plan.rs:36-65 | A fold accepts exactly one shard's nonempty chunks in ascending disjoint ranges, up to 32-bit totals, and counts the chunks and their cases. |
| `ChunkManifest.FoldInjective` | vigilo/src/db/workflows/run_shard_summary/plan.rs:19-34 | Equal hashes mean equal chunk lists, not just equal counts. |
| `ChunkManifest.ExpectedIsFold` | vigilo/src/run_admission.rs:204-220 | The manifest rebuilt from published totals and hash is the fold of exactly that shard's planned chunks. |
| `Admission.FoldPage` | vigilo/src/run_admission.rs:301-340 | A page is accepted exactly when every chunk is the frozen one and no push is refused; the state is then the fold over the page and every placement gets its own chunks in order. |
| `Admission.ExpectedIsWholePlan` | vigilo/src/run_admission.rs:385-389 | The expected state compared before activation is the fold of the whole plan. |
| `Admission.FoldRangeAdvances` | vigilo/src/run_admission.rs:301-340 | Resuming from the saved state at a cursor and folding on gives the state at the later cursor. |
| `Admission.AcknowledgeKeeps` | vigilo/src/db/workflows/run_plan/admission.rs:106-127 | Acknowledging a page, or being refused, keeps cursor, saved state and every owner consistent, replaced owners included. |
| `Admission.PageStored` | vigilo/src/db/workflows/run_plan/admission.rs:106-127 | While nobody disturbs the placements, whatever is acknowledged is stored. |
| `Admission.SeedKeeps` | vigilo/src/db/workflows/run_create/queries.rs:160-213 | Undisturbed, seeding one placement by a live or a replaced owner meets no conflicting row and adds only planned rows. |
| `Admission.VerifyKeeps` | vigilo/src/run_admission.rs:390-458 | Undisturbed, checking a placement finds no difference and never marks the run failed. |
| `Admission.ActivateKeeps` | vigilo/src/db/workflows/run_plan/admission.rs:128-159 | Activation happens only under the live lease, with no placement left to check and the saved state of the whole plan. |
| `AdmissionRuns.DifferenceFails` | vigilo/src/db/workflows/run_plan/admission.rs:158-169 | At a live owner's check the run fails exactly when the placement differs from the plan; otherwise that placement is done. |
| `AdmissionRuns.CheckedOff` | vigilo/src/run_admission.rs:390-458 | A placement is off an owner's list only because that owner read it and found exactly the plan. |
| `AdmissionRuns.ActiveWasVerified` | vigilo/src/run_admission.rs:379-463 | In every run, however disturbed, an active run was activated by a live owner that had found every placement exact. |
| `AdmissionRuns.FailedMeansDifference` | vigilo/src/run_admission.rs:120-127 | In every run, a failed run had a live owner meet a placement that differs or a row that contradicts a seeded chunk. |
| `AdmissionRuns.ExactSince` | vigilo/src/run_admission.rs:341-371 | A placement found exact stays exact through all later steps, replaced owners still seeding included, unless it is disturbed. |
| `AdmissionRuns.AdmissionSafety` | vigilo/src/run_admission.rs:163-467 | Over every interleaving of claims, expiries, crashes, steps of competing owners and disturbances of placements: the cursor is a page boundary, the saved state is the exact fold of the chunks before it, active means verified and failed means a difference. |
| `AdmissionRuns.UndisturbedSafety` | vigilo/src/run_admission.rs:163-467 | Over every undisturbed interleaving all chunks before the cursor are in their placements, no owner marks the run failed, and an active run's placements hold exactly the plan. |
| `AdmissionRuns.MembershipIsExact` | vigilo/src/run_admission.rs:390-458 | The paged comparison shard by shard passes exactly when the rows of the placement's shards are the planned rows as a set. |
| `AdmissionAuthority.LeaseLost` | vigilo/src/db/workflows/run_plan/admission.rs:48-93 | A live lease is lost only to time, to its holder letting go, or to its holder settling the run, and nobody holds it directly afterwards. |
| `AdmissionAuthority.ClaimNeedsFreeLease` | vigilo/src/db/workflows/run_plan/admission.rs:48-78 | A new generation appears only by a claim of a run in creation that nobody holds; it is the next number and holds the lease. |
| `AdmissionAuthority.LeaseExcludes` | vigilo/src/db/workflows/run_plan/queries.rs:38-48 | Over every run, a lease that nothing ended stays with its owner and no newer generation appears. |
| `AdmissionAuthority.LeaseIsNewest` | vigilo/src/db/workflows/run_plan/admission.rs:48-78 | Over every run the lease, if any, belongs to the newest generation. |
| `AdmissionAuthority.FencedOut` | vigilo/src/db/workflows/run_plan/admission.rs:80-93 | An owner without the lease changes nothing but placements, by seeding, and its own standing. |
| `AdmissionAuthority.ProgressNeedsLease` | vigilo/src/db/workflows/run_plan/admission.rs:106-127 | Cursor and saved state move together, only for the holder, and exactly to the end of the page it folded from the cursor. |
| `AdmissionAuthority.PageToSeed` | vigilo/src/run_admission.rs:301-371 | The placements a page waits for are exactly those it has rows for. |
| `AdmissionAuthority.SettledRunStays` | vigilo/src/db/workflows/run_plan/admission.rs:128-169 | A run that is active, failed or cancelled stays so and is never claimed again. |
| `AdmissionAuthority.ConflictFails` | vigilo/src/db/workflows/run_create/queries.rs:160-213 | The holder's seeding fails the run exactly when a stored row contradicts a chunk of the page, and then writes nothing; otherwise the whole page is stored. |
| `AdmissionProgress.CanActivate` | vigilo/src/run_admission.rs:163-467 | Every undisturbed run still being created has a continuation that activates it: a new owner resumes at the cursor, seeds the remaining pages, finds every placement exact and activates. |
| `AdmissionProgress.SmallestRunActivates` | vigilo/src/run_admission.rs:163-467 | A plan of one chunk in one placement is valid and has a run that ends active. |
| `PlacementCheck.FoldPage` | vigilo/src/run_admission.rs:426-447 | One bounded page of a placement's rows extends the per-shard fold exactly. |
| `PlacementCheck.FoldRows` | vigilo/src/db/workflows/run_plan/admission/placement.rs:209-223 | Reading all pages past an exclusive cursor folds every row once, in order. |
| `PlacementCheck.VerifyRows` | vigilo/src/run_admission.rs:390-458 | A placement passes exactly when every row is valid and each of its shards holds exactly its planned chunks; nothing missing, extra or reordered. |
| `GateChain.FitPage` | vigilo/src/run_planning.rs:346-362 | The shrinking loop ends at the largest page that encodes, and gives up only when a single entry does not. |
| `GateChain.WriteGates` | vigilo/src/run_planning.rs:335-384 | Success leaves a chain from the first reference over exactly the given gates and exactly the reported pages, touching no slot outside the shard's own range; it succeeds whenever every entry fits a page of its own. |
| `GateChain.ChainsCoexist` | vigilo/src/run_planning.rs:364-375 | With at most 64 gates per shard, writing one shard's chain leaves every other shard's chain readable. |
| `GateChain.ChainValidator.Accept` | vigilo/src/contracts/case_storage/formats.rs:738-786 | A page advances the validator exactly when every check holds; a failed page leaves it unchanged. |
| `GateChain.ReadGates` | vigilo/src/run_admission.rs:221-252 | Any success is an ordered list of exactly the promised length and page count; on a written chain it succeeds exactly when gates are ordered and within the case count, and returns all of them. |
| `GateChain.CountsComplete` | vigilo/src/run_admission.rs:240-252 | In an accepted chain no gate overwrites another: the map has one count per entry. |
| `Batching.CaseBatchBuilder.TryPush` | vigilo/src/contracts/case_storage/codec.rs:248-282 | A record is taken exactly when the file with it, including the changed header, stays within both limits; otherwise nothing changes. |
| `Batching.CaseBatchBuilder.Finish` | vigilo/src/contracts/case_storage/codec.rs:283-293 | A finished file is exactly a header line followed by its record lines. |
| `Batching.Ingest` | vigilo/src/dataset_ingestion.rs:215-277 | The files cover all records contiguously, each is exact and locatable in the spool, and none but the last could have taken one more record; records that fit a file alone never fail. |
| `Batching.Rebuild` | vigilo/src/dataset_ingestion/batches.rs:194-211 | A rebuild succeeds exactly when the spool still holds the rest of the recorded file, and returns that file; a file the ingest loop cut is returned byte for byte. |
| `Batching.RebuildReproduces` | vigilo/src/dataset_ingestion/batches.rs:194-211 | Every file the ingest loop cut is found again from its kept header and offset. |
| `Upload.Uploader.Push` | vigilo/src/dataset_ingestion/batches.rs:100-143 | Files stay in order; a file joins the open group exactly when it stays within 64 files, 64 MiB and 256 KiB, and otherwise opens the next one; it is refused exactly when it cannot fit any group. |
| `Upload.Uploader.Flush` | vigilo/src/dataset_ingestion/batches.rs:144-150 | Flushing closes the open group as it is and loses nothing. |
| `Upload.CheckpointAccepted` | vigilo/src/db/workflows/dataset_upload/batches.rs:119-173 | A live owner's checkpoint is never refused, even over files an earlier owner acknowledged, and leaves a longer acknowledged prefix. |
| `Upload.WriteKeeps` | vigilo/src/dataset_ingestion.rs:165-189 | Writing a file, by a live or a replaced owner, keeps every stored object exact and registered first. |
| `Upload.UploadSafety` | vigilo/src/dataset_ingestion/batches.rs:144-190 | Over every interleaving of owners: whatever is stored was registered first and is exact, whatever is acknowledged is stored and is a prefix ending at the cursor, and an owner past a group has all of it acknowledged. |
| `UploadAuthority.WalkMeans` | vigilo/src/db/workflows/dataset_upload/batches.rs:135-153 | In any ledger a checkpoint's walk accepts exactly files acknowledged before, none past the cursor, followed by new files that continue from the cursor without a gap. |
| `UploadAuthority.GroupsStaySmall` | vigilo/src/db/workflows/dataset_upload/batches.rs:26-72 | Over every run no owner works on more than 64 files at once. |
| `UploadAuthority.LeaseExcludes` | vigilo/src/db/workflows/dataset_upload/queries.rs:44-63 | Over every run without an expiry the lease stays with its owner and no newer generation appears. |
| `UploadAuthority.ClaimNeedsFreeLease` | vigilo/src/db/workflows/dataset_upload/queries.rs:44-63 | A new generation appears only by a claim while nobody holds the lease, and touches no file. |
| `UploadAuthority.FencedOut` | vigilo/src/db/workflows/dataset_upload/batches.rs:119-173 | An owner without the lease changes no registration, acknowledgement or cursor; it may still write bytes. |
| `UploadAuthority.AcknowledgedByHolder` | vigilo/src/db/workflows/dataset_upload/batches.rs:119-173 | Files are acknowledged only by the holder's checkpoint, exactly those it went through, all registered before. |
| `UploadAuthority.RegisteredByHolder` | vigilo/src/db/workflows/dataset_upload/batches.rs:84-118 | Files are registered only by the holder's plan, exactly those of its open group. |
| `UploadAuthority.UploadCompletes` | vigilo/src/dataset_ingestion/batches.rs:144-190 | After any run of crashes, expiries and competing owners, one new owner can bring every file to be stored exactly and acknowledged, with the cursor at the end. |
| `Leases.ReadLease.Budget` | vigilo/src/dataset_ingestion/batches.rs:234-252 | A deadline is refused exactly when a due renewal is; otherwise the deadline was minted before the renewal it relies on. |
| `Leases.ReadDeadlines` | vigilo/src/run_admission/lease.rs:21-46 | Over a whole ingestion or admission, with any pauses, every deadline lies strictly inside the lease last renewed. |
| `Leases.FlushDeadlines` | vigilo/src/dataset_ingestion/batches.rs:42-55 | Group transfers end inside the lease however late they start, and on time they keep their full allowance. |
| `Leases.KeepAliveCanOutliveLease` | vigilo/src/run_planning.rs:76-84 | A live lease renewed and stamped 200 seconds after the commit lets a deadline pass the new lease. |
| `Leases.KeepAliveExactCondition` | vigilo/src/run_planning.rs:66-84 | A due renewal is granted exactly while the lease is live; every read that relies on its stamp then ends inside the lease if and only if the stamp followed the commit by at most 150 seconds. |
| `UniqueIds.Quota.Add` | vigilo/src/dataset_ingestion/input.rs:117-132 | A charge is accepted exactly up to the cap, and stays charged when refused. |
| `UniqueIds.SortChunk` | vigilo/src/dataset_ingestion/input.rs:309-325 | A chunk gives a strictly ascending run of the same IDs exactly when it has no duplicate. |
| `UniqueIds.MakeRuns` | vigilo/src/dataset_ingestion/input.rs:307-331 | The chunked first phase leaves sorted runs that together hold every ID as often as the input, sixteen bytes charged per ID; an error means a duplicate or a full quota. |
| `UniqueIds.MergeGroup` | vigilo/src/dataset_ingestion/input.rs:337-367 | The heap merge gives a strictly ascending run of exactly the group's IDs; it reports a duplicate only if there is one. |
| `UniqueIds.ReleaseRuns` | vigilo/src/dataset_ingestion/input.rs:368-373 | Removing merged runs returns each one's own charge, together exactly the group's. |
| `UniqueIds.MergeLevel` | vigilo/src/dataset_ingestion/input.rs:333-377 | A level keeps all IDs, shrinks the runs to a thirty-second, and returns its charges. |
| `UniqueIds.CheckUnique` | vigilo/src/dataset_ingestion/input.rs:298-380 | The whole external sort succeeds exactly when all IDs are distinct and one more copy fits the quota; the quota then ends where it began. It reports a duplicate only if there is one and a full quota only if a copy does not fit. |
| `BlobStore.CopyVerified` | vigilo/src/blob_storage.rs:698-743 | Through any buffer size the answer is the stream's verdict, and success is exactly the referenced bytes with none in excess; what each verdict says of the stream is `BlobStore.VerdictMeans`. |
| `BlobStore.VerdictMeans` | vigilo/src/blob_storage.rs:711-742 | A stream is transient exactly when it breaks before its first byte and not by ending early, verified exactly when it ends after the referenced bytes, and corrupt only if it delivered a byte or ended. |
| `BlobStore.Operation.GetRetry` | vigilo/src/blob_storage.rs:510-522 | Only transient answers are repeated, only GETs are sent, and every failure is the last answer or the wait that could not happen. |
| `BlobStore.Operation.ReadObject` | vigilo/src/blob_storage.rs:633-693 | A read returns the referenced bytes or an error explained by its last request, and sends only GETs. Every request before the last met a fault that may be retried; if only such faults stand before the whole object within the budget, the read returns it and stops there; corrupt is reported only of an object that is wrong or began to arrive. |
| `BlobStore.Operation.Reconcile` | vigilo/src/blob_storage.rs:573-594 | After an ambiguous PUT, a verified GET settles it as created, a missing object as absent, and only an unsettled PUT is reported uncertain. |
| `BlobStore.Operation.PutAndReconcile` | vigilo/src/blob_storage.rs:551-595 | The loop ends within the request budget; every PUT carries the staged bytes and is repeated only after the key was found absent; uncertainty is reported exactly when the last PUT is unsettled; a PUT whose read-back could be confirmed within the budget never ends in failure. |
| `BlobStore.FailureMeans` | vigilo/src/blob_storage.rs:573-594 | A different object read back is a conflict exactly if the PUT met it, and corrupt otherwise; a missing object fails a creation only after a PUT that reported success. |
| `BlobStore.Create` | vigilo/src/blob_storage.rs:525-599 | Nothing is sent exactly when the call is refused locally, as it is for a reference with a revision or a budget above 32; an existing object is never replaced; success means a GET matched the exact object; every failure kind follows from the last request, and none is reported where the object could have been confirmed. |
| `ReadCache.Cache.Lookup` | vigilo/src/case_reader/cache.rs:63-75 | A hit returns the retained bytes and becomes the newest entry; a miss changes nothing. |
| `ReadCache.Cache.Evict` | vigilo/src/case_reader/cache.rs:100-103 | The fewest oldest entries are removed, and an empty queue is never popped. |
| `ReadCache.Cache.Insert` | vigilo/src/case_reader/cache.rs:88-112 | Small verified bytes enter as the newest entry, charged with what they hold, after the least eviction, unless the key is already there. |
| `ReadCache.Cache.MemoryBound` | vigilo/src/case_reader/cache.rs:89-103 | The counter always equals the memory of the retained keys, bytes and entries, counted over the contents, and that never exceeds 8 MiB. |
| `ReadCache.Cache.Read` | vigilo/src/case_reader/cache.rs:52-114 | A read succeeds with exactly the referenced bytes, and whenever a read without the cache succeeds it gives the same. |
| `ReadCache.CacheSafety` | vigilo/src/case_reader/cache.rs:30-48 | However the critical sections of any readers interleave, the memory held by the entries stays within 8 MiB, keys stay distinct and bytes verified, and the cache is exactly the most recently used keys in order of use. |
| `CircuitBreaker.NewConfig` | vigilo/src/circuit_breaker.rs:40-65 | A policy is accepted exactly with a positive threshold and 0 < initial <= maximum. |
| `CircuitBreaker.CircuitBreakers.Acquire` | vigilo/src/circuit_breaker.rs:133-186 | Work is admitted exactly when the circuit is closed or a probe is due, under the generation then current; a disabled breaker always admits. |
| `CircuitBreaker.CircuitBreakers.RecordSuccess` | vigilo/src/circuit_breaker.rs:188-210 | Only a matching permit changes anything; a matching probe closes its circuit and is reported. |
| `CircuitBreaker.CircuitBreakers.RecordFailure` | vigilo/src/circuit_breaker.rs:212-255 | A matching failure counts, opens or doubles as the policy says, on its own key only, and an opening is reported exactly for a failed probe or the last failure allowed; failures of an available dependency count as successes. That this is the threshold-th in a row is `CircuitBreaker.ThresholdOpens`. |
| `CircuitBreaker.OtherKeys` | vigilo/src/circuit_breaker.rs:140-147 | A call changes at most the circuit of its own key. |
| `CircuitBreaker.BreakerSafety` | vigilo/src/circuit_breaker.rs:133-255 | In every interleaving of fewer than 2^64 calls: no permit carries an open circuit's generation, a matching permit is a probe exactly when its circuit is half open, and a closed circuit's counter is the length of its current streak of failures, below the threshold. |
| `CircuitBreaker.ThresholdOpens` | vigilo/src/circuit_breaker.rs:212-255 | In every interleaving a counted failure opens a closed circuit exactly when it brings the streak of failures to the threshold, a failed probe reopens at once, and an open circuit waits at least its jittered time. |
| `CircuitBreaker.ThirdFailureOpens` | vigilo/src/circuit_breaker.rs:212-255 | At a threshold of three the third failure in a row opens the circuit and the second does not. |
| `CircuitBreaker.JitterShortens` | vigilo/src/circuit_breaker.rs:257-271 | Jitter never lengthens an open time, and without reduction keeps it. |
| `CircuitBreaker.OneProbe` | vigilo/src/circuit_breaker.rs:157-180 | A half-open circuit's generation was granted exactly once, as a probe. |
| `CircuitBreaker.StaleCompletion` | vigilo/src/circuit_breaker.rs:197-199 | Completing a superseded permit, or any permit of an open circuit, changes nothing. |
| `CircuitBreaker.ProbePacing` | vigilo/src/circuit_breaker.rs:229-271 | The open time is min(initial * 2^k, maximum) with k the failed probes since the last close, and two probe grants for a key are at least 80% of the initial open time apart. |
| `ScorecardMerge.MergeShards` | vigilo/src/contracts/scorecard.rs:309-363 | Shards are accepted exactly when they are mergeable as a collection; each gate is then reported once, evaluated on its exact totals under the common policy. |
| `Scorecard.MergeIsOrderFree` | vigilo/src/contracts/scorecard.rs:309-363 | Acceptance and every gate's totals are the same for every permutation of the shards. |
| `Scorecard.TotalCounters` | vigilo/src/contracts/scorecard.rs:171-213 | Every counter and the score sum of a gate's total is the sum of that field over the shards. |
| `Scorecard.CountersFit` | vigilo/src/contracts/scorecard.rs:178-199 | A total overflows exactly when a summed counter exceeds 2^63 - 1. |
| `Scorecard.TotalLow` | vigilo/src/contracts/scorecard.rs:171-213 | A total's lowest score is one of the shards' lowest and none is below it. |
| `Scorecard.TotalHigh` | vigilo/src/contracts/scorecard.rs:171-213 | A total's highest score is one of the shards' highest and none is above it. |
| `ScorecardMerge.MergedMeansMergeable` | vigilo/src/contracts/scorecard.rs:317-350 | Whatever the merging loop accepts has distinct shards, valid entries, equal gate sets and policies, and totals within their counters. |
| `ScorecardMerge.MergeableMeansMerged` | vigilo/src/contracts/scorecard.rs:317-350 | The loop refuses no mergeable shards: partial sums overflow only if the totals do. |
| `ScorecardMerge.AddEntries` | vigilo/src/contracts/scorecard.rs:330-341 | The loop over one shard absorbs its entries in order and refuses a repeated gate, an invalid entry, a different policy or an overflow. |
| `ScorecardMerge.GatePasses` | vigilo/src/contracts/scorecard.rs:240-306 | A gate passes exactly when something was expected and its counters meet every threshold as products, such as scored >= minimum * expected; a rate over nothing fails its threshold. Each failure is listed exactly when its own threshold is missed. |
| `ScorecardMerge.MergedRates` | vigilo/src/contracts/scorecard.rs:240-250 | Merged counters keep passed <= scored <= expected, and coverage, pass, error and abstention rates lie in [0, 1]. |
| `ScorecardMerge.MergedMean` | vigilo/src/contracts/scorecard.rs:125-127 | A mean lies in [0, 1] up to one epsilon per shard, and exceeds one exactly when its sum exceeds its count. |
| `ScorecardMerge.MeanCanExceedOne` | vigilo/src/contracts/scorecard.rs:125-127 | A single accepted scorecard reports a mean of one plus epsilon. |
| `ScorecardAccumulation.RunningScorecard.Accumulate` | vigilo/src/contracts/scorecard.rs:219-238 | A chunk is accepted exactly when identity, gate list, policies, validity and counters allow it, and then every gate is merged; a refusal leaves only a merged prefix. |
| `ScorecardAccumulation.Settle` | vigilo/src/db/workflows/run_shard_summary/aggregation.rs:457-474 | The loop over a shard's chunks, each checked alone first, gives exactly the settled scorecard and refuses exactly when that does. |
| `ScorecardAccumulation.SettledIsGateFolds` | vigilo/src/db/workflows/run_shard_summary/aggregation.rs:457-474 | A shard settles exactly when its chunks are accepted alone, have gate lists of one length and every gate's own fold succeeds; each entry is that fold. |
| `ScorecardAccumulation.FoldGateMeans` | vigilo/src/contracts/scorecard.rs:171-213 | A successful fold of one gate is its exact totals under the one policy all entries share. |
| `ScorecardGrouping.SettledTotals` | vigilo/src/contracts/scorecard.rs:171-238 | For every gate a settled shard has its chunks' policy and exactly their total. |
| `ScorecardGrouping.FoldableIsGateFolds` | vigilo/src/contracts/scorecard.rs:171-213 | One fold over all chunks accepts them exactly when every gate's own fold over all of them succeeds. |
| `ScorecardGrouping.AccumulationMatchesFold` | vigilo/src/contracts/scorecard.rs:171-363 | Settling every shard and merging the shards succeeds exactly when one fold accepts all chunks, each shard lists its gates in one order and every shard's sums keep the tolerance; every gate's total is then the total over all chunks. |
| `ScorecardGrouping.ExactSumsAreTolerable` | vigilo/src/contracts/scorecard.rs:125-127 | If no chunk's score sum exceeds its count, every group of chunks stays within tolerance. |
| `ScorecardGrouping.ExactSumsMatchFold` | vigilo/src/contracts/scorecard.rs:171-363 | For such chunks in one gate order, settling and merging succeeds exactly when one fold over all chunks does. |
| `ScorecardGrouping.RunReportsChunks` | vigilo/src/contracts/scorecard.rs:309-363 | What the merged run reports for a gate is its evaluation on the totals over all chunks. |
| `ScorecardGrouping.AccumulationCanRefuse` | vigilo/src/contracts/scorecard.rs:125-127 | Two chunks, each accepted and foldable together, settle into a shard that is refused. |
| `Aggregation.EvaluatorCompleteness` | vigilo/src/contracts/aggregation.rs:87-189 | The five required counters partition the required bindings; duplicates and unexpected IDs are counted exactly; complete means exactly one valid score per required binding and nothing repeated or unexpected. |
| `Aggregation.CountRequired` | vigilo/src/contracts/aggregation.rs:123-164 | Every required binding is counted in exactly one category, and the incomplete ones are exactly those not scored. |
| `Aggregation.CountDuplicates` | vigilo/src/contracts/aggregation.rs:102-112 | The summed surplus per binding is the number of results less the number of distinct bindings. |
| `AggregateScore.DimensionBounds` | vigilo/src/contracts/aggregation.rs:191-234 | A dimension's minimum or weighted mean lies between its least and greatest valid score. |
| `AggregateScore.AggregateResults` | vigilo/src/contracts/aggregation.rs:236-336 | The loops compute the outcome function: status, aggregate, dimension scores and blocking failures, in any iteration order over dimensions. |
| `AggregateScore.PassedMeans` | vigilo/src/contracts/aggregation.rs:317-336 | An execution passes exactly when it is complete, nothing blocks it where that matters, and its aggregate reaches the minimum. |
| `AggregateScore.AggregateBounds` | vigilo/src/contracts/aggregation.rs:265-285 | Any aggregate lies between the least and the greatest valid score of a required binding. |
| `AggregateScore.OptionalResultsInert` | vigilo/src/contracts/aggregation.rs:245-336 | Replacing a result of a binding that is not required changes no status, score or blocking failure. |
| `AggregateMeaning.CategoryMeans` | vigilo/src/contracts/aggregation.rs:123-164 | A binding is missing, in error, abstained or scored exactly by having no result, or a single one with that status and, to be scored, a score in [0, 1]. |
| `AggregateMeaning.CountersMean` | vigilo/src/contracts/aggregation.rs:123-189 | The reported counters are the numbers of required bindings of each kind, and the incomplete ones are those without a single valid score. |
| `AggregateMeaning.DimensionMeans` | vigilo/src/contracts/aggregation.rs:191-234 | A dimension is scored exactly when some valid result counts; its score is then the least valid score, or the value from which the weighed scores deviate by nothing in total. |
| `AggregateMeaning.AggregateBalances` | vigilo/src/contracts/aggregation.rs:265-285 | There is an aggregate exactly when a scored dimension has a positive weight, and it is the balance point of those dimensions. |
| `AggregateMeaning.RowsInMeans` | vigilo/src/contracts/aggregation.rs:245-264 | A dimension is scored on the results of required bindings in it, every one of them once. |
| `AggregateMeaning.BlockingMeans` | vigilo/src/contracts/aggregation.rs:286-316 | A blocking failure is listed exactly for a required result that failed or errored and is blocking by itself or by its dimension. |
| `AggregateMeaning.StatusMeans` | vigilo/src/contracts/aggregation.rs:317-336 | An execution fails exactly when it is complete and blocked or below the minimum, and is an error exactly when it is incomplete or neither blocked nor scored. |
| `Normalization.NormalizeNumeric` | vigilo/src/contracts/normalization.rs:129-176 | A value is scored exactly when it lies in the mapping's domain, and its score then lies in [0, 1]. |
| `Normalization.NeverInvalidScore` | vigilo/src/contracts/normalization.rs:179-234 | The closing validity test never fires, and the policy is refused exactly when it is invalid. |
| `Normalization.NormalizeMeans` | vigilo/src/contracts/normalization.rs:179-234 | A valid policy answers a measurement of its own kind with the configured score or the mapping's, and any other with the error the code names. |
| `Normalization.PolicyMeans` | vigilo/src/contracts/normalization.rs:48-127 | A policy is refused exactly for a score outside [0, 1], a blank or overlong unit or label, an empty or oversized table, or an invalid mapping. |
| `Normalization.PointsMean` | vigilo/src/contracts/normalization.rs:27-45 | A piecewise table is accepted exactly with 2 to 256 scores in [0, 1] at ever greater values. |
| `Normalization.ThresholdsMean` | vigilo/src/contracts/normalization.rs:69-105 | Thresholds are accepted exactly with up to 255 rising cutpoints inside the domain and one more score in [0, 1]. |
| `Normalization.DomainMeans` | vigilo/src/contracts/normalization.rs:129-176 | A mapping answers exactly from its lowest to its highest value, both included. |
| `Normalization.NumericInUnit` | vigilo/src/contracts/normalization.rs:129-176 | Every linear, piecewise and threshold score lies in [0, 1] without clamping. |
| `Normalization.CurveIsSegment` | vigilo/src/contracts/normalization.rs:149-162 | On every closed segment the piecewise curve is the line through its two points. |
| `Normalization.KnotsHit` | vigilo/src/contracts/normalization.rs:149-162 | Every knot is answered with its own score. |
| `Normalization.NumericMonotone` | vigilo/src/contracts/normalization.rs:129-176 | Linear, piecewise and threshold maps with rising tables are non-decreasing over their whole domain. |
| `Normalization.LinearMirror` | vigilo/src/contracts/normalization.rs:135-148 | The two linear directions mirror each other and meet 0 and 1 at the ends. |
| `Normalization.LinearIsAffine` | vigilo/src/contracts/normalization.rs:135-148 | Linear scores differ in exact proportion to their values. |
| `Normalization.ThresholdBand` | vigilo/src/contracts/normalization.rs:163-176 | Between two neighbouring cutpoints a threshold map gives exactly that band's score. |

## Left out

- Chunk-page writing (`push_chunk`, `write_chunks`), projection hashing and the planning accumulator: the index and the gate chain show how planning cuts and writes pages.
- JSON encoding and decoding: sizes and headers are arbitrary functions, except the lengths of index entries and pages; storage aliases, object keys, schemas and digest syntax are not checked.
- Case payloads: a record is its ordinal, hash and encoded size; payload validation and duplicate case IDs inside one file are not part of this model.
- Object removal, connection probing, staging quotas, semaphores and temporary files of the blob store.
- Publication, finalization, cleanup, abort and expiry of uploads and plans beyond losing the lease.
- Cancellation and I/O errors of the external sort; SQL itself, which appears as atomic steps on values.
- The admission protocol's metadata deadline and per-placement group sizes.
- Floating-point rounding, infinities and NaN: scores are reals.
- Generation wrap-around of a circuit breaker after 2^64 transitions, and overflow of instants.
- Error texts, and which of several applicable scorecard errors is reported first.
- Status counts and JSON summaries of an aggregation outcome.
- Message queues, the outbox, the shard mover, evaluator packages, WebAssembly execution and the command line.
- UniqueIds.CheckUnique: IDs are numbers ordered as their big-endian bytes, and the heap is a set of pairs with a least element.
- Upload.UploadSafety: a write either takes effect or not in one step; the requests inside it are modelled in `BlobStore`. Expiry stands for every way a lease is given up, and the files are those of one dataset, so none lies past its case count.
- AdmissionRuns.AdmissionSafety: a placement is seeded in one step and read back in one step; the pages of a read-back are `PlacementCheck.VerifyRows`, and seeding compares chunk rows only, not local run snapshots.
