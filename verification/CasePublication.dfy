/**
  From published files to a worker's cases: over a dataset index and a chunk
  index built as planning builds them, the claim of every planned chunk is
  prepared, and draining it yields that chunk's slice of the dataset.
 */
module CasePublication {
  import opened Base
  import opened IndexFormat
  import opened IndexTraversal
  import opened IndexBuilding
  import opened ShardPlan
  import opened CaseReading

  // ----- an index read from a store that has grown since it was built -----

  ghost predicate Serves(store: Store<Content>, kind: IndexKind, limits: Limits, root: IndexDescriptor,
                         children: seq<IndexEntry>)
  {
    var page := Open(store, root, kind, limits);
    && page.Some? && Contiguous(children) && children != []
    && Sound(store, kind, limits, root.level, page.value.entries)
    && Leaves(store, kind, limits, root.level, page.value.entries) == children
  }

  lemma BuiltServes(store: Store<Content>, kind: IndexKind, limits: Limits, codec: Codec, children: seq<IndexEntry>,
                    built: Built<Content>, later: Store<Content>)
    requires Contiguous(children) && children != [] && Sound(store, kind, limits, 0, children)
    requires IndexSpec(store, kind, limits, codec, 0, children) == Some(built) && Extends(built.store, later)
    ensures Serves(later, kind, limits, built.root, children)
  {
    BuiltMeansChildren(store, kind, limits, codec, 0, children);
    LeavesOfLeaves(store, kind, limits, children);
    var page := Open(built.store, built.root, kind, limits).value;
    Grow(built.store, later, kind, limits, built.root.level, page.entries);
  }

  /** A served index covers exactly its children's range, and a walk that fits delivers what meets the request. */
  lemma ServedWalk(store: Store<Content>, kind: IndexKind, limits: Limits, root: IndexDescriptor,
                   children: seq<IndexEntry>, lo: int, hi: int)
    requires Serves(store, kind, limits, root, children)
    requires !WalkRoot(store, kind, limits, root, lo, hi).failed
    ensures WalkRoot(store, kind, limits, root, lo, hi).entries == Select(children, lo, hi)
    ensures root.start == children[0].start && root.end == children[|children| - 1].end
  {
    var page := Open(store, root, kind, limits).value;
    WalkSelects(store, kind, limits, root.level, page.entries, root.file.byteCount, lo, hi);
    LeavesSpan(store, kind, limits, root.level, page.entries, root.start, root.end);
  }

  // ----- the published plan -----

  /** Chunk i of a run over the given cases, as planning publishes it. */
  predicate PlanChunk(c: PlannedChunk, i: int, all: seq<CaseRecord>) {
    && 0 <= i * 100 < |all|
    && c.index == i && c.start == i * 100 && c.end == Min((i + 1) * 100, |all|)
    && c.shard == i % 128 && !Blank(c.group) && Utf8Length(c.group) <= 1024
    && c.projection == Projection(all[c.start..c.end])
  }

  ghost predicate PlanOf(chunks: seq<PlannedChunk>, all: seq<CaseRecord>) {
    && |chunks| == ChunkTotal(|all|) && (forall i :: 0 <= i < |chunks| ==> PlanChunk(chunks[i], i, all))
    && forall i, j :: 0 <= i < |chunks| && 0 <= j < |chunks| && i != j ==> chunks[i].id != chunks[j].id
  }

  /** Chunk files that hold the plan's chunks in order, file by file. */
  ghost predicate HoldsPlan(store: Store<Content>, run: int, limits: Limits, files: seq<IndexEntry>,
                            chunks: seq<PlannedChunk>)
  {
    forall k :: 0 <= k < |files| ==> HoldsPart(store, run, limits, files[k], chunks)
  }

  predicate HoldsPart(store: Store<Content>, run: int, limits: Limits, file: IndexEntry, chunks: seq<PlannedChunk>) {
    && 0 <= file.start < file.end <= |chunks| && file.end - file.start <= limits.pageEntries && file.file in store
    && store[file.file] == Leaf(Chunks(ChunkPage(run, file.start, file.end, chunks[file.start..file.end])))
  }

  /** Such a file passes every check of a reader. */
  lemma PartIsChunkFile(store: Store<Content>, run: int, limits: Limits, file: IndexEntry, chunks: seq<PlannedChunk>,
                        all: seq<CaseRecord>)
    requires HoldsPart(store, run, limits, file, chunks) && PlanOf(chunks, all)
    ensures ChunkFile(store[file.file].content, file, run, limits)
  {
    var page := store[file.file].content.page;
    forall i | 0 <= i < |page.chunks|
      ensures ValidChunk(page.chunks[i]) && page.chunks[i].index == page.start + i
    {
      assert PlanChunk(chunks[file.start + i], file.start + i, all);
    }
    forall i, j | 0 <= i < |page.chunks| && 0 <= j < |page.chunks| && j == i + 1
      ensures page.chunks[i].end == page.chunks[j].start
    {
      assert PlanChunk(chunks[file.start + i], file.start + i, all);
      assert PlanChunk(chunks[file.start + j], file.start + j, all);
    }
  }

  /** The claim a dispatcher hands out for a planned chunk. */
  function ClaimOf(config: ReaderConfig, c: PlannedChunk): ClaimedChunk {
    ClaimedChunk(config.run, config.version, c.id, c.shard, c.start, c.end, c.group)
  }

  /** Everything a run's reader relies on: both indexes, the files below them, and their totals. */
  ghost predicate Published(store: Store<Content>, config: ReaderConfig, batches: seq<IndexEntry>,
                            files: seq<IndexEntry>, all: seq<CaseRecord>, chunks: seq<PlannedChunk>)
  {
    && Serves(store, DatasetBatches, config.limits, config.batches, batches)
    && Holds(store, config.dataset, batches, all)
    && batches[0].start == 0 && batches[|batches| - 1].end == |all| == config.caseCount
    && Serves(store, RunChunks, config.limits, config.chunks, files)
    && HoldsPlan(store, config.run, config.limits, files, chunks)
    && files[0].start == 0 && files[|files| - 1].end == |chunks|
    && PlanOf(chunks, all)
  }

  /** Both indexes built, in whatever order and with whatever else in the store, publish the run. */
  lemma BuiltIsPublished(store: Store<Content>, config: ReaderConfig,
                         batchStore: Store<Content>, batchCodec: Codec, batches: seq<IndexEntry>,
                         dataset: Built<Content>, chunkStore: Store<Content>, chunkCodec: Codec,
                         files: seq<IndexEntry>, plan: Built<Content>,
                         all: seq<CaseRecord>, chunks: seq<PlannedChunk>)
    requires Contiguous(batches) && batches != [] && Sound(batchStore, DatasetBatches, config.limits, 0, batches)
    requires IndexSpec(batchStore, DatasetBatches, config.limits, batchCodec, 0, batches) == Some(dataset)
    requires Contiguous(files) && files != [] && Sound(chunkStore, RunChunks, config.limits, 0, files)
    requires IndexSpec(chunkStore, RunChunks, config.limits, chunkCodec, 0, files) == Some(plan)
    requires Extends(dataset.store, store) && Extends(plan.store, store)
    requires config.batches == dataset.root && config.chunks == plan.root
    requires Holds(store, config.dataset, batches, all) && HoldsPlan(store, config.run, config.limits, files, chunks)
    requires batches[0].start == 0 && batches[|batches| - 1].end == |all| == config.caseCount
    requires files[0].start == 0 && files[|files| - 1].end == |chunks| && PlanOf(chunks, all)
    ensures Published(store, config, batches, files, all, chunks)
  {
    BuiltServes(batchStore, DatasetBatches, config.limits, batchCodec, batches, dataset, store);
    BuiltServes(chunkStore, RunChunks, config.limits, chunkCodec, files, plan, store);
  }

  // ----- finding one chunk -----

  /** One position of contiguous ranges meets exactly one of them. */
  lemma {:induction false} SelectOne(rows: seq<IndexEntry>, i: int) returns (k: int)
    requires Contiguous(rows) && rows != [] && rows[0].start <= i < rows[|rows| - 1].end
    ensures 0 <= k < |rows| && rows[k].start <= i < rows[k].end && Select(rows, i, i + 1) == [rows[k]]
    decreases |rows|
  {
    var rest := rows[1..];
    if i < rows[0].end {
      k := 0;
      LaterRowsMiss(rows, i);
      assert [rows[0]] + [] == [rows[0]];
    } else {
      assert |rows| > 1;
      ContiguousSlice(rows, 1, |rows|);
      assert rows[1..|rows|] == rest && rows[0].end == rows[1].start;
      var m := SelectOne(rest, i);
      k := m + 1;
      assert [] + Select(rest, i, i + 1) == Select(rest, i, i + 1);
    }
  }

  lemma LaterRowsMiss(rows: seq<IndexEntry>, i: int)
    requires Contiguous(rows) && rows != [] && i < rows[0].end
    ensures Select(rows[1..], i, i + 1) == []
  {
    forall e | e in rows[1..]
      ensures !Overlaps(e, i, i + 1)
    {
      var j :| 0 < j < |rows| && rows[j] == e;
      ContiguousOrder(rows, 0, j);
    }
    SelectNone(rows[1..], i, i + 1);
  }

  /** A file that holds the chunk at its position is where the claim is looked up. */
  lemma FoundIn(store: Store<Content>, config: ReaderConfig, file: IndexEntry, chunks: seq<PlannedChunk>, i: int)
    requires HoldsPart(store, config.run, config.limits, file, chunks) && file.start <= i < file.end
    requires ChunkFile(store[file.file].content, file, config.run, config.limits)
    requires chunks[i].start == i * 100 && config.chunks.start <= i < config.chunks.end
    requires WalkRoot(store, RunChunks, config.limits, config.chunks, i, i + 1).entries == [file]
    ensures PlannedFor(store, config, ClaimOf(config, chunks[i])) == Some(chunks[i])
  {
    assert store[file.file].content.page.chunks[i - file.start] == chunks[i];
    assert ClaimOf(config, chunks[i]).start / 100 == i;
  }

  /** The claim of chunk i finds chunk i. */
  lemma PlannedIsFound(store: Store<Content>, config: ReaderConfig, batches: seq<IndexEntry>, files: seq<IndexEntry>,
                       all: seq<CaseRecord>, chunks: seq<PlannedChunk>, i: int)
    requires Published(store, config, batches, files, all, chunks) && 0 <= i < |chunks|
    requires !WalkRoot(store, RunChunks, config.limits, config.chunks, i, i + 1).failed
    ensures PlannedFor(store, config, ClaimOf(config, chunks[i])) == Some(chunks[i])
  {
    assert PlanChunk(chunks[i], i, all);
    ServedWalk(store, RunChunks, config.limits, config.chunks, files, i, i + 1);
    var k := SelectOne(files, i);
    assert HoldsPart(store, config.run, config.limits, files[k], chunks);
    PartIsChunkFile(store, config.run, config.limits, files[k], chunks, all);
    FoundIn(store, config, files[k], chunks, i);
  }

  /** Its cases are its slice of the dataset. */
  lemma SliceIsAssigned(store: Store<Content>, config: ReaderConfig, batches: seq<IndexEntry>, all: seq<CaseRecord>,
                        lo: int, hi: int)
    requires Serves(store, DatasetBatches, config.limits, config.batches, batches)
    requires Holds(store, config.dataset, batches, all)
    requires batches[0].start == 0 && batches[|batches| - 1].end == |all| && 0 <= lo < hi <= |all|
    requires !WalkRoot(store, DatasetBatches, config.limits, config.batches, lo, hi).failed
    ensures Assigned(store, config, lo, hi, Projection(all[lo..hi])) == Some(all[lo..hi])
    ensures config.batches.start == 0 && config.batches.end == |all|
  {
    ServedWalk(store, DatasetBatches, config.limits, config.batches, batches, lo, hi);
    SelectedSlice(store, config.dataset, batches, all, lo, hi);
    AssignedFrom(store, config, lo, hi, all[lo..hi]);
  }

  /** Both walks of chunk i stay within the working set. */
  ghost predicate WalksFit(store: Store<Content>, config: ReaderConfig, c: PlannedChunk, i: int) {
    && !WalkRoot(store, RunChunks, config.limits, config.chunks, i, i + 1).failed
    && !WalkRoot(store, DatasetBatches, config.limits, config.batches, c.start, c.end).failed
  }

  /**
    Every chunk of a published run whose walks fit the working set is
    preparable, and its cases are its hundred ordinals of the dataset.
   */
  lemma PublishedChunkPrepared(store: Store<Content>, config: ReaderConfig, batches: seq<IndexEntry>,
                               files: seq<IndexEntry>, all: seq<CaseRecord>, chunks: seq<PlannedChunk>, i: int)
    requires Published(store, config, batches, files, all, chunks) && 0 <= i < |chunks|
    requires WalksFit(store, config, chunks[i], i)
    ensures var claim := ClaimOf(config, chunks[i]);
            var cases := all[i * 100..Min((i + 1) * 100, |all|)];
            && Preparable(store, config, claim)
            && PlannedFor(store, config, claim) == Some(chunks[i])
            && Assigned(store, config, claim.start, claim.end, chunks[i].projection) == Some(cases)
  {
    assert PlanChunk(chunks[i], i, all);
    PlannedIsFound(store, config, batches, files, all, chunks, i);
    SliceIsAssigned(store, config, batches, all, chunks[i].start, chunks[i].end);
  }

  /** Prepares a claim and drains it, as a worker does. */
  method ReadChunk(store: Store<Content>, config: ReaderConfig, claim: ClaimedChunk)
    returns (r: Result<seq<CaseRecord>, PrepareError>)
    ensures r.Ok? <==> Preparable(store, config, claim)
    ensures r.Ok? ==> Delivers(store, config, claim, r.value)
    ensures forall batches, files, all: seq<CaseRecord>, chunks: seq<PlannedChunk>, i |
              && Published(store, config, batches, files, all, chunks) && 0 <= i < |chunks|
              && claim == ClaimOf(config, chunks[i]) && WalksFit(store, config, chunks[i], i) ::
              r == Ok(all[i * 100..Min((i + 1) * 100, |all|)])
  {
    forall batches, files, all: seq<CaseRecord>, chunks: seq<PlannedChunk>, i |
        && Published(store, config, batches, files, all, chunks) && 0 <= i < |chunks|
        && claim == ClaimOf(config, chunks[i]) && WalksFit(store, config, chunks[i], i)
      ensures Preparable(store, config, claim)
      ensures Assigned(store, config, claim.start, claim.end, PlannedFor(store, config, claim).value.projection)
              == Some(all[i * 100..Min((i + 1) * 100, |all|)])
    {
      PublishedChunkPrepared(store, config, batches, files, all, chunks, i);
    }
    var prepared := Prepare(store, config, claim);
    if prepared.Err? {
      return Err(prepared.error);
    }
    var cases, ok := DrainPrepared(store, prepared.value);
    return if ok then Ok(cases) else Err(MembershipDiffers);
  }

  /** What a worker can rely on: its own run and dataset, every ordinal of the claim once, and the planned hashes. */
  ghost predicate Delivers(store: Store<Content>, config: ReaderConfig, claim: ClaimedChunk, cases: seq<CaseRecord>) {
    && claim.run == config.run && claim.version == config.version
    && |cases| == claim.end - claim.start
    && (forall k :: 0 <= k < |cases| ==> cases[k].ordinal == claim.start + k)
    && exists file: IndexEntry, k ::
         && file.file in store && store[file.file].Leaf? && store[file.file].content.Chunks?
         && store[file.file].content.page.run == config.run
         && 0 <= k < |store[file.file].content.page.chunks|
         && Planned(store[file.file].content.page.chunks[k], claim, cases)
  }

  /** A published chunk with the claim's identity, range and group, and the hashes of these cases. */
  predicate Planned(c: PlannedChunk, claim: ClaimedChunk, cases: seq<CaseRecord>) {
    && c.id == claim.id && c.shard == claim.shard && c.group == claim.group
    && c.start == claim.start && c.end == claim.end
    && |c.projection| == |cases|
    && forall k :: 0 <= k < |cases| ==> c.projection[k] == (cases[k].ordinal, cases[k].caseHash)
  }
}
