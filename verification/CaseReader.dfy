/**
  Worker-side reads of one claimed chunk: the chunk is checked against the
  immutable plan, its cases are proved complete in one pass, and then they are
  delivered either from memory or by reading the same files again.
 */
module CaseReading {
  import opened Base
  import opened IndexFormat
  import opened IndexTraversal
  import opened IndexBuilding

  datatype CaseRecord = CaseRecord(ordinal: int, caseHash: int, encodedBytes: nat)

  datatype CaseBatch = CaseBatch(dataset: int, start: int, end: int, records: seq<CaseRecord>)

  datatype PlannedChunk = PlannedChunk(index: int, id: int, shard: int, start: int, end: int, group: string,
                                       projection: seq<(int, int)>)

  datatype ChunkPage = ChunkPage(run: int, start: int, end: int, chunks: seq<PlannedChunk>)

  datatype Content = Cases(batch: CaseBatch) | Chunks(page: ChunkPage)

  datatype ClaimedChunk = ClaimedChunk(run: int, version: int, id: int, shard: int, start: int, end: int, group: string)

  datatype ReaderConfig = ReaderConfig(run: int, version: int, dataset: int, caseCount: int, limits: Limits,
                                       chunks: IndexDescriptor,
                                       batches: IndexDescriptor, residentBatchBytes: nat, batchMaxBytes: nat)

  datatype PrepareError = InvalidChunk | PlanMismatch | IndexError(cause: ReadError) | CorruptBatch | GapOrOverlap
                        | MembershipDiffers

  // ----- reference semantics -----

  function InRange(records: seq<CaseRecord>, lo: int, hi: int): seq<CaseRecord> {
    if records == [] then []
    else (if lo <= records[0].ordinal < hi then [records[0]] else []) + InRange(records[1..], lo, hi)
  }

  /** What full consumption of a case file checks. */
  predicate ValidBatch(b: CaseBatch) {
    && 0 <= b.start < b.end
    && |b.records| == b.end - b.start
    && forall i :: 0 <= i < |b.records| ==> b.records[i].ordinal == b.start + i
  }

  predicate Belongs(content: Content, entry: IndexEntry, dataset: int) {
    && content.Cases?
    && ValidBatch(content.batch)
    && content.batch.dataset == dataset
    && content.batch.start == entry.start
    && content.batch.end == entry.end
  }

  predicate Readable(store: Store<Content>, entry: IndexEntry, dataset: int) {
    entry.file in store && store[entry.file].Leaf? && Belongs(store[entry.file].content, entry, dataset)
  }

  /** The in-range records of a list of files, or nothing if a file is corrupt. */
  ghost function Scan(store: Store<Content>, dataset: int, entries: seq<IndexEntry>, lo: int, hi: int)
    : Option<seq<CaseRecord>>
  {
    if entries == [] then Some([])
    else
      var rest := Scan(store, dataset, entries[1..], lo, hi);
      if !Readable(store, entries[0], dataset) || rest.None? then None
      else Some(InRange(store[entries[0].file].content.batch.records, lo, hi) + rest.value)
  }

  /** The second reading, which also refuses a file that contributes nothing. */
  ghost function Redeliver(store: Store<Content>, dataset: int, entries: seq<IndexEntry>, lo: int, hi: int)
    : Option<seq<CaseRecord>>
  {
    if entries == [] then Some([])
    else
      var rest := Redeliver(store, dataset, entries[1..], lo, hi);
      if !Readable(store, entries[0], dataset) || rest.None? then None
      else
        var cases := InRange(store[entries[0].file].content.batch.records, lo, hi);
        if cases == [] then None else Some(cases + rest.value)
  }

  lemma {:induction false} ScanAppend(store: Store<Content>, dataset: int, entries: seq<IndexEntry>, last: IndexEntry,
                                      lo: int, hi: int)
    ensures var before := Scan(store, dataset, entries, lo, hi);
            var all := Scan(store, dataset, entries + [last], lo, hi);
            && (all.Some? <==> before.Some? && Readable(store, last, dataset))
            && (all.Some? ==> all.value == before.value + InRange(store[last.file].content.batch.records, lo, hi))
  {
    if entries == [] {
      assert entries + [last] == [last] && [last][1..] == [];
    } else {
      assert (entries + [last])[1..] == entries[1..] + [last];
      ScanAppend(store, dataset, entries[1..], last, lo, hi);
    }
  }

  lemma {:induction false} ScanPrefix(store: Store<Content>, dataset: int, entries: seq<IndexEntry>,
                                      more: seq<IndexEntry>, lo: int, hi: int)
    requires Scan(store, dataset, entries + more, lo, hi).Some?
    ensures Scan(store, dataset, entries, lo, hi).Some?
    ensures Scan(store, dataset, entries, lo, hi).value <= Scan(store, dataset, entries + more, lo, hi).value
  {
    if entries != [] {
      assert (entries + more)[1..] == entries[1..] + more;
      ScanPrefix(store, dataset, entries[1..], more, lo, hi);
    }
  }

  /** Consecutive ordinals from the start of the chunk. */
  predicate Consecutive(cases: seq<CaseRecord>, lo: int) {
    forall i :: 0 <= i < |cases| ==> cases[i].ordinal == lo + i
  }

  function Projection(cases: seq<CaseRecord>): seq<(int, int)> {
    seq(|cases|, i requires 0 <= i < |cases| => (cases[i].ordinal, cases[i].caseHash))
  }

  function Bytes(cases: seq<CaseRecord>): nat {
    if cases == [] then 0 else Bytes(cases[..|cases| - 1]) + cases[|cases| - 1].encodedBytes
  }

  /** The cases of one chunk, if every file it touches is sound and membership matches the plan. */
  ghost function Assigned(store: Store<Content>, config: ReaderConfig, lo: int, hi: int, planned: seq<(int, int)>)
    : Option<seq<CaseRecord>>
  {
    var walk := WalkRoot(store, DatasetBatches, config.limits, config.batches, lo, hi);
    var scan := Scan(store, config.dataset, walk.entries, lo, hi);
    if !walk.failed && scan.Some? && Consecutive(scan.value, lo) && |scan.value| == hi - lo
       && Projection(scan.value) == planned
    then scan else None
  }

  // ----- preparation -----

  /** What one pass has seen so far. */
  datatype Pass = Pass(seen: nat, retained: nat, cached: bool, cases: seq<CaseRecord>, hash: seq<(int, int)>)

  ghost predicate PassOf(p: Pass, all: seq<CaseRecord>, lo: int, budget: nat) {
    && p.seen == |all|
    && Consecutive(all, lo)
    && p.hash == Projection(all)
    && p.retained <= budget
    && (p.cached ==> p.cases == all && p.retained == Bytes(all))
    && (!p.cached ==> p.cases == [] && Bytes(all) > budget)
  }

  /** Hashes one record and keeps it in memory while the budget lasts. */
  function Remember(p: Pass, record: CaseRecord, budget: nat): Pass {
    var hashed := p.(seen := p.seen + 1, hash := p.hash + [(record.ordinal, record.caseHash)]);
    if p.cached && p.retained + record.encodedBytes <= budget
    then hashed.(retained := p.retained + record.encodedBytes, cases := p.cases + [record])
    else hashed.(cached := false, cases := [])
  }

  lemma RememberPass(p: Pass, seen: seq<CaseRecord>, record: CaseRecord, lo: int, budget: nat)
    requires PassOf(p, seen, lo, budget) && record.ordinal == lo + p.seen
    ensures PassOf(Remember(p, record, budget), seen + [record], lo, budget)
  {
  }

  lemma InRangeNext(seen: seq<CaseRecord>, records: seq<CaseRecord>, i: int, lo: int, hi: int)
    requires 0 <= i < |records|
    ensures seen + InRange(records[i..], lo, hi)
         == (if lo <= records[i].ordinal < hi then seen + [records[i]] else seen) + InRange(records[i + 1..], lo, hi)
  {
    assert records[i..][0] == records[i] && records[i..][1..] == records[i + 1..];
  }

  /** Folds one file's selected records into the pass. */
  method Fold(records: seq<CaseRecord>, lo: int, hi: int, budget: nat, before: Pass, ghost all: seq<CaseRecord>)
    returns (r: Result<Pass, PrepareError>)
    requires PassOf(before, all, lo, budget)
    ensures r.Ok? <==> Consecutive(all + InRange(records, lo, hi), lo)
    ensures r.Ok? ==> PassOf(r.value, all + InRange(records, lo, hi), lo, budget)
  {
    var p := before;
    ghost var seen, total := all, all + InRange(records, lo, hi);
    assert records[0..] == records;
    for i := 0 to |records|
      invariant PassOf(p, seen, lo, budget)
      invariant total == seen + InRange(records[i..], lo, hi)
    {
      var record := records[i];
      InRangeNext(seen, records, i, lo, hi);
      if record.ordinal < lo || record.ordinal >= hi {
        continue;
      }
      if record.ordinal != lo + p.seen {
        assert total[|seen|] == record;
        return Err(GapOrOverlap);
      }
      RememberPass(p, seen, record, lo, budget);
      p := Remember(p, record, budget);
      seen := seen + [record];
    }
    assert seen + [] == seen;
    return Ok(p);
  }

  /** A chunk page numbers its chunks consecutively over a contiguous run of ordinals. */
  predicate ValidChunkPage(page: ChunkPage, limits: Limits) {
    && 0 <= page.start < page.end
    && |page.chunks| == page.end - page.start <= limits.pageEntries
    && (forall i :: 0 <= i < |page.chunks| ==> ValidChunk(page.chunks[i]) && page.chunks[i].index == page.start + i)
    && (forall i, j :: 0 <= i < |page.chunks| && 0 <= j < |page.chunks| && j == i + 1 ==>
          page.chunks[i].end == page.chunks[j].start)
    && (forall i, j :: 0 <= i < |page.chunks| && 0 <= j < |page.chunks| && i < j ==>
          page.chunks[i].id != page.chunks[j].id)
  }

  predicate ValidChunk(c: PlannedChunk) {
    && 0 <= c.start < c.end && c.end - c.start <= 100 && 0 <= c.shard < 128
    && !Blank(c.group) && Utf8Length(c.group) <= 1024
  }

  /** On a page that passes, no two chunks share an ordinal or an ID, and n chunks span at most 100 * n ordinals. */
  lemma {:induction false} ChunksApart(page: ChunkPage, limits: Limits, i: int, j: int)
    requires ValidChunkPage(page, limits) && 0 <= i < j < |page.chunks|
    ensures page.chunks[i].start < page.chunks[i].end <= page.chunks[j].start < page.chunks[j].end
    ensures page.chunks[j].end - page.chunks[i].start <= 100 * (j - i + 1)
    ensures page.chunks[i].id != page.chunks[j].id
    decreases j
  {
    assert page.chunks[j - 1].end == page.chunks[j].start;
    assert ValidChunk(page.chunks[i]) && ValidChunk(page.chunks[j]);
    if i < j - 1 {
      ChunksApart(page, limits, i, j - 1);
    }
  }

  predicate Claims(chunk: ClaimedChunk, c: PlannedChunk) {
    c.id == chunk.id && c.shard == chunk.shard && c.start == chunk.start && c.end == chunk.end && c.group == chunk.group
  }

  predicate ChunkFile(content: Content, entry: IndexEntry, run: int, limits: Limits) {
    content.Chunks? && ValidChunkPage(content.page, limits) && content.page.run == run
    && content.page.start == entry.start && content.page.end == entry.end
  }

  /** The plan's own chunk at the claimed position, if the published page there holds exactly the claim. */
  ghost function PlannedFor(store: Store<Content>, config: ReaderConfig, chunk: ClaimedChunk): Option<PlannedChunk> {
    var index := chunk.start / 100;
    var walk := WalkRoot(store, RunChunks, config.limits, config.chunks, index, index + 1);
    if !(config.chunks.start <= index < config.chunks.end) || walk.entries == [] then None
    else
      var entry := walk.entries[0];
      if entry.file !in store || store[entry.file].Page?
         || !ChunkFile(store[entry.file].content, entry, chunk.run, config.limits)
         || !(entry.start <= index < entry.end) then None
      else
        var c := store[entry.file].content.page.chunks[index - entry.start];
        if Claims(chunk, c) then Some(c) else None
  }

  /** Finds the claimed chunk in the published plan. */
  method FindPlanned(store: Store<Content>, config: ReaderConfig, chunk: ClaimedChunk)
    returns (r: Result<PlannedChunk, PrepareError>)
    ensures r.Ok? <==> PlannedFor(store, config, chunk).Some?
    ensures r.Ok? ==> PlannedFor(store, config, chunk) == Some(r.value)
  {
    var index := chunk.start / 100;
    var request := IndexCursor.Request(config.chunks, RunChunks, index, index + 1);
    if request.Err? {
      return Err(IndexError(request.error));
    }
    var next := request.value.Next(store, config.limits);
    if next.Err? {
      return Err(IndexError(next.error));
    }
    if next.value.None? {
      return Err(PlanMismatch);
    }
    var (entry, content) := next.value.value;
    if !ChunkFile(content, entry, chunk.run, config.limits) {
      return Err(PlanMismatch);
    }
    var found := ChunkAt(content.page, index, config.limits);
    if found.Some? && Claims(chunk, found.value) {
      return Ok(found.value);
    }
    return Err(PlanMismatch);
  }

  /** A linear search that ends at the chunk's own position. */
  method ChunkAt(page: ChunkPage, index: int, limits: Limits) returns (r: Option<PlannedChunk>)
    requires ValidChunkPage(page, limits)
    ensures r == if page.start <= index < page.end then Some(page.chunks[index - page.start]) else None
  {
    for i := 0 to |page.chunks|
      invariant !(page.start <= index < page.start + i)
    {
      if page.chunks[i].index == index {
        return Some(page.chunks[i]);
      }
    }
    return None;
  }

  /** One full pass over the files of a chunk, proving membership. */
  method ProveMembership(store: Store<Content>, config: ReaderConfig, lo: int, hi: int, planned: seq<(int, int)>,
                         budget: nat)
    returns (r: Result<Pass, PrepareError>)
    requires lo <= hi
    ensures r.Ok? <==> && config.batches.start <= lo < hi <= config.batches.end
                       && Assigned(store, config, lo, hi, planned).Some?
    ensures r.Ok? ==> PassOf(r.value, Assigned(store, config, lo, hi, planned).value, lo, budget)
  {
    var request := IndexCursor.Request(config.batches, DatasetBatches, lo, hi);
    if request.Err? {
      return Err(IndexError(request.error));
    }
    var cursor := request.value;
    var p := Pass(0, 0, true, [], []);
    ghost var walk := WalkRoot(store, DatasetBatches, config.limits, config.batches, lo, hi);
    ghost var entries: seq<IndexEntry>, all: seq<CaseRecord> := [], [];
    assert Then(Walk([], false), walk).entries == walk.entries;
    while true
      invariant fresh(cursor) && cursor.Valid() && cursor.kind == DatasetBatches && cursor.start == lo
                && cursor.end == hi
      invariant walk == Then(Walk(entries, false), cursor.Pending(store, config.limits))
      invariant Scan(store, config.dataset, entries, lo, hi) == Some(all)
      invariant PassOf(p, all, lo, budget)
      decreases |walk.entries| - |entries|
    {
      var next := cursor.Next(store, config.limits);
      if next.Err? {
        return Err(IndexError(next.error));
      }
      if next.value.None? {
        break;
      }
      var (entry, content) := next.value.value;
      ThenAssociative(Walk(entries, false), Walk([entry], false), cursor.Pending(store, config.limits));
      ghost var rest := cursor.Pending(store, config.limits).entries;
      assert walk.entries == (entries + [entry]) + rest;
      ScanAppend(store, config.dataset, entries, entry, lo, hi);
      NoScan(store, config, entries + [entry], rest, lo, hi);
      if !Belongs(content, entry, config.dataset) {
        return Err(CorruptBatch);
      }
      var folded := Fold(content.batch.records, lo, hi, budget, p, all);
      if folded.Err? {
        return Err(folded.error);
      }
      p := folded.value;
      entries, all := entries + [entry], all + InRange(content.batch.records, lo, hi);
    }
    assert walk.entries == entries;
    if p.seen != hi - lo || p.hash != planned {
      return Err(MembershipDiffers);
    }
    return Ok(p);
  }

  /** A corrupt or gapped prefix spoils the whole assignment. */
  lemma NoScan(store: Store<Content>, config: ReaderConfig, prefix: seq<IndexEntry>, rest: seq<IndexEntry>, lo: int,
               hi: int)
    ensures var part := Scan(store, config.dataset, prefix, lo, hi);
            var all := Scan(store, config.dataset, prefix + rest, lo, hi);
            && (part.None? ==> all.None?)
            && (part.Some? && all.Some? && !Consecutive(part.value, lo) ==> !Consecutive(all.value, lo))
  {
    var all := Scan(store, config.dataset, prefix + rest, lo, hi);
    if all.Some? {
      ScanPrefix(store, config.dataset, prefix, rest, lo, hi);
      var part := Scan(store, config.dataset, prefix, lo, hi).value;
      if !Consecutive(part, lo) {
        var i :| 0 <= i < |part| && part[i].ordinal != lo + i;
        assert all.value[i] == part[i];
      }
    }
  }

  /** The records of a file that lie in the claimed range. */
  method FilterRange(records: seq<CaseRecord>, lo: int, hi: int) returns (cases: seq<CaseRecord>)
    ensures cases == InRange(records, lo, hi)
  {
    cases := [];
    assert records[0..] == records;
    for i := 0 to |records|
      invariant cases + InRange(records[i..], lo, hi) == InRange(records, lo, hi)
    {
      InRangeNext(cases, records, i, lo, hi);
      if lo <= records[i].ordinal < hi {
        cases := cases + [records[i]];
      }
    }
  }

  /** A verified assignment: one bounded vector, or a second traversal. */
  class PreparedCases {
    var cached: Option<seq<CaseRecord>>
    const cursor: Option<IndexCursor>
    const config: ReaderConfig
    const lo: int
    const hi: int

    ghost predicate Valid()
      reads this, if cursor.Some? then {cursor.value} else {}
    {
      && lo < hi
      && (cached.Some? ==> cursor.None?)
      && (cursor.Some? ==> && cursor.value.Valid() && cursor.value.kind == DatasetBatches
                           && cursor.value.start == lo && cursor.value.end == hi)
    }

    /** The cases still to be delivered; None once some file can no longer be read. */
    ghost function Undelivered(store: Store<Content>): Option<seq<CaseRecord>>
      reads this, if cursor.Some? then {cursor.value} else {}
      requires Valid()
    {
      if cached.Some? then cached
      else if cursor.None? then Some([])
      else
        var walk := cursor.value.Pending(store, config.limits);
        if walk.failed then None else Redeliver(store, config.dataset, walk.entries, lo, hi)
    }

    ghost function Rounds(store: Store<Content>): nat
      reads this, if cursor.Some? then {cursor.value} else {}
      requires Valid()
    {
      if cached.Some? then 1
      else if cursor.None? then 0
      else |cursor.value.Pending(store, config.limits).entries|
    }

    constructor (cached: Option<seq<CaseRecord>>, cursor: Option<IndexCursor>, config: ReaderConfig, lo: int, hi: int)
      ensures this.cached == cached && this.cursor == cursor && this.config == config && this.lo == lo && this.hi == hi
    {
      this.cached := cached;
      this.cursor := cursor;
      this.config := config;
      this.lo := lo;
      this.hi := hi;
    }

    /** The next part of what is undelivered, in order; an error only if a file became unreadable. */
    method Next(store: Store<Content>) returns (r: Result<Option<seq<CaseRecord>>, PrepareError>)
      requires Valid()
      modifies this`cached, if cursor.Some? then {cursor.value} else {}
      ensures r.Err? ==> old(Undelivered(store)).None?
      ensures r.Ok? ==> Valid()
      ensures r.Ok? && r.value.None? ==> old(Undelivered(store)) == Some([]) == Undelivered(store)
      ensures r.Ok? && r.value.Some? ==> && (Undelivered(store).None? <==> old(Undelivered(store)).None?)
                                         && (Undelivered(store).Some? ==>
                                               old(Undelivered(store))
                                               == Some(r.value.value + Undelivered(store).value))
                                         && Rounds(store) < old(Rounds(store))
    {
      if cached.Some? {
        var cases := cached.value;
        cached := None;
        assert cases + [] == cases;
        return Ok(Some(cases));
      }
      if cursor.None? {
        return Ok(None);
      }
      ghost var walk := cursor.value.Pending(store, config.limits);
      var next := cursor.value.Next(store, config.limits);
      if next.Err? {
        return Err(IndexError(next.error));
      }
      if next.value.None? {
        return Ok(None);
      }
      var (entry, content) := next.value.value;
      ghost var rest := cursor.value.Pending(store, config.limits);
      assert walk.entries == [entry] + rest.entries;
      assert walk.entries[0] == entry && walk.entries[1..] == rest.entries;
      if !Belongs(content, entry, config.dataset) {
        return Err(CorruptBatch);
      }
      var cases := FilterRange(content.batch.records, lo, hi);
      if cases == [] {
        return Err(MembershipDiffers);
      }
      return Ok(Some(cases));
    }
  }

  /** A file that meets the request always contributes a case, and only such a file does. */
  lemma SelectedNonempty(b: CaseBatch, lo: int, hi: int)
    requires ValidBatch(b) && lo < hi && InRange(b.records, lo, hi) == []
    ensures b.end <= lo || b.start >= hi
  {
    if !(b.end <= lo || b.start >= hi) {
      var k := if b.start < lo then lo - b.start else 0;
      InRangeHas(b.records, k, lo, hi);
    }
  }

  lemma {:induction false} InRangeHas(records: seq<CaseRecord>, k: nat, lo: int, hi: int)
    requires k < |records| && lo <= records[k].ordinal < hi
    ensures records[k] in InRange(records, lo, hi)
  {
    if k > 0 {
      InRangeHas(records[1..], k - 1, lo, hi);
    }
  }

  /** Re-reading the files a traversal selects yields what the first pass saw. */
  lemma {:induction false} RedeliverIsScan(store: Store<Content>, dataset: int, entries: seq<IndexEntry>, lo: int,
                                           hi: int)
    requires lo < hi && forall e | e in entries :: Overlaps(e, lo, hi)
    ensures Redeliver(store, dataset, entries, lo, hi) == Scan(store, dataset, entries, lo, hi)
  {
    if entries != [] {
      assert entries[0] in entries;
      RedeliverIsScan(store, dataset, entries[1..], lo, hi);
      if Readable(store, entries[0], dataset) && InRange(store[entries[0].file].content.batch.records, lo, hi) == [] {
        SelectedNonempty(store[entries[0].file].content.batch, lo, hi);
      }
    }
  }

  lemma {:induction false} WalkOverlaps(store: Store<Content>, kind: IndexKind, limits: Limits, level: nat,
                                        rows: seq<IndexEntry>, resident: nat, lo: int, hi: int)
    ensures forall e | e in WalkRows(store, kind, limits, level, rows, resident, lo, hi).entries :: Overlaps(e, lo, hi)
    decreases level, |rows|
  {
    if rows != [] {
      WalkOverlaps(store, kind, limits, level, rows[1..], resident, lo, hi);
      var child := if level == 0 then None else Open(store, Edge(level, rows[0]), kind, limits);
      if child.Some? {
        WalkOverlaps(store, kind, limits, level - 1, child.value.entries, resident + rows[0].file.byteCount, lo, hi);
      }
    }
  }

  /** A claim of this run and dataset, found in the plan, whose cases are all there. */
  ghost predicate Preparable(store: Store<Content>, config: ReaderConfig, chunk: ClaimedChunk) {
    && chunk.run == config.run && chunk.version == config.version
    && 0 <= chunk.start < chunk.end <= config.caseCount && chunk.end - chunk.start <= 100
    && PlannedFor(store, config, chunk).Some?
    && config.batches.start <= chunk.start && chunk.end <= config.batches.end
    && Assigned(store, config, chunk.start, chunk.end, PlannedFor(store, config, chunk).value.projection).Some?
  }

  /**
    Preparation accepts exactly the chunks whose membership matches the plan;
    what is then delivered is the same on the cached and the re-read path.
   */
  method Prepare(store: Store<Content>, config: ReaderConfig, chunk: ClaimedChunk)
    returns (r: Result<PreparedCases, PrepareError>)
    ensures r.Ok? <==> Preparable(store, config, chunk)
    ensures r.Ok? ==>
              && fresh(r.value) && r.value.Valid() && (r.value.cursor.Some? ==> fresh(r.value.cursor.value))
              && var cases := Assigned(store, config, chunk.start, chunk.end,
                                       PlannedFor(store, config, chunk).value.projection);
                 && r.value.Undelivered(store) == cases
                 && (r.value.cached.Some? <==>
                       || Bytes(cases.value) == 0
                       || Bytes(cases.value) + config.batchMaxBytes <= config.residentBatchBytes)
  {
    if chunk.run != config.run || chunk.version != config.version
       || !(chunk.start >= 0 && chunk.end > chunk.start && chunk.end <= config.caseCount
            && chunk.end - chunk.start <= 100) {
      return Err(InvalidChunk);
    }
    var found := FindPlanned(store, config, chunk);
    if found.Err? {
      return Err(found.error);
    }
    var planned := found.value;
    var budget := SaturatingSub(config.residentBatchBytes, config.batchMaxBytes);
    var pass := ProveMembership(store, config, chunk.start, chunk.end, planned.projection, budget);
    if pass.Err? {
      return Err(pass.error);
    }
    ghost var cases := Assigned(store, config, chunk.start, chunk.end, planned.projection);
    if pass.value.cached {
      var prepared := new PreparedCases(Some(pass.value.cases), None, config, chunk.start, chunk.end);
      assert prepared.Undelivered(store) == cases;
      return Ok(prepared);
    }
    var cursor := new IndexCursor(config.batches, DatasetBatches, chunk.start, chunk.end);
    var prepared := new PreparedCases(None, Some(cursor), config, chunk.start, chunk.end);
    ghost var page := Open(store, config.batches, DatasetBatches, config.limits);
    WalkOverlaps(store, DatasetBatches, config.limits, config.batches.level, page.value.entries,
                 config.batches.file.byteCount, chunk.start, chunk.end);
    RedeliverIsScan(store, config.dataset, prepared.cursor.value.Pending(store, config.limits).entries, chunk.start,
                    chunk.end);
    assert prepared.Undelivered(store) == cases;
    return Ok(prepared);
  }

  function SaturatingSub(a: nat, b: nat): nat {
    if a < b then 0 else a - b
  }

  /** What was collected and what is left are together everything, or reading fails on both sides. */
  ghost predicate Splits(all: Option<seq<CaseRecord>>, cases: seq<CaseRecord>, left: Option<seq<CaseRecord>>) {
    (all.Some? <==> left.Some?) && (all.Some? ==> all.value == cases + left.value)
  }

  lemma SplitsNext(all: Option<seq<CaseRecord>>, cases: seq<CaseRecord>, left: Option<seq<CaseRecord>>,
                   part: seq<CaseRecord>, rest: Option<seq<CaseRecord>>)
    requires Splits(all, cases, left) && Splits(left, part, rest)
    ensures Splits(all, cases + part, rest)
  {
    if all.Some? {
      assert cases + (part + rest.value) == (cases + part) + rest.value;
    }
  }

  /** Drains a prepared chunk, as the worker does. */
  method DrainPrepared(store: Store<Content>, prepared: PreparedCases) returns (cases: seq<CaseRecord>, ok: bool)
    requires prepared.Valid()
    modifies prepared, if prepared.cursor.Some? then {prepared.cursor.value} else {}
    ensures ok <==> old(prepared.Undelivered(store)).Some?
    ensures ok ==> old(prepared.Undelivered(store)) == Some(cases)
  {
    cases := [];
    ghost var all := prepared.Undelivered(store);
    assert all.Some? ==> [] + all.value == all.value;
    while true
      invariant prepared.Valid()
      invariant Splits(all, cases, prepared.Undelivered(store))
      decreases prepared.Rounds(store)
    {
      ghost var left := prepared.Undelivered(store);
      var next := prepared.Next(store);
      if next.Err? {
        return cases, false;
      }
      if next.value.None? {
        assert cases + [] == cases;
        return cases, true;
      }
      SplitsNext(all, cases, left, next.value.value, prepared.Undelivered(store));
      cases := cases + next.value.value;
    }
  }

  // ----- end to end -----

  function Max(a: int, b: int): int {
    if a <= b then b else a
  }

  /** Files that hold a dataset's cases in order, file by file. */
  ghost predicate Holds(store: Store<Content>, dataset: int, entries: seq<IndexEntry>, all: seq<CaseRecord>) {
    && (forall i :: 0 <= i < |all| ==> all[i].ordinal == i)
    && forall i :: 0 <= i < |entries| ==> HoldsCases(store, dataset, entries[i], all)
  }

  /** The file holds exactly its range of the dataset. */
  predicate HoldsCases(store: Store<Content>, dataset: int, e: IndexEntry, all: seq<CaseRecord>) {
    && 0 <= e.start < e.end <= |all| && e.file in store
    && store[e.file] == Leaf(Cases(CaseBatch(dataset, e.start, e.end, all[e.start..e.end])))
  }

  /** Such a file passes every check of a reader. */
  lemma HeldIsReadable(store: Store<Content>, dataset: int, e: IndexEntry, all: seq<CaseRecord>)
    requires HoldsCases(store, dataset, e, all) && forall i :: 0 <= i < |all| ==> all[i].ordinal == i
    ensures Readable(store, e, dataset) && store[e.file].content.batch.records == all[e.start..e.end]
  {
  }

  /** Reading a range over such files selects exactly that slice of the dataset. */
  lemma {:induction false} ScanIsSlice(store: Store<Content>, dataset: int, entries: seq<IndexEntry>, k: nat,
                                       all: seq<CaseRecord>, lo: int, hi: int)
    requires k < |entries| && Contiguous(entries) && Holds(store, dataset, entries, all)
    requires 0 <= lo < hi <= entries[|entries| - 1].end
    ensures Scan(store, dataset, Select(entries[k..], lo, hi), lo, hi)
            == Some(SliceAfter(all, entries[k].start, lo, hi))
    decreases |entries| - k
  {
    var e := entries[k];
    assert entries[k..][0] == e && entries[k..][1..] == entries[k + 1..];
    var rest := Select(entries[k + 1..], lo, hi);
    if k + 1 < |entries| {
      ScanIsSlice(store, dataset, entries, k + 1, all, lo, hi);
      assert e.end == entries[k + 1].start;
    } else {
      assert entries[k + 1..] == [];
    }
    HeldIsReadable(store, dataset, e, all);
    SliceStep(all, e.start, e.end, lo, hi);
    if Overlaps(e, lo, hi) {
      ScanCons(store, dataset, e, rest, lo, hi);
    } else {
      assert [] + rest == rest;
    }
  }

  function SliceAfter(all: seq<CaseRecord>, from: int, lo: int, hi: int): seq<CaseRecord>
    requires 0 <= from && 0 <= lo <= hi <= |all|
  {
    if Max(lo, from) < hi then all[Max(lo, from)..hi] else []
  }

  lemma SliceStep(all: seq<CaseRecord>, start: nat, end: nat, lo: int, hi: int)
    requires start < end <= |all| && 0 <= lo < hi <= |all| && Consecutive(all, 0)
    ensures SliceAfter(all, start, lo, hi)
         == if end <= lo || start >= hi then SliceAfter(all, end, lo, hi)
            else InRange(all[start..end], lo, hi) + SliceAfter(all, end, lo, hi)
  {
    InRangeSlice(all, start, end, lo, hi);
    if !(end <= lo || start >= hi) {
      var a, b := Max(lo, start), Min(hi, end);
      assert all[a..b] + all[b..hi] == all[a..hi];
    }
  }

  lemma ScanCons(store: Store<Content>, dataset: int, e: IndexEntry, rest: seq<IndexEntry>, lo: int, hi: int)
    requires Readable(store, e, dataset) && Scan(store, dataset, rest, lo, hi).Some?
    ensures Scan(store, dataset, [e] + rest, lo, hi)
         == Some(InRange(store[e.file].content.batch.records, lo, hi) + Scan(store, dataset, rest, lo, hi).value)
  {
    assert ([e] + rest)[1..] == rest;
  }

  lemma {:induction false} InRangeSlice(all: seq<CaseRecord>, start: nat, end: nat, lo: int, hi: int)
    requires start <= end <= |all| && lo <= hi
    requires forall i :: 0 <= i < |all| ==> all[i].ordinal == i
    ensures var a := Max(lo, start);
            var b := Min(hi, end);
            InRange(all[start..end], lo, hi) == if a < b then all[a..b] else []
    decreases end - start
  {
    if start < end {
      var part := all[start..end];
      assert part[0] == all[start] && part[1..] == all[start + 1..end];
      InRangeSlice(all, start + 1, end, lo, hi);
    }
  }

  /**
    From published files to a worker: over an index built from the dataset's
    files, the cases assigned to ordinals lo..hi are that slice of the dataset.
   */
  lemma PublishedChunkIsSlice(store: Store<Content>, config: ReaderConfig, codec: Codec, children: seq<IndexEntry>,
                              built: Built<Content>, all: seq<CaseRecord>, lo: int, hi: int)
    requires Contiguous(children) && children != [] && Sound(store, DatasetBatches, config.limits, 0, children)
    requires IndexSpec(store, DatasetBatches, config.limits, codec, 0, children) == Some(built)
             && config.batches == built.root
    requires Holds(built.store, config.dataset, children, all)
    requires children[0].start == 0 && children[|children| - 1].end == |all|
    requires 0 <= lo < hi <= |all|
    requires !WalkRoot(built.store, DatasetBatches, config.limits, built.root, lo, hi).failed
    ensures Assigned(built.store, config, lo, hi, Projection(all[lo..hi])) == Some(all[lo..hi])
  {
    BuildThenTraverse(store, DatasetBatches, config.limits, codec, children, lo, hi);
    SelectedSlice(built.store, config.dataset, children, all, lo, hi);
    AssignedFrom(built.store, config, lo, hi, all[lo..hi]);
  }

  lemma SelectedSlice(store: Store<Content>, dataset: int, children: seq<IndexEntry>, all: seq<CaseRecord>, lo: int,
                      hi: int)
    requires children != [] && Contiguous(children) && Holds(store, dataset, children, all)
    requires children[0].start == 0 && children[|children| - 1].end == |all| && 0 <= lo < hi <= |all|
    ensures Scan(store, dataset, Select(children, lo, hi), lo, hi) == Some(all[lo..hi])
    ensures Consecutive(all[lo..hi], lo)
  {
    ScanIsSlice(store, dataset, children, 0, all, lo, hi);
    assert children[0..] == children;
  }

  lemma AssignedFrom(store: Store<Content>, config: ReaderConfig, lo: int, hi: int, slice: seq<CaseRecord>)
    requires var walk := WalkRoot(store, DatasetBatches, config.limits, config.batches, lo, hi);
             !walk.failed && Scan(store, config.dataset, walk.entries, lo, hi) == Some(slice)
    requires Consecutive(slice, lo) && |slice| == hi - lo
    ensures Assigned(store, config, lo, hi, Projection(slice)) == Some(slice)
  {
  }
}
