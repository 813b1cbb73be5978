/**
  Resumable folds over planned chunks: one manifest per shard counts chunks and
  cases and chains a hash over exact chunk identities.
 */
module ChunkManifest {
  import opened Base
  import opened ShardPlan

  datatype ChunkIdentity = ChunkIdentity(id: int, shard: int, start: int, end: int)

  /** The chained BLAKE3 hash, idealised: a chain determines the chunks folded into it. */
  datatype HashChain = Root | Link(previous: HashChain, chunk: ChunkIdentity)

  datatype Manifest = Manifest(chunkCount: int, caseCount: int, hash: HashChain, last: Option<ChunkIdentity>)

  type ShardState = map<int, Manifest>

  const EMPTY: Manifest := Manifest(0, 0, Root, None)

  function Push(m: Manifest, c: ChunkIdentity): Option<Manifest> {
    if !(c.start >= 0 && c.end > c.start) then None
    else if m.last.Some? && !(m.last.value.shard == c.shard && m.last.value.end <= c.start) then None
    else if m.chunkCount + 1 > I32_MAX || m.caseCount + (c.end - c.start) > I32_MAX then None
    else Some(Manifest(m.chunkCount + 1, m.caseCount + (c.end - c.start), Link(m.hash, c), Some(c)))
  }

  function Lookup(state: ShardState, shard: int): Manifest {
    if shard in state then state[shard] else EMPTY
  }

  /** Folds one chunk into its shard's manifest. */
  function PushShard(state: ShardState, c: ChunkIdentity): Option<ShardState> {
    var next := Push(Lookup(state, c.shard), c);
    if next.None? then None else Some(state[c.shard := next.value])
  }

  // ----- the frozen plan -----

  /** Chunk i of a run over n cases; its UUID is a function of the run and the index. */
  function Planned(n: int, i: int): ChunkIdentity {
    ChunkIdentity(i, i % SHARDS, i * CHUNK_CASES, ChunkEnd(n, i))
  }

  function PlannedOf(n: int, s: int, k: nat): seq<ChunkIdentity> {
    if k == 0 then [] else PlannedOf(n, s, k - 1) + if (k - 1) % SHARDS == s then [Planned(n, k - 1)] else []
  }

  function FoldSeq(chunks: seq<ChunkIdentity>): Option<Manifest> {
    if chunks == [] then Some(EMPTY)
    else
      var before := FoldSeq(chunks[..|chunks| - 1]);
      if before.None? then None else Push(before.value, chunks[|chunks| - 1])
  }

  function Chain(n: int, s: int, k: nat): HashChain {
    if k == 0 then Root
    else if (k - 1) % SHARDS == s then Link(Chain(n, s, k - 1), Planned(n, k - 1))
    else Chain(n, s, k - 1)
  }

  function LastOf(n: int, s: int, k: nat): Option<ChunkIdentity> {
    if k == 0 then None
    else if (k - 1) % SHARDS == s then Some(Planned(n, k - 1))
    else LastOf(n, s, k - 1)
  }

  function ManifestAt(n: int, s: int, k: nat): Manifest {
    Manifest(ChunksBefore(s, k), CasesBefore(n, s, k), Chain(n, s, k), LastOf(n, s, k))
  }

  /** The per-shard fold of exactly the first k planned chunks. */
  function StateAt(n: int, k: nat): ShardState {
    map s | 0 <= s < Min(SHARDS, k) :: ManifestAt(n, s, k)
  }

  // ----- folding the plan never fails and never forgets -----

  lemma {:induction false} ManifestBounds(n: int, s: int, k: nat)
    requires 0 < n <= I32_MAX && k <= ChunkTotal(n) && 0 <= s < SHARDS
    ensures 0 <= ChunksBefore(s, k) <= k && 0 <= CasesBefore(n, s, k) <= k * CHUNK_CASES && CasesBefore(n, s, k) <= n
    ensures var last := LastOf(n, s, k);
            last.Some? ==> last.value.shard == s && last.value.end <= k * CHUNK_CASES
    ensures k <= s ==> ManifestAt(n, s, k) == EMPTY
  {
    if k > 0 {
      ManifestBounds(n, s, k - 1);
    }
  }

  /** A shard's manifest takes exactly its own planned chunks. */
  lemma ManifestNext(n: int, s: int, k: nat)
    requires 0 < n <= I32_MAX && k < ChunkTotal(n) && 0 <= s < SHARDS
    ensures k % SHARDS == s ==> Push(ManifestAt(n, s, k), Planned(n, k)) == Some(ManifestAt(n, s, k + 1))
    ensures k % SHARDS != s ==> ManifestAt(n, s, k + 1) == ManifestAt(n, s, k)
  {
    ManifestBounds(n, s, k);
    ManifestBounds(n, s, k + 1);
  }

  /** One planned chunk advances its own shard and no other. */
  lemma PushPlanned(n: int, k: nat)
    requires 0 < n <= I32_MAX && k < ChunkTotal(n)
    ensures PushShard(StateAt(n, k), Planned(n, k)) == Some(StateAt(n, k + 1))
  {
    var s, state := k % SHARDS, StateAt(n, k);
    ManifestBounds(n, s, k);
    ManifestNext(n, s, k);
    assert Lookup(state, s) == ManifestAt(n, s, k);
    var next := state[s := ManifestAt(n, s, k + 1)];
    forall t | 0 <= t < Min(SHARDS, k + 1)
      ensures t in next && next[t] == ManifestAt(n, t, k + 1)
    {
    }
    assert next == StateAt(n, k + 1);
  }

  lemma {:induction false} FoldPlanned(n: int, s: int, k: nat)
    requires 0 < n <= I32_MAX && k <= ChunkTotal(n) && 0 <= s < SHARDS
    ensures FoldSeq(PlannedOf(n, s, k)) == Some(ManifestAt(n, s, k))
  {
    if k > 0 {
      FoldPlanned(n, s, k - 1);
      ManifestNext(n, s, k - 1);
      if (k - 1) % SHARDS == s {
        FoldSeqSnoc(PlannedOf(n, s, k - 1), Planned(n, k - 1));
      } else {
        assert PlannedOf(n, s, k) == PlannedOf(n, s, k - 1);
      }
    }
  }

  lemma FoldSeqSnoc(chunks: seq<ChunkIdentity>, c: ChunkIdentity)
    ensures FoldSeq(chunks + [c]) == if FoldSeq(chunks).None? then None else Push(FoldSeq(chunks).value, c)
  {
    assert (chunks + [c])[..|chunks|] == chunks;
  }

  function CaseTotal(chunks: seq<ChunkIdentity>): int {
    if chunks == [] then 0
    else CaseTotal(chunks[..|chunks| - 1]) + chunks[|chunks| - 1].end - chunks[|chunks| - 1].start
  }

  /** One shard's chunks, none empty, in ascending disjoint ranges. */
  ghost predicate InSequence(chunks: seq<ChunkIdentity>) {
    && (forall i :: 0 <= i < |chunks| ==> 0 <= chunks[i].start < chunks[i].end && chunks[i].shard == chunks[0].shard)
    && forall i, j :: 0 <= i < |chunks| && 0 <= j < |chunks| && i < j ==> chunks[i].end <= chunks[j].start
  }

  lemma InSequenceSnoc(chunks: seq<ChunkIdentity>, c: ChunkIdentity)
    ensures InSequence(chunks + [c]) <==>
              && InSequence(chunks) && 0 <= c.start < c.end
              && (chunks != [] ==> chunks[|chunks| - 1].shard == c.shard && chunks[|chunks| - 1].end <= c.start)
  {
    var all, n := chunks + [c], |chunks|;
    assert forall i :: 0 <= i < n ==> all[i] == chunks[i];
    assert all[n] == c;
    if chunks != [] {
      assert all[n - 1] == chunks[n - 1];
    }
  }

  /** The same, checked chunk by chunk. */
  predicate Sequential(chunks: seq<ChunkIdentity>) {
    chunks == []
    || (var init, c := chunks[..|chunks| - 1], chunks[|chunks| - 1];
        && Sequential(init) && 0 <= c.start < c.end
        && (init != [] ==> init[|init| - 1].shard == c.shard && init[|init| - 1].end <= c.start))
  }

  lemma {:induction false} SequentialMeans(chunks: seq<ChunkIdentity>)
    ensures Sequential(chunks) <==> InSequence(chunks)
  {
    if chunks != [] {
      var init, c := chunks[..|chunks| - 1], chunks[|chunks| - 1];
      SequentialMeans(init);
      InSequenceSnoc(init, c);
      assert chunks == init + [c];
    }
  }

  lemma {:induction false} CasesNonnegative(chunks: seq<ChunkIdentity>)
    requires Sequential(chunks)
    ensures CaseTotal(chunks) >= 0
  {
    if chunks != [] {
      CasesNonnegative(chunks[..|chunks| - 1]);
    }
  }

  lemma {:induction false} FoldCounts(chunks: seq<ChunkIdentity>)
    ensures FoldSeq(chunks).Some? <==>
              Sequential(chunks) && |chunks| <= 0x7fff_ffff && CaseTotal(chunks) <= 0x7fff_ffff
    ensures FoldSeq(chunks).Some? ==>
              var m := FoldSeq(chunks).value;
              && m.chunkCount == |chunks| && m.caseCount == CaseTotal(chunks)
              && m.last == if chunks == [] then None else Some(chunks[|chunks| - 1])
  {
    if chunks != [] {
      var init := chunks[..|chunks| - 1];
      FoldCounts(init);
      if Sequential(init) {
        CasesNonnegative(init);
      }
    }
  }

  /** A fold accepts exactly one shard's chunks in sequence, up to 32-bit totals, and counts them and their cases. */
  lemma FoldExactly(chunks: seq<ChunkIdentity>)
    ensures FoldSeq(chunks).Some? <==>
              InSequence(chunks) && |chunks| <= 0x7fff_ffff && CaseTotal(chunks) <= 0x7fff_ffff
    ensures FoldSeq(chunks).Some? ==>
              var m := FoldSeq(chunks).value;
              && m.chunkCount == |chunks| && m.caseCount == CaseTotal(chunks)
              && m.last == if chunks == [] then None else Some(chunks[|chunks| - 1])
  {
    FoldCounts(chunks);
    SequentialMeans(chunks);
  }

  /** Equal manifests mean equal chunk membership, not just equal counts. */
  lemma {:induction false} FoldInjective(a: seq<ChunkIdentity>, b: seq<ChunkIdentity>)
    requires FoldSeq(a).Some? && FoldSeq(b).Some? && FoldSeq(a).value.hash == FoldSeq(b).value.hash
    ensures a == b
  {
    if a != [] && b != [] {
      FoldInjective(a[..|a| - 1], b[..|b| - 1]);
      assert a == a[..|a| - 1] + [a[|a| - 1]] && b == b[..|b| - 1] + [b[|b| - 1]];
    }
  }

  /** What admission rebuilds from a published shard: totals, hash and a computed last chunk. */
  function Expected(n: int, totals: PlanShard, hash: HashChain): Manifest {
    var lastIndex := totals.shard + (totals.chunkCount - 1) * SHARDS;
    Manifest(totals.chunkCount, totals.caseCount, hash,
             Some(ChunkIdentity(lastIndex, totals.shard, lastIndex * CHUNK_CASES,
                                Min((lastIndex + 1) * CHUNK_CASES, n))))
  }

  lemma {:induction false} LastIs(n: int, s: int, k: nat, last: int)
    requires 0 <= last < k && last % SHARDS == s && forall i | last < i < k :: i % SHARDS != s
    ensures LastOf(n, s, k) == Some(Planned(n, last))
  {
    if last < k - 1 {
      LastIs(n, s, k - 1, last);
    }
  }

  /** The manifests admission expects are the folds of the whole plan, shard by shard. */
  lemma ExpectedIsFold(n: int, s: int)
    requires 0 < n <= I32_MAX && 0 <= s < Min(SHARDS, ChunkTotal(n))
    ensures Expected(n, Totals(n, s), Chain(n, s, ChunkTotal(n))) == ManifestAt(n, s, ChunkTotal(n))
  {
    LastChunkOrdinals(n, s);
    LastIs(n, s, ChunkTotal(n), s + (Totals(n, s).chunkCount - 1) * SHARDS);
  }
}
