/**
  Execution chunk policy: cases are cut into chunks of 100, chunk i belongs to
  shard i mod 128, and a published plan lists per-shard totals in closed form.
 */
module ShardPlan {
  import opened Base

  const CHUNK_CASES := 100
  const SHARDS := 128

  datatype PlanShard = PlanShard(shard: int, chunkCount: int, caseCount: int)

  function ChunkTotal(n: int): int {
    (n + 99) / 100
  }

  function ChunkEnd(n: int, i: int): int {
    Min((i + 1) * CHUNK_CASES, n)
  }

  // ----- reference: totals of one shard, chunk by chunk -----

  function ChunksBefore(s: int, k: nat): nat {
    if k == 0 then 0 else ChunksBefore(s, k - 1) + if (k - 1) % SHARDS == s then 1 else 0
  }

  function CasesBefore(n: int, s: int, k: nat): int {
    if k == 0 then 0
    else CasesBefore(n, s, k - 1) + if (k - 1) % SHARDS == s then ChunkEnd(n, k - 1) - (k - 1) * CHUNK_CASES else 0
  }

  function Totals(n: int, s: int): PlanShard
    requires n > 0
  {
    PlanShard(s, ChunksBefore(s, ChunkTotal(n)), CasesBefore(n, s, ChunkTotal(n)))
  }

  /** Every non-empty shard, in order, with its true totals. */
  function CanonicalPlan(n: int): seq<PlanShard>
    requires n > 0
  {
    seq(Min(SHARDS, ChunkTotal(n)), s => Totals(n, s))
  }

  // ----- closed forms -----

  lemma {:induction false} ChunksClosed(s: int, k: nat)
    requires 0 <= s < SHARDS
    ensures ChunksBefore(s, k) == if s < k then (k - 1 - s) / SHARDS + 1 else 0
  {
    if k > 0 {
      ChunksClosed(s, k - 1);
    }
  }

  lemma {:induction false} FullChunks(n: int, s: int, k: nat)
    requires n > 0 && k < ChunkTotal(n)
    ensures CasesBefore(n, s, k) == CHUNK_CASES * ChunksBefore(s, k)
  {
    if k > 0 {
      FullChunks(n, s, k - 1);
    }
  }

  /** The arithmetic the reader uses equals counting the shard's chunks and cases one by one. */
  lemma ShardTotalsClosed(n: int, s: int)
    requires n > 0 && 0 <= s < Min(SHARDS, ChunkTotal(n))
    ensures var chunks := ChunkTotal(n);
            var count := (chunks - 1 - s) / SHARDS + 1;
            var last := s + (count - 1) * SHARDS;
            var finalSize := if last == chunks - 1 then n - last * CHUNK_CASES else CHUNK_CASES;
            Totals(n, s) == PlanShard(s, count, (count - 1) * CHUNK_CASES + finalSize)
  {
    var chunks := ChunkTotal(n);
    ChunksClosed(s, chunks);
    ChunksClosed(s, chunks - 1);
    FullChunks(n, s, chunks - 1);
  }

  // ----- every case belongs to exactly one shard -----

  function CasesOfShards(n: int, m: nat, k: nat): int {
    if m == 0 then 0 else CasesOfShards(n, m - 1, k) + CasesBefore(n, m - 1, k)
  }

  lemma {:induction false} OneShardGrows(n: int, m: nat, k: nat)
    ensures CasesOfShards(n, m, k + 1)
         == CasesOfShards(n, m, k) + if k % SHARDS < m then ChunkEnd(n, k) - k * CHUNK_CASES else 0
  {
    if m > 0 {
      OneShardGrows(n, m - 1, k);
    }
  }

  lemma {:induction false} ShardsPartitionCases(n: int, k: nat)
    requires n > 0 && k <= ChunkTotal(n)
    ensures CasesOfShards(n, SHARDS, k) == Min(k * CHUNK_CASES, n)
  {
    if k == 0 {
      NoCases(n, SHARDS);
    } else {
      ShardsPartitionCases(n, k - 1);
      OneShardGrows(n, SHARDS, k - 1);
    }
  }

  lemma {:induction false} NoCases(n: int, m: nat)
    ensures CasesOfShards(n, m, 0) == 0
  {
    if m > 0 {
      NoCases(n, m - 1);
    }
  }

  lemma {:induction false} EmptyShard(n: int, s: int, k: nat)
    requires k <= s < SHARDS
    ensures CasesBefore(n, s, k) == 0
  {
    if k > 0 {
      EmptyShard(n, s, k - 1);
    }
  }

  lemma {:induction false} UsedShardsHoldAll(n: int, m: nat)
    requires n > 0 && ChunkTotal(n) <= m <= SHARDS
    ensures CasesOfShards(n, m, ChunkTotal(n)) == n
    decreases SHARDS - m
  {
    if m == SHARDS {
      ShardsPartitionCases(n, ChunkTotal(n));
    } else {
      UsedShardsHoldAll(n, m + 1);
      EmptyShard(n, m, ChunkTotal(n));
    }
  }

  lemma UsedShardTotal(n: int)
    requires n > 0
    ensures CasesOfShards(n, Min(SHARDS, ChunkTotal(n)), ChunkTotal(n)) == n
  {
    if ChunkTotal(n) <= SHARDS {
      UsedShardsHoldAll(n, ChunkTotal(n));
    } else {
      ShardsPartitionCases(n, ChunkTotal(n));
    }
  }

  // ----- acceptance of a published plan -----

  predicate Ordered(shards: seq<PlanShard>) {
    && (forall i :: 0 <= i < |shards| ==> 0 <= shards[i].shard < SHARDS)
    && (forall i, j :: 0 <= i < |shards| && 0 <= j < |shards| && i < j ==> shards[i].shard < shards[j].shard)
  }

  function CaseSum(shards: seq<PlanShard>): int {
    if shards == [] then 0 else CaseSum(shards[..|shards| - 1]) + shards[|shards| - 1].caseCount
  }

  lemma UsedShardNonempty(n: int, s: int)
    requires n > 0 && 0 <= s < Min(SHARDS, ChunkTotal(n))
    ensures CasesBefore(n, s, ChunkTotal(n)) > 0
  {
    ShardTotalsClosed(n, s);
  }

  /** A strictly ordered list with true totals reaches the whole case count only by listing every used shard. */
  lemma {:induction false} OrderedListIsComplete(n: int, shards: seq<PlanShard>, m: nat)
    requires n > 0 && m <= Min(SHARDS, ChunkTotal(n)) && Ordered(shards)
    requires forall i :: 0 <= i < |shards| ==> shards[i].shard < m && shards[i] == Totals(n, shards[i].shard)
    ensures CaseSum(shards) <= CasesOfShards(n, m, ChunkTotal(n))
    ensures CaseSum(shards) == CasesOfShards(n, m, ChunkTotal(n)) ==>
              |shards| == m && forall s :: 0 <= s < m ==> shards[s] == Totals(n, s)
    decreases m
  {
    if m > 0 {
      UsedShardNonempty(n, m - 1);
      if shards != [] && shards[|shards| - 1].shard == m - 1 {
        var init := shards[..|shards| - 1];
        OrderedListIsComplete(n, init, m - 1);
      } else {
        OrderedListIsComplete(n, shards, m - 1);
      }
    }
  }

  lemma {:induction false} CanonicalSum(n: int, shards: seq<PlanShard>, k: nat)
    requires n > 0 && shards == CanonicalPlan(n) && k <= |shards|
    ensures CaseSum(shards[..k]) == CasesOfShards(n, k, ChunkTotal(n))
  {
    if k > 0 {
      CanonicalSum(n, shards, k - 1);
      assert shards[..k][..k - 1] == shards[..k - 1];
    }
  }

  lemma CanonicalReachesAll(n: int)
    requires n > 0
    ensures CaseSum(CanonicalPlan(n)) == n
    ensures CasesOfShards(n, Min(SHARDS, ChunkTotal(n)), ChunkTotal(n)) == n
  {
    UsedShardTotal(n);
    CanonicalSum(n, CanonicalPlan(n), |CanonicalPlan(n)|);
    assert CanonicalPlan(n)[..|CanonicalPlan(n)|] == CanonicalPlan(n);
  }

  method SumCases(shards: seq<PlanShard>) returns (total: int)
    ensures total == CaseSum(shards)
  {
    total := 0;
    for i := 0 to |shards|
      invariant total == CaseSum(shards[..i])
    {
      assert shards[..i + 1][..i] == shards[..i];
      total := total + shards[i].caseCount;
    }
    assert shards[..|shards|] == shards;
  }

  /** Checks a plan's shard list against the chunk policy; it accepts exactly the canonical list. */
  method CheckPlan(n: int, chunkCount: int, shards: seq<PlanShard>) returns (ok: bool)
    requires 0 < n <= I32_MAX && Ordered(shards)
    ensures ok <==> chunkCount == ChunkTotal(n) && shards == CanonicalPlan(n)
  {
    var total := SumCases(shards);
    CanonicalReachesAll(n);
    if total != n {
      return false;
    }
    var chunks := (n + 99) / 100;
    if chunkCount != chunks {
      return false;
    }
    for i := 0 to |shards|
      invariant forall j :: 0 <= j < i ==> shards[j].shard < chunks && shards[j] == Totals(n, shards[j].shard)
    {
      var number := shards[i].shard;
      if number >= chunks {
        assert shards[i] != Totals(n, i) || i == number;
        return false;
      }
      ShardTotalsClosed(n, number);
      var count := (chunks - 1 - number) / 128 + 1;
      var last := number + (count - 1) * 128;
      var finalSize := if last == chunks - 1 then n - last * 100 else 100;
      if !(shards[i].chunkCount == count && shards[i].caseCount == (count - 1) * 100 + finalSize) {
        assert shards[i] != Totals(n, shards[i].shard);
        return false;
      }
    }
    OrderedListIsComplete(n, shards, Min(SHARDS, ChunkTotal(n)));
    return true;
  }

  /** The last chunk admission reconstructs for a shard: it exists, it is the last, and nothing overflows. */
  lemma LastChunkOrdinals(n: int, s: int)
    requires 0 < n <= I32_MAX && 0 <= s < Min(SHARDS, ChunkTotal(n))
    ensures var last := s + (Totals(n, s).chunkCount - 1) * SHARDS;
            && 0 <= last < ChunkTotal(n) && last % SHARDS == s
            && ChunksBefore(s, last) == Totals(n, s).chunkCount - 1
            && (forall i | last < i < ChunkTotal(n) :: i % SHARDS != s)
            && 0 <= last * CHUNK_CASES < ChunkEnd(n, last) <= n
            && (last + 1) * CHUNK_CASES <= I32_MAX + CHUNK_CASES
  {
    var chunks := ChunkTotal(n);
    ChunksClosed(s, chunks);
    var last := s + (ChunksBefore(s, chunks) - 1) * SHARDS;
    ChunksClosed(s, last);
  }
}
