/**
  The read-back before activation: each placement's rows are read in ordered
  pages and folded per shard; the fold is compared with the frozen plan.
 */
module PlacementCheck {
  import opened Base
  import opened ShardPlan
  import opened ChunkManifest

  const READ_PAGE: nat := 256

  /** A stored scheduling row; `valid` is the database's check of its other columns. */
  datatype Row = Row(chunk: ChunkIdentity, valid: bool)

  datatype Cursor = Cursor(shard: int, start: int, id: int)

  predicate After(c: ChunkIdentity, k: Cursor) {
    c.shard > k.shard || (c.shard == k.shard && (c.start > k.start || (c.start == k.start && c.id > k.id)))
  }

  function KeyOf(c: ChunkIdentity): Cursor {
    Cursor(c.shard, c.start, c.id)
  }

  ghost predicate SortedRows(rows: seq<Row>) {
    && (forall i :: 0 <= i < |rows| ==> After(rows[i].chunk, Cursor(-1, -1, 0)))
    && (forall i, j :: 0 <= i < |rows| && 0 <= j < |rows| && i < j ==> After(rows[j].chunk, KeyOf(rows[i].chunk)))
  }

  /** The ordered, limited query. */
  function ReadChunks(rows: seq<Row>, after: Cursor): seq<Row> {
    if rows == [] then []
    else if After(rows[0].chunk, after) then rows[..Min(READ_PAGE, |rows|)]
    else ReadChunks(rows[1..], after)
  }

  lemma {:induction false} ReadChunksPage(rows: seq<Row>, from: nat, done: nat, after: Cursor)
    requires SortedRows(rows) && from <= done <= |rows|
    requires after == if done == 0 then Cursor(-1, -1, 0) else KeyOf(rows[done - 1].chunk)
    ensures ReadChunks(rows[from..], after) == rows[done..Min(done + READ_PAGE, |rows|)]
    decreases done - from
  {
    var rest := rows[from..];
    if from < done {
      assert rest[0] == rows[from] && rest[1..] == rows[from + 1..];
      assert !After(rows[from].chunk, after) by {
        if from < done - 1 {
          assert After(rows[done - 1].chunk, KeyOf(rows[from].chunk));
        }
      }
      ReadChunksPage(rows, from + 1, done, after);
    } else if rest != [] {
      assert rest[0] == rows[done] && After(rest[0].chunk, after);
      assert rest[..Min(READ_PAGE, |rest|)] == rows[done..Min(done + READ_PAGE, |rows|)];
    }
  }

  /** The rows of one shard, in reading order. */
  function OfShard(rows: seq<Row>, s: int): seq<ChunkIdentity> {
    if rows == [] then []
    else
      var last := rows[|rows| - 1].chunk;
      OfShard(rows[..|rows| - 1], s) + if last.shard == s then [last] else []
  }

  lemma {:induction false} OfShardPrefix(rows: seq<Row>, k: nat, s: int)
    requires k <= |rows|
    ensures OfShard(rows[..k], s) <= OfShard(rows, s)
  {
    if k < |rows| {
      OfShardPrefix(rows[..|rows| - 1], k, s);
      assert rows[..|rows| - 1][..k] == rows[..k];
    } else {
      assert rows[..k] == rows;
    }
  }

  lemma {:induction false} FoldPrefix(chunks: seq<ChunkIdentity>, k: nat)
    requires k <= |chunks| && FoldSeq(chunks).Some?
    ensures FoldSeq(chunks[..k]).Some?
  {
    if k < |chunks| {
      FoldPrefix(chunks[..|chunks| - 1], k);
      assert chunks[..|chunks| - 1][..k] == chunks[..k];
    } else {
      assert chunks[..k] == chunks;
    }
  }

  /** Every shard of the placement holds exactly its planned chunks, in order. */
  ghost predicate ExactMembership(n: int, rows: seq<Row>, shards: seq<int>)
    requires n > 0
  {
    && (forall i :: 0 <= i < |rows| ==> rows[i].valid)
    && (forall k :: 0 <= k < |shards| ==> OfShard(rows, shards[k]) == PlannedOf(n, shards[k], ChunkTotal(n)))
  }

  /** The per-shard fold of all rows; None once a row is invalid or refused. */
  function GroupFold(rows: seq<Row>): Option<ShardState> {
    if rows == [] then Some(map[])
    else
      var before, last := GroupFold(rows[..|rows| - 1]), rows[|rows| - 1];
      if before.None? || !last.valid then None else PushShard(before.value, last.chunk)
  }

  /** Shard by shard, the fold is the fold of that shard's own rows. */
  lemma {:induction false} GroupFoldShard(rows: seq<Row>, s: int)
    requires GroupFold(rows).Some?
    ensures var state := GroupFold(rows).value;
            && FoldSeq(OfShard(rows, s)) == Some(Lookup(state, s))
            && (s in state <==> OfShard(rows, s) != [])
  {
    if rows != [] {
      var init, last := rows[..|rows| - 1], rows[|rows| - 1].chunk;
      GroupFoldShard(init, s);
      if last.shard == s {
        FoldSeqSnoc(OfShard(init, s), last);
      } else {
        assert OfShard(rows, s) == OfShard(init, s);
      }
    }
  }

  lemma {:induction false} GroupFoldValid(rows: seq<Row>)
    requires GroupFold(rows).Some?
    ensures forall i :: 0 <= i < |rows| ==> rows[i].valid
  {
    if rows != [] {
      GroupFoldValid(rows[..|rows| - 1]);
    }
  }

  ghost predicate Refused(rows: seq<Row>, k: int) {
    0 <= k < |rows| && (!rows[k].valid || FoldSeq(OfShard(rows[..k + 1], rows[k].chunk.shard)).None?)
  }

  lemma {:induction false} GroupFoldRefused(rows: seq<Row>) returns (k: int)
    requires GroupFold(rows).None?
    ensures Refused(rows, k)
  {
    var init, last := rows[..|rows| - 1], rows[|rows| - 1];
    if GroupFold(init).None? {
      k := GroupFoldRefused(init);
      assert init[..k + 1] == rows[..k + 1];
    } else {
      k := |rows| - 1;
      assert rows[..k + 1] == rows;
      if last.valid {
        GroupFoldShard(init, last.chunk.shard);
        FoldSeqSnoc(OfShard(init, last.chunk.shard), last.chunk);
      }
    }
  }

  lemma {:induction false} GroupFoldStuck(rows: seq<Row>, k: nat)
    requires k <= |rows| && GroupFold(rows[..k]).None?
    ensures GroupFold(rows).None?
  {
    if k < |rows| {
      assert rows[..|rows| - 1][..k] == rows[..k];
      GroupFoldStuck(rows[..|rows| - 1], k);
    } else {
      assert rows[..k] == rows;
    }
  }

  lemma GroupFoldSnoc(seen: seq<Row>, row: Row)
    requires GroupFold(seen).Some?
    ensures GroupFold(seen + [row]) == if row.valid then PushShard(GroupFold(seen).value, row.chunk) else None
  {
    assert (seen + [row])[..|seen|] == seen;
  }

  /** Folds one page, given the fold of everything before it. */
  method FoldPage(page: seq<Row>, before: ShardState, ghost seen: seq<Row>) returns (r: Option<ShardState>)
    requires GroupFold(seen) == Some(before)
    ensures r == GroupFold(seen + page)
  {
    r := Some(before);
    ghost var soFar := seen;
    for k := 0 to |page|
      invariant r.Some? && GroupFold(soFar) == r
      invariant soFar + page[k..] == seen + page
    {
      var row := page[k];
      assert page[k..] == [row] + page[k + 1..];
      GroupFoldSnoc(soFar, row);
      r := if row.valid then PushShard(r.value, row.chunk) else None;
      soFar := soFar + [row];
      if r.None? {
        assert (seen + page)[..|soFar|] == soFar;
        GroupFoldStuck(seen + page, |soFar|);
        return;
      }
    }
    assert soFar + [] == soFar;
  }

  /** Reads all rows page by page and folds each into its shard. */
  method FoldRows(rows: seq<Row>) returns (r: Option<ShardState>)
    requires SortedRows(rows)
    ensures r == GroupFold(rows)
  {
    var actual: ShardState := map[];
    var after, done := Cursor(-1, -1, 0), 0;
    assert rows[..0] == [] && rows[0..] == rows;
    while true
      invariant 0 <= done <= |rows|
      invariant after == if done == 0 then Cursor(-1, -1, 0) else KeyOf(rows[done - 1].chunk)
      invariant GroupFold(rows[..done]) == Some(actual)
      decreases |rows| - done
    {
      var page := ReadChunks(rows, after);
      ReadChunksPage(rows, 0, done, after);
      if page == [] {
        assert rows[..done] == rows;
        return Some(actual);
      }
      var next := FoldPage(page, actual, rows[..done]);
      assert rows[..done] + page == rows[..done + |page|];
      if next.None? {
        GroupFoldStuck(rows, done + |page|);
        return None;
      }
      actual, after, done := next.value, KeyOf(page[|page| - 1].chunk), done + |page|;
    }
  }

  /** Accepts a placement if and only if its rows are exactly the planned chunks of its shards. */
  method VerifyRows(n: int, rows: seq<Row>, shards: seq<int>, expected: ShardState) returns (ok: bool)
    requires 0 < n <= I32_MAX && SortedRows(rows)
    requires forall i, j :: 0 <= i < |shards| && 0 <= j < |shards| && i != j ==> shards[i] != shards[j]
    requires forall i :: 0 <= i < |rows| ==> rows[i].chunk.shard in shards
    requires forall k :: 0 <= k < |shards| ==> && 0 <= shards[k] < Min(SHARDS, ChunkTotal(n)) && shards[k] in expected
                                               && expected[shards[k]] == ManifestAt(n, shards[k], ChunkTotal(n))
    ensures ok <==> ExactMembership(n, rows, shards)
  {
    var folded := FoldRows(rows);
    if folded.None? {
      ghost var k := GroupFoldRefused(rows);
      RowRefused(n, rows, shards, k);
      return false;
    }
    var actual := folded.value;
    if |actual| != |shards| {
      SizesDiffer(n, rows, shards, actual);
      return false;
    }
    for k := 0 to |shards|
      invariant forall j :: 0 <= j < k ==> shards[j] in actual && actual[shards[j]] == expected[shards[j]]
    {
      if shards[k] !in actual || actual[shards[k]] != expected[shards[k]] {
        ShardDiffers(n, rows, shards, actual, k);
        return false;
      }
    }
    AllMatch(n, rows, shards, actual, expected);
    return true;
  }

  lemma ShardDiffers(n: int, rows: seq<Row>, shards: seq<int>, actual: ShardState, k: int)
    requires 0 < n <= I32_MAX && GroupFold(rows) == Some(actual) && 0 <= k < |shards|
    requires 0 <= shards[k] < Min(SHARDS, ChunkTotal(n))
    requires shards[k] !in actual || actual[shards[k]] != ManifestAt(n, shards[k], ChunkTotal(n))
    ensures !ExactMembership(n, rows, shards)
  {
    FoldPlanned(n, shards[k], ChunkTotal(n));
    UsedShardHasChunks(n, shards[k]);
    GroupFoldShard(rows, shards[k]);
  }

  lemma AllMatch(n: int, rows: seq<Row>, shards: seq<int>, actual: ShardState, expected: ShardState)
    requires 0 < n <= I32_MAX && GroupFold(rows) == Some(actual)
    requires forall k :: 0 <= k < |shards| ==>
               && 0 <= shards[k] < Min(SHARDS, ChunkTotal(n)) && shards[k] in expected && shards[k] in actual
               && actual[shards[k]] == expected[shards[k]] == ManifestAt(n, shards[k], ChunkTotal(n))
    ensures ExactMembership(n, rows, shards)
  {
    GroupFoldValid(rows);
    forall k | 0 <= k < |shards|
      ensures OfShard(rows, shards[k]) == PlannedOf(n, shards[k], ChunkTotal(n))
    {
      FoldPlanned(n, shards[k], ChunkTotal(n));
      GroupFoldShard(rows, shards[k]);
      FoldInjective(OfShard(rows, shards[k]), PlannedOf(n, shards[k], ChunkTotal(n)));
    }
  }

  /** A row that is invalid, or that its shard's fold refuses, is not part of any plan. */
  lemma RowRefused(n: int, rows: seq<Row>, shards: seq<int>, k: int)
    requires 0 < n <= I32_MAX && Refused(rows, k) && rows[k].chunk.shard in shards
    requires forall s | s in shards :: 0 <= s < SHARDS
    ensures !ExactMembership(n, rows, shards)
  {
    if ExactMembership(n, rows, shards) {
      var s := rows[k].chunk.shard;
      var j :| 0 <= j < |shards| && shards[j] == s;
      OfShardPrefix(rows, k + 1, s);
      PlannedPrefixFolds(n, s, OfShard(rows[..k + 1], s));
    }
  }

  lemma PlannedPrefixFolds(n: int, s: int, part: seq<ChunkIdentity>)
    requires 0 < n <= I32_MAX && 0 <= s < SHARDS && part <= PlannedOf(n, s, ChunkTotal(n))
    ensures FoldSeq(part).Some?
  {
    var all := PlannedOf(n, s, ChunkTotal(n));
    FoldPlanned(n, s, ChunkTotal(n));
    FoldPrefix(all, |part|);
    assert all[..|part|] == part;
  }

  lemma {:induction false} UsedShardHasChunks(n: int, s: int)
    requires 0 < n <= I32_MAX && 0 <= s < Min(SHARDS, ChunkTotal(n))
    ensures PlannedOf(n, s, ChunkTotal(n)) != []
  {
    FoldPlanned(n, s, ChunkTotal(n));
    ShardTotalsClosed(n, s);
  }

  lemma SizesDiffer(n: int, rows: seq<Row>, shards: seq<int>, actual: ShardState)
    requires 0 < n <= I32_MAX && GroupFold(rows) == Some(actual) && |actual| != |shards|
    requires forall i, j :: 0 <= i < |shards| && 0 <= j < |shards| && i != j ==> shards[i] != shards[j]
    requires forall i :: 0 <= i < |rows| ==> rows[i].chunk.shard in shards
    requires forall k :: 0 <= k < |shards| ==> 0 <= shards[k] < Min(SHARDS, ChunkTotal(n))
    ensures !ExactMembership(n, rows, shards)
  {
    if ExactMembership(n, rows, shards) {
      forall s | s in shards
        ensures s in actual
      {
        UsedShardHasChunks(n, s);
        GroupFoldShard(rows, s);
      }
      forall s | s in actual
        ensures s in shards
      {
        GroupFoldShard(rows, s);
        OfShardHasRow(rows, s);
      }
      assert actual.Keys == set s | s in shards;
      DistinctCount(shards);
    }
  }

  lemma {:induction false} OfShardHasRow(rows: seq<Row>, s: int)
    requires OfShard(rows, s) != []
    ensures exists i :: 0 <= i < |rows| && rows[i].chunk.shard == s
  {
    if rows[|rows| - 1].chunk.shard != s {
      OfShardHasRow(rows[..|rows| - 1], s);
    }
  }

  lemma {:induction false} DistinctCount(shards: seq<int>)
    requires forall i, j :: 0 <= i < |shards| && 0 <= j < |shards| && i != j ==> shards[i] != shards[j]
    ensures |set s | s in shards| == |shards|
  {
    if shards != [] {
      var init, last := shards[..|shards| - 1], shards[|shards| - 1];
      DistinctCount(init);
      assert (set s | s in shards) == (set s | s in init) + {last};
    }
  }
}
