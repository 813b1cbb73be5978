/**
  The two ways from chunk scorecards to a run's scorecard: shard by shard and
  then across shards, or all chunks in one fold. Totals agree for every gate;
  the tolerance on each shard's score sums is the only place they part.
 */
module ScorecardGrouping {
  import opened Base
  import opened Folds
  import opened Scorecard
  import opened ScorecardMerge
  import opened ScorecardAccumulation

  // ----- one shard, gate by gate -----

  /** A settled shard has its chunks' policies, position by position, and their totals. */
  lemma SettledEntry(hash: string, number: int, chunks: seq<ShardScorecard>, k: nat)
    requires chunks != [] && Settled(hash, number, chunks).Some? && k < |chunks[0].entries|
    ensures var s := Settled(hash, number, chunks).value;
            && |s.entries| == |chunks[0].entries| && Aligned(chunks, |s.entries|)
            && s.entries[k] == Entry(chunks[0].entries[k].policy, Totals(Gate(chunks, k)))
            && AllValid(Gate(chunks, k)) && OnePolicy(Gate(chunks, k), chunks[0].entries[k].policy)
  {
    SettledIsGateFolds(hash, number, chunks);
    assert FoldGate(Gate(chunks, k)) == Some(Settled(hash, number, chunks).value.entries[k]);
    FoldGateMeans(Gate(chunks, k));
  }

  lemma SettledChunk(hash: string, number: int, chunks: seq<ShardScorecard>, i: int)
    requires chunks != [] && Settled(hash, number, chunks).Some? && 0 <= i < |chunks|
    ensures WellFormed(hash, chunks[i]) && chunks[i].runShard == number
  {
    SettledIsGateFolds(hash, number, chunks);
    assert Accepted(hash, number, chunks[i]);
    AcceptedForm(hash, number, chunks[i]);
  }

  /** Position k of every chunk is the gate at position k of the settled shard. */
  lemma PositionIsGate(hash: string, number: int, chunks: seq<ShardScorecard>, i: int, k: nat)
    requires chunks != [] && Settled(hash, number, chunks).Some? && 0 <= i < |chunks| && k < |chunks[0].entries|
    ensures |chunks[i].entries| == |chunks[0].entries|
    ensures chunks[i].entries[k].policy == chunks[0].entries[k].policy
    ensures Find(chunks[i].entries, chunks[0].entries[k].policy.id) == Some(chunks[i].entries[k])
  {
    SettledEntry(hash, number, chunks, k);
    assert Gate(chunks, k)[i] == chunks[i].entries[k];
    SettledChunk(hash, number, chunks, i);
    FindIndex(chunks[i].entries, k);
  }

  lemma NoEntries(chunks: seq<ShardScorecard>, id: string)
    requires forall i :: 0 <= i < |chunks| ==> StatsIn(chunks[i].entries, id) == ZERO
    ensures TotalOf(chunks, id) == ZERO
  {
    PlusIsAssociative();
    var column := Column(chunks, id);
    assert forall i :: 0 <= i < |column| ==> column[i] == ZERO;
    FoldUnits(Plus, ZERO, column);
  }

  lemma TotalOfGate(chunks: seq<ShardScorecard>, k: nat, id: string)
    requires forall i :: 0 <= i < |chunks| ==> k < |chunks[i].entries|
    requires forall i :: 0 <= i < |chunks| ==> Find(chunks[i].entries, id) == Some(chunks[i].entries[k])
    ensures TotalOf(chunks, id) == Totals(Gate(chunks, k))
  {
    assert Column(chunks, id) == StatsOf(Gate(chunks, k));
  }

  lemma SettledHas(hash: string, number: int, chunks: seq<ShardScorecard>, k: nat)
    requires chunks != [] && Settled(hash, number, chunks).Some? && k < |chunks[0].entries|
    ensures var s, id := Settled(hash, number, chunks).value, chunks[0].entries[k].policy.id;
            && |s.entries| == |chunks[0].entries| && Find(s.entries, id) == Some(s.entries[k])
            && s.entries[k] == Entry(chunks[0].entries[k].policy, TotalOf(chunks, id))
            && forall i :: 0 <= i < |chunks| ==> PolicyIn(chunks[i].entries, id) == Some(chunks[0].entries[k].policy)
  {
    var s, id := Settled(hash, number, chunks).value, chunks[0].entries[k].policy.id;
    SettledEntry(hash, number, chunks, k);
    forall i | 0 <= i < |chunks|
      ensures k < |chunks[i].entries| && Find(chunks[i].entries, id) == Some(chunks[i].entries[k])
      ensures chunks[i].entries[k].policy == chunks[0].entries[k].policy
    {
      PositionIsGate(hash, number, chunks, i, k);
    }
    TotalOfGate(chunks, k, id);
    SettledDistinct(hash, number, chunks);
    FindIndex(s.entries, k);
  }

  lemma SettledDistinct(hash: string, number: int, chunks: seq<ShardScorecard>)
    requires chunks != [] && Settled(hash, number, chunks).Some?
    ensures DistinctIds(Settled(hash, number, chunks).value.entries)
  {
    var s := Settled(hash, number, chunks).value;
    SettledChunk(hash, number, chunks, 0);
    SettledIsGateFolds(hash, number, chunks);
    forall k | 0 <= k < |s.entries|
      ensures s.entries[k].policy == chunks[0].entries[k].policy
    {
      SettledEntry(hash, number, chunks, k);
    }
  }

  /** For every gate the settled shard has its chunks' policy and exact total. */
  lemma SettledTotals(hash: string, number: int, chunks: seq<ShardScorecard>, id: string)
    requires chunks != [] && Settled(hash, number, chunks).Some?
    ensures var s := Settled(hash, number, chunks).value;
            && StatsIn(s.entries, id) == TotalOf(chunks, id)
            && forall i :: 0 <= i < |chunks| ==> PolicyIn(chunks[i].entries, id) == PolicyIn(s.entries, id)
  {
    var s := Settled(hash, number, chunks).value;
    SettledIsGateFolds(hash, number, chunks);
    if k :| 0 <= k < |chunks[0].entries| && chunks[0].entries[k].policy.id == id {
      SettledHas(hash, number, chunks, k);
    } else {
      forall i | 0 <= i < |chunks|
        ensures Find(chunks[i].entries, id).None?
      {
        forall k | 0 <= k < |chunks[i].entries|
          ensures chunks[i].entries[k].policy.id != id
        {
          PositionIsGate(hash, number, chunks, i, k);
        }
        FindAbsent(chunks[i].entries, id);
      }
      NoEntries(chunks, id);
      forall k | 0 <= k < |s.entries|
        ensures s.entries[k].policy.id != id
      {
        SettledEntry(hash, number, chunks, k);
      }
      FindAbsent(s.entries, id);
    }
  }

  ghost predicate Tolerable(chunks: seq<ShardScorecard>) {
    forall id :: SumWithin(TotalOf(chunks, id))
  }

  /** A settled shard is valid exactly when its sums stay within one tolerance of their counts. */
  lemma SettledForm(hash: string, number: int, chunks: seq<ShardScorecard>)
    requires chunks != [] && Settled(hash, number, chunks).Some?
    ensures WellFormed(hash, Settled(hash, number, chunks).value) <==> Tolerable(chunks)
  {
    var s := Settled(hash, number, chunks).value;
    SettledIsGateFolds(hash, number, chunks);
    SettledDistinct(hash, number, chunks);
    if Tolerable(chunks) {
      forall k | 0 <= k < |s.entries|
        ensures ValidEntry(s.entries[k])
      {
        EntryValid(hash, number, chunks, k);
      }
    }
    if AllValid(s.entries) {
      forall id
        ensures SumWithin(TotalOf(chunks, id))
      {
        SettledTotals(hash, number, chunks, id);
        StatsInValid(s.entries, id);
      }
    }
  }

  lemma EntryValid(hash: string, number: int, chunks: seq<ShardScorecard>, k: nat)
    requires chunks != [] && Settled(hash, number, chunks).Some? && k < |chunks[0].entries| && Tolerable(chunks)
    ensures |Settled(hash, number, chunks).value.entries| == |chunks[0].entries|
    ensures ValidEntry(Settled(hash, number, chunks).value.entries[k])
  {
    SettledEntry(hash, number, chunks, k);
    SettledHas(hash, number, chunks, k);
    TotalsConsistent(Gate(chunks, k));
    assert ValidEntry(Gate(chunks, k)[0]);
    assert SumWithin(TotalOf(chunks, chunks[0].entries[k].policy.id));
  }

  // ----- all shards -----

  ghost predicate NonEmptyGroups(groups: seq<seq<ShardScorecard>>) {
    forall g :: 0 <= g < |groups| ==> groups[g] != []
  }

  ghost predicate AllSettled(hash: string, numbers: seq<int>, groups: seq<seq<ShardScorecard>>)
    requires |numbers| == |groups| && NonEmptyGroups(groups)
  {
    forall g :: 0 <= g < |groups| ==> Settled(hash, numbers[g], groups[g]).Some?
  }

  ghost function Shards(hash: string, numbers: seq<int>, groups: seq<seq<ShardScorecard>>): seq<ShardScorecard>
    requires |numbers| == |groups| && NonEmptyGroups(groups) && AllSettled(hash, numbers, groups)
  {
    seq(|groups|, g requires 0 <= g < |groups| => Settled(hash, numbers[g], groups[g]).value)
  }

  lemma TotalConcat(a: seq<ShardScorecard>, b: seq<ShardScorecard>, id: string)
    ensures TotalOf(a + b, id) == Plus(TotalOf(a, id), TotalOf(b, id))
  {
    PlusIsAssociative();
    assert Column(a + b, id) == Column(a, id) + Column(b, id);
    FoldConcat(Plus, ZERO, Column(a, id), Column(b, id));
  }

  lemma FlattenSnoc(groups: seq<seq<ShardScorecard>>)
    requires groups != []
    ensures Flatten(groups) == Flatten(groups[..|groups| - 1]) + groups[|groups| - 1]
  {
    var n := |groups| - 1;
    assert groups == groups[..n] + [groups[n]];
    FlattenAppend(groups[..n], groups[n]);
  }

  lemma ShardsInit(hash: string, numbers: seq<int>, groups: seq<seq<ShardScorecard>>)
    requires |numbers| == |groups| && groups != [] && NonEmptyGroups(groups) && AllSettled(hash, numbers, groups)
    ensures var n := |groups| - 1;
            && AllSettled(hash, numbers[..n], groups[..n])
            && Shards(hash, numbers, groups)[..n] == Shards(hash, numbers[..n], groups[..n])
  {
    var n := |groups| - 1;
    forall g | 0 <= g < n
      ensures Settled(hash, numbers[..n][g], groups[..n][g]) == Settled(hash, numbers[g], groups[g])
    {
    }
  }

  /** Grouping does not change any gate's totals. */
  lemma {:induction false} TotalsRegroup(hash: string, numbers: seq<int>, groups: seq<seq<ShardScorecard>>, id: string)
    requires |numbers| == |groups| && NonEmptyGroups(groups) && AllSettled(hash, numbers, groups)
    ensures TotalOf(Shards(hash, numbers, groups), id) == TotalOf(Flatten(groups), id)
  {
    if groups == [] {
      assert Shards(hash, numbers, groups) == [];
    } else {
      var n := |groups| - 1;
      ShardsInit(hash, numbers, groups);
      TotalsRegroup(hash, numbers[..n], groups[..n], id);
      TotalSnoc(Shards(hash, numbers, groups), id);
      SettledTotals(hash, numbers[n], groups[n], id);
      FlattenSnoc(groups);
      TotalConcat(Flatten(groups[..n]), groups[n], id);
    }
  }

  lemma {:induction false} FlattenHas(groups: seq<seq<ShardScorecard>>, g: int, i: int) returns (m: int)
    requires 0 <= g < |groups| && 0 <= i < |groups[g]|
    ensures 0 <= m < |Flatten(groups)| && Flatten(groups)[m] == groups[g][i]
  {
    var n := |groups| - 1;
    FlattenSnoc(groups);
    if g < n {
      m := FlattenHas(groups[..n], g, i);
    } else {
      m := |Flatten(groups[..n])| + i;
    }
  }

  lemma {:induction false} FlattenFrom(groups: seq<seq<ShardScorecard>>, m: int) returns (g: int, i: int)
    requires 0 <= m < |Flatten(groups)|
    ensures 0 <= g < |groups| && 0 <= i < |groups[g]| && groups[g][i] == Flatten(groups)[m]
  {
    var n := |groups| - 1;
    FlattenSnoc(groups);
    if m < |Flatten(groups[..n])| {
      g, i := FlattenFrom(groups[..n], m);
    } else {
      g, i := n, m - |Flatten(groups[..n])|;
    }
  }

  /** One fold over all chunks accepts them: each is valid, all have the same gates and policies, and totals fit. */
  ghost predicate Foldable(hash: string, chunks: seq<ShardScorecard>) {
    AllWellFormed(hash, chunks) && AllAgree(chunks) && TotalsFit(chunks)
  }

  lemma SettledPolicy(hash: string, numbers: seq<int>, groups: seq<seq<ShardScorecard>>, g: int, i: int)
    requires |numbers| == |groups| && NonEmptyGroups(groups) && AllSettled(hash, numbers, groups)
    requires 0 <= g < |groups| && 0 <= i < |groups[g]|
    ensures WellFormed(hash, groups[g][i]) && groups[g][i].runShard == numbers[g]
    ensures Agree(groups[g][i], Shards(hash, numbers, groups)[g])
  {
    SettledChunk(hash, numbers[g], groups[g], i);
    forall id
      ensures PolicyIn(groups[g][i].entries, id) == PolicyIn(Shards(hash, numbers, groups)[g].entries, id)
    {
      SettledTotals(hash, numbers[g], groups[g], id);
    }
  }

  lemma AgreeTrans(a: ShardScorecard, b: ShardScorecard, c: ShardScorecard, d: ShardScorecard)
    requires Agree(a, b) && Agree(b, c) && Agree(d, c)
    ensures Agree(a, d)
  {
    forall id
      ensures PolicyIn(a.entries, id) == PolicyIn(d.entries, id)
    {
      assert PolicyIn(a.entries, id) == PolicyIn(b.entries, id);
      assert PolicyIn(b.entries, id) == PolicyIn(c.entries, id);
      assert PolicyIn(d.entries, id) == PolicyIn(c.entries, id);
    }
  }

  lemma AgreeBack(a: ShardScorecard, b: ShardScorecard)
    requires Agree(a, b)
    ensures Agree(b, a)
  {
    forall id
      ensures PolicyIn(b.entries, id) == PolicyIn(a.entries, id)
    {
      assert PolicyIn(a.entries, id) == PolicyIn(b.entries, id);
    }
  }

  /** Shards agree exactly when all their chunks do. */
  lemma AgreeRegroup(hash: string, numbers: seq<int>, groups: seq<seq<ShardScorecard>>)
    requires |numbers| == |groups| && NonEmptyGroups(groups) && AllSettled(hash, numbers, groups)
    ensures AllAgree(Shards(hash, numbers, groups)) <==> AllAgree(Flatten(groups))
  {
    var shards, all := Shards(hash, numbers, groups), Flatten(groups);
    if AllAgree(shards) {
      forall a, b | 0 <= a < |all| && 0 <= b < |all|
        ensures Agree(all[a], all[b])
      {
        var g, i := FlattenFrom(groups, a);
        var h, j := FlattenFrom(groups, b);
        SettledPolicy(hash, numbers, groups, g, i);
        SettledPolicy(hash, numbers, groups, h, j);
        assert Agree(shards[g], shards[h]);
        AgreeTrans(all[a], shards[g], shards[h], all[b]);
      }
    }
    if AllAgree(all) {
      forall g, h | 0 <= g < |shards| && 0 <= h < |shards|
        ensures Agree(shards[g], shards[h])
      {
        var a := FlattenHas(groups, g, 0);
        var b := FlattenHas(groups, h, 0);
        SettledPolicy(hash, numbers, groups, g, 0);
        SettledPolicy(hash, numbers, groups, h, 0);
        assert Agree(all[a], all[b]);
        AgreeBack(all[a], shards[g]);
        AgreeBack(all[b], shards[h]);
        AgreeTrans(shards[g], all[a], all[b], shards[h]);
      }
    }
  }

  ghost predicate GroupsTolerable(groups: seq<seq<ShardScorecard>>) {
    forall g :: 0 <= g < |groups| ==> Tolerable(groups[g])
  }

  ghost predicate DistinctNumbers(numbers: seq<int>) {
    forall i, j :: 0 <= i < |numbers| && 0 <= j < |numbers| && i < j ==> numbers[i] != numbers[j]
  }

  /** Settled shards merge exactly when one fold accepts all chunks and every shard's sums are within tolerance. */
  lemma SettledMerge(hash: string, numbers: seq<int>, groups: seq<seq<ShardScorecard>>)
    requires |numbers| == |groups| && NonEmptyGroups(groups) && DistinctNumbers(numbers)
    requires AllSettled(hash, numbers, groups)
    ensures Mergeable(hash, Shards(hash, numbers, groups))
       <==> Foldable(hash, Flatten(groups)) && GroupsTolerable(groups)
  {
    var shards, all := Shards(hash, numbers, groups), Flatten(groups);
    AgreeRegroup(hash, numbers, groups);
    ChunksWellFormed(hash, numbers, groups);
    ShardsWellFormed(hash, numbers, groups);
    forall id
      ensures TotalOf(shards, id) == TotalOf(all, id)
    {
      TotalsRegroup(hash, numbers, groups, id);
    }
    FitAlike(shards, all);
  }

  lemma FitAlike(a: seq<ShardScorecard>, b: seq<ShardScorecard>)
    requires forall id :: TotalOf(a, id) == TotalOf(b, id)
    ensures TotalsFit(a) <==> TotalsFit(b)
  {
    if TotalsFit(a) {
      forall id
        ensures FitsI64(TotalOf(b, id))
      {
        assert FitsI64(TotalOf(a, id));
      }
    }
    if TotalsFit(b) {
      forall id
        ensures FitsI64(TotalOf(a, id))
      {
        assert FitsI64(TotalOf(b, id));
      }
    }
  }

  lemma ChunksWellFormed(hash: string, numbers: seq<int>, groups: seq<seq<ShardScorecard>>)
    requires |numbers| == |groups| && NonEmptyGroups(groups) && AllSettled(hash, numbers, groups)
    ensures AllWellFormed(hash, Flatten(groups))
  {
    forall m | 0 <= m < |Flatten(groups)|
      ensures WellFormed(hash, Flatten(groups)[m])
    {
      var g, i := FlattenFrom(groups, m);
      SettledChunk(hash, numbers[g], groups[g], i);
    }
  }

  lemma ShardsWellFormed(hash: string, numbers: seq<int>, groups: seq<seq<ShardScorecard>>)
    requires |numbers| == |groups| && NonEmptyGroups(groups) && DistinctNumbers(numbers)
    requires AllSettled(hash, numbers, groups)
    ensures AllWellFormed(hash, Shards(hash, numbers, groups)) <==> GroupsTolerable(groups)
    ensures DistinctShards(Shards(hash, numbers, groups))
  {
    var shards := Shards(hash, numbers, groups);
    forall g | 0 <= g < |groups|
      ensures shards[g].runShard == numbers[g] && (WellFormed(hash, shards[g]) <==> Tolerable(groups[g]))
    {
      SettledIsGateFolds(hash, numbers[g], groups[g]);
      SettledForm(hash, numbers[g], groups[g]);
    }
  }

  // ----- when all shards can be settled -----

  /** Every chunk names its shard and lists the gates in the order of the shard's first chunk. */
  ghost predicate InOrder(number: int, chunks: seq<ShardScorecard>) {
    forall i :: 0 <= i < |chunks| ==> chunks[i].runShard == number && SameOrder(chunks[0], chunks[i])
  }

  ghost predicate SameOrder(a: ShardScorecard, b: ShardScorecard) {
    && |a.entries| == |b.entries|
    && forall k :: 0 <= k < |a.entries| ==> a.entries[k].policy.id == b.entries[k].policy.id
  }

  ghost predicate GroupsInOrder(numbers: seq<int>, groups: seq<seq<ShardScorecard>>)
    requires |numbers| == |groups|
  {
    forall g :: 0 <= g < |groups| ==> InOrder(numbers[g], groups[g])
  }

  lemma SettledInOrder(hash: string, number: int, chunks: seq<ShardScorecard>)
    requires chunks != [] && Settled(hash, number, chunks).Some?
    ensures InOrder(number, chunks)
  {
    forall i | 0 <= i < |chunks|
      ensures chunks[i].runShard == number && SameOrder(chunks[0], chunks[i])
    {
      SettledIsGateFolds(hash, number, chunks);
      SettledChunk(hash, number, chunks, i);
      forall k | 0 <= k < |chunks[0].entries|
        ensures chunks[0].entries[k].policy.id == chunks[i].entries[k].policy.id
      {
        PositionIsGate(hash, number, chunks, i, k);
      }
    }
  }

  /** Chunks one fold accepts, in one order, settle. */
  lemma FoldableSettles(hash: string, number: int, chunks: seq<ShardScorecard>)
    requires chunks != [] && Foldable(hash, chunks) && InOrder(number, chunks)
    ensures Settled(hash, number, chunks).Some?
  {
    var width := |chunks[0].entries|;
    forall i | 0 <= i < |chunks|
      ensures Accepted(hash, number, chunks[i]) && |chunks[i].entries| == width
    {
      assert SameOrder(chunks[0], chunks[i]);
      LoneChunk(hash, chunks, i);
    }
    forall k | 0 <= k < width
      ensures FoldGate(Gate(chunks, k)).Some?
    {
      GateFolds(hash, number, chunks, k);
    }
    SettledIsGateFolds(hash, number, chunks);
  }

  lemma LoneChunk(hash: string, chunks: seq<ShardScorecard>, i: int)
    requires Foldable(hash, chunks) && 0 <= i < |chunks|
    ensures Mergeable(hash, [chunks[i]])
  {
    assert WellFormed(hash, chunks[i]);
    forall id
      ensures FitsI64(TotalOf([chunks[i]], id))
    {
      ChunkBounded(hash, chunks, i, id);
      assert FitsI64(TotalOf(chunks, id));
    }
  }

  lemma ChunkBounded(hash: string, chunks: seq<ShardScorecard>, i: int, id: string)
    requires AllWellFormed(hash, chunks) && 0 <= i < |chunks|
    ensures NoMoreThan(TotalOf([chunks[i]], id), TotalOf(chunks, id))
  {
    assert chunks == chunks[..i] + ([chunks[i]] + chunks[i + 1..]);
    PartBounded(hash, chunks[..i], [chunks[i]] + chunks[i + 1..], id);
    PartBounded(hash, [chunks[i]], chunks[i + 1..], id);
  }

  lemma PartBounded(hash: string, a: seq<ShardScorecard>, b: seq<ShardScorecard>, id: string)
    requires AllWellFormed(hash, a + b)
    ensures AllWellFormed(hash, a) && AllWellFormed(hash, b)
    ensures NoMoreThan(TotalOf(a, id), TotalOf(a + b, id)) && NoMoreThan(TotalOf(b, id), TotalOf(a + b, id))
  {
    assert forall i :: 0 <= i < |a| ==> a[i] == (a + b)[i];
    assert forall i :: 0 <= i < |b| ==> b[i] == (a + b)[|a| + i];
    TotalConcat(a, b, id);
    TotalConsistent(hash, a, id);
    TotalConsistent(hash, b, id);
  }

  lemma GateFolds(hash: string, number: int, chunks: seq<ShardScorecard>, k: nat)
    requires chunks != [] && Foldable(hash, chunks) && InOrder(number, chunks) && k < |chunks[0].entries|
    ensures forall i :: 0 <= i < |chunks| ==> k < |chunks[i].entries|
    ensures FoldGate(Gate(chunks, k)).Some?
  {
    var id := chunks[0].entries[k].policy.id;
    forall i | 0 <= i < |chunks|
      ensures k < |chunks[i].entries| && Find(chunks[i].entries, id) == Some(chunks[i].entries[k])
      ensures ValidEntry(chunks[i].entries[k]) && chunks[i].entries[k].policy == chunks[0].entries[k].policy
    {
      SameGate(hash, chunks[0], chunks[i], k);
    }
    TotalOfGate(chunks, k, id);
    assert FitsI64(TotalOf(chunks, id));
    FoldGateSucceeds(Gate(chunks, k));
  }

  lemma SameGate(hash: string, a: ShardScorecard, b: ShardScorecard, k: nat)
    requires WellFormed(hash, a) && WellFormed(hash, b) && Agree(a, b) && SameOrder(a, b) && k < |a.entries|
    ensures Find(b.entries, a.entries[k].policy.id) == Some(b.entries[k])
    ensures ValidEntry(b.entries[k]) && b.entries[k].policy == a.entries[k].policy
  {
    FindIndex(a.entries, k);
    FindIndex(b.entries, k);
    assert PolicyIn(a.entries, a.entries[k].policy.id) == PolicyIn(b.entries, a.entries[k].policy.id);
  }

  lemma {:induction false} GroupFoldable(hash: string, groups: seq<seq<ShardScorecard>>, g: int)
    requires 0 <= g < |groups| && Foldable(hash, Flatten(groups))
    ensures Foldable(hash, groups[g])
    decreases |groups|
  {
    var n := |groups| - 1;
    FlattenSnoc(groups);
    PartFoldable(hash, Flatten(groups[..n]), groups[n]);
    if g < n {
      GroupFoldable(hash, groups[..n], g);
    }
  }

  lemma PartFoldable(hash: string, a: seq<ShardScorecard>, b: seq<ShardScorecard>)
    requires Foldable(hash, a + b)
    ensures Foldable(hash, a) && Foldable(hash, b)
  {
    assert forall i :: 0 <= i < |a| ==> a[i] == (a + b)[i];
    assert forall i :: 0 <= i < |b| ==> b[i] == (a + b)[|a| + i];
    forall id
      ensures FitsI64(TotalOf(a, id)) && FitsI64(TotalOf(b, id))
    {
      PartBounded(hash, a, b, id);
      assert FitsI64(TotalOf(a + b, id));
    }
  }

  // ----- what one fold over all chunks accepts, gate by gate -----

  ghost predicate AllHave(chunks: seq<ShardScorecard>, id: string) {
    forall i :: 0 <= i < |chunks| ==> Find(chunks[i].entries, id).Some?
  }

  ghost predicate NoneHave(chunks: seq<ShardScorecard>, id: string) {
    forall i :: 0 <= i < |chunks| ==> Find(chunks[i].entries, id).None?
  }

  ghost function ById(chunks: seq<ShardScorecard>, id: string): seq<Entry>
    requires AllHave(chunks, id)
  {
    seq(|chunks|, i requires 0 <= i < |chunks| => Find(chunks[i].entries, id).value)
  }

  /** The gate is absent everywhere, or folding its entries over all chunks succeeds. */
  ghost predicate GateFoldsDirectly(chunks: seq<ShardScorecard>, id: string)
    requires chunks != []
  {
    NoneHave(chunks, id) || (AllHave(chunks, id) && FoldGate(ById(chunks, id)).Some?)
  }

  lemma ByIdTotals(chunks: seq<ShardScorecard>, id: string)
    requires AllHave(chunks, id)
    ensures Totals(ById(chunks, id)) == TotalOf(chunks, id)
  {
    assert StatsOf(ById(chunks, id)) == Column(chunks, id);
  }

  lemma ByIdValid(hash: string, chunks: seq<ShardScorecard>, id: string)
    requires AllWellFormed(hash, chunks) && AllHave(chunks, id)
    ensures AllValid(ById(chunks, id))
  {
    forall i | 0 <= i < |chunks|
      ensures ValidEntry(ById(chunks, id)[i])
    {
      assert WellFormed(hash, chunks[i]);
      FindIsEntry(chunks[i].entries, id);
    }
  }

  /** Chunks fold in one pass exactly when every gate's own fold over all of them succeeds. */
  lemma FoldableIsGateFolds(hash: string, chunks: seq<ShardScorecard>)
    requires chunks != [] && AllWellFormed(hash, chunks)
    requires forall i :: 0 <= i < |chunks| ==> Typed(chunks[i].entries)
    ensures Foldable(hash, chunks) <==> forall id :: GateFoldsDirectly(chunks, id)
  {
    if Foldable(hash, chunks) {
      forall id
        ensures GateFoldsDirectly(chunks, id)
      {
        FoldableGate(hash, chunks, id);
      }
    }
    if forall id :: GateFoldsDirectly(chunks, id) {
      forall id
        ensures FitsI64(TotalOf(chunks, id))
      {
        GateTotalsFit(chunks, id);
      }
      forall i, j | 0 <= i < |chunks| && 0 <= j < |chunks|
        ensures Agree(chunks[i], chunks[j])
      {
        forall id
          ensures PolicyIn(chunks[i].entries, id) == PolicyIn(chunks[j].entries, id)
        {
          GateTotalsFit(chunks, id);
        }
      }
    }
  }

  lemma FoldableGate(hash: string, chunks: seq<ShardScorecard>, id: string)
    requires chunks != [] && Foldable(hash, chunks)
    ensures GateFoldsDirectly(chunks, id)
  {
    forall i | 0 <= i < |chunks|
      ensures PolicyIn(chunks[i].entries, id) == PolicyIn(chunks[0].entries, id)
    {
      assert Agree(chunks[i], chunks[0]);
    }
    if Find(chunks[0].entries, id).Some? {
      assert AllHave(chunks, id);
      ByIdValid(hash, chunks, id);
      ByIdTotals(chunks, id);
      assert FitsI64(TotalOf(chunks, id));
      FoldGateSucceeds(ById(chunks, id));
    }
  }

  lemma GateTotalsFit(chunks: seq<ShardScorecard>, id: string)
    requires chunks != [] && GateFoldsDirectly(chunks, id)
    requires forall i :: 0 <= i < |chunks| ==> Typed(chunks[i].entries)
    ensures FitsI64(TotalOf(chunks, id))
    ensures forall i :: 0 <= i < |chunks| ==> PolicyIn(chunks[i].entries, id) == PolicyIn(chunks[0].entries, id)
  {
    if NoneHave(chunks, id) {
      NoEntries(chunks, id);
    } else {
      var list := ById(chunks, id);
      FoldGateMeans(list);
      forall i | 0 <= i < |list|
        ensures FitsI64(list[i].stats) && PolicyIn(chunks[i].entries, id) == Some(list[0].policy)
      {
        FindIsEntry(chunks[i].entries, id);
        assert list[i].policy == list[0].policy;
      }
      FoldGateFits(list);
      ByIdTotals(chunks, id);
    }
  }

  // ----- the main theorem -----

  /**
    Settling every shard and merging the shards succeeds exactly when one fold
    over all chunks accepts them, each shard's chunks list the gates in one
    order, and each shard's sums stay within tolerance; every gate's merged
    total is then the total over all chunks.
   */
  lemma AccumulationMatchesFold(hash: string, numbers: seq<int>, groups: seq<seq<ShardScorecard>>)
    requires |numbers| == |groups| && NonEmptyGroups(groups) && DistinctNumbers(numbers)
    ensures AllSettled(hash, numbers, groups) && Mergeable(hash, Shards(hash, numbers, groups))
       <==> Foldable(hash, Flatten(groups)) && GroupsInOrder(numbers, groups) && GroupsTolerable(groups)
    ensures AllSettled(hash, numbers, groups) ==>
              forall id :: TotalOf(Shards(hash, numbers, groups), id) == TotalOf(Flatten(groups), id)
  {
    if AllSettled(hash, numbers, groups) {
      SettledMerge(hash, numbers, groups);
      forall g | 0 <= g < |groups|
        ensures InOrder(numbers[g], groups[g])
      {
        SettledInOrder(hash, numbers[g], groups[g]);
      }
      forall id
        ensures TotalOf(Shards(hash, numbers, groups), id) == TotalOf(Flatten(groups), id)
      {
        TotalsRegroup(hash, numbers, groups, id);
      }
    } else if Foldable(hash, Flatten(groups)) && GroupsInOrder(numbers, groups) {
      FoldableAllSettle(hash, numbers, groups);
    }
  }

  lemma FoldableAllSettle(hash: string, numbers: seq<int>, groups: seq<seq<ShardScorecard>>)
    requires |numbers| == |groups| && NonEmptyGroups(groups)
    requires Foldable(hash, Flatten(groups)) && GroupsInOrder(numbers, groups)
    ensures AllSettled(hash, numbers, groups)
  {
    forall g | 0 <= g < |groups|
      ensures Settled(hash, numbers[g], groups[g]).Some?
    {
      GroupFoldable(hash, groups, g);
      FoldableSettles(hash, numbers[g], groups[g]);
    }
  }

  /** No score sum exceeds the number of scores it adds up. */
  predicate SumsWithinCounts(chunk: ShardScorecard) {
    forall k :: 0 <= k < |chunk.entries| ==> chunk.entries[k].stats.sum <= chunk.entries[k].stats.scored as real
  }

  lemma {:induction false} SumsAddUp(chunks: seq<ShardScorecard>, id: string)
    requires forall i :: 0 <= i < |chunks| ==> SumsWithinCounts(chunks[i])
    ensures TotalOf(chunks, id).sum <= TotalOf(chunks, id).scored as real
  {
    TotalEmpty(id);
    if chunks != [] {
      var n := |chunks| - 1;
      SumsAddUp(chunks[..n], id);
      TotalSnoc(chunks, id);
      if Find(chunks[n].entries, id).Some? {
        FindIsEntry(chunks[n].entries, id);
      }
    }
  }

  /** Chunks whose sums stay within their counts, tested one by one, never run into the tolerance. */
  lemma ExactSumsAreTolerable(groups: seq<seq<ShardScorecard>>)
    requires forall g, i :: 0 <= g < |groups| && 0 <= i < |groups[g]| ==> SumsWithinCounts(groups[g][i])
    ensures GroupsTolerable(groups)
  {
    forall g, id | 0 <= g < |groups|
      ensures SumWithin(TotalOf(groups[g], id))
    {
      SumsAddUp(groups[g], id);
    }
  }

  /** For such chunks in one gate order the two ways accept the same groups. */
  lemma ExactSumsMatchFold(hash: string, numbers: seq<int>, groups: seq<seq<ShardScorecard>>)
    requires |numbers| == |groups| && NonEmptyGroups(groups) && DistinctNumbers(numbers)
    requires GroupsInOrder(numbers, groups)
    requires forall g, i :: 0 <= g < |groups| && 0 <= i < |groups[g]| ==> SumsWithinCounts(groups[g][i])
    ensures AllSettled(hash, numbers, groups) && Mergeable(hash, Shards(hash, numbers, groups))
       <==> Foldable(hash, Flatten(groups))
  {
    ExactSumsAreTolerable(groups);
    AccumulationMatchesFold(hash, numbers, groups);
  }

  /** What the merged run reports for a gate is its evaluation on the totals over all chunks. */
  lemma RunReportsChunks(hash: string, numbers: seq<int>, groups: seq<seq<ShardScorecard>>,
                         gates: map<string, GateResult>, id: string)
    requires |numbers| == |groups| && groups != [] && NonEmptyGroups(groups) && AllSettled(hash, numbers, groups)
    requires IsGateResult(Shards(hash, numbers, groups), gates, id)
    ensures id in gates <==> Find(groups[0][0].entries, id).Some?
    ensures id in gates ==>
              gates[id] == Evaluate(Entry(Find(groups[0][0].entries, id).value.policy, TotalOf(Flatten(groups), id)))
  {
    TotalsRegroup(hash, numbers, groups, id);
    SettledTotals(hash, numbers[0], groups[0], id);
    assert PolicyIn(groups[0][0].entries, id) == PolicyIn(Shards(hash, numbers, groups)[0].entries, id);
  }

  /** Two chunks, each accepted and foldable together, whose shard is then refused: their tolerances add up. */
  lemma AccumulationCanRefuse(policy: Policy, hash: string)
    requires ValidPolicy(policy)
    ensures var e := Entry(policy, Stats(1, 1, 0, 0, 0, 1.0 + EPSILON, Some(1.0), Some(1.0)));
            var chunk := ShardScorecard(VERSION, 0, hash, [e]);
            && Accepted(hash, 0, chunk) && Foldable(hash, [chunk, chunk])
            && Settled(hash, 0, [chunk, chunk]).Some?
            && !Mergeable(hash, [Settled(hash, 0, [chunk, chunk]).value])
  {
    var stats := Stats(1, 1, 0, 0, 0, 1.0 + EPSILON, Some(1.0), Some(1.0));
    var chunk := ShardScorecard(VERSION, 0, hash, [Entry(policy, stats)]);
    var pair := [chunk, chunk];
    MeanCanExceedOne(policy, hash);
    OneEntryTotals(chunk, policy, stats);
    PairFolds(hash, chunk);
    FoldableSettles(hash, 0, pair);
    assert !SumWithin(TotalOf(pair, policy.id)) by {
      TotalConcat([chunk], [chunk], policy.id);
      assert pair == [chunk] + [chunk];
    }
    SettledForm(hash, 0, pair);
    var shard := Settled(hash, 0, pair).value;
    assert [shard][0] == shard;
  }

  lemma OneEntryTotals(chunk: ShardScorecard, policy: Policy, stats: Stats)
    requires chunk.entries == [Entry(policy, stats)]
    ensures forall id :: TotalOf([chunk], id) == if id == policy.id then Plus(ZERO, stats) else ZERO
  {
    forall id
      ensures TotalOf([chunk], id) == if id == policy.id then Plus(ZERO, stats) else ZERO
    {
      if id != policy.id {
        FindAbsent(chunk.entries, id);
        NoEntries([chunk], id);
      } else {
        TotalEmpty(id);
        TotalSnoc([chunk], id);
        assert [chunk][..0] == [];
      }
    }
  }

  lemma PairFolds(hash: string, chunk: ShardScorecard)
    requires Mergeable(hash, [chunk]) && forall id :: FitsI64(Plus(TotalOf([chunk], id), TotalOf([chunk], id)))
    ensures Foldable(hash, [chunk, chunk])
  {
    var pair := [chunk, chunk];
    assert pair == [chunk] + [chunk];
    assert WellFormed(hash, [chunk][0]);
    forall id
      ensures FitsI64(TotalOf(pair, id))
    {
      TotalConcat([chunk], [chunk], id);
    }
  }
}
