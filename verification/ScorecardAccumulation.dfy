/**
  Chunk scorecards accumulated into shard scorecards before shards are merged,
  against one direct fold of all chunks. Counters, sums and extremes agree; the
  tolerance on score sums is where the two ways of grouping part.
 */
module ScorecardAccumulation {
  import opened Base
  import opened Folds
  import opened Scorecard
  import opened ScorecardMerge

  // ----- one chunk into a running scorecard -----

  ghost predicate SameShape(target: ShardScorecard, chunk: ShardScorecard) {
    && target.version == chunk.version && target.runShard == chunk.runShard && target.policyHash == chunk.policyHash
    && |target.entries| == |chunk.entries|
  }

  /** The running scorecard with one more chunk, gate by gate in list order. */
  ghost function Extended(target: ShardScorecard, chunk: ShardScorecard): Option<ShardScorecard> {
    if && SameShape(target, chunk)
       && forall k :: 0 <= k < |chunk.entries| ==> Merged(target.entries[k], chunk.entries[k]).Some?
    then
      Some(target.(entries := seq(|chunk.entries|, k requires 0 <= k < |chunk.entries| && SameShape(target, chunk)
                                                               && Merged(target.entries[k], chunk.entries[k]).Some? =>
                                  Merged(target.entries[k], chunk.entries[k]).value)))
    else None
  }

  /** A shard's running scorecard, updated in place chunk by chunk. */
  class RunningScorecard {
    const version: int
    const runShard: int
    const policyHash: string
    var entries: seq<Entry>

    constructor (first: ShardScorecard)
      ensures version == first.version && runShard == first.runShard && policyHash == first.policyHash
      ensures entries == first.entries
    {
      version, runShard, policyHash, entries := first.version, first.runShard, first.policyHash, first.entries;
    }

    function Value(): ShardScorecard
      reads this
    {
      ShardScorecard(version, runShard, policyHash, entries)
    }

    /** Merges gate by gate; the first refusal stops, with the gates before it already merged. */
    method Accumulate(chunk: ShardScorecard) returns (ok: bool)
      modifies this
      ensures ok <==> Extended(old(Value()), chunk).Some?
      ensures ok ==> Extended(old(Value()), chunk) == Some(Value())
      ensures |entries| == |old(entries)|
      ensures forall k :: 0 <= k < |entries| ==>
                || entries[k] == old(entries)[k]
                || (k < |chunk.entries| && Merged(old(entries)[k], chunk.entries[k]) == Some(entries[k]))
    {
      if version != chunk.version || runShard != chunk.runShard || policyHash != chunk.policyHash
         || |entries| != |chunk.entries| {
        return false;
      }
      for i := 0 to |entries|
        invariant |entries| == |old(entries)|
        invariant forall k :: 0 <= k < i ==> Merged(old(entries)[k], chunk.entries[k]) == Some(entries[k])
        invariant forall k :: i <= k < |entries| ==> entries[k] == old(entries)[k]
      {
        var source := chunk.entries[i];
        if !ValidEntry(source) || entries[i].policy.id != source.policy.id {
          return false;
        }
        var merged := Merged(entries[i], source);
        if merged.None? {
          return false;
        }
        entries := entries[i := merged.value];
      }
      assert Extended(old(Value()), chunk).value.entries == entries;
      return true;
    }
  }

  // ----- one gate -----

  /** Folding one gate's entries: the first is validated, the others merged. */
  ghost function FoldGate(list: seq<Entry>): Option<Entry>
    requires list != []
  {
    var n := |list| - 1;
    if n == 0 then (if ValidEntry(list[0]) then Some(list[0]) else None)
    else
      var before := FoldGate(list[..n]);
      if before.Some? then Merged(before.value, list[n]) else None
  }

  ghost function StatsOf(list: seq<Entry>): seq<Stats> {
    seq(|list|, i requires 0 <= i < |list| => list[i].stats)
  }

  ghost function Totals(list: seq<Entry>): Stats {
    Fold(Plus, ZERO, StatsOf(list))
  }

  lemma TotalsSnoc(list: seq<Entry>)
    requires list != []
    ensures Totals(list) == Plus(Totals(list[..|list| - 1]), list[|list| - 1].stats)
  {
    var n := |list| - 1;
    assert StatsOf(list) == StatsOf(list[..n]) + [list[n].stats];
    FoldSnoc(Plus, ZERO, StatsOf(list[..n]), list[n].stats);
  }

  lemma TotalsOne(e: Entry)
    ensures Totals([e]) == e.stats
  {
    TotalsSnoc([e]);
    assert [e][..0] == [] && StatsOf([]) == [];
    PlusZero(e.stats);
  }

  lemma TotalsConcat(a: seq<Entry>, b: seq<Entry>)
    ensures Totals(a + b) == Plus(Totals(a), Totals(b))
  {
    PlusIsAssociative();
    assert StatsOf(a + b) == StatsOf(a) + StatsOf(b);
    FoldConcat(Plus, ZERO, StatsOf(a), StatsOf(b));
  }

  lemma PlusIsAssociative()
    ensures Associates(Plus, ZERO)
  {
  }

  ghost predicate OnePolicy(list: seq<Entry>, policy: Policy) {
    forall k :: 0 <= k < |list| ==> list[k].policy == policy
  }

  /** A fold that succeeds gives the exact totals under the one policy all entries share. */
  lemma {:induction false} FoldGateMeans(list: seq<Entry>)
    requires list != [] && FoldGate(list).Some?
    ensures FoldGate(list).value == Entry(list[0].policy, Totals(list))
    ensures AllValid(list) && OnePolicy(list, list[0].policy)
  {
    var n := |list| - 1;
    if n == 0 {
      assert list == [list[0]];
      TotalsOne(list[0]);
    } else {
      FoldGateMeans(list[..n]);
      TotalsSnoc(list);
    }
  }

  lemma {:induction false} TotalsConsistent(list: seq<Entry>)
    requires AllValid(list)
    ensures Consistent(Totals(list))
  {
    if list == [] {
      assert StatsOf(list) == [];
    } else {
      TotalsConsistent(list[..|list| - 1]);
      TotalsSnoc(list);
      PlusConsistent(Totals(list[..|list| - 1]), list[|list| - 1].stats);
    }
  }

  lemma PlusConsistent(a: Stats, b: Stats)
    requires Consistent(a) && Consistent(b)
    ensures Consistent(Plus(a, b)) && NoMoreThan(a, Plus(a, b)) && NoMoreThan(b, Plus(a, b))
  {
  }

  lemma NoMoreFits(a: Stats, b: Stats)
    requires NoMoreThan(a, b) && FitsI64(b)
    ensures FitsI64(a)
  {
  }

  /** Valid entries of one policy fold whenever their totals fit their counters. */
  lemma {:induction false} FoldGateSucceeds(list: seq<Entry>)
    requires list != [] && AllValid(list) && OnePolicy(list, list[0].policy) && FitsI64(Totals(list))
    ensures FoldGate(list).Some?
  {
    var n := |list| - 1;
    if n > 0 {
      var init := list[..n];
      TotalsSnoc(list);
      TotalsConsistent(init);
      PlusConsistent(Totals(init), list[n].stats);
      NoMoreFits(Totals(init), Totals(list));
      FoldGateSucceeds(init);
      FoldGateMeans(init);
    }
  }

  lemma FoldGateFits(list: seq<Entry>)
    requires list != [] && FoldGate(list).Some? && Typed(list)
    ensures FitsI64(Totals(list))
  {
    FoldGateMeans(list);
    if |list| == 1 {
      assert list == [list[0]];
      TotalsOne(list[0]);
    }
  }

  // ----- a shard settled from its chunks -----

  /** A chunk's scorecard is first checked on its own, as a merge of one. */
  ghost predicate Accepted(hash: string, number: int, chunk: ShardScorecard) {
    Mergeable(hash, [chunk]) && chunk.runShard == number
  }

  /** The shard scorecard after all chunks: the first as it is, the others accumulated. */
  ghost function Settled(hash: string, number: int, chunks: seq<ShardScorecard>): Option<ShardScorecard>
    requires chunks != []
  {
    var n := |chunks| - 1;
    if !Accepted(hash, number, chunks[n]) then None
    else if n == 0 then Some(chunks[0])
    else
      var before := Settled(hash, number, chunks[..n]);
      if before.Some? then Extended(before.value, chunks[n]) else None
  }

  lemma {:induction false} SettledStuck(hash: string, number: int, chunks: seq<ShardScorecard>, k: int)
    requires 0 < k <= |chunks| && Settled(hash, number, chunks[..k]).None?
    ensures Settled(hash, number, chunks).None?
    decreases |chunks|
  {
    if k == |chunks| {
      assert chunks[..k] == chunks;
    } else {
      var n := |chunks| - 1;
      assert chunks[..n][..k] == chunks[..k];
      SettledStuck(hash, number, chunks[..n], k);
    }
  }

  /** What one more chunk does, and that a refusal is final. */
  lemma SettledSnoc(hash: string, number: int, chunks: seq<ShardScorecard>, i: int)
    requires 0 < i < |chunks| && Settled(hash, number, chunks[..i]).Some?
    ensures var before, chunk := Settled(hash, number, chunks[..i]).value, chunks[i];
            var next := if Accepted(hash, number, chunk) then Extended(before, chunk) else None;
            && Settled(hash, number, chunks[..i + 1]) == next
            && (next.None? ==> Settled(hash, number, chunks).None?)
  {
    assert chunks[..i + 1][..i] == chunks[..i];
    if Settled(hash, number, chunks[..i + 1]).None? {
      SettledStuck(hash, number, chunks, i + 1);
    }
  }

  /** Folds a shard's chunks into its scorecard, each checked before it is used. */
  method Settle(hash: string, number: int, chunks: seq<ShardScorecard>) returns (r: Option<ShardScorecard>)
    requires chunks != [] && forall i :: 0 <= i < |chunks| ==> Typed(chunks[i].entries)
    ensures r == Settled(hash, number, chunks)
  {
    var single := MergeShards(hash, [chunks[0]]);
    assert chunks[..1] == [chunks[0]];
    if single.None? || chunks[0].runShard != number {
      SettledStuck(hash, number, chunks, 1);
      return None;
    }
    var running := new RunningScorecard(chunks[0]);
    for i := 1 to |chunks|
      invariant Settled(hash, number, chunks[..i]) == Some(running.Value())
      invariant fresh(running)
    {
      single := MergeShards(hash, [chunks[i]]);
      SettledSnoc(hash, number, chunks, i);
      if single.None? || chunks[i].runShard != number {
        return None;
      }
      var ok := running.Accumulate(chunks[i]);
      if !ok {
        return None;
      }
    }
    assert chunks[..|chunks|] == chunks;
    return Some(running.Value());
  }

  ghost predicate Aligned(chunks: seq<ShardScorecard>, width: nat) {
    forall i :: 0 <= i < |chunks| ==> |chunks[i].entries| == width
  }

  /** The entries at one position of the gate list, chunk by chunk. */
  ghost function Gate(chunks: seq<ShardScorecard>, k: nat): seq<Entry>
    requires forall i :: 0 <= i < |chunks| ==> k < |chunks[i].entries|
  {
    seq(|chunks|, i requires 0 <= i < |chunks| => chunks[i].entries[k])
  }

  ghost predicate GatesFold(chunks: seq<ShardScorecard>, width: nat)
    requires chunks != [] && Aligned(chunks, width)
  {
    forall k :: 0 <= k < width ==> FoldGate(Gate(chunks, k)).Some?
  }

  /** All chunks of one shard, each valid on its own, with gate lists of the same length. */
  ghost predicate Alike(hash: string, number: int, chunks: seq<ShardScorecard>, width: nat) {
    Aligned(chunks, width) && forall i :: 0 <= i < |chunks| ==> Accepted(hash, number, chunks[i])
  }

  lemma GateInit(chunks: seq<ShardScorecard>, k: nat)
    requires |chunks| > 1 && forall i :: 0 <= i < |chunks| ==> k < |chunks[i].entries|
    ensures Gate(chunks, k)[..|chunks| - 1] == Gate(chunks[..|chunks| - 1], k)
  {
  }

  /** Accumulation is one fold per gate: it succeeds exactly when every gate's own fold does, with those results. */
  lemma {:induction false} SettledIsGateFolds(hash: string, number: int, chunks: seq<ShardScorecard>)
    requires chunks != []
    ensures var width := |chunks[0].entries|;
            var s := Settled(hash, number, chunks);
            && (s.Some? <==> Alike(hash, number, chunks, width) && GatesFold(chunks, width))
            && (s.Some? ==> && s.value == ShardScorecard(VERSION, number, hash, s.value.entries)
                            && |s.value.entries| == width
                            && forall k :: 0 <= k < width ==> FoldGate(Gate(chunks, k)) == Some(s.value.entries[k]))
  {
    var n, width := |chunks| - 1, |chunks[0].entries|;
    if n == 0 {
      SettledOne(hash, number, chunks[0]);
      assert chunks == [chunks[0]];
    } else {
      SettledIsGateFolds(hash, number, chunks[..n]);
      if Settled(hash, number, chunks).Some? {
        SettledForward(hash, number, chunks);
      } else if Alike(hash, number, chunks, width) && GatesFold(chunks, width) {
        SettledBackward(hash, number, chunks);
      }
    }
  }

  ghost predicate FoldsTo(chunks: seq<ShardScorecard>, width: nat, s: ShardScorecard)
    requires chunks != [] && Aligned(chunks, width)
  {
    |s.entries| == width && forall k :: 0 <= k < width ==> FoldGate(Gate(chunks, k)) == Some(s.entries[k])
  }

  lemma SettledOne(hash: string, number: int, chunk: ShardScorecard)
    ensures var s := Settled(hash, number, [chunk]);
            var width := |chunk.entries|;
            && (s.Some? <==> Accepted(hash, number, chunk))
            && (s.Some? ==> s == Some(chunk) && GatesFold([chunk], width) && FoldsTo([chunk], width, chunk)
                            && chunk == ShardScorecard(VERSION, number, hash, chunk.entries))
  {
    if Accepted(hash, number, chunk) {
      assert WellFormed(hash, [chunk][0]);
      forall k | 0 <= k < |chunk.entries|
        ensures FoldGate(Gate([chunk], k)) == Some(chunk.entries[k])
      {
        assert Gate([chunk], k) == [chunk.entries[k]];
        assert ValidEntry(chunk.entries[k]);
      }
    }
  }

  lemma SettledForward(hash: string, number: int, chunks: seq<ShardScorecard>)
    requires |chunks| > 1 && Settled(hash, number, chunks).Some?
    requires Alike(hash, number, chunks[..|chunks| - 1], |chunks[0].entries|)
    requires FoldsTo(chunks[..|chunks| - 1], |chunks[0].entries|, Settled(hash, number, chunks[..|chunks| - 1]).value)
    ensures var width := |chunks[0].entries|;
            && Alike(hash, number, chunks, width) && GatesFold(chunks, width)
            && FoldsTo(chunks, width, Settled(hash, number, chunks).value)
  {
    var n, width := |chunks| - 1, |chunks[0].entries|;
    var before := Settled(hash, number, chunks[..n]).value;
    AlikeSnoc(hash, number, chunks, width);
    ExtendFolds(chunks, width, before, Settled(hash, number, chunks).value);
  }

  lemma AlikeSnoc(hash: string, number: int, chunks: seq<ShardScorecard>, width: nat)
    requires |chunks| > 1
    ensures Alike(hash, number, chunks, width) <==>
              && Alike(hash, number, chunks[..|chunks| - 1], width)
              && Accepted(hash, number, chunks[|chunks| - 1]) && |chunks[|chunks| - 1].entries| == width
  {
    assert chunks == chunks[..|chunks| - 1] + [chunks[|chunks| - 1]];
  }

  lemma ExtendFolds(chunks: seq<ShardScorecard>, width: nat, before: ShardScorecard, after: ShardScorecard)
    requires |chunks| > 1 && Aligned(chunks, width)
    requires Aligned(chunks[..|chunks| - 1], width) && FoldsTo(chunks[..|chunks| - 1], width, before)
    requires Extended(before, chunks[|chunks| - 1]) == Some(after)
    ensures FoldsTo(chunks, width, after) && GatesFold(chunks, width)
  {
    forall k | 0 <= k < width
      ensures FoldGate(Gate(chunks, k)) == Some(after.entries[k])
    {
      GateStep(chunks, k, before, after);
    }
  }

  /** One more chunk advances every gate's fold by one entry. */
  lemma GateStep(chunks: seq<ShardScorecard>, k: nat, before: ShardScorecard, after: ShardScorecard)
    requires |chunks| > 1 && forall i :: 0 <= i < |chunks| ==> k < |chunks[i].entries|
    requires Extended(before, chunks[|chunks| - 1]) == Some(after) && k < |before.entries|
    requires FoldGate(Gate(chunks[..|chunks| - 1], k)) == Some(before.entries[k])
    ensures FoldGate(Gate(chunks, k)) == Some(after.entries[k])
  {
    GateInit(chunks, k);
  }

  lemma SettledBackward(hash: string, number: int, chunks: seq<ShardScorecard>)
    requires |chunks| > 1
    requires Alike(hash, number, chunks, |chunks[0].entries|) && GatesFold(chunks, |chunks[0].entries|)
    requires var init, width := chunks[..|chunks| - 1], |chunks[0].entries|;
             Alike(hash, number, init, width) && GatesFold(init, width) ==>
               && Settled(hash, number, init).Some?
               && var s := Settled(hash, number, init).value;
                  s == ShardScorecard(VERSION, number, hash, s.entries) && FoldsTo(init, width, s)
    ensures Settled(hash, number, chunks).Some?
  {
    var n, width := |chunks| - 1, |chunks[0].entries|;
    var init := chunks[..n];
    assert forall i :: 0 <= i < n ==> init[i] == chunks[i];
    forall k | 0 <= k < width
      ensures FoldGate(Gate(init, k)).Some?
              && FoldGate(Gate(chunks, k)) == Merged(FoldGate(Gate(init, k)).value, chunks[n].entries[k])
    {
      GateInit(chunks, k);
      assert FoldGate(Gate(chunks, k)).Some?;
    }
    assert Accepted(hash, number, chunks[n]);
    AcceptedForm(hash, number, chunks[n]);
  }

  lemma AcceptedForm(hash: string, number: int, chunk: ShardScorecard)
    requires Accepted(hash, number, chunk)
    ensures WellFormed(hash, chunk) && chunk == ShardScorecard(VERSION, number, hash, chunk.entries)
  {
    assert WellFormed(hash, [chunk][0]);
  }
}
