/**
  The merging loops and gate evaluation, proved to accept exactly the mergeable
  shards and to report exact totals.
 */
module ScorecardMerge {
  import opened Base
  import opened Scorecard

  // ----- sorting by shard -----

  function InsertShard(s: ShardScorecard, sorted: seq<ShardScorecard>): seq<ShardScorecard> {
    if sorted == [] || s.runShard < sorted[0].runShard then [s] + sorted
    else [sorted[0]] + InsertShard(s, sorted[1..])
  }

  /** A stable sort by shard number. */
  function SortShards(shards: seq<ShardScorecard>): seq<ShardScorecard> {
    if shards == [] then [] else InsertShard(shards[|shards| - 1], SortShards(shards[..|shards| - 1]))
  }

  ghost predicate Ascending(shards: seq<ShardScorecard>) {
    forall i, j :: 0 <= i < |shards| && 0 <= j < |shards| && i < j ==> shards[i].runShard <= shards[j].runShard
  }

  lemma {:induction false} InsertPermutes(s: ShardScorecard, sorted: seq<ShardScorecard>)
    ensures multiset(InsertShard(s, sorted)) == multiset(sorted) + multiset{s}
  {
    if sorted != [] && s.runShard >= sorted[0].runShard {
      InsertPermutes(s, sorted[1..]);
      assert sorted == [sorted[0]] + sorted[1..];
    }
  }

  lemma {:induction false} InsertAscends(s: ShardScorecard, sorted: seq<ShardScorecard>, low: int)
    requires Ascending(sorted) && low <= s.runShard && forall i :: 0 <= i < |sorted| ==> low <= sorted[i].runShard
    ensures Ascending(InsertShard(s, sorted))
    ensures forall i :: 0 <= i < |InsertShard(s, sorted)| ==> low <= InsertShard(s, sorted)[i].runShard
  {
    if sorted != [] && s.runShard >= sorted[0].runShard {
      InsertAscends(s, sorted[1..], sorted[0].runShard);
    }
  }

  lemma {:induction false} SortPermutes(shards: seq<ShardScorecard>)
    ensures multiset(SortShards(shards)) == multiset(shards)
  {
    if shards != [] {
      var n := |shards| - 1;
      SortPermutes(shards[..n]);
      InsertPermutes(shards[n], SortShards(shards[..n]));
      MultisetSnoc(shards);
    }
  }

  lemma {:induction false} SortAscends(shards: seq<ShardScorecard>)
    ensures Ascending(SortShards(shards))
  {
    if shards != [] {
      var n := |shards| - 1;
      var tail := SortShards(shards[..n]);
      SortAscends(shards[..n]);
      var low := if tail == [] then shards[n].runShard else Min(shards[n].runShard, tail[0].runShard);
      InsertAscends(shards[n], tail, low);
    }
  }

  // ----- merging -----

  type Table = map<string, Entry>

  ghost function Known(table: Table, id: string): Stats {
    if id in table then table[id].stats else ZERO
  }

  /** One entry into the table: merged into its gate's entry, or validated and inserted. */
  function Absorb(table: Table, e: Entry): Option<Table> {
    if e.policy.id in table then
      var merged := Merged(table[e.policy.id], e);
      if merged.Some? then Some(table[e.policy.id := merged.value]) else None
    else if ValidEntry(e) then Some(table[e.policy.id := e]) else None
  }

  /** All entries of one shard; a repeated gate refuses it. */
  ghost function AbsorbAll(table: Table, list: seq<Entry>): Option<Table> {
    if list == [] then Some(table)
    else
      var n := |list| - 1;
      var before := AbsorbAll(table, list[..n]);
      if before.None? || Find(list[..n], list[n].policy.id).Some? then None else Absorb(before.value, list[n])
  }

  lemma {:induction false} AbsorbedGate(table: Table, list: seq<Entry>, id: string)
    requires AbsorbAll(table, list).Some?
    ensures var t, e := AbsorbAll(table, list).value, Find(list, id);
            && (id in t <==> id in table || e.Some?)
            && (e.None? && id in table ==> t[id] == table[id])
            && (e.Some? ==>
                  ValidEntry(e.value) && t[id] == Entry(e.value.policy, Plus(Known(table, id), e.value.stats)))
            && (e.Some? && id in table ==> table[id].policy == e.value.policy && FitsI64(t[id].stats))
  {
    if list != [] {
      var n := |list| - 1;
      AbsorbedGate(table, list[..n], id);
      PlusZero(list[n].stats);
    }
  }

  lemma {:induction false} FindIndex(list: seq<Entry>, k: int)
    requires DistinctIds(list) && 0 <= k < |list|
    ensures Find(list, list[k].policy.id) == Some(list[k])
  {
    var n := |list| - 1;
    if k < n {
      FindIndex(list[..n], k);
    }
  }

  lemma {:induction false} FindNone(list: seq<Entry>, id: string)
    requires Find(list, id).None?
    ensures forall k :: 0 <= k < |list| ==> list[k].policy.id != id
  {
    if list != [] {
      FindNone(list[..|list| - 1], id);
    }
  }

  lemma {:induction false} FindAbsent(list: seq<Entry>, id: string)
    requires forall k :: 0 <= k < |list| ==> list[k].policy.id != id
    ensures Find(list, id).None?
  {
    if list != [] {
      FindAbsent(list[..|list| - 1], id);
    }
  }

  lemma {:induction false} AbsorbedDistinct(table: Table, list: seq<Entry>)
    requires AbsorbAll(table, list).Some?
    ensures DistinctIds(list)
  {
    if list != [] {
      AbsorbedDistinct(table, list[..|list| - 1]);
      FindNone(list[..|list| - 1], list[|list| - 1].policy.id);
    }
  }

  lemma {:induction false} AbsorbedValid(table: Table, list: seq<Entry>)
    requires AbsorbAll(table, list).Some?
    ensures AllValid(list)
  {
    if list != [] {
      AbsorbedValid(table, list[..|list| - 1]);
      AbsorbedGate(table, list, list[|list| - 1].policy.id);
    }
  }

  ghost predicate Absorbable(table: Table, e: Entry) {
    && ValidEntry(e)
    && (e.policy.id in table ==>
          table[e.policy.id].policy == e.policy && FitsI64(Plus(table[e.policy.id].stats, e.stats)))
  }

  lemma {:induction false} AbsorbSucceeds(table: Table, list: seq<Entry>)
    requires DistinctIds(list) && forall k :: 0 <= k < |list| ==> Absorbable(table, list[k])
    ensures AbsorbAll(table, list).Some?
  {
    if list != [] {
      var n := |list| - 1;
      AbsorbSucceeds(table, list[..n]);
      AbsorbedGate(table, list[..n], list[n].policy.id);
      FindAbsent(list[..n], list[n].policy.id);
      assert Absorbable(table, list[n]);
    }
  }

  ghost predicate SameGates(a: seq<Entry>, b: seq<Entry>) {
    forall id :: Find(a, id).Some? <==> Find(b, id).Some?
  }

  /** The merging loop over shards in ascending order, as a fold. */
  ghost function MergeAll(hash: string, shards: seq<ShardScorecard>): Option<Table> {
    if shards == [] then Some(map[])
    else
      var n := |shards| - 1;
      var before, s := MergeAll(hash, shards[..n]), shards[n];
      if before.None? || (n > 0 && shards[n - 1].runShard == s.runShard) || s.version != VERSION || s.policyHash != hash
         || (n > 0 && !SameGates(shards[0].entries, s.entries))
      then None
      else AbsorbAll(before.value, s.entries)
  }

  ghost function PolicyOf(table: Table, id: string): Option<Policy> {
    if id in table then Some(table[id].policy) else None
  }

  lemma AbsorbedTotal(table: Table, list: seq<Entry>, id: string)
    requires AbsorbAll(table, list).Some?
    ensures Known(AbsorbAll(table, list).value, id) == Plus(Known(table, id), StatsIn(list, id))
  {
    AbsorbedGate(table, list, id);
    if Find(list, id).None? {
      PlusZero(Known(table, id));
    }
  }

  lemma AbsorbedPolicy(table: Table, list: seq<Entry>, id: string)
    requires AbsorbAll(table, list).Some?
    ensures PolicyOf(AbsorbAll(table, list).value, id)
            == (if Find(list, id).Some? then PolicyIn(list, id) else PolicyOf(table, id))
    ensures Find(list, id).Some? && id in table ==> PolicyOf(table, id) == PolicyIn(list, id)
  {
    AbsorbedGate(table, list, id);
  }

  /** A gate's running total is exact. */
  lemma {:induction false} MergedTotal(hash: string, shards: seq<ShardScorecard>, id: string)
    requires MergeAll(hash, shards).Some?
    ensures Known(MergeAll(hash, shards).value, id) == TotalOf(shards, id)
  {
    TotalEmpty(id);
    if shards != [] {
      var n := |shards| - 1;
      TotalSnoc(shards, id);
      MergedTotal(hash, shards[..n], id);
      AbsorbedTotal(MergeAll(hash, shards[..n]).value, shards[n].entries, id);
    }
  }

  /** Every shard gives a gate the table's policy, or lacks it like the table. */
  lemma {:induction false} MergedPolicy(hash: string, shards: seq<ShardScorecard>, id: string, i: int)
    requires MergeAll(hash, shards).Some? && 0 <= i < |shards|
    ensures PolicyIn(shards[i].entries, id) == PolicyOf(MergeAll(hash, shards).value, id)
    decreases |shards|
  {
    var n := |shards| - 1;
    var prefix, s := shards[..n], shards[n];
    var before := MergeAll(hash, prefix).value;
    AbsorbedPolicy(before, s.entries, id);
    if n > 0 {
      MergedPolicy(hash, prefix, id, 0);
      assert PolicyIn(shards[0].entries, id) == PolicyOf(before, id);
      assert Find(shards[0].entries, id).Some? <==> Find(s.entries, id).Some?;
      if i < n {
        MergedPolicy(hash, prefix, id, i);
      }
    }
  }

  lemma AbsorbedFits(table: Table, list: seq<Entry>, id: string)
    requires AbsorbAll(table, list).Some? && Typed(list) && FitsI64(Known(table, id))
    ensures FitsI64(Known(AbsorbAll(table, list).value, id))
  {
    AbsorbedGate(table, list, id);
    if Find(list, id).Some? {
      FindIsEntry(list, id);
      PlusZero(Find(list, id).value.stats);
    }
  }

  lemma {:induction false} MergedFits(hash: string, shards: seq<ShardScorecard>, id: string)
    requires MergeAll(hash, shards).Some? && forall i :: 0 <= i < |shards| ==> Typed(shards[i].entries)
    ensures FitsI64(Known(MergeAll(hash, shards).value, id))
  {
    if shards != [] {
      var n := |shards| - 1;
      MergedFits(hash, shards[..n], id);
      AbsorbedFits(MergeAll(hash, shards[..n]).value, shards[n].entries, id);
    }
  }

  lemma {:induction false} MergedForm(hash: string, shards: seq<ShardScorecard>, i: int)
    requires MergeAll(hash, shards).Some? && 0 <= i < |shards|
    ensures WellFormed(hash, shards[i])
    decreases |shards|
  {
    var n := |shards| - 1;
    if i < n {
      MergedForm(hash, shards[..n], i);
    } else {
      AbsorbedDistinct(MergeAll(hash, shards[..n]).value, shards[n].entries);
      AbsorbedValid(MergeAll(hash, shards[..n]).value, shards[n].entries);
    }
  }

  lemma {:induction false} MergedDistinct(hash: string, shards: seq<ShardScorecard>, i: int, j: int)
    requires MergeAll(hash, shards).Some? && Ascending(shards) && 0 <= i < j < |shards|
    ensures shards[i].runShard < shards[j].runShard
    decreases |shards|
  {
    var n := |shards| - 1;
    if j < n {
      MergedDistinct(hash, shards[..n], i, j);
    } else {
      assert shards[i].runShard <= shards[n - 1].runShard <= shards[n].runShard;
    }
  }

  /** A merge that succeeds was of mergeable shards. */
  lemma MergedMeansMergeable(hash: string, shards: seq<ShardScorecard>)
    requires MergeAll(hash, shards).Some? && Ascending(shards)
    requires forall i :: 0 <= i < |shards| ==> Typed(shards[i].entries)
    ensures Mergeable(hash, shards)
  {
    forall i | 0 <= i < |shards|
      ensures WellFormed(hash, shards[i])
    {
      MergedForm(hash, shards, i);
    }
    forall i, j | 0 <= i < |shards| && 0 <= j < |shards| && i < j
      ensures shards[i].runShard != shards[j].runShard
    {
      MergedDistinct(hash, shards, i, j);
    }
    forall i, j | 0 <= i < |shards| && 0 <= j < |shards|
      ensures Agree(shards[i], shards[j])
    {
      forall id
        ensures PolicyIn(shards[i].entries, id) == PolicyIn(shards[j].entries, id)
      {
        MergedPolicy(hash, shards, id, i);
        MergedPolicy(hash, shards, id, j);
      }
    }
    forall id
      ensures FitsI64(TotalOf(shards, id))
    {
      MergedFits(hash, shards, id);
      MergedTotal(hash, shards, id);
    }
  }

  lemma EntryAbsorbable(hash: string, shards: seq<ShardScorecard>, k: int)
    requires shards != [] && Mergeable(hash, shards) && MergeAll(hash, shards[..|shards| - 1]).Some?
    requires 0 <= k < |shards[|shards| - 1].entries|
    ensures Absorbable(MergeAll(hash, shards[..|shards| - 1]).value, shards[|shards| - 1].entries[k])
  {
    var n := |shards| - 1;
    var prefix, s := shards[..n], shards[n];
    var id := s.entries[k].policy.id;
    assert WellFormed(hash, s);
    FindIndex(s.entries, k);
    MergedTotal(hash, prefix, id);
    TotalSnoc(shards, id);
    if n > 0 {
      MergedPolicy(hash, prefix, id, 0);
      assert Agree(shards[0], shards[n]) && prefix[0] == shards[0];
      assert PolicyIn(shards[0].entries, id) == PolicyIn(s.entries, id);
    }
    assert FitsI64(TotalOf(shards, id));
  }

  /** Mergeable shards are merged. */
  lemma {:induction false} MergeableMeansMerged(hash: string, shards: seq<ShardScorecard>)
    requires Mergeable(hash, shards)
    ensures MergeAll(hash, shards).Some?
  {
    if shards != [] {
      var n := |shards| - 1;
      var prefix, s := shards[..n], shards[n];
      MergeablePrefix(hash, shards, n);
      MergeableMeansMerged(hash, prefix);
      forall k | 0 <= k < |s.entries|
        ensures Absorbable(MergeAll(hash, prefix).value, s.entries[k])
      {
        EntryAbsorbable(hash, shards, k);
      }
      assert WellFormed(hash, s);
      AbsorbSucceeds(MergeAll(hash, prefix).value, s.entries);
      if n > 0 {
        assert shards[n - 1].runShard != s.runShard;
        AgreeSameGates(shards[0], s);
      }
    }
  }

  lemma AgreeSameGates(s: ShardScorecard, t: ShardScorecard)
    requires Agree(s, t)
    ensures SameGates(s.entries, t.entries)
  {
    forall id
      ensures Find(s.entries, id).Some? <==> Find(t.entries, id).Some?
    {
      assert PolicyIn(s.entries, id) == PolicyIn(t.entries, id);
    }
  }

  lemma FindSnoc(list: seq<Entry>, i: int, id: string)
    requires 0 <= i < |list|
    ensures list[..i + 1][..i] == list[..i]
    ensures Find(list[..i + 1], id) == if list[i].policy.id == id then Some(list[i]) else Find(list[..i], id)
  {
    assert list[..i + 1][..i] == list[..i];
  }

  /** The loop over one shard's entries. */
  method AddEntries(table: Table, list: seq<Entry>) returns (r: Option<Table>, seen: set<string>)
    ensures r == AbsorbAll(table, list)
    ensures r.Some? ==> forall id :: id in seen <==> Find(list, id).Some?
  {
    var entries := table;
    seen := {};
    for i := 0 to |list|
      invariant AbsorbAll(table, list[..i]) == Some(entries)
      invariant forall id :: id in seen <==> Find(list[..i], id).Some?
    {
      var e := list[i];
      forall id
        ensures Find(list[..i + 1], id) == if e.policy.id == id then Some(e) else Find(list[..i], id)
      {
        FindSnoc(list, i, id);
      }
      FindSnoc(list, i, e.policy.id);
      var absorbed := Absorb(entries, e);
      if e.policy.id in seen || absorbed.None? {
        RefusedLater(table, list, i + 1);
        return None, seen;
      }
      seen := seen + {e.policy.id};
      entries := absorbed.value;
    }
    assert list[..|list|] == list;
    return Some(entries), seen;
  }

  lemma {:induction false} RefusedLater(table: Table, list: seq<Entry>, i: int)
    requires 0 <= i <= |list| && AbsorbAll(table, list[..i]).None?
    ensures AbsorbAll(table, list).None?
    decreases |list|
  {
    if i == |list| {
      assert list[..i] == list;
    } else {
      var n := |list| - 1;
      assert list[..n][..i] == list[..i];
      RefusedLater(table, list[..n], i);
    }
  }

  lemma {:induction false} StoppedLater(hash: string, shards: seq<ShardScorecard>, i: int)
    requires 0 <= i <= |shards| && MergeAll(hash, shards[..i]).None?
    ensures MergeAll(hash, shards).None?
    decreases |shards|
  {
    if i == |shards| {
      assert shards[..i] == shards;
    } else {
      var n := |shards| - 1;
      assert shards[..n][..i] == shards[..i];
      StoppedLater(hash, shards[..n], i);
    }
  }

  datatype Failure = NoExecutions | MeanTooLow | CoverageTooLow | PassRateTooLow | ErrorRateTooHigh | AbstentionTooHigh

  /** Which failures a result lists. */
  predicate FailuresOf(e: Entry, r: GateResult) {
    && (NoExecutions in r.failures <==> e.stats.expected == 0)
    && (MeanTooLow in r.failures <==> Under(r.mean, e.policy.minMean))
    && (CoverageTooLow in r.failures <==> Under(r.coverage, e.policy.minCoverage))
    && (PassRateTooLow in r.failures <==> Under(r.passRate, e.policy.minPassRate))
    && (ErrorRateTooHigh in r.failures <==> Over(r.errorRate, e.policy.maxErrorRate))
    && (AbstentionTooHigh in r.failures <==> Over(r.abstentionRate, e.policy.maxAbstentionRate))
  }

  datatype GateResult = GateResult(policy: Policy, stats: Stats, failures: seq<Failure>, mean: Option<real>,
                                   coverage: Option<real>, passRate: Option<real>, errorRate: Option<real>,
                                   abstentionRate: Option<real>)

  function Rate(numerator: int, denominator: int): Option<real> {
    if denominator > 0 then Some(numerator as real / denominator as real) else None
  }

  predicate Under(actual: Option<real>, minimum: Option<real>) {
    minimum.Some? && (actual.None? || actual.value < minimum.value)
  }

  predicate Over(actual: Option<real>, maximum: Option<real>) {
    maximum.Some? && (actual.None? || actual.value > maximum.value)
  }

  /** The failures that happened, in a fixed order. */
  function Listed(none: bool, mean: bool, coverage: bool, pass: bool, error: bool, abstention: bool)
    : (r: seq<Failure>)
    ensures r == [] <==> !none && !mean && !coverage && !pass && !error && !abstention
    ensures (NoExecutions in r <==> none) && (MeanTooLow in r <==> mean) && (CoverageTooLow in r <==> coverage)
    ensures (PassRateTooLow in r <==> pass) && (ErrorRateTooHigh in r <==> error)
    ensures AbstentionTooHigh in r <==> abstention
  {
    ListIf(NoExecutions, none,
           ListIf(MeanTooLow, mean,
                  ListIf(CoverageTooLow, coverage,
                         ListIf(PassRateTooLow, pass,
                                ListIf(ErrorRateTooHigh, error, ListIf(AbstentionTooHigh, abstention, []))))))
  }

  function ListIf(failure: Failure, happened: bool, rest: seq<Failure>): (r: seq<Failure>)
    ensures forall f :: f in r <==> f in rest || (happened && f == failure)
    ensures r == [] <==> rest == [] && !happened
  {
    if happened then [failure] + rest else rest
  }

  /** Passes exactly when something was expected and every configured threshold is met. */
  function Evaluate(e: Entry): (r: GateResult)
    ensures r.failures == [] <==>
              && e.stats.expected != 0
              && !Under(r.mean, e.policy.minMean) && !Under(r.coverage, e.policy.minCoverage)
              && !Under(r.passRate, e.policy.minPassRate) && !Over(r.errorRate, e.policy.maxErrorRate)
              && !Over(r.abstentionRate, e.policy.maxAbstentionRate)
    ensures r.policy == e.policy && r.stats == e.stats
    ensures FailuresOf(e, r)
  {
    var s, p := e.stats, e.policy;
    var mean := if s.scored > 0 then Some(s.sum / s.scored as real) else None;
    var coverage := Rate(s.scored, s.expected);
    var passRate := if p.scoreThreshold.Some? then Rate(s.passed, s.scored) else None;
    var errorRate, abstentionRate := Rate(s.errors, s.expected), Rate(s.abstained, s.expected);
    var failures := Listed(s.expected == 0, Under(mean, p.minMean), Under(coverage, p.minCoverage),
                           Under(passRate, p.minPassRate), Over(errorRate, p.maxErrorRate),
                           Over(abstentionRate, p.maxAbstentionRate));
    GateResult(p, s, failures, mean, coverage, passRate, errorRate, abstentionRate)
  }

  /** A minimum is met by x out of n things, said without division; nothing out of nothing meets none. */
  predicate AtLeast(x: real, n: int, minimum: Option<real>) {
    minimum.Some? ==> n > 0 && x >= minimum.value * n as real
  }

  predicate AtMost(x: real, n: int, maximum: Option<real>) {
    maximum.Some? ==> n > 0 && x <= maximum.value * n as real
  }

  lemma MeetsMinimum(x: real, n: int, minimum: Option<real>)
    requires n >= 0
    ensures AtLeast(x, n, minimum) <==> !Under(if n > 0 then Some(x / n as real) else None, minimum)
  {
    if minimum.Some? && n > 0 {
      QuotientAtLeast(x, n as real, minimum.value);
    }
  }

  lemma QuotientAtLeast(x: real, n: real, bound: real)
    requires n > 0.0
    ensures x / n >= bound <==> x >= bound * n
  {
  }

  lemma MeetsMaximum(x: real, n: int, maximum: Option<real>)
    requires n >= 0
    ensures AtMost(x, n, maximum) <==> !Over(if n > 0 then Some(x / n as real) else None, maximum)
  {
    if maximum.Some? && n > 0 {
      QuotientAtMost(x, n as real, maximum.value);
    }
  }

  /** A gate's counters meet every configured threshold. */
  predicate MeetsAll(s: Stats, p: Policy) {
    && AtLeast(s.sum, s.scored, p.minMean)
    && AtLeast(s.scored as real, s.expected, p.minCoverage)
    && AtLeast(s.passed as real, s.scored, p.minPassRate)
    && AtMost(s.errors as real, s.expected, p.maxErrorRate)
    && AtMost(s.abstained as real, s.expected, p.maxAbstentionRate)
  }

  /** A gate passes exactly when something was expected and its counters meet every configured threshold. */
  lemma GatePasses(e: Entry)
    requires ValidPolicy(e.policy) && Consistent(e.stats)
    ensures Evaluate(e).failures == [] <==> e.stats.expected > 0 && MeetsAll(e.stats, e.policy)
    ensures NoExecutions in Evaluate(e).failures <==> e.stats.expected == 0
    ensures MeanTooLow in Evaluate(e).failures <==> !AtLeast(e.stats.sum, e.stats.scored, e.policy.minMean)
    ensures CoverageTooLow in Evaluate(e).failures <==>
              !AtLeast(e.stats.scored as real, e.stats.expected, e.policy.minCoverage)
    ensures PassRateTooLow in Evaluate(e).failures <==>
              !AtLeast(e.stats.passed as real, e.stats.scored, e.policy.minPassRate)
    ensures ErrorRateTooHigh in Evaluate(e).failures <==>
              !AtMost(e.stats.errors as real, e.stats.expected, e.policy.maxErrorRate)
    ensures AbstentionTooHigh in Evaluate(e).failures <==>
              !AtMost(e.stats.abstained as real, e.stats.expected, e.policy.maxAbstentionRate)
  {
    var s, p := e.stats, e.policy;
    MeetsMinimum(s.sum, s.scored, p.minMean);
    MeetsMinimum(s.scored as real, s.expected, p.minCoverage);
    MeetsMinimum(s.passed as real, s.scored, p.minPassRate);
    MeetsMaximum(s.errors as real, s.expected, p.maxErrorRate);
    MeetsMaximum(s.abstained as real, s.expected, p.maxAbstentionRate);
  }

  datatype RunScorecard = RunScorecard(policyHash: string, shardCount: nat, passed: bool,
                                       gates: map<string, GateResult>)

  predicate AllPass(gates: map<string, GateResult>) {
    forall id :: id in gates ==> gates[id].failures == []
  }

  /** Merges the shards in shard order; the outcome is given without mentioning that order. */
  method MergeShards(hash: string, shards: seq<ShardScorecard>) returns (r: Option<RunScorecard>)
    requires forall i :: 0 <= i < |shards| ==> Typed(shards[i].entries)
    ensures r.Some? <==> Mergeable(hash, shards)
    ensures r.Some? ==>
              r.value.policyHash == hash && r.value.shardCount == |shards| && r.value.passed == AllPass(r.value.gates)
    ensures r.Some? ==> forall id :: IsGateResult(shards, r.value.gates, id)
  {
    var ordered := SortShards(shards);
    SortPermutes(shards);
    SortAscends(shards);
    MergeIsOrderFree(hash, ordered, shards, "");
    TypedPermutes(shards, ordered);
    var table := MergeOrdered(hash, ordered);
    if table.None? {
      if Mergeable(hash, ordered) {
        MergeableMeansMerged(hash, ordered);
      }
      return None;
    }
    MergedMeansMergeable(hash, ordered);
    var gates := map id | id in table.value :: Evaluate(table.value[id]);
    forall id
      ensures IsGateResult(shards, gates, id)
    {
      GateOfMerge(hash, shards, ordered, id);
    }
    return Some(RunScorecard(hash, |shards|, AllPass(gates), gates));
  }

  /** A gate is reported exactly when the shards have it, evaluated on its exact totals under their common policy. */
  ghost predicate IsGateResult(shards: seq<ShardScorecard>, gates: map<string, GateResult>, id: string) {
    && (id in gates <==> shards != [] && Find(shards[0].entries, id).Some?)
    && (id in gates ==> gates[id] == Evaluate(Entry(Find(shards[0].entries, id).value.policy, TotalOf(shards, id))))
  }

  lemma GateOfMerge(hash: string, shards: seq<ShardScorecard>, ordered: seq<ShardScorecard>, id: string)
    requires multiset(ordered) == multiset(shards) && MergeAll(hash, ordered).Some?
    ensures var t := MergeAll(hash, ordered).value;
            && (id in t <==> shards != [] && Find(shards[0].entries, id).Some?)
            && (id in t ==> t[id] == Entry(Find(shards[0].entries, id).value.policy, TotalOf(shards, id)))
  {
    MergedTotal(hash, ordered, id);
    TotalPermutes(ordered, shards, id);
    assert |shards| == |multiset(shards)| == |multiset(ordered)| == |ordered|;
    if shards != [] {
      assert shards[0] in multiset(shards);
      IndexOf(ordered, shards[0]);
      var i :| 0 <= i < |ordered| && ordered[i] == shards[0];
      MergedPolicy(hash, ordered, id, i);
    }
  }

  lemma TypedPermutes(a: seq<ShardScorecard>, b: seq<ShardScorecard>)
    requires multiset(a) == multiset(b) && forall i :: 0 <= i < |a| ==> Typed(a[i].entries)
    ensures forall i :: 0 <= i < |b| ==> Typed(b[i].entries)
  {
    forall i | 0 <= i < |b|
      ensures Typed(b[i].entries)
    {
      assert b[i] in multiset(b);
      IndexOf(a, b[i]);
    }
  }

  /** The merging loop over shards in ascending order. */
  method MergeOrdered(hash: string, ordered: seq<ShardScorecard>) returns (r: Option<Table>)
    ensures r == MergeAll(hash, ordered)
  {
    var table: Table := map[];
    var expected: Option<set<string>> := None;
    for i := 0 to |ordered|
      invariant MergeAll(hash, ordered[..i]) == Some(table)
      invariant expected.Some? <==> i > 0
      invariant expected.Some? ==> forall id :: id in expected.value <==> Find(ordered[0].entries, id).Some?
    {
      var s := ordered[i];
      assert ordered[..i + 1][..i] == ordered[..i];
      if (i > 0 && s.runShard == ordered[i - 1].runShard) || s.version != VERSION || s.policyHash != hash {
        StoppedLater(hash, ordered, i + 1);
        return None;
      }
      var added, seen := AddEntries(table, s.entries);
      assert added.Some? && expected.Some? ==> (expected.value == seen <==> SameGates(ordered[0].entries, s.entries));
      if added.None? || (expected.Some? && expected.value != seen) {
        StoppedLater(hash, ordered, i + 1);
        return None;
      }
      table := added.value;
      if expected.None? {
        expected := Some(seen);
      }
    }
    assert ordered[..|ordered|] == ordered;
    return Some(table);
  }

  // ----- rates -----

  lemma RateInUnit(numerator: int, denominator: int)
    requires 0 <= numerator <= denominator
    ensures UnitOrNone(Rate(numerator, denominator))
  {
    if denominator > 0 {
      var x := numerator as real / denominator as real;
      assert x * denominator as real == numerator as real;
    }
  }

  /** Merged gates keep passed <= scored <= expected, extremes in range and every rate in [0, 1]. */
  lemma MergedRates(hash: string, shards: seq<ShardScorecard>, id: string, policy: Policy)
    requires Mergeable(hash, shards)
    ensures Consistent(TotalOf(shards, id))
    ensures var r := Evaluate(Entry(policy, TotalOf(shards, id)));
            && UnitOrNone(r.coverage) && UnitOrNone(r.passRate)
            && UnitOrNone(r.errorRate) && UnitOrNone(r.abstentionRate)
  {
    TotalConsistent(hash, shards, id);
    var s := TotalOf(shards, id);
    RateInUnit(s.scored, s.expected);
    RateInUnit(s.passed, s.scored);
    RateInUnit(s.errors, s.expected);
    RateInUnit(s.abstained, s.expected);
  }

  /**
    The mean stays in [0, 1] up to one tolerance per merged shard, and is at most one
    exactly when the sum is within the count.
   */
  lemma MergedMean(hash: string, shards: seq<ShardScorecard>, id: string, policy: Policy)
    requires Mergeable(hash, shards) && TotalOf(shards, id).scored > 0
    ensures var s := TotalOf(shards, id);
            var mean := Evaluate(Entry(policy, s)).mean;
            && mean.Some?
            && 0.0 <= mean.value <= 1.0 + |shards| as real * EPSILON
            && (mean.value <= 1.0 <==> s.sum <= s.scored as real)
  {
    TotalConsistent(hash, shards, id);
    var s := TotalOf(shards, id);
    MeanBound(s.sum, s.scored as real, |shards| as real * EPSILON);
  }

  lemma MeanBound(sum: real, n: real, slack: real)
    requires n >= 1.0 && 0.0 <= sum <= n + slack && slack >= 0.0
    ensures 0.0 <= sum / n <= 1.0 + slack
    ensures sum / n <= 1.0 <==> sum <= n
  {
    ProductSign(slack, n - 1.0);
    assert (1.0 + slack) * n == n + slack + slack * (n - 1.0);
    QuotientAtMost(sum, n, 1.0 + slack);
    QuotientAtMost(sum, n, 1.0);
    QuotientSign(sum, n);
  }

  lemma QuotientSign(x: real, n: real)
    requires x >= 0.0 && n > 0.0
    ensures x / n >= 0.0
  {
    var q := x / n;
    assert q * n == x;
    assert q < 0.0 ==> q * n < 0.0;
  }

  /** The tolerance is real: a scorecard that is accepted on its own can report a mean above one. */
  lemma MeanCanExceedOne(policy: Policy, hash: string)
    requires ValidPolicy(policy)
    ensures var stats := Stats(1, 1, 0, 0, 0, 1.0 + EPSILON, Some(1.0), Some(1.0));
            var shard := ShardScorecard(VERSION, 0, hash, [Entry(policy, stats)]);
            && Mergeable(hash, [shard])
            && TotalOf([shard], policy.id) == stats
            && Evaluate(Entry(policy, stats)).mean == Some(1.0 + EPSILON)
  {
    var stats := Stats(1, 1, 0, 0, 0, 1.0 + EPSILON, Some(1.0), Some(1.0));
    var e := Entry(policy, stats);
    var shard := ShardScorecard(VERSION, 0, hash, [e]);
    assert Consistent(stats) && SumWithin(stats);
    LoneEntry(map[], e);
    LoneShard(hash, shard);
    MergedMeansMergeable(hash, [shard]);
    MergedTotal(hash, [shard], policy.id);
    assert MergeAll(hash, [shard]).value == map[policy.id := e];
  }

  lemma LoneEntry(table: Table, e: Entry)
    requires ValidEntry(e) && e.policy.id !in table
    ensures AbsorbAll(table, [e]) == Some(table[e.policy.id := e])
  {
    assert [e][..0] == [];
  }

  lemma LoneShard(hash: string, s: ShardScorecard)
    requires s.version == VERSION && s.policyHash == hash
    ensures MergeAll(hash, [s]) == AbsorbAll(map[], s.entries)
  {
    assert [s][..0] == [];
  }
}
