/**
  Run-level gate statistics over exact reals in place of floating point: what a
  valid entry is, which shards may be merged, and what each gate's totals then
  are, all without mentioning an order.
 */
module Scorecard {
  import opened Base
  import opened Folds

  const VERSION: int := 1

  /** The tolerance a score sum is allowed: two to the minus 52, the spacing of doubles at one. */
  const EPSILON: real := 0.0000000000000002220446049250313080847263336181640625

  datatype Policy = Policy(id: string, dimension: string, bindingId: Option<string>, caseGroup: Option<string>,
                           tags: seq<string>, minMean: Option<real>, scoreThreshold: Option<real>,
                           minPassRate: Option<real>, minCoverage: Option<real>, maxErrorRate: Option<real>,
                           maxAbstentionRate: Option<real>)

  datatype Stats = Stats(expected: int, scored: int, passed: int, errors: int, abstained: int, sum: real,
                         low: Option<real>, high: Option<real>)

  datatype Entry = Entry(policy: Policy, stats: Stats)

  datatype ShardScorecard = ShardScorecard(version: int, runShard: int, policyHash: string, entries: seq<Entry>)

  predicate UnitOrNone(x: Option<real>) {
    x.None? || 0.0 <= x.value <= 1.0
  }

  predicate ValidPolicy(p: Policy) {
    && !Blank(p.id) && !Blank(p.dimension)
    && UnitOrNone(p.minMean) && UnitOrNone(p.scoreThreshold) && UnitOrNone(p.minPassRate)
    && UnitOrNone(p.minCoverage) && UnitOrNone(p.maxErrorRate) && UnitOrNone(p.maxAbstentionRate)
    && (p.scoreThreshold.Some? <==> p.minPassRate.Some?)
    && (p.minMean.Some? || p.scoreThreshold.Some? || p.minCoverage.Some? || p.maxErrorRate.Some?
        || p.maxAbstentionRate.Some?)
  }

  /** Everything a validated entry promises except the bound on its sum. */
  predicate Consistent(s: Stats) {
    && 0 <= s.passed <= s.scored <= s.expected
    && 0 <= s.errors <= s.expected && 0 <= s.abstained <= s.expected
    && s.sum >= 0.0
    && UnitOrNone(s.low) && UnitOrNone(s.high)
    && (s.scored == 0 <==> s.low.None?) && (s.scored == 0 <==> s.high.None?)
    && (s.low.Some? && s.high.Some? ==> s.low.value <= s.high.value)
  }

  predicate SumWithin(s: Stats) {
    s.sum <= s.scored as real + EPSILON
  }

  predicate ValidEntry(e: Entry) {
    ValidPolicy(e.policy) && Consistent(e.stats) && SumWithin(e.stats)
  }

  predicate FitsI64(s: Stats) {
    && s.expected <= I64_MAX && s.scored <= I64_MAX && s.passed <= I64_MAX
    && s.errors <= I64_MAX && s.abstained <= I64_MAX
  }

  function Least(a: Option<real>, b: Option<real>): Option<real> {
    if a.None? then b else if b.None? then a else if a.value <= b.value then a else b
  }

  function Greatest(a: Option<real>, b: Option<real>): Option<real> {
    if a.None? then b else if b.None? then a else if a.value >= b.value then a else b
  }

  function Plus(a: Stats, b: Stats): Stats {
    Stats(a.expected + b.expected, a.scored + b.scored, a.passed + b.passed, a.errors + b.errors,
          a.abstained + b.abstained, a.sum + b.sum, Least(a.low, b.low), Greatest(a.high, b.high))
  }

  const ZERO: Stats := Stats(0, 0, 0, 0, 0, 0.0, None, None)

  /** Merging one entry into another: same policy, a valid source, no counter overflow. */
  function Merged(target: Entry, source: Entry): Option<Entry> {
    if target.policy != source.policy || !ValidEntry(source) || !FitsI64(Plus(target.stats, source.stats)) then None
    else Some(Entry(target.policy, Plus(target.stats, source.stats)))
  }

  lemma PlusZero(a: Stats)
    ensures Plus(ZERO, a) == a && Plus(a, ZERO) == a
  {
  }

  // ----- what may be merged, and to what -----

  /** The entry of a gate, if the list has one. */
  ghost function Find(entries: seq<Entry>, id: string): Option<Entry> {
    if entries == [] then None
    else
      var n := |entries| - 1;
      if entries[n].policy.id == id then Some(entries[n]) else Find(entries[..n], id)
  }

  ghost function StatsIn(entries: seq<Entry>, id: string): Stats {
    var e := Find(entries, id);
    if e.Some? then e.value.stats else ZERO
  }

  ghost function PolicyIn(entries: seq<Entry>, id: string): Option<Policy> {
    var e := Find(entries, id);
    if e.Some? then Some(e.value.policy) else None
  }

  /** A gate's statistics, shard by shard. */
  ghost function Column(shards: seq<ShardScorecard>, id: string): seq<Stats> {
    seq(|shards|, i requires 0 <= i < |shards| => StatsIn(shards[i].entries, id))
  }

  ghost function TotalOf(shards: seq<ShardScorecard>, id: string): Stats {
    Fold(Plus, ZERO, Column(shards, id))
  }

  ghost predicate DistinctIds(entries: seq<Entry>) {
    forall i, j :: 0 <= i < |entries| && 0 <= j < |entries| && i < j ==> entries[i].policy.id != entries[j].policy.id
  }

  ghost predicate AllValid(entries: seq<Entry>) {
    forall k :: 0 <= k < |entries| ==> ValidEntry(entries[k])
  }

  /** Counters as wide as their type. */
  ghost predicate Typed(entries: seq<Entry>) {
    forall k :: 0 <= k < |entries| ==> FitsI64(entries[k].stats)
  }

  ghost predicate WellFormed(hash: string, s: ShardScorecard) {
    s.version == VERSION && s.policyHash == hash && DistinctIds(s.entries) && AllValid(s.entries)
  }

  /** The same gates under the same policies. */
  ghost predicate Agree(s: ShardScorecard, t: ShardScorecard) {
    forall id :: PolicyIn(s.entries, id) == PolicyIn(t.entries, id)
  }

  ghost predicate DistinctShards(shards: seq<ShardScorecard>) {
    forall i, j :: 0 <= i < |shards| && 0 <= j < |shards| && i < j ==> shards[i].runShard != shards[j].runShard
  }

  ghost predicate AllWellFormed(hash: string, shards: seq<ShardScorecard>) {
    forall i :: 0 <= i < |shards| ==> WellFormed(hash, shards[i])
  }

  ghost predicate AllAgree(shards: seq<ShardScorecard>) {
    forall i, j :: 0 <= i < |shards| && 0 <= j < |shards| ==> Agree(shards[i], shards[j])
  }

  ghost predicate TotalsFit(shards: seq<ShardScorecard>) {
    forall id :: FitsI64(TotalOf(shards, id))
  }

  ghost predicate Mergeable(hash: string, shards: seq<ShardScorecard>) {
    AllWellFormed(hash, shards) && DistinctShards(shards) && AllAgree(shards) && TotalsFit(shards)
  }

  // ----- order does not matter -----

  lemma PlusExchanges()
    ensures Exchanges(Plus)
  {
  }

  lemma TotalEmpty(id: string)
    ensures TotalOf([], id) == ZERO
  {
    assert Column([], id) == [];
  }

  lemma TotalSnoc(shards: seq<ShardScorecard>, id: string)
    requires shards != []
    ensures TotalOf(shards, id) == Plus(TotalOf(shards[..|shards| - 1], id), StatsIn(shards[|shards| - 1].entries, id))
  {
    var n := |shards| - 1;
    assert Column(shards, id) == Column(shards[..n], id) + [StatsIn(shards[n].entries, id)];
    FoldSnoc(Plus, ZERO, Column(shards[..n], id), StatsIn(shards[n].entries, id));
  }

  ghost function Without(shards: seq<ShardScorecard>, m: int): seq<ShardScorecard>
    requires 0 <= m < |shards|
  {
    shards[..m] + shards[m + 1..]
  }

  lemma TotalRemove(shards: seq<ShardScorecard>, m: int, id: string)
    requires 0 <= m < |shards|
    ensures TotalOf(shards, id) == Plus(TotalOf(Without(shards, m), id), StatsIn(shards[m].entries, id))
  {
    var column := Column(shards, id);
    PlusExchanges();
    FoldRemove(Plus, ZERO, column, m);
    assert Column(Without(shards, m), id) == column[..m] + column[m + 1..];
  }

  lemma RemoveOne(a: seq<ShardScorecard>, m: int)
    requires 0 <= m < |a|
    ensures multiset(Without(a, m)) == multiset(a) - multiset{a[m]}
  {
    assert a == a[..m] + [a[m]] + a[m + 1..];
  }

  /** In equal multisets the last scorecard of one has a counterpart in the other. */
  lemma Counterpart(a: seq<ShardScorecard>, b: seq<ShardScorecard>) returns (m: int)
    requires multiset(a) == multiset(b) && b != []
    ensures 0 <= m < |a| && a[m] == b[|b| - 1] && multiset(Without(a, m)) == multiset(b[..|b| - 1])
  {
    var n := |b| - 1;
    assert b[n] in multiset(b);
    IndexOf(a, b[n]);
    m :| 0 <= m < |a| && a[m] == b[n];
    RemoveOne(a, m);
    RemoveOne(b, n);
    assert Without(b, n) == b[..n];
  }

  lemma {:induction false} TotalPermutes(a: seq<ShardScorecard>, b: seq<ShardScorecard>, id: string)
    requires multiset(a) == multiset(b)
    ensures TotalOf(a, id) == TotalOf(b, id)
    decreases |b|
  {
    if b == [] {
      assert |a| == |multiset(a)| == 0;
    } else {
      var m := Counterpart(a, b);
      TotalPermutes(Without(a, m), b[..|b| - 1], id);
      TotalRemove(a, m, id);
      TotalSnoc(b, id);
    }
  }

  lemma MultisetSnoc(shards: seq<ShardScorecard>)
    requires shards != []
    ensures multiset(shards) == multiset(shards[..|shards| - 1]) + multiset{shards[|shards| - 1]}
  {
    assert shards == shards[..|shards| - 1] + [shards[|shards| - 1]];
  }

  /** Distinct shard numbers, said of the multiset of scorecards. */
  ghost predicate OneEach(shards: multiset<ShardScorecard>) {
    && (forall s :: shards[s] <= 1)
    && (forall s, t :: s in shards && t in shards && s.runShard == t.runShard ==> s == t)
  }

  lemma {:induction false} DistinctIsOneEach(shards: seq<ShardScorecard>)
    ensures DistinctShards(shards) <==> OneEach(multiset(shards))
  {
    if shards != [] {
      var n := |shards| - 1;
      var init, last := shards[..n], shards[n];
      DistinctIsOneEach(init);
      MultisetSnoc(shards);
      if !DistinctShards(init) {
        NotOneEachGrows(multiset(init), last);
      } else if i :| 0 <= i < n && init[i].runShard == last.runShard {
        assert shards[i].runShard == shards[n].runShard;
        assert init[i] in multiset(init);
        SharedShard(multiset(init), init[i], last);
      } else {
        NewShard(init, last);
        assert shards == init + [last];
      }
    }
  }

  lemma SharedShard(shards: multiset<ShardScorecard>, s: ShardScorecard, t: ShardScorecard)
    requires s in shards && s.runShard == t.runShard
    ensures !OneEach(shards + multiset{t})
  {
  }

  lemma NewShard(init: seq<ShardScorecard>, last: ShardScorecard)
    requires DistinctShards(init) && OneEach(multiset(init))
    requires forall i :: 0 <= i < |init| ==> init[i].runShard != last.runShard
    ensures DistinctShards(init + [last]) && OneEach(multiset(init) + multiset{last})
  {
    assert forall s :: s in multiset(init) ==> s in init;
  }

  lemma NotOneEachGrows(shards: multiset<ShardScorecard>, s: ShardScorecard)
    requires !OneEach(shards)
    ensures !OneEach(shards + multiset{s})
  {
    var more := shards + multiset{s};
    if t :| shards[t] > 1 {
      assert more[t] > 1;
    } else {
      var t, u :| t in shards && u in shards && t.runShard == u.runShard && t != u;
      assert t in more && u in more;
    }
  }

  lemma IndexOf(shards: seq<ShardScorecard>, s: ShardScorecard)
    requires s in multiset(shards)
    ensures exists i :: 0 <= i < |shards| && shards[i] == s
  {
  }

  lemma PermutesOneWay(hash: string, a: seq<ShardScorecard>, b: seq<ShardScorecard>)
    requires multiset(a) == multiset(b) && Mergeable(hash, a)
    ensures Mergeable(hash, b)
  {
    DistinctIsOneEach(a);
    DistinctIsOneEach(b);
    forall i | 0 <= i < |b|
      ensures exists k :: 0 <= k < |a| && a[k] == b[i]
    {
      assert b[i] in multiset(b);
      IndexOf(a, b[i]);
    }
    forall id
      ensures FitsI64(TotalOf(b, id))
    {
      TotalPermutes(a, b, id);
    }
  }

  /** Acceptance and every gate's totals are the same for every order of the shards. */
  lemma MergeIsOrderFree(hash: string, a: seq<ShardScorecard>, b: seq<ShardScorecard>, id: string)
    requires multiset(a) == multiset(b)
    ensures Mergeable(hash, a) <==> Mergeable(hash, b)
    ensures TotalOf(a, id) == TotalOf(b, id)
  {
    if Mergeable(hash, a) {
      PermutesOneWay(hash, a, b);
    }
    if Mergeable(hash, b) {
      PermutesOneWay(hash, b, a);
    }
    TotalPermutes(a, b, id);
  }

  // ----- totals stay consistent -----

  lemma {:induction false} FindIsEntry(entries: seq<Entry>, id: string)
    requires Find(entries, id).Some?
    ensures Find(entries, id).value.policy.id == id
    ensures exists k :: 0 <= k < |entries| && entries[k] == Find(entries, id).value
  {
    var n := |entries| - 1;
    if entries[n].policy.id != id {
      FindIsEntry(entries[..n], id);
      var k :| 0 <= k < n && entries[..n][k] == Find(entries[..n], id).value;
      assert entries[k] == Find(entries, id).value;
    }
  }

  lemma StatsInValid(entries: seq<Entry>, id: string)
    requires AllValid(entries)
    ensures Consistent(StatsIn(entries, id)) && SumWithin(StatsIn(entries, id))
  {
    if Find(entries, id).Some? {
      FindIsEntry(entries, id);
    }
  }

  lemma {:induction false} TotalConsistent(hash: string, shards: seq<ShardScorecard>, id: string)
    requires AllWellFormed(hash, shards)
    ensures Consistent(TotalOf(shards, id))
    ensures TotalOf(shards, id).sum <= TotalOf(shards, id).scored as real + |shards| as real * EPSILON
  {
    TotalEmpty(id);
    if shards != [] {
      var n := |shards| - 1;
      TotalSnoc(shards, id);
      TotalConsistent(hash, shards[..n], id);
      StatsInValid(shards[n].entries, id);
    }
  }

  /** A counter summed shard by shard. */
  ghost function CounterSum(shards: seq<ShardScorecard>, id: string, counter: Stats -> int): int {
    if shards == [] then 0
    else CounterSum(shards[..|shards| - 1], id, counter) + counter(StatsIn(shards[|shards| - 1].entries, id))
  }

  ghost function ScoreSum(shards: seq<ShardScorecard>, id: string): real {
    if shards == [] then 0.0
    else ScoreSum(shards[..|shards| - 1], id) + StatsIn(shards[|shards| - 1].entries, id).sum
  }

  /** Every counter of a total is the sum of that counter, and so is the score sum. */
  lemma {:induction false} TotalCounters(shards: seq<ShardScorecard>, id: string)
    ensures var t := TotalOf(shards, id);
            && t.expected == CounterSum(shards, id, (s: Stats) => s.expected)
            && t.scored == CounterSum(shards, id, (s: Stats) => s.scored)
            && t.passed == CounterSum(shards, id, (s: Stats) => s.passed)
            && t.errors == CounterSum(shards, id, (s: Stats) => s.errors)
            && t.abstained == CounterSum(shards, id, (s: Stats) => s.abstained)
            && t.sum == ScoreSum(shards, id)
  {
    TotalEmpty(id);
    if shards != [] {
      TotalCounters(shards[..|shards| - 1], id);
      TotalSnoc(shards, id);
    }
  }

  ghost predicate HasLow(shards: seq<ShardScorecard>, id: string, i: int) {
    0 <= i < |shards| && StatsIn(shards[i].entries, id).low.Some?
  }

  ghost predicate HasHigh(shards: seq<ShardScorecard>, id: string, i: int) {
    0 <= i < |shards| && StatsIn(shards[i].entries, id).high.Some?
  }

  /** A total fits its type exactly when each summed counter is at most 2^63 - 1. */
  lemma CountersFit(shards: seq<ShardScorecard>, id: string)
    ensures FitsI64(TotalOf(shards, id)) <==>
              && CounterSum(shards, id, (s: Stats) => s.expected) <= 0x7fff_ffff_ffff_ffff
              && CounterSum(shards, id, (s: Stats) => s.scored) <= 0x7fff_ffff_ffff_ffff
              && CounterSum(shards, id, (s: Stats) => s.passed) <= 0x7fff_ffff_ffff_ffff
              && CounterSum(shards, id, (s: Stats) => s.errors) <= 0x7fff_ffff_ffff_ffff
              && CounterSum(shards, id, (s: Stats) => s.abstained) <= 0x7fff_ffff_ffff_ffff
  {
    TotalCounters(shards, id);
  }

  /** A total's low is the least of the shards' lows, and one of them. */
  lemma {:induction false} TotalLow(shards: seq<ShardScorecard>, id: string)
    ensures var low := TotalOf(shards, id).low;
            && (low.None? <==> forall i :: !HasLow(shards, id, i))
            && (low.Some? ==>
                  && (exists i :: HasLow(shards, id, i) && StatsIn(shards[i].entries, id).low == low)
                  && (forall i :: HasLow(shards, id, i) ==> low.value <= StatsIn(shards[i].entries, id).low.value))
  {
    TotalEmpty(id);
    if shards != [] {
      var n := |shards| - 1;
      var init := shards[..n];
      TotalLow(init, id);
      TotalSnoc(shards, id);
      assert forall i :: 0 <= i < n ==> init[i] == shards[i];
      assert forall i :: HasLow(shards, id, i) <==> HasLow(init, id, i) || (i == n && HasLow(shards, id, n));
      if TotalOf(shards, id).low.Some? {
        if HasLow(shards, id, n) && TotalOf(shards, id).low == StatsIn(shards[n].entries, id).low {
        } else {
          var i :| HasLow(init, id, i) && StatsIn(init[i].entries, id).low == TotalOf(init, id).low;
          assert HasLow(shards, id, i);
        }
      }
    }
  }

  /** A total's high is the greatest of the shards' highs, and one of them. */
  lemma {:induction false} TotalHigh(shards: seq<ShardScorecard>, id: string)
    ensures var high := TotalOf(shards, id).high;
            && (high.None? <==> forall i :: !HasHigh(shards, id, i))
            && (high.Some? ==>
                  && (exists i :: HasHigh(shards, id, i) && StatsIn(shards[i].entries, id).high == high)
                  && (forall i :: HasHigh(shards, id, i) ==> high.value >= StatsIn(shards[i].entries, id).high.value))
  {
    TotalEmpty(id);
    if shards != [] {
      var n := |shards| - 1;
      var init := shards[..n];
      TotalHigh(init, id);
      TotalSnoc(shards, id);
      assert forall i :: 0 <= i < n ==> init[i] == shards[i];
      assert forall i :: HasHigh(shards, id, i) <==> HasHigh(init, id, i) || (i == n && HasHigh(shards, id, n));
      if TotalOf(shards, id).high.Some? {
        if HasHigh(shards, id, n) && TotalOf(shards, id).high == StatsIn(shards[n].entries, id).high {
        } else {
          var i :| HasHigh(init, id, i) && StatsIn(init[i].entries, id).high == TotalOf(init, id).high;
          assert HasHigh(shards, id, i);
        }
      }
    }
  }

  ghost predicate NoMoreThan(a: Stats, b: Stats) {
    && a.expected <= b.expected && a.scored <= b.scored && a.passed <= b.passed
    && a.errors <= b.errors && a.abstained <= b.abstained
  }

  lemma {:induction false} TotalMonotone(hash: string, shards: seq<ShardScorecard>, k: int, id: string)
    requires AllWellFormed(hash, shards) && 0 <= k <= |shards|
    ensures NoMoreThan(TotalOf(shards[..k], id), TotalOf(shards, id))
    decreases |shards|
  {
    if k == |shards| {
      assert shards[..k] == shards;
    } else {
      var n := |shards| - 1;
      TotalMonotone(hash, shards[..n], k, id);
      assert shards[..n][..k] == shards[..k];
      TotalSnoc(shards, id);
      StatsInValid(shards[n].entries, id);
    }
  }

  lemma MergeablePrefix(hash: string, shards: seq<ShardScorecard>, k: int)
    requires Mergeable(hash, shards) && 0 <= k <= |shards|
    ensures Mergeable(hash, shards[..k])
  {
    forall id
      ensures FitsI64(TotalOf(shards[..k], id))
    {
      TotalMonotone(hash, shards, k, id);
      assert FitsI64(TotalOf(shards, id));
    }
  }
}
