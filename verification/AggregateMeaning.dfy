/**
  What the numbers of an aggregation mean, said of the results themselves: which
  category a binding falls in, that a minimum is one of the scores and a mean
  their balance point, which results block, and when each status is given.
 */
module AggregateMeaning {
  import opened Base
  import opened Aggregation
  import opened AggregateScore

  // ----- categories -----

  ghost predicate OnlyResult(results: seq<Row>, id: string, k: int) {
    && 0 <= k < |results| && results[k].bindingId == id
    && forall j :: 0 <= j < |results| && results[j].bindingId == id ==> j == k
  }

  lemma {:induction false} RowsOfOne(results: seq<Row>, id: string, k: int)
    requires OnlyResult(results, id, k)
    ensures RowsOf(results, id) == [results[k]]
  {
    var n := |results| - 1;
    var init := results[..n];
    if k == n {
      RowsOfAbsent(init, id);
    } else {
      assert OnlyResult(init, id, k);
      RowsOfOne(init, id, k);
    }
  }

  lemma {:induction false} RowsOfAbsent(results: seq<Row>, id: string)
    requires forall j :: 0 <= j < |results| ==> results[j].bindingId != id
    ensures RowsOf(results, id) == []
  {
    if results != [] {
      RowsOfAbsent(results[..|results| - 1], id);
    }
  }

  /** A single row comes from a single result. */
  lemma {:induction false} RowsOfSingle(results: seq<Row>, id: string) returns (k: int)
    requires |RowsOf(results, id)| == 1
    ensures OnlyResult(results, id, k)
  {
    var n := |results| - 1;
    var init := results[..n];
    if results[n].bindingId == id {
      k := n;
      RowsOfNone(init, id);
      assert forall j :: 0 <= j < n ==> init[j] == results[j] && init[j].bindingId in ResultIds(init);
    } else {
      k := RowsOfSingle(init, id);
      assert forall j :: 0 <= j < n ==> init[j] == results[j];
    }
  }

  predicate UnitScore(row: Row) {
    row.score.Some? && 0.0 <= row.score.value <= 1.0
  }

  ghost predicate OnlyWith(results: seq<Row>, id: string, status: Status) {
    exists k :: OnlyResult(results, id, k) && results[k].status == status
  }

  ghost predicate OnlyScored(results: seq<Row>, id: string) {
    exists k :: OnlyResult(results, id, k) && UnitScore(results[k])
                && (results[k].status == Passed || results[k].status == Failed)
  }

  /** A binding's category, by its results: none, its only one's status and score, or anything else. */
  lemma CategoryMeans(results: seq<Row>, id: string)
    ensures var c := CategoryOf(RowsOf(results, id));
            && (c == Missing <==> forall j :: 0 <= j < |results| ==> results[j].bindingId != id)
            && (c == HasError <==> OnlyWith(results, id, Errored))
            && (c == HasAbstained <==> OnlyWith(results, id, Abstained))
            && (c == Scored <==> OnlyScored(results, id))
  {
    RowsOfNone(results, id);
    if k :| OnlyResult(results, id, k) {
      RowsOfOne(results, id, k);
    } else if |RowsOf(results, id)| == 1 {
      var k := RowsOfSingle(results, id);
    } else if RowsOf(results, id) == [] {
      assert forall j :: 0 <= j < |results| ==> results[j].bindingId in ResultIds(results);
    } else {
      RowOfResult(results, id);
    }
  }

  /** The reported counters count exactly the required bindings of each kind. */
  lemma CountersMean(c: Completeness, bindings: seq<Binding>, results: seq<Row>)
    requires Reports(c, bindings, results)
    ensures c.tally.errors == |set id | id in Required(bindings) && OnlyWith(results, id, Errored)|
    ensures c.tally.abstained == |set id | id in Required(bindings) && OnlyWith(results, id, Abstained)|
    ensures c.tally.scored == |set id | id in Required(bindings) && OnlyScored(results, id)|
    ensures c.incomplete == set id | id in Required(bindings) && !OnlyScored(results, id)
  {
    forall id
      ensures CategoryOf(RowsOf(results, id)) == HasError <==> OnlyWith(results, id, Errored)
      ensures CategoryOf(RowsOf(results, id)) == HasAbstained <==> OnlyWith(results, id, Abstained)
      ensures CategoryOf(RowsOf(results, id)) == Scored <==> OnlyScored(results, id)
    {
      CategoryMeans(results, id);
    }
    var required := Required(bindings);
    assert InCategory(required, results, HasError) == set id | id in required && OnlyWith(results, id, Errored);
    assert InCategory(required, results, HasAbstained) == set id | id in required && OnlyWith(results, id, Abstained);
    assert InCategory(required, results, Scored) == set id | id in required && OnlyScored(results, id);
  }

  // ----- one dimension -----

  /** The minimum is at most every score and is one of them. */
  lemma {:induction false} LeastIsMinimum(list: seq<Row>)
    requires AllValid(list) && list != []
    ensures forall i :: 0 <= i < |list| ==> LeastOf(list) <= list[i].score.value
    ensures exists i :: 0 <= i < |list| && LeastOf(list) == list[i].score.value
  {
    var n := |list| - 1;
    var init := list[..n];
    assert forall i :: 0 <= i < n ==> init[i] == list[i];
    assert ValidScore(list[n]);
    if init != [] {
      LeastIsMinimum(init);
      var i :| 0 <= i < |init| && LeastOf(init) == init[i].score.value;
      assert list[i] == init[i];
    }
  }

  lemma {:induction false} ScoreableHas(rows: seq<Row>, k: int)
    requires 0 <= k < |rows| && ValidScore(rows[k])
    ensures rows[k] in Scoreable(rows)
  {
    if k < |rows| - 1 {
      ScoreableHas(rows[..|rows| - 1], k);
    }
  }

  /** How far a weighed score lies from a value, positive above and negative below. */
  ghost function RowDeviation(row: Row, m: real): real {
    if ValidScore(row) && row.weight > 0.0 then row.weight * (row.score.value - m) else 0.0
  }

  ghost function Deviation(rows: seq<Row>, m: real): real {
    if rows == [] then 0.0 else Deviation(rows[..|rows| - 1], m) + RowDeviation(rows[|rows| - 1], m)
  }

  /** The distance of a weighed sum from a value taken once for each unit of weight. */
  ghost predicate Off(m: real, weight: real, weighted: real, deviation: real) {
    deviation == weighted - m * weight
  }

  lemma OffOne(m: real, w: real, s: real)
    ensures Off(m, w, s * w, w * (s - m))
  {
  }

  lemma OffSum(m: real, weight: real, weighted: real, deviation: real, w: real, c: real, d: real)
    requires Off(m, weight, weighted, deviation) && Off(m, w, c, d)
    ensures Off(m, weight + w, weighted + c, deviation + d)
  {
  }

  lemma OffRow(row: Row, m: real)
    requires ValidScore(row)
    ensures Off(m, RowWeight(row), RowContribution(row), RowDeviation(row, m))
  {
    if row.weight > 0.0 {
      OffOne(m, row.weight, row.score.value);
    }
  }

  lemma {:induction false} OffList(list: seq<Row>, m: real)
    requires AllValid(list)
    ensures Off(m, WeightOf(list), WeightedOf(list), Deviation(list, m))
  {
    if list != [] {
      var last, init := list[|list| - 1], list[..|list| - 1];
      OffList(init, m);
      assert ValidScore(last);
      OffRow(last, m);
      OffSum(m, WeightOf(init), WeightedOf(init), Deviation(init, m), RowWeight(last), RowContribution(last),
             RowDeviation(last, m));
    }
  }

  /** Only the scoreable rows weigh anything. */
  lemma {:induction false} ScoreableDeviation(rows: seq<Row>, m: real)
    ensures Deviation(Scoreable(rows), m) == Deviation(rows, m)
  {
    if rows != [] {
      var n := |rows| - 1;
      var list := Scoreable(rows[..n]);
      ScoreableDeviation(rows[..n], m);
      if ValidScore(rows[n]) {
        assert (list + [rows[n]])[..|list|] == list;
      } else {
        assert list + [] == list;
      }
    }
  }

  ghost predicate Weighed(rows: seq<Row>) {
    exists i :: 0 <= i < |rows| && ValidScore(rows[i]) && rows[i].weight > 0.0
  }

  lemma WeighedSnoc(rows: seq<Row>)
    requires rows != []
    ensures var last := rows[|rows| - 1];
            Weighed(rows) <==> Weighed(rows[..|rows| - 1]) || (ValidScore(last) && last.weight > 0.0)
  {
    var init := rows[..|rows| - 1];
    assert forall i :: 0 <= i < |init| ==> init[i] == rows[i];
  }

  lemma {:induction false} WeightPositive(rows: seq<Row>)
    ensures WeightOf(Scoreable(rows)) >= 0.0
    ensures WeightOf(Scoreable(rows)) > 0.0 <==> Weighed(rows)
  {
    if rows != [] {
      var n := |rows| - 1;
      var list := Scoreable(rows[..n]);
      WeightPositive(rows[..n]);
      WeighedSnoc(rows);
      if ValidScore(rows[n]) {
        assert (list + [rows[n]])[..|list|] == list;
      } else {
        assert list + [] == list;
      }
    }
  }

  /**
    A dimension is scored exactly when some result counts; its score is then the
    least valid score, or the one value from which the weighed scores deviate by
    nothing in total.
   */
  lemma DimensionMeans(policy: DimensionPolicy, rows: seq<Row>)
    ensures policy.method_ == MinScore ==>
              var r := DimScore(policy, rows);
              && (r.Some? <==> exists i :: 0 <= i < |rows| && ValidScore(rows[i]))
              && (r.Some? ==>
                    && (forall i :: 0 <= i < |rows| && ValidScore(rows[i]) ==> r.value <= rows[i].score.value)
                    && (exists i :: 0 <= i < |rows| && ValidScore(rows[i]) && r.value == rows[i].score.value))
    ensures policy.method_ == WeightedMean ==>
              var r := DimScore(policy, rows);
              && (r.Some? <==> Weighed(rows))
              && (r.Some? ==> Deviation(rows, r.value) == 0.0)
  {
    if policy.method_ == MinScore {
      MinimumMeans(policy, rows);
    } else {
      MeanMeans(policy, rows);
    }
  }

  lemma MinimumMeans(policy: DimensionPolicy, rows: seq<Row>)
    requires policy.method_ == MinScore
    ensures var r := DimScore(policy, rows);
            && (r.Some? <==> exists i :: 0 <= i < |rows| && ValidScore(rows[i]))
            && (r.Some? ==>
                  && (forall i :: 0 <= i < |rows| && ValidScore(rows[i]) ==> r.value <= rows[i].score.value)
                  && (exists i :: 0 <= i < |rows| && ValidScore(rows[i]) && r.value == rows[i].score.value))
  {
    ScoreableValid(rows);
    var list := Scoreable(rows);
    forall i | 0 <= i < |rows| && ValidScore(rows[i])
      ensures rows[i] in list
    {
      ScoreableHas(rows, i);
    }
    if list != [] {
      LeastIsMinimum(list);
      var j :| 0 <= j < |list| && LeastOf(list) == list[j].score.value;
      assert list[j] in rows && ValidScore(list[j]);
    }
  }

  lemma MeanMeans(policy: DimensionPolicy, rows: seq<Row>)
    requires policy.method_ == WeightedMean
    ensures var r := DimScore(policy, rows);
            && (r.Some? <==> Weighed(rows))
            && (r.Some? ==> Deviation(rows, r.value) == 0.0)
  {
    ScoreableValid(rows);
    WeightPositive(rows);
    var weighted, weight := WeightedOf(Scoreable(rows)), WeightOf(Scoreable(rows));
    if weight > 0.0 {
      var m := weighted / weight;
      OffList(Scoreable(rows), m);
      ScoreableDeviation(rows, m);
      MeanBalances(weighted, weight, m, Deviation(rows, m));
    }
  }

  lemma MeanBalances(weighted: real, weight: real, m: real, deviation: real)
    requires weight > 0.0 && m == weighted / weight && Off(m, weight, weighted, deviation)
    ensures deviation == 0.0
  {
  }

  // ----- the aggregate -----

  /** Each counted dimension's weighed distance from a value. */
  function Distances(settings: Settings, scores: map<string, real>, m: real): map<string, real> {
    map d | d in scores :: PolicyFor(settings, d).weight * (scores[d] - m)
  }

  lemma {:induction false} OffDimensions(m: real, dims: set<string>, weights: map<string, real>,
                                         contributions: map<string, real>, distances: map<string, real>)
    requires dims <= weights.Keys && dims <= contributions.Keys && dims <= distances.Keys
    requires forall d :: d in dims ==> Off(m, weights[d], contributions[d], distances[d])
    ensures Off(m, SumOver(dims, weights), SumOver(dims, contributions), SumOver(dims, distances))
    decreases dims
  {
    if dims != {} {
      var d := Pick(dims);
      var rest := dims - {d};
      OffDimensions(m, rest, weights, contributions, distances);
      OffSum(m, weights[d], contributions[d], distances[d], SumOver(rest, weights), SumOver(rest, contributions),
             SumOver(rest, distances));
    }
  }

  lemma OffDimension(settings: Settings, scores: map<string, real>, m: real, d: string)
    requires d in scores
    ensures Off(m, Weights(settings, scores)[d], Contributions(settings, scores)[d], Distances(settings, scores, m)[d])
  {
    OffOne(m, PolicyFor(settings, d).weight, scores[d]);
  }

  /** The aggregate is the balance point of the dimensions with a positive weight, if there is one. */
  lemma AggregateBalances(settings: Settings, scores: map<string, real>)
    ensures var a := Aggregate(settings, scores);
            && (a.Some? <==> exists d :: d in scores && PolicyFor(settings, d).weight > 0.0)
            && (a.Some? ==> SumOver(Counted(settings, scores), Distances(settings, scores, a.value)) == 0.0)
  {
    var counted, weights := Counted(settings, scores), Weights(settings, scores);
    CountedPositive(settings, scores, counted);
    if counted != {} {
      CountedBalances(settings, scores, Aggregate(settings, scores).value);
    }
    if d :| d in scores && PolicyFor(settings, d).weight > 0.0 {
      assert d in counted;
    }
  }

  lemma CountedBalances(settings: Settings, scores: map<string, real>, m: real)
    requires Aggregate(settings, scores) == Some(m)
    ensures SumOver(Counted(settings, scores), Distances(settings, scores, m)) == 0.0
  {
    forall d | d in scores
      ensures Off(m, Weights(settings, scores)[d], Contributions(settings, scores)[d],
                  Distances(settings, scores, m)[d])
    {
      OffDimension(settings, scores, m, d);
    }
    OffDimensions(m, Counted(settings, scores), Weights(settings, scores), Contributions(settings, scores),
                  Distances(settings, scores, m));
    MeanBalances(SumOver(Counted(settings, scores), Contributions(settings, scores)),
                 SumOver(Counted(settings, scores), Weights(settings, scores)), m,
                 SumOver(Counted(settings, scores), Distances(settings, scores, m)));
  }

  lemma {:induction false} CountedPositive(settings: Settings, scores: map<string, real>, dims: set<string>)
    requires dims <= Counted(settings, scores)
    ensures dims == {} ==> SumOver(dims, Weights(settings, scores)) == 0.0
    ensures dims != {} ==> SumOver(dims, Weights(settings, scores)) > 0.0
    decreases dims
  {
    if dims != {} {
      CountedPositive(settings, scores, dims - {Pick(dims)});
    }
  }

  // ----- blocking failures and status -----

  /** Exactly the required, blocking results that failed or errored are listed, each under its own position. */
  lemma {:induction false} BlockingMeans(settings: Settings, results: seq<Row>, required: set<string>, k: int, row: Row)
    ensures (k, row) in BlockingRows(settings, results, required) <==>
              && 0 <= k < |results| && row == results[k] && row.bindingId in required
              && (row.blocking || (row.dimension in settings && settings[row.dimension].blocking))
              && (row.status == Failed || row.status == Errored)
  {
    if results != [] {
      var n := |results| - 1;
      var init := results[..n];
      assert forall i :: 0 <= i < n ==> init[i] == results[i];
      BlockingMeans(settings, init, required, k, row);
    }
  }

  ghost predicate InDimension(row: Row, required: set<string>, d: string) {
    row.bindingId in required && row.dimension == d
  }

  ghost function Places(results: seq<Row>, required: set<string>, d: string): set<int> {
    set k | 0 <= k < |results| && InDimension(results[k], required, d)
  }

  lemma PlacesSnoc(results: seq<Row>, required: set<string>, d: string)
    requires results != []
    ensures var n := |results| - 1;
            |Places(results, required, d)|
            == |Places(results[..n], required, d)| + (if InDimension(results[n], required, d) then 1 else 0)
  {
    var n := |results| - 1;
    var init := results[..n];
    assert forall k :: 0 <= k < n ==> init[k] == results[k];
    if InDimension(results[n], required, d) {
      assert Places(results, required, d) == Places(init, required, d) + {n};
    } else {
      assert Places(results, required, d) == Places(init, required, d);
    }
  }

  /** A dimension's rows are the results of required bindings in it, every one of them once. */
  lemma {:induction false} RowsInMeans(results: seq<Row>, required: set<string>, d: string)
    ensures |RowsIn(results, required, d)| == |Places(results, required, d)|
    ensures multiset(RowsIn(results, required, d)) <= multiset(results)
    ensures forall row :: row in RowsIn(results, required, d) ==> InDimension(row, required, d)
  {
    if results != [] {
      var n := |results| - 1;
      RowsInMeans(results[..n], required, d);
      PlacesSnoc(results, required, d);
      assert results == results[..n] + [results[n]];
    }
  }

  /** When an execution fails and when it is an error. */
  lemma StatusMeans(defaults: Defaults, settings: Settings, bindings: seq<Binding>, results: seq<Row>)
    ensures var o := OutcomeOf(defaults, settings, bindings, results);
            && (o.status == OverallFailed <==>
                  && Complete(bindings, results)
                  && (|| (defaults.failOnBlocking && o.blocking != [])
                      || (o.aggregate.Some? && o.aggregate.value < defaults.minScore)))
            && (o.status == OverallError <==>
                  || !Complete(bindings, results)
                  || (o.aggregate.None? && !(defaults.failOnBlocking && o.blocking != [])))
            && (!Complete(bindings, results) ==> o.scores == map[] && o.aggregate.None?)
  {
    if Complete(bindings, results) {
      CompleteScoreable(bindings, results);
    } else {
      AggregateBalances(settings, map[]);
    }
  }
}
