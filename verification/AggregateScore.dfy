/**
  Dimension scores, the aggregate and the overall status of one execution. Only
  required bindings count; what an optional binding reports changes nothing here.
 */
module AggregateScore {
  import opened Base
  import opened Aggregation

  // ----- one dimension -----

  ghost function Scoreable(rows: seq<Row>): seq<Row> {
    if rows == [] then []
    else
      var n := |rows| - 1;
      Scoreable(rows[..n]) + if ValidScore(rows[n]) then [rows[n]] else []
  }

  predicate AllValid(rows: seq<Row>) {
    forall i :: 0 <= i < |rows| ==> ValidScore(rows[i])
  }

  /** The minimum, started from one. */
  function LeastOf(rows: seq<Row>): real
    requires AllValid(rows)
  {
    if rows == [] then 1.0
    else
      var n := |rows| - 1;
      var least := LeastOf(rows[..n]);
      if rows[n].score.value <= least then rows[n].score.value else least
  }

  /** Rows without a positive weight are passed over. */
  function RowWeight(row: Row): real {
    if row.weight > 0.0 then row.weight else 0.0
  }

  function RowContribution(row: Row): real
    requires ValidScore(row)
  {
    if row.weight > 0.0 then row.score.value * row.weight else 0.0
  }

  function WeightOf(rows: seq<Row>): real {
    if rows == [] then 0.0 else WeightOf(rows[..|rows| - 1]) + RowWeight(rows[|rows| - 1])
  }

  function WeightedOf(rows: seq<Row>): real
    requires AllValid(rows)
  {
    if rows == [] then 0.0 else WeightedOf(rows[..|rows| - 1]) + RowContribution(rows[|rows| - 1])
  }

  lemma {:induction false} ScoreableValid(rows: seq<Row>)
    ensures AllValid(Scoreable(rows))
    ensures forall i :: 0 <= i < |Scoreable(rows)| ==> Scoreable(rows)[i] in rows
  {
    if rows != [] {
      ScoreableValid(rows[..|rows| - 1]);
    }
  }

  ghost function DimScore(policy: DimensionPolicy, rows: seq<Row>): Option<real> {
    ScoreableValid(rows);
    var list := Scoreable(rows);
    if list == [] then None
    else if policy.method_ == MinScore then Some(LeastOf(list))
    else if WeightOf(list) > 0.0 then Some(WeightedOf(list) / WeightOf(list))
    else None
  }

  /** Collects the scoreable rows, then takes their minimum or their weighted mean. */
  method DimensionScore(policy: DimensionPolicy, rows: seq<Row>) returns (r: Option<real>)
    ensures r == DimScore(policy, rows)
  {
    var list := [];
    for i := 0 to |rows|
      invariant list == Scoreable(rows[..i])
    {
      assert rows[..i + 1][..i] == rows[..i];
      if ValidScore(rows[i]) {
        list := list + [rows[i]];
      }
    }
    assert rows[..|rows|] == rows;
    ScoreableValid(rows);
    if list == [] {
      return None;
    }
    if policy.method_ == MinScore {
      var least := Minimum(list);
      return Some(least);
    }
    var weighted, weight := Weigh(list);
    return if weight > 0.0 then Some(weighted / weight) else None;
  }

  method Minimum(list: seq<Row>) returns (least: real)
    requires AllValid(list)
    ensures least == LeastOf(list)
  {
    least := 1.0;
    for i := 0 to |list|
      invariant least == LeastOf(list[..i])
    {
      assert list[..i + 1][..i] == list[..i];
      if list[i].score.value <= least {
        least := list[i].score.value;
      }
    }
    assert list[..|list|] == list;
  }

  method Weigh(list: seq<Row>) returns (weighted: real, weight: real)
    requires AllValid(list)
    ensures weighted == WeightedOf(list) && weight == WeightOf(list)
  {
    weighted, weight := 0.0, 0.0;
    for i := 0 to |list|
      invariant weighted == WeightedOf(list[..i]) && weight == WeightOf(list[..i])
    {
      assert list[..i + 1][..i] == list[..i];
      if list[i].weight > 0.0 {
        weighted := weighted + list[i].score.value * list[i].weight;
        weight := weight + list[i].weight;
      }
    }
    assert list[..|list|] == list;
  }

  ghost predicate Within(rows: seq<Row>, lo: real, hi: real) {
    forall i :: 0 <= i < |rows| && ValidScore(rows[i]) ==> lo <= rows[i].score.value <= hi
  }

  lemma {:induction false} LeastBounds(list: seq<Row>, lo: real, hi: real)
    requires AllValid(list) && Within(list, lo, hi)
    ensures list != [] ==> lo <= LeastOf(list) <= hi
    ensures LeastOf(list) <= 1.0
  {
    if list != [] {
      LeastBounds(list[..|list| - 1], lo, hi);
      assert ValidScore(list[|list| - 1]);
    }
  }

  /** A weighed sum whose mean lies between two bounds. */
  ghost predicate Balanced(lo: real, hi: real, weight: real, weighted: real) {
    lo * weight <= weighted <= hi * weight
  }

  lemma BalancedOne(lo: real, hi: real, w: real, score: real)
    requires w > 0.0 && lo <= score <= hi
    ensures Balanced(lo, hi, w, score * w)
  {
  }

  lemma BalancedSum(lo: real, hi: real, weight: real, weighted: real, w: real, c: real)
    requires Balanced(lo, hi, weight, weighted) && Balanced(lo, hi, w, c)
    ensures Balanced(lo, hi, weight + w, weighted + c)
  {
  }

  lemma BalancedRow(row: Row, lo: real, hi: real)
    requires ValidScore(row) && lo <= row.score.value <= hi
    ensures Balanced(lo, hi, RowWeight(row), RowContribution(row))
  {
    if row.weight > 0.0 {
      BalancedOne(lo, hi, row.weight, row.score.value);
    }
  }

  lemma {:induction false} WeighedBounds(list: seq<Row>, lo: real, hi: real)
    requires AllValid(list) && Within(list, lo, hi)
    ensures Balanced(lo, hi, WeightOf(list), WeightedOf(list))
  {
    if list != [] {
      var last, init := list[|list| - 1], list[..|list| - 1];
      WeighedBounds(init, lo, hi);
      assert ValidScore(last);
      BalancedRow(last, lo, hi);
      BalancedSum(lo, hi, WeightOf(init), WeightedOf(init), RowWeight(last), RowContribution(last));
    }
  }

  lemma MeanBounds(weighted: real, weight: real, lo: real, hi: real)
    requires weight > 0.0 && Balanced(lo, hi, weight, weighted)
    ensures lo <= weighted / weight <= hi
  {
  }

  /** A dimension's score lies between its least and greatest valid score. */
  lemma DimensionBounds(policy: DimensionPolicy, rows: seq<Row>, lo: real, hi: real)
    requires Within(rows, lo, hi) && DimScore(policy, rows).Some?
    ensures lo <= DimScore(policy, rows).value <= hi
  {
    ScoreableValid(rows);
    var list := Scoreable(rows);
    forall i | 0 <= i < |list|
      ensures lo <= list[i].score.value <= hi
    {
      var k :| 0 <= k < |rows| && rows[k] == list[i];
    }
    LeastBounds(list, lo, hi);
    WeighedBounds(list, lo, hi);
    if policy.method_ != MinScore {
      MeanBounds(WeightedOf(list), WeightOf(list), lo, hi);
    }
  }

  // ----- sums over dimensions, in any order -----

  ghost function Pick(dims: set<string>): string
    requires dims != {}
    ensures Pick(dims) in dims
  {
    var d :| d in dims; d
  }

  ghost function SumOver(dims: set<string>, f: map<string, real>): real
    requires dims <= f.Keys
  {
    if dims == {} then 0.0 else f[Pick(dims)] + SumOver(dims - {Pick(dims)}, f)
  }

  /** Any dimension may be added first. */
  lemma {:induction false} SumOverAny(dims: set<string>, f: map<string, real>, d: string)
    requires dims <= f.Keys && d in dims
    ensures SumOver(dims, f) == f[d] + SumOver(dims - {d}, f)
    decreases |dims|
  {
    var e := Pick(dims);
    if e != d {
      SumOverAny(dims - {e}, f, d);
      SumOverAny(dims - {d}, f, e);
      assert dims - {e} - {d} == dims - {d} - {e};
    }
  }

  lemma SumOverAdd(done: set<string>, f: map<string, real>, d: string)
    requires done <= f.Keys && d in f && d !in done
    ensures SumOver(done + {d}, f) == SumOver(done, f) + f[d]
  {
    SumOverAny(done + {d}, f, d);
    assert done + {d} - {d} == done;
  }

  // ----- the aggregate -----

  ghost function RowsIn(results: seq<Row>, required: set<string>, dimension: string): seq<Row> {
    if results == [] then []
    else
      var n := |results| - 1;
      RowsIn(results[..n], required, dimension)
      + if results[n].bindingId in required && results[n].dimension == dimension then [results[n]] else []
  }

  ghost function Dimensions(results: seq<Row>, required: set<string>): set<string> {
    set i | 0 <= i < |results| && results[i].bindingId in required :: results[i].dimension
  }

  ghost function ScoresOf(settings: Settings, results: seq<Row>, required: set<string>): map<string, real> {
    map d | d in Dimensions(results, required) && DimScore(PolicyFor(settings, d), RowsIn(results, required, d)).Some?
      :: DimScore(PolicyFor(settings, d), RowsIn(results, required, d)).value
  }

  function Weights(settings: Settings, scores: map<string, real>): map<string, real> {
    map d | d in scores :: PolicyFor(settings, d).weight
  }

  function Contributions(settings: Settings, scores: map<string, real>): map<string, real> {
    map d | d in scores :: scores[d] * PolicyFor(settings, d).weight
  }

  function Counted(settings: Settings, scores: map<string, real>): set<string> {
    set d | d in scores && PolicyFor(settings, d).weight > 0.0
  }

  ghost function Aggregate(settings: Settings, scores: map<string, real>): Option<real> {
    var weight := SumOver(Counted(settings, scores), Weights(settings, scores));
    if weight > 0.0 then Some(SumOver(Counted(settings, scores), Contributions(settings, scores)) / weight) else None
  }

  predicate Blocks(settings: Settings, required: set<string>, row: Row) {
    && row.bindingId in required
    && (row.blocking || PolicyFor(settings, row.dimension).blocking)
    && (row.status == Failed || row.status == Errored)
  }

  ghost function BlockingRows(settings: Settings, results: seq<Row>, required: set<string>): seq<(int, Row)> {
    if results == [] then []
    else
      var n := |results| - 1;
      BlockingRows(settings, results[..n], required)
      + if Blocks(settings, required, results[n]) then [(n, results[n])] else []
  }

  ghost predicate HasScoreable(results: seq<Row>, required: set<string>) {
    exists i :: 0 <= i < |results| && results[i].bindingId in required && ValidScore(results[i])
  }

  datatype Overall = OverallPassed | OverallFailed | OverallError

  datatype Outcome = Outcome(status: Overall, aggregate: Option<real>, scores: map<string, real>,
                             blocking: seq<(int, Row)>)

  function StatusOf(defaults: Defaults, complete: bool, blocked: bool, scoreable: bool,
                    aggregate: Option<real>): Overall
  {
    if !complete then OverallError
    else if defaults.failOnBlocking && blocked then OverallFailed
    else if !scoreable || aggregate.None? then OverallError
    else if aggregate.value < defaults.minScore then OverallFailed
    else OverallPassed
  }

  ghost function OutcomeOf(defaults: Defaults, settings: Settings, bindings: seq<Binding>, results: seq<Row>): Outcome {
    var required, complete := Required(bindings), Complete(bindings, results);
    var scores := if complete then ScoresOf(settings, results, required) else map[];
    var aggregate := Aggregate(settings, scores);
    var blocking := BlockingRows(settings, results, required);
    Outcome(StatusOf(defaults, complete, blocking != [], HasScoreable(results, required), aggregate), aggregate,
            scores, blocking)
  }

  // ----- the loops -----

  /** Groups the required results by dimension. */
  method GroupDimensions(results: seq<Row>, required: set<string>) returns (groups: map<string, seq<Row>>)
    ensures groups.Keys == Dimensions(results, required)
    ensures forall d :: d in groups ==> groups[d] == RowsIn(results, required, d)
  {
    groups := map[];
    for i := 0 to |results|
      invariant groups.Keys == Dimensions(results[..i], required)
      invariant forall d :: d in groups ==> groups[d] == RowsIn(results[..i], required, d)
    {
      var row := results[i];
      ghost var before, after := results[..i], results[..i + 1];
      assert after[..i] == before;
      DimensionsSnoc(after, required);
      if row.bindingId in required {
        RowsInNone(before, required, row.dimension);
        var rows := if row.dimension in groups then groups[row.dimension] else [];
        groups := groups[row.dimension := rows + [row]];
      }
    }
    assert results[..|results|] == results;
  }

  lemma DimensionsSnoc(results: seq<Row>, required: set<string>)
    requires results != []
    ensures Dimensions(results, required)
         == Dimensions(results[..|results| - 1], required)
            + if results[|results| - 1].bindingId in required then {results[|results| - 1].dimension} else {}
  {
  }

  lemma {:induction false} RowsInNone(results: seq<Row>, required: set<string>, d: string)
    ensures RowsIn(results, required, d) == [] <==> d !in Dimensions(results, required)
  {
    if results != [] {
      RowsInNone(results[..|results| - 1], required, d);
      DimensionsSnoc(results, required);
    }
  }

  /** Scores every dimension that can be scored. */
  method ScoreDimensions(settings: Settings, results: seq<Row>, required: set<string>)
    returns (scores: map<string, real>)
    ensures scores == ScoresOf(settings, results, required)
  {
    var groups := GroupDimensions(results, required);
    scores := map[];
    var todo := groups.Keys;
    ghost var done: set<string> := {};
    while todo != {}
      invariant todo <= groups.Keys && done == groups.Keys - todo
      invariant forall d :: d in scores <==> d in done && d in ScoresOf(settings, results, required)
      invariant forall d :: d in scores ==> scores[d] == ScoresOf(settings, results, required)[d]
      decreases todo
    {
      var d :| d in todo;
      var score := DimensionScore(PolicyFor(settings, d), groups[d]);
      if score.Some? {
        scores := scores[d := score.value];
      }
      DoneNext(groups.Keys, todo, d);
      done := done + {d};
      todo := todo - {d};
    }
    assert done == groups.Keys;
  }

  /** Weighs the scored dimensions, in any order. */
  method WeighDimensions(settings: Settings, scores: map<string, real>) returns (aggregate: Option<real>)
    ensures aggregate == Aggregate(settings, scores)
  {
    var counted := Counted(settings, scores);
    var weights, contributions := Weights(settings, scores), Contributions(settings, scores);
    var weighted, weight := 0.0, 0.0;
    var todo := counted;
    ghost var done: set<string> := {};
    while todo != {}
      invariant todo <= counted && done == counted - todo
      invariant weighted == SumOver(done, contributions) && weight == SumOver(done, weights)
      decreases todo
    {
      var d :| d in todo;
      SumOverAdd(done, contributions, d);
      SumOverAdd(done, weights, d);
      DoneNext(counted, todo, d);
      weighted := weighted + scores[d] * PolicyFor(settings, d).weight;
      weight := weight + PolicyFor(settings, d).weight;
      done := done + {d};
      todo := todo - {d};
    }
    assert done == counted;
    return if weight > 0.0 then Some(weighted / weight) else None;
  }

  /** One scan for blocking failures and for a required result with a valid score. */
  method ScanRequired(settings: Settings, results: seq<Row>, required: set<string>)
    returns (blocking: seq<(int, Row)>, scoreable: bool)
    ensures blocking == BlockingRows(settings, results, required)
    ensures scoreable <==> HasScoreable(results, required)
  {
    blocking, scoreable := [], false;
    for i := 0 to |results|
      invariant blocking == BlockingRows(settings, results[..i], required)
      invariant scoreable <==> exists k :: 0 <= k < i && results[k].bindingId in required && ValidScore(results[k])
    {
      assert results[..i + 1][..i] == results[..i];
      if Blocks(settings, required, results[i]) {
        blocking := blocking + [(i, results[i])];
      }
      if results[i].bindingId in required && ValidScore(results[i]) {
        scoreable := true;
      }
    }
    assert results[..|results|] == results;
  }

  method AggregateResults(defaults: Defaults, settings: Settings, bindings: seq<Binding>, results: seq<Row>)
    returns (o: Outcome, c: Completeness)
    ensures o == OutcomeOf(defaults, settings, bindings, results)
    ensures Reports(c, bindings, results) && (c.complete <==> Complete(bindings, results))
  {
    var required;
    c, required := EvaluatorCompleteness(bindings, results);
    var scores: map<string, real> := map[];
    if c.complete {
      scores := ScoreDimensions(settings, results, required);
    }
    var aggregate := WeighDimensions(settings, scores);
    var blocking, scoreable := ScanRequired(settings, results, required);
    o := Outcome(StatusOf(defaults, c.complete, blocking != [], scoreable, aggregate), aggregate, scores, blocking);
  }

  // ----- what an outcome means -----

  /** Passing means complete, no blocking failure where that matters, and an aggregate at the minimum or above. */
  lemma PassedMeans(defaults: Defaults, settings: Settings, bindings: seq<Binding>, results: seq<Row>)
    ensures var o := OutcomeOf(defaults, settings, bindings, results);
            o.status == OverallPassed <==>
              && Complete(bindings, results)
              && (defaults.failOnBlocking ==> o.blocking == [])
              && o.aggregate.Some? && o.aggregate.value >= defaults.minScore
  {
    if Complete(bindings, results) {
      CompleteScoreable(bindings, results);
    }
  }

  lemma CompleteScoreable(bindings: seq<Binding>, results: seq<Row>)
    requires Complete(bindings, results)
    ensures HasScoreable(results, Required(bindings))
  {
    var id :| id in Required(bindings);
    RowOfResult(results, id);
  }

  lemma {:induction false} RowOfResult(results: seq<Row>, id: string)
    requires RowsOf(results, id) != []
    ensures exists i :: 0 <= i < |results| && results[i] == RowsOf(results, id)[0] && results[i].bindingId == id
  {
    var n := |results| - 1;
    if RowsOf(results[..n], id) != [] {
      RowOfResult(results[..n], id);
      var i :| 0 <= i < n && results[..n][i] == RowsOf(results[..n], id)[0] && results[..n][i].bindingId == id;
      assert results[i] == RowsOf(results, id)[0];
    }
  }

  ghost predicate RequiredWithin(results: seq<Row>, required: set<string>, lo: real, hi: real) {
    forall i :: 0 <= i < |results| && results[i].bindingId in required && ValidScore(results[i]) ==>
      lo <= results[i].score.value <= hi
  }

  lemma {:induction false} RowsInWithin(results: seq<Row>, required: set<string>, d: string, lo: real, hi: real)
    requires RequiredWithin(results, required, lo, hi)
    ensures Within(RowsIn(results, required, d), lo, hi)
  {
    if results != [] {
      RowsInWithin(results[..|results| - 1], required, d, lo, hi);
    }
  }

  lemma {:induction false} SumBounds(dims: set<string>, weights: map<string, real>, contributions: map<string, real>,
                                     lo: real, hi: real)
    requires dims <= weights.Keys && dims <= contributions.Keys
    requires forall d :: d in dims ==> Balanced(lo, hi, weights[d], contributions[d])
    ensures Balanced(lo, hi, SumOver(dims, weights), SumOver(dims, contributions))
    decreases |dims|
  {
    if dims != {} {
      var d := Pick(dims);
      SumBounds(dims - {d}, weights, contributions, lo, hi);
      BalancedSum(lo, hi, weights[d], contributions[d], SumOver(dims - {d}, weights),
                  SumOver(dims - {d}, contributions));
    }
  }

  lemma ContributionBalanced(settings: Settings, scores: map<string, real>, d: string, lo: real, hi: real)
    requires d in Counted(settings, scores) && lo <= scores[d] <= hi
    ensures Balanced(lo, hi, Weights(settings, scores)[d], Contributions(settings, scores)[d])
  {
    BalancedOne(lo, hi, PolicyFor(settings, d).weight, scores[d]);
  }

  lemma CountedBalanced(settings: Settings, scores: map<string, real>, lo: real, hi: real)
    requires forall d :: d in scores ==> lo <= scores[d] <= hi
    ensures Balanced(lo, hi, SumOver(Counted(settings, scores), Weights(settings, scores)),
                     SumOver(Counted(settings, scores), Contributions(settings, scores)))
  {
    forall d | d in Counted(settings, scores)
      ensures Balanced(lo, hi, Weights(settings, scores)[d], Contributions(settings, scores)[d])
    {
      ContributionBalanced(settings, scores, d, lo, hi);
    }
    SumBounds(Counted(settings, scores), Weights(settings, scores), Contributions(settings, scores), lo, hi);
  }

  lemma MeanOfScores(settings: Settings, scores: map<string, real>, lo: real, hi: real)
    requires (forall d :: d in scores ==> lo <= scores[d] <= hi) && Aggregate(settings, scores).Some?
    ensures lo <= Aggregate(settings, scores).value <= hi
  {
    CountedBalanced(settings, scores, lo, hi);
    MeanBounds(SumOver(Counted(settings, scores), Contributions(settings, scores)),
               SumOver(Counted(settings, scores), Weights(settings, scores)), lo, hi);
  }

  /** Any aggregate lies between the least and the greatest valid score of a required binding. */
  lemma AggregateBounds(defaults: Defaults, settings: Settings, bindings: seq<Binding>, results: seq<Row>, lo: real,
                        hi: real)
    requires RequiredWithin(results, Required(bindings), lo, hi)
    requires OutcomeOf(defaults, settings, bindings, results).aggregate.Some?
    ensures lo <= OutcomeOf(defaults, settings, bindings, results).aggregate.value <= hi
  {
    var scores := OutcomeOf(defaults, settings, bindings, results).scores;
    forall d | d in scores
      ensures lo <= scores[d] <= hi
    {
      RowsInWithin(results, Required(bindings), d, lo, hi);
      DimensionBounds(PolicyFor(settings, d), RowsIn(results, Required(bindings), d), lo, hi);
    }
    MeanOfScores(settings, scores, lo, hi);
  }

  // ----- optional bindings -----

  lemma {:induction false} RowsOfReplaced(results: seq<Row>, i: int, row: Row, id: string)
    requires 0 <= i < |results| && results[i].bindingId == row.bindingId != id
    ensures RowsOf(results[i := row], id) == RowsOf(results, id)
  {
    var n := |results| - 1;
    if i < n {
      assert results[i := row][..n] == results[..n][i := row];
      RowsOfReplaced(results[..n], i, row, id);
    } else {
      assert results[i := row][..n] == results[..n];
    }
  }

  lemma {:induction false} RowsInReplaced(results: seq<Row>, i: int, row: Row, required: set<string>, d: string)
    requires 0 <= i < |results| && results[i].bindingId == row.bindingId && row.bindingId !in required
    ensures RowsIn(results[i := row], required, d) == RowsIn(results, required, d)
  {
    var n := |results| - 1;
    if i < n {
      assert results[i := row][..n] == results[..n][i := row];
      RowsInReplaced(results[..n], i, row, required, d);
    } else {
      assert results[i := row][..n] == results[..n];
    }
  }

  lemma {:induction false} BlockingReplaced(settings: Settings, results: seq<Row>, i: int, row: Row,
                                            required: set<string>)
    requires 0 <= i < |results| && results[i].bindingId == row.bindingId && row.bindingId !in required
    ensures BlockingRows(settings, results[i := row], required) == BlockingRows(settings, results, required)
  {
    var n := |results| - 1;
    if i < n {
      assert results[i := row][..n] == results[..n][i := row];
      BlockingReplaced(settings, results[..n], i, row, required);
    } else {
      assert results[i := row][..n] == results[..n];
    }
  }

  lemma DimensionsReplaced(results: seq<Row>, i: int, row: Row, required: set<string>)
    requires 0 <= i < |results| && results[i].bindingId == row.bindingId && row.bindingId !in required
    ensures Dimensions(results[i := row], required) == Dimensions(results, required)
    ensures HasScoreable(results[i := row], required) <==> HasScoreable(results, required)
  {
    var other := results[i := row];
    forall d | d in Dimensions(results, required)
      ensures d in Dimensions(other, required)
    {
      var k :| 0 <= k < |results| && results[k].bindingId in required && results[k].dimension == d;
      assert other[k] == results[k];
    }
    forall d | d in Dimensions(other, required)
      ensures d in Dimensions(results, required)
    {
      var k :| 0 <= k < |other| && other[k].bindingId in required && other[k].dimension == d;
      assert other[k] == results[k];
    }
    assert forall k :: 0 <= k < |results| && k != i ==> other[k] == results[k];
  }

  lemma CompleteReplaced(bindings: seq<Binding>, results: seq<Row>, i: int, row: Row)
    requires 0 <= i < |results| && results[i].bindingId == row.bindingId && row.bindingId !in Required(bindings)
    ensures Complete(bindings, results[i := row]) <==> Complete(bindings, results)
  {
    var other := results[i := row];
    assert forall k :: 0 <= k < |results| ==> other[k].bindingId == results[k].bindingId;
    IdsReplaced(results, i, row);
    assert DistinctResults(other) <==> DistinctResults(results);
    forall id | id in Required(bindings)
      ensures RowsOf(other, id) == RowsOf(results, id)
    {
      RowsOfReplaced(results, i, row, id);
    }
  }

  lemma IdsReplaced(results: seq<Row>, i: int, row: Row)
    requires 0 <= i < |results| && results[i].bindingId == row.bindingId
    ensures ResultIds(results[i := row]) == ResultIds(results)
  {
    var other := results[i := row];
    assert forall k :: 0 <= k < |results| ==> other[k].bindingId == results[k].bindingId;
    forall id | id in ResultIds(results)
      ensures id in ResultIds(other)
    {
      var k :| 0 <= k < |results| && results[k].bindingId == id;
      assert other[k].bindingId == id;
    }
  }

  lemma ScoresReplaced(settings: Settings, results: seq<Row>, i: int, row: Row, required: set<string>)
    requires 0 <= i < |results| && results[i].bindingId == row.bindingId && row.bindingId !in required
    ensures ScoresOf(settings, results[i := row], required) == ScoresOf(settings, results, required)
  {
    DimensionsReplaced(results, i, row, required);
    forall d
      ensures RowsIn(results[i := row], required, d) == RowsIn(results, required, d)
    {
      RowsInReplaced(results, i, row, required, d);
    }
  }

  /** Replacing, in place, any result of a binding that is not required changes nothing in the outcome. */
  lemma OptionalResultsInert(defaults: Defaults, settings: Settings, bindings: seq<Binding>, results: seq<Row>, i: int,
                             row: Row)
    requires 0 <= i < |results| && results[i].bindingId == row.bindingId && row.bindingId !in Required(bindings)
    ensures OutcomeOf(defaults, settings, bindings, results[i := row])
            == OutcomeOf(defaults, settings, bindings, results)
  {
    CompleteReplaced(bindings, results, i, row);
    ScoresReplaced(settings, results, i, row, Required(bindings));
    BlockingReplaced(settings, results, i, row, Required(bindings));
    DimensionsReplaced(results, i, row, Required(bindings));
  }
}
