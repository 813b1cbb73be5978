/**
  One execution's evaluator results against its profile's bindings: completeness
  counters, per-dimension scores, blocking failures and the overall status, over
  exact reals.
 */
module Aggregation {
  import opened Base

  datatype Binding = Binding(id: string, required: bool)

  datatype Status = Passed | Failed | Errored | Abstained

  datatype Row = Row(bindingId: string, evaluator: int, dimension: string, status: Status, score: Option<real>,
                     blocking: bool, weight: real, category: Option<string>, reason: Option<string>)

  datatype Method = MinScore | WeightedMean

  datatype DimensionPolicy = DimensionPolicy(method_: Method, blocking: bool, weight: real)

  type Settings = map<string, DimensionPolicy>

  datatype Defaults = Defaults(failOnBlocking: bool, minScore: real)

  function PolicyFor(settings: Settings, dimension: string): DimensionPolicy {
    if dimension in settings then settings[dimension] else DimensionPolicy(WeightedMean, false, 1.0)
  }

  predicate ValidScore(row: Row) {
    (row.status == Passed || row.status == Failed) && row.score.Some? && 0.0 <= row.score.value <= 1.0
  }

  // ----- what is expected and what came back -----

  /** Later bindings with the same ID replace earlier ones. */
  ghost function Expected(bindings: seq<Binding>): map<string, bool> {
    if bindings == [] then map[]
    else
      var n := |bindings| - 1;
      Expected(bindings[..n])[bindings[n].id := bindings[n].required]
  }

  function RequiredOf(expected: map<string, bool>): set<string> {
    set id | id in expected && expected[id]
  }

  ghost function Required(bindings: seq<Binding>): set<string> {
    RequiredOf(Expected(bindings))
  }

  ghost function RowsOf(results: seq<Row>, id: string): seq<Row> {
    if results == [] then []
    else
      var n := |results| - 1;
      RowsOf(results[..n], id) + if results[n].bindingId == id then [results[n]] else []
  }

  datatype Category = Scored | HasError | HasAbstained | Missing | Unscored

  /** Where one required binding is counted. */
  ghost function CategoryOf(rows: seq<Row>): Category {
    if rows == [] then Missing
    else if |rows| != 1 then Unscored
    else if rows[0].status == Errored then HasError
    else if rows[0].status == Abstained then HasAbstained
    else if ValidScore(rows[0]) then Scored
    else Unscored
  }

  ghost function InCategory(ids: set<string>, results: seq<Row>, c: Category): set<string> {
    set id | id in ids && CategoryOf(RowsOf(results, id)) == c
  }

  ghost function NotScored(ids: set<string>, results: seq<Row>): set<string> {
    set id | id in ids && CategoryOf(RowsOf(results, id)) != Scored
  }

  ghost function ResultIds(results: seq<Row>): set<string> {
    set i | 0 <= i < |results| :: results[i].bindingId
  }

  ghost predicate DistinctBindings(bindings: seq<Binding>) {
    forall i, j :: 0 <= i < |bindings| && 0 <= j < |bindings| && i < j ==> bindings[i].id != bindings[j].id
  }

  ghost predicate DistinctResults(results: seq<Row>) {
    forall i, j :: 0 <= i < |results| && 0 <= j < |results| && i < j ==> results[i].bindingId != results[j].bindingId
  }

  /** Every required binding has exactly one valid score, and there is nothing repeated or unexpected. */
  ghost predicate Complete(bindings: seq<Binding>, results: seq<Row>) {
    && Required(bindings) != {}
    && DistinctBindings(bindings)
    && DistinctResults(results)
    && ResultIds(results) <= Expected(bindings).Keys
    && forall id :: id in Required(bindings) ==> |RowsOf(results, id)| == 1 && ValidScore(RowsOf(results, id)[0])
  }

  datatype Completeness = Completeness(complete: bool, required: nat, optional: nat, tally: Tally,
                                       duplicateBindings: nat,
                                       duplicateResults: nat, unexpected: set<string>, incomplete: set<string>)

  // ----- counting lemmas -----

  lemma {:induction false} ExpectedKeys(bindings: seq<Binding>, id: string)
    ensures id in Expected(bindings) <==> exists i :: 0 <= i < |bindings| && bindings[i].id == id
  {
    if bindings != [] {
      var n := |bindings| - 1;
      ExpectedKeys(bindings[..n], id);
      if i :| 0 <= i < n && bindings[..n][i].id == id {
        assert bindings[i].id == id;
      }
    }
  }

  lemma BindingsSnoc(bindings: seq<Binding>)
    requires bindings != []
    ensures DistinctBindings(bindings) <==>
              DistinctBindings(bindings[..|bindings| - 1])
              && bindings[|bindings| - 1].id !in Expected(bindings[..|bindings| - 1])
  {
    var n := |bindings| - 1;
    var init, last := bindings[..n], bindings[n];
    ExpectedKeys(init, last.id);
    if i :| 0 <= i < n && init[i].id == last.id {
      assert bindings[i].id == bindings[n].id;
    } else {
      assert forall i :: 0 <= i < n ==> bindings[i] == init[i];
    }
  }

  lemma InsertedSize(m: map<string, bool>, id: string, required: bool)
    ensures |m[id := required]| == if id in m then |m| else |m| + 1
  {
  }

  /** Bindings repeat exactly when the map of expectations is shorter than the list. */
  lemma {:induction false} BindingCount(bindings: seq<Binding>)
    ensures |Expected(bindings)| <= |bindings|
    ensures |Expected(bindings)| == |bindings| <==> DistinctBindings(bindings)
  {
    if bindings != [] {
      var n := |bindings| - 1;
      BindingCount(bindings[..n]);
      BindingsSnoc(bindings);
      InsertedSize(Expected(bindings[..n]), bindings[n].id, bindings[n].required);
    }
  }

  lemma {:induction false} RowsOfNone(results: seq<Row>, id: string)
    ensures RowsOf(results, id) == [] <==> id !in ResultIds(results)
  {
    if results != [] {
      var n := |results| - 1;
      RowsOfNone(results[..n], id);
      IdsSnoc(results);
    }
  }

  lemma IdsSnoc(results: seq<Row>)
    requires results != []
    ensures ResultIds(results) == ResultIds(results[..|results| - 1]) + {results[|results| - 1].bindingId}
  {
  }

  /** The positions of the results of some bindings. */
  ghost function Positions(results: seq<Row>, ids: set<string>): set<int> {
    set i | 0 <= i < |results| && results[i].bindingId in ids
  }

  lemma {:induction false} PositionsOfOne(results: seq<Row>, id: string)
    ensures |Positions(results, {id})| == |RowsOf(results, id)|
  {
    if results != [] {
      var n := |results| - 1;
      PositionsOfOne(results[..n], id);
      assert Positions(results, {id}) == Positions(results[..n], {id}) + if results[n].bindingId == id then {n} else {};
    } else {
      assert Positions(results, {id}) == {};
    }
  }

  lemma PositionsGrow(results: seq<Row>, ids: set<string>, id: string)
    requires id !in ids
    ensures |Positions(results, ids + {id})| == |Positions(results, ids)| + |RowsOf(results, id)|
  {
    PositionsOfOne(results, id);
    assert Positions(results, ids + {id}) == Positions(results, ids) + Positions(results, {id});
    assert Positions(results, ids) !! Positions(results, {id});
  }

  lemma {:induction false} PositionsAll(results: seq<Row>, ids: set<string>)
    requires forall i :: 0 <= i < |results| ==> results[i].bindingId in ids
    ensures |Positions(results, ids)| == |results|
  {
    if results == [] {
      assert Positions(results, ids) == {};
    } else {
      var n := |results| - 1;
      PositionsAll(results[..n], ids);
      assert Positions(results, ids) == Positions(results[..n], ids) + {n};
    }
  }

  lemma DistinctSnoc(results: seq<Row>)
    requires results != []
    ensures DistinctResults(results) <==>
              DistinctResults(results[..|results| - 1])
              && results[|results| - 1].bindingId !in ResultIds(results[..|results| - 1])
  {
  }

  /** Results repeat exactly when there are fewer IDs than results. */
  lemma {:induction false} ResultCount(results: seq<Row>)
    ensures |ResultIds(results)| <= |results|
    ensures |ResultIds(results)| == |results| <==> DistinctResults(results)
  {
    if results != [] {
      var n := |results| - 1;
      ResultCount(results[..n]);
      IdsSnoc(results);
      DistinctSnoc(results);
    } else {
      assert ResultIds(results) == {};
    }
  }

  // ----- completeness -----

  /** Groups results by binding. */
  method GroupResults(results: seq<Row>) returns (groups: map<string, seq<Row>>)
    ensures groups.Keys == ResultIds(results)
    ensures forall id :: id in groups ==> groups[id] == RowsOf(results, id)
  {
    groups := map[];
    for i := 0 to |results|
      invariant groups.Keys == ResultIds(results[..i])
      invariant forall id :: id in groups ==> groups[id] == RowsOf(results[..i], id)
    {
      var row := results[i];
      ghost var before, after := results[..i], results[..i + 1];
      assert after[..i] == before;
      IdsSnoc(after);
      RowsOfNone(before, row.bindingId);
      var rows := if row.bindingId in groups then groups[row.bindingId] else [];
      groups := groups[row.bindingId := rows + [row]];
    }
    assert results[..|results|] == results;
  }

  /** The sum of all groups' surplus results. */
  method CountDuplicates(results: seq<Row>, groups: map<string, seq<Row>>) returns (n: nat)
    requires groups.Keys == ResultIds(results) && forall id :: id in groups ==> groups[id] == RowsOf(results, id)
    ensures n == |results| - |ResultIds(results)|
  {
    n := 0;
    var todo := groups.Keys;
    ghost var done: set<string> := {};
    while todo != {}
      invariant done + todo == groups.Keys && done !! todo
      invariant n + |done| == |Positions(results, done)|
      decreases todo
    {
      var id :| id in todo;
      PositionsGrow(results, done, id);
      RowsOfNone(results, id);
      n := n + (if |groups[id]| > 0 then |groups[id]| - 1 else 0);
      done := done + {id};
      todo := todo - {id};
    }
    PositionsAll(results, done);
  }

  method ExpectBindings(bindings: seq<Binding>) returns (expected: map<string, bool>, duplicates: nat)
    ensures expected == Expected(bindings)
    ensures duplicates == |bindings| - |expected|
  {
    expected, duplicates := map[], 0;
    for i := 0 to |bindings|
      invariant expected == Expected(bindings[..i])
      invariant duplicates == i - |expected|
    {
      var b := bindings[i];
      assert bindings[..i + 1][..i] == bindings[..i];
      InsertedSize(expected, b.id, b.required);
      if b.id in expected {
        duplicates := duplicates + 1;
      }
      expected := expected[b.id := b.required];
    }
    assert bindings[..|bindings|] == bindings;
  }

  datatype Tally = Tally(scored: nat, errors: nat, abstained: nat, missing: nat, unscored: nat)

  function Bump(t: Tally, c: Category): Tally {
    match c
    case Scored => t.(scored := t.scored + 1)
    case HasError => t.(errors := t.errors + 1)
    case HasAbstained => t.(abstained := t.abstained + 1)
    case Missing => t.(missing := t.missing + 1)
    case Unscored => t.(unscored := t.unscored + 1)
  }

  function Total(t: Tally): nat {
    t.scored + t.errors + t.abstained + t.missing + t.unscored
  }

  /** The five counters hold these categories. */
  ghost predicate Counts(ids: set<string>, results: seq<Row>, t: Tally) {
    && t.scored == |InCategory(ids, results, Scored)|
    && t.errors == |InCategory(ids, results, HasError)|
    && t.abstained == |InCategory(ids, results, HasAbstained)|
    && t.missing == |InCategory(ids, results, Missing)|
    && t.unscored == |InCategory(ids, results, Unscored)|
  }

  lemma CategoryGrows(done: set<string>, results: seq<Row>, id: string, c: Category)
    requires id !in done
    ensures |InCategory(done + {id}, results, c)|
         == |InCategory(done, results, c)| + (if CategoryOf(RowsOf(results, id)) == c then 1 else 0)
  {
    if CategoryOf(RowsOf(results, id)) == c {
      assert InCategory(done + {id}, results, c) == InCategory(done, results, c) + {id};
    } else {
      assert InCategory(done + {id}, results, c) == InCategory(done, results, c);
    }
  }

  lemma CountsBump(done: set<string>, results: seq<Row>, t: Tally, id: string)
    requires id !in done && Counts(done, results, t)
    ensures Counts(done + {id}, results, Bump(t, CategoryOf(RowsOf(results, id))))
  {
    CategoryGrows(done, results, id, Scored);
    CategoryGrows(done, results, id, HasError);
    CategoryGrows(done, results, id, HasAbstained);
    CategoryGrows(done, results, id, Missing);
    CategoryGrows(done, results, id, Unscored);
  }

  lemma NotScoredGrows(done: set<string>, results: seq<Row>, id: string)
    ensures NotScored(done + {id}, results)
         == NotScored(done, results) + if CategoryOf(RowsOf(results, id)) != Scored then {id} else {}
  {
  }

  lemma NoCounts(results: seq<Row>)
    ensures Counts({}, results, Tally(0, 0, 0, 0, 0))
  {
    assert forall c :: InCategory({}, results, c) == {};
  }

  /** Where one required binding's results put it. */
  method Classify(results: seq<Row>, groups: map<string, seq<Row>>, id: string) returns (c: Category)
    requires groups.Keys == ResultIds(results) && forall id :: id in groups ==> groups[id] == RowsOf(results, id)
    ensures c == CategoryOf(RowsOf(results, id))
  {
    RowsOfNone(results, id);
    if id !in groups {
      return Missing;
    }
    var rows := groups[id];
    if |rows| != 1 {
      return Unscored;
    }
    if rows[0].status == Errored {
      return HasError;
    }
    if rows[0].status == Abstained {
      return HasAbstained;
    }
    return if ValidScore(rows[0]) then Scored else Unscored;
  }

  /** The bindings classified so far. */
  ghost predicate Tallied(done: set<string>, results: seq<Row>, t: Tally, incomplete: set<string>) {
    Counts(done, results, t) && Total(t) == |done| && incomplete == NotScored(done, results)
  }

  lemma TalliedGrows(done: set<string>, id: string, results: seq<Row>, t: Tally, incomplete: set<string>)
    requires id !in done && Tallied(done, results, t, incomplete)
    ensures var c := CategoryOf(RowsOf(results, id));
            Tallied(done + {id}, results, Bump(t, c), if c != Scored then incomplete + {id} else incomplete)
  {
    CountsBump(done, results, t, id);
    NotScoredGrows(done, results, id);
    assert |done + {id}| == |done| + 1;
    if CategoryOf(RowsOf(results, id)) == Scored {
      assert NotScored(done, results) + {} == NotScored(done, results);
    }
  }

  lemma DoneNext(required: set<string>, todo: set<string>, id: string)
    requires todo <= required && id in todo
    ensures (required - todo) + {id} == required - (todo - {id})
  {
  }

  /** Classifies every required binding; the counters add up to all of them. */
  method CountRequired(required: set<string>, results: seq<Row>, groups: map<string, seq<Row>>)
    returns (t: Tally, incomplete: set<string>)
    requires groups.Keys == ResultIds(results) && forall id :: id in groups ==> groups[id] == RowsOf(results, id)
    ensures Tallied(required, results, t, incomplete)
  {
    t, incomplete := Tally(0, 0, 0, 0, 0), {};
    var todo := required;
    ghost var done: set<string> := {};
    NoCounts(results);
    while todo != {}
      invariant todo <= required && done == required - todo
      invariant Tallied(done, results, t, incomplete)
      decreases todo
    {
      var id :| id in todo;
      var c := Classify(results, groups, id);
      TalliedGrows(done, id, results, t, incomplete);
      DoneNext(required, todo, id);
      t := Bump(t, c);
      if c != Scored {
        incomplete := incomplete + {id};
      }
      done := done + {id};
      todo := todo - {id};
    }
    assert done == required;
  }

  /** All required bindings are scored exactly when the scored counter reaches their number. */
  lemma AllScored(required: set<string>, results: seq<Row>)
    ensures |InCategory(required, results, Scored)| == |required| <==>
              forall id :: id in required ==> |RowsOf(results, id)| == 1 && ValidScore(RowsOf(results, id)[0])
  {
    var scored := InCategory(required, results, Scored);
    if |scored| == |required| {
      SubsetEqual(scored, required);
    } else {
      assert scored != required;
      var id :| id in required && id !in scored;
      assert CategoryOf(RowsOf(results, id)) != Scored;
    }
  }

  lemma SubsetDifference(a: set<string>, b: set<string>)
    ensures a <= b <==> a - b == {}
  {
    if a - b == {} {
      forall x | x in a
        ensures x in b
      {
        assert x !in a - b;
      }
    }
  }

  lemma SubsetEqual(a: set<string>, b: set<string>)
    requires a <= b && |a| == |b|
    ensures a == b
  {
    assert b == a + (b - a) && a !! (b - a);
    assert |b - a| == 0;
  }

  lemma RequiredPart(bindings: seq<Binding>)
    ensures |Required(bindings)| <= |Expected(bindings)|
  {
    var keys := Expected(bindings).Keys;
    assert keys == Required(bindings) + (keys - Required(bindings));
    assert |keys| == |Required(bindings)| + |keys - Required(bindings)|;
  }

  /** What the report says of its inputs. */
  ghost predicate Reports(c: Completeness, bindings: seq<Binding>, results: seq<Row>) {
    && c.required == |Required(bindings)|
    && c.required + c.optional + c.duplicateBindings == |bindings|
    && c.duplicateBindings == |bindings| - |Expected(bindings)|
    && c.duplicateResults == |results| - |ResultIds(results)|
    && c.unexpected == ResultIds(results) - Expected(bindings).Keys
    && Tallied(Required(bindings), results, c.tally, c.incomplete)
  }

  predicate Clear(c: Completeness) {
    c.required != 0 && c.duplicateBindings == 0 && c.duplicateResults == 0 && c.unexpected == {}
    && c.tally.scored == c.required
  }

  /** The report's five tests together are completeness. */
  lemma CompleteMeans(bindings: seq<Binding>, results: seq<Row>, c: Completeness)
    requires Reports(c, bindings, results)
    ensures Clear(c) <==> Complete(bindings, results)
  {
    BindingCount(bindings);
    ResultCount(results);
    AllScored(Required(bindings), results);
    SubsetDifference(ResultIds(results), Expected(bindings).Keys);
  }

  /** Everything the report says about results, given what was expected. */
  method CountResults(expected: set<string>, required: set<string>, results: seq<Row>)
    returns (duplicates: nat, unexpected: set<string>, tally: Tally, incomplete: set<string>)
    ensures duplicates == |results| - |ResultIds(results)|
    ensures unexpected == ResultIds(results) - expected
    ensures Tallied(required, results, tally, incomplete)
  {
    var groups := GroupResults(results);
    duplicates := CountDuplicates(results, groups);
    unexpected := groups.Keys - expected;
    tally, incomplete := CountRequired(required, results, groups);
  }

  method Collect(bindings: seq<Binding>, results: seq<Row>) returns (c: Completeness, required: set<string>)
    ensures required == Required(bindings)
    ensures Reports(c, bindings, results)
  {
    var expected, duplicateBindings := ExpectBindings(bindings);
    required := RequiredOf(expected);
    var duplicateResults, unexpected, tally, incomplete := CountResults(expected.Keys, required, results);
    RequiredPart(bindings);
    c := Completeness(false, |required|, |expected| - |required|, tally, duplicateBindings, duplicateResults,
                      unexpected,
                      incomplete);
  }

  /** The completeness report: complete exactly in the sense of Complete. */
  method EvaluatorCompleteness(bindings: seq<Binding>, results: seq<Row>)
    returns (c: Completeness, required: set<string>)
    ensures required == Required(bindings)
    ensures Reports(c, bindings, results)
    ensures c.complete <==> Complete(bindings, results)
  {
    var report;
    report, required := Collect(bindings, results);
    CompleteMeans(bindings, results, report);
    c := report.(complete := Clear(report));
  }
}
