/**
  Host-owned normalization of raw measurements to scores in [0, 1], over exact
  reals: linear, piecewise-linear and threshold maps, binary and ordinal tables.
 */
module Normalization {
  import opened Base

  const MAX_MAPPING_ENTRIES: nat := 256
  const MAX_LABEL_BYTES: nat := 256
  const MAX_UNIT_BYTES: nat := 64

  datatype Direction = HigherIsBetter | LowerIsBetter

  datatype Point = Point(value: real, score: real)

  datatype Mapping =
    | Linear(min: real, max: real, direction: Direction)
    | PiecewiseLinear(points: seq<Point>)
    | Thresholds(low: real, high: real, cutpoints: seq<real>, scores: seq<real>)

  datatype Policy =
    | Binary(falseScore: real, trueScore: real)
    | Numeric(unit: Option<string>, mapping: Mapping)
    | Ordinal(values: map<string, real>)

  datatype Measurement =
    | BinaryValue(flag: bool)
    | NumericValue(value: real, valueUnit: Option<string>)
    | OrdinalValue(name: string)

  datatype Refusal = InvalidPolicy | WrongUnit | OutsideDomain | BadLabel | Unmapped | WrongKind | InvalidScore

  predicate ValidScore(score: real) {
    0.0 <= score <= 1.0
  }

  predicate ValidPoints(points: seq<Point>) {
    && 2 <= |points| <= MAX_MAPPING_ENTRIES
    && (forall i :: 0 <= i < |points| ==> ValidScore(points[i].score))
    && (forall i, j :: 0 <= i < |points| && 0 <= j < |points| && j == i + 1 ==> points[i].value < points[j].value)
  }

  predicate ValidMapping(m: Mapping) {
    match m
    case Linear(min, max, _) => min < max
    case PiecewiseLinear(points) => ValidPoints(points)
    case Thresholds(low, high, cutpoints, scores) =>
      && low < high
      && |cutpoints| < MAX_MAPPING_ENTRIES
      && |scores| == |cutpoints| + 1
      && (forall i :: 0 <= i < |scores| ==> ValidScore(scores[i]))
      && (forall i :: 0 <= i < |cutpoints| ==> low < cutpoints[i] < high)
      && (forall i, j :: 0 <= i < |cutpoints| && 0 <= j < |cutpoints| && j == i + 1 ==> cutpoints[i] < cutpoints[j])
  }

  predicate ValidPolicy(p: Policy) {
    match p
    case Binary(falseScore, trueScore) => ValidScore(falseScore) && ValidScore(trueScore)
    case Numeric(unit, mapping) =>
      && (unit.Some? ==> !Blank(unit.value) && Utf8Length(unit.value) <= MAX_UNIT_BYTES)
      && ValidMapping(mapping)
    case Ordinal(values) =>
      && 0 < |values| <= MAX_MAPPING_ENTRIES
      && forall name :: name in values ==>
           !Blank(name) && Utf8Length(name) <= MAX_LABEL_BYTES && ValidScore(values[name])
  }

  /** The first point at or above a value: the partition point of "below the value". */
  function Upper(points: seq<Point>, value: real): (r: nat)
    ensures r <= |points|
    ensures forall i :: 0 <= i < r ==> points[i].value < value
    ensures r < |points| ==> points[r].value >= value
  {
    if points == [] || points[0].value >= value then 0 else 1 + Upper(points[1..], value)
  }

  /** How many cutpoints a value has reached: the partition point of "at or above the cutpoint". */
  function Reached(cutpoints: seq<real>, value: real): (r: nat)
    ensures r <= |cutpoints|
    ensures forall i :: 0 <= i < r ==> value >= cutpoints[i]
    ensures r < |cutpoints| ==> value < cutpoints[r]
  {
    if cutpoints == [] || value < cutpoints[0] then 0 else 1 + Reached(cutpoints[1..], value)
  }

  predicate InDomain(m: Mapping, value: real)
    requires ValidMapping(m)
  {
    match m
    case Linear(min, max, _) => min <= value <= max
    case PiecewiseLinear(points) => points[0].value <= value <= points[|points| - 1].value
    case Thresholds(low, high, _, _) => low <= value <= high
  }

  function Between(left: Point, right: Point, value: real): real
    requires left.value < right.value
  {
    left.score + (value - left.value) / (right.value - left.value) * (right.score - left.score)
  }

  /** Interpolation, with the knots themselves answered exactly; every index is in range. */
  function Curve(points: seq<Point>, value: real): real
    requires ValidPoints(points) && points[0].value <= value <= points[|points| - 1].value
  {
    var upper := Upper(points, value);
    assert upper < |points|;
    if points[upper].value == value then points[upper].score
    else
      assert upper > 0;
      Between(points[upper - 1], points[upper], value)
  }

  function NumericScore(m: Mapping, value: real): real
    requires ValidMapping(m) && InDomain(m, value)
  {
    match m
    case Linear(min, max, direction) =>
      var position := (value - min) / (max - min);
      if direction == HigherIsBetter then position else 1.0 - position
    case PiecewiseLinear(points) => Curve(points, value)
    case Thresholds(_, _, cutpoints, scores) => scores[Reached(cutpoints, value)]
  }

  /** A value is scored exactly in the mapping's domain, and its score lies in [0, 1]. */
  function NormalizeNumeric(m: Mapping, value: real): (r: Result<real, Refusal>)
    requires ValidMapping(m)
    ensures r.Ok? <==> InDomain(m, value)
    ensures r.Ok? ==> ValidScore(r.value)
    ensures r.Err? ==> r.error == OutsideDomain
  {
    if !InDomain(m, value) then Err(OutsideDomain)
    else
      NumericInUnit(m, value);
      Ok(NumericScore(m, value))
  }

  function Normalize(p: Policy, m: Measurement): (r: Result<real, Refusal>)
    ensures r.Ok? ==> ValidPolicy(p) && ValidScore(r.value)
  {
    if !ValidPolicy(p) then Err(InvalidPolicy)
    else
      var score :=
        match (p, m)
        case (Binary(falseScore, trueScore), BinaryValue(flag)) => Ok(if flag then trueScore else falseScore)
        case (Numeric(unit, mapping), NumericValue(value, valueUnit)) =>
          if unit != valueUnit then Err(WrongUnit) else NormalizeNumeric(mapping, value)
        case (Ordinal(values), OrdinalValue(name)) =>
          if Blank(name) || Utf8Length(name) > MAX_LABEL_BYTES then Err(BadLabel)
          else if name in values then Ok(values[name]) else Err(Unmapped)
        case _ => Err(WrongKind);
      if score.Ok? && !ValidScore(score.value) then Err(InvalidScore) else score
  }

  // ----- the curve as a reference: one line per segment -----

  lemma {:induction false} PointsOrdered(points: seq<Point>, i: int, j: int)
    requires ValidPoints(points) && 0 <= i < j < |points|
    ensures points[i].value < points[j].value
    decreases j
  {
    if i + 1 < j {
      PointsOrdered(points, i, j - 1);
    }
  }

  // ----- which policies are accepted -----

  /** A table of points is valid exactly when it has 2 to 256 scores in [0, 1] at ever greater values. */
  lemma PointsMean(points: seq<Point>)
    ensures ValidPoints(points) <==>
              && 2 <= |points| <= 256
              && (forall i :: 0 <= i < |points| ==> 0.0 <= points[i].score <= 1.0)
              && forall i, j :: 0 <= i < |points| && 0 <= j < |points| && i < j ==> points[i].value < points[j].value
  {
    if ValidPoints(points) {
      forall i, j | 0 <= i < |points| && 0 <= j < |points| && i < j
        ensures points[i].value < points[j].value
      {
        PointsOrdered(points, i, j);
      }
    }
  }

  /** Thresholds are valid exactly when up to 255 rising cutpoints inside the domain separate as many bands. */
  lemma ThresholdsMean(low: real, high: real, cutpoints: seq<real>, scores: seq<real>)
    ensures ValidMapping(Thresholds(low, high, cutpoints, scores)) <==>
              && low < high && |cutpoints| <= 255 && |scores| == |cutpoints| + 1
              && (forall i :: 0 <= i < |scores| ==> 0.0 <= scores[i] <= 1.0)
              && (forall i :: 0 <= i < |cutpoints| ==> low < cutpoints[i] < high)
              && forall i, j :: 0 <= i < |cutpoints| && 0 <= j < |cutpoints| && i < j ==> cutpoints[i] < cutpoints[j]
  {
    var m := Thresholds(low, high, cutpoints, scores);
    if ValidMapping(m) {
      forall i, j | 0 <= i < |cutpoints| && 0 <= j < |cutpoints| && i < j
        ensures cutpoints[i] < cutpoints[j]
      {
        CutpointsOrdered(m, i, j - 1);
        assert cutpoints[j - 1] < cutpoints[j];
      }
    }
  }

  /** Which policies are refused before any measurement is looked at. */
  lemma PolicyMeans(p: Policy, m: Measurement)
    ensures Normalize(p, m) == Err(InvalidPolicy) <==>
              match p
              case Binary(no, yes) => no < 0.0 || no > 1.0 || yes < 0.0 || yes > 1.0
              case Numeric(unit, mapping) =>
                (unit.Some? && (Blank(unit.value) || Utf8Length(unit.value) > 64)) || !ValidMapping(mapping)
              case Ordinal(values) =>
                || values == map[] || |values| > 256
                || exists name :: name in values && (Blank(name) || Utf8Length(name) > 256
                                                     || values[name] < 0.0 || values[name] > 1.0)
  {
    if p.Ordinal? && p.values != map[] {
      var name :| name in p.values;
      assert |p.values| > 0;
    }
  }

  /** A mapping answers exactly from its lowest to its highest value, both included. */
  lemma DomainMeans(m: Mapping, value: real)
    requires ValidMapping(m)
    ensures var ends := match m
                        case Linear(min, max, _) => (min, max)
                        case PiecewiseLinear(points) => (points[0].value, points[|points| - 1].value)
                        case Thresholds(low, high, _, _) => (low, high);
            && ends.0 < ends.1 && (NormalizeNumeric(m, value).Ok? <==> ends.0 <= value <= ends.1)
            && NormalizeNumeric(m, ends.0).Ok? && NormalizeNumeric(m, ends.1).Ok?
  {
    if m.PiecewiseLinear? {
      PointsOrdered(m.points, 0, |m.points| - 1);
    }
  }

  lemma Ratio(x: real, d: real)
    requires 0.0 <= x <= d && d > 0.0
    ensures 0.0 <= x / d <= 1.0
  {
  }

  lemma Scale(t: real, d: real)
    requires 0.0 <= t <= 1.0
    ensures d >= 0.0 ==> 0.0 <= t * d <= d
    ensures d <= 0.0 ==> d <= t * d <= 0.0
  {
  }

  /** Interpolated scores never leave the span of their two neighbours. */
  lemma BetweenSpan(left: Point, right: Point, value: real)
    requires left.value < right.value && left.value <= value <= right.value
    ensures left.score <= right.score ==> left.score <= Between(left, right, value) <= right.score
    ensures left.score >= right.score ==> right.score <= Between(left, right, value) <= left.score
  {
    var t := (value - left.value) / (right.value - left.value);
    Ratio(value - left.value, right.value - left.value);
    Scale(t, right.score - left.score);
  }

  lemma BetweenEnds(left: Point, right: Point)
    requires left.value < right.value
    ensures Between(left, right, left.value) == left.score && Between(left, right, right.value) == right.score
  {
  }

  /** On every closed segment the curve is the line through its two points. */
  lemma CurveIsSegment(points: seq<Point>, i: int, value: real)
    requires ValidPoints(points) && 0 <= i < |points| - 1 && points[i].value <= value <= points[i + 1].value
    ensures points[0].value <= value <= points[|points| - 1].value
    ensures Curve(points, value) == Between(points[i], points[i + 1], value)
  {
    if i > 0 {
      PointsOrdered(points, 0, i);
    }
    if i + 1 < |points| - 1 {
      PointsOrdered(points, i + 1, |points| - 1);
    }
    UpperAt(points, i, value);
    BetweenEnds(points[i], points[i + 1]);
  }

  lemma UpperAt(points: seq<Point>, i: int, value: real)
    requires ValidPoints(points) && 0 <= i < |points| - 1 && points[i].value <= value <= points[i + 1].value
    ensures Upper(points, value) == if value == points[i].value then i else i + 1
  {
    var u := Upper(points, value);
    if u < i {
      PointsOrdered(points, u, i);
    }
  }

  /** Every knot is answered with its own score. */
  lemma KnotsHit(points: seq<Point>, i: int)
    requires ValidPoints(points) && 0 <= i < |points|
    ensures NormalizeNumeric(PiecewiseLinear(points), points[i].value) == Ok(points[i].score)
  {
    if i < |points| - 1 {
      CurveIsSegment(points, i, points[i].value);
      BetweenEnds(points[i], points[i + 1]);
    } else {
      CurveIsSegment(points, i - 1, points[i].value);
      BetweenEnds(points[i - 1], points[i]);
    }
  }

  /** The segment a value lies on. */
  lemma Segment(points: seq<Point>, value: real) returns (i: int)
    requires ValidPoints(points) && points[0].value <= value <= points[|points| - 1].value
    ensures 0 <= i < |points| - 1 && points[i].value <= value <= points[i + 1].value
  {
    var u := Upper(points, value);
    i := if u == 0 then 0 else u - 1;
  }

  /** Nothing is clamped: every mapping of a value in its domain is a score already. */
  lemma NumericInUnit(m: Mapping, value: real)
    requires ValidMapping(m) && InDomain(m, value)
    ensures ValidScore(NumericScore(m, value))
  {
    match m
    case Linear(min, max, _) => Ratio(value - min, max - min);
    case PiecewiseLinear(points) =>
      var i := Segment(points, value);
      CurveIsSegment(points, i, value);
      BetweenSpan(points[i], points[i + 1], value);
    case Thresholds(_, _, _, _) =>
  }

  /** The closing validity test never fires, and a valid policy refuses only for a reason of its own. */
  lemma NeverInvalidScore(p: Policy, m: Measurement)
    ensures Normalize(p, m) != Err(InvalidScore)
    ensures Normalize(p, m) == Err(InvalidPolicy) <==> !ValidPolicy(p)
  {
    if ValidPolicy(p) && p.Numeric? && m.NumericValue? && InDomain(p.mapping, m.value) {
      NumericInUnit(p.mapping, m.value);
    }
  }

  /** Each valid policy's answer to each measurement. */
  lemma NormalizeMeans(p: Policy, m: Measurement)
    requires ValidPolicy(p)
    ensures p.Binary? && m.BinaryValue? ==> Normalize(p, m) == Ok(if m.flag then p.trueScore else p.falseScore)
    ensures p.Ordinal? && m.OrdinalValue? ==>
              Normalize(p, m) == if m.name in p.values then Ok(p.values[m.name])
                                 else if Blank(m.name) || Utf8Length(m.name) > 256 then Err(BadLabel)
                                 else Err(Unmapped)
    ensures p.Numeric? && m.NumericValue? && p.unit != m.valueUnit ==> Normalize(p, m) == Err(WrongUnit)
    ensures p.Numeric? && m.NumericValue? && p.unit == m.valueUnit ==>
              Normalize(p, m) == if InDomain(p.mapping, m.value) then Ok(NumericScore(p.mapping, m.value))
                                 else Err(OutsideDomain)
    ensures !(p.Binary? && m.BinaryValue?) && !(p.Numeric? && m.NumericValue?) && !(p.Ordinal? && m.OrdinalValue?) ==>
              Normalize(p, m) == Err(WrongKind)
  {
    if p.Numeric? && m.NumericValue? && InDomain(p.mapping, m.value) {
      NumericInUnit(p.mapping, m.value);
    }
  }

  /** A linear map changes in proportion to the value. */
  lemma LinearIsAffine(min: real, max: real, v: real, w: real)
    requires min < max && min <= v <= max && min <= w <= max
    ensures var up := NormalizeNumeric(Linear(min, max, HigherIsBetter), v).value
                      - NormalizeNumeric(Linear(min, max, HigherIsBetter), w).value;
            up * (max - min) == v - w
    ensures var down := NormalizeNumeric(Linear(min, max, LowerIsBetter), v).value
                        - NormalizeNumeric(Linear(min, max, LowerIsBetter), w).value;
            down * (max - min) == w - v
  {
    var d := max - min;
    Proportion(v - min, d);
    Proportion(w - min, d);
    var a, b := (v - min) / d, (w - min) / d;
    assert (a - b) * d == a * d - b * d;
    assert (1.0 - a - (1.0 - b)) * d == b * d - a * d;
  }

  lemma Proportion(x: real, d: real)
    requires d > 0.0
    ensures x / d * d == x
  {
  }

  /** Between two neighbouring cutpoints a threshold map is constant. */
  lemma ThresholdBand(m: Mapping, value: real, k: nat)
    requires ValidMapping(m) && m.Thresholds? && InDomain(m, value) && k <= |m.cutpoints|
    requires (k > 0 ==> m.cutpoints[k - 1] <= value) && (k < |m.cutpoints| ==> value < m.cutpoints[k])
    ensures NormalizeNumeric(m, value) == Ok(m.scores[k])
  {
    var r := Reached(m.cutpoints, value);
    if r < k {
      CutpointsOrdered(m, r, k - 1);
    } else if r > k {
      CutpointsOrdered(m, k, r - 1);
    }
  }

  lemma {:induction false} CutpointsOrdered(m: Mapping, i: int, j: int)
    requires ValidMapping(m) && m.Thresholds? && 0 <= i <= j < |m.cutpoints|
    ensures m.cutpoints[i] <= m.cutpoints[j]
    decreases j
  {
    if i < j {
      CutpointsOrdered(m, i, j - 1);
    }
  }

  // ----- monotone maps -----

  lemma RatioMonotone(x: real, y: real, d: real)
    requires x <= y && d > 0.0
    ensures x / d <= y / d
  {
  }

  lemma BetweenMonotone(left: Point, right: Point, v: real, w: real)
    requires left.value < right.value && left.score <= right.score && v <= w
    ensures Between(left, right, v) <= Between(left, right, w)
  {
  }

  predicate ScoresRise(points: seq<Point>) {
    forall i, j :: 0 <= i < |points| && 0 <= j < |points| && i <= j ==> points[i].score <= points[j].score
  }

  lemma CurveMonotone(points: seq<Point>, v: real, w: real)
    requires ValidPoints(points) && ScoresRise(points)
    requires points[0].value <= v <= w <= points[|points| - 1].value
    ensures Curve(points, v) <= Curve(points, w)
  {
    var i := Segment(points, v);
    var j := Segment(points, w);
    CurveIsSegment(points, i, v);
    CurveIsSegment(points, j, w);
    if i < j {
      BetweenSpan(points[i], points[i + 1], v);
      BetweenSpan(points[j], points[j + 1], w);
    } else if j < i {
      SameKnot(points, i, j, v, w);
      CurveIsSegment(points, j, v);
      BetweenMonotone(points[j], points[j + 1], v, w);
    } else {
      BetweenMonotone(points[i], points[i + 1], v, w);
    }
  }

  /** Two ordered values whose segments are out of order share a knot. */
  lemma SameKnot(points: seq<Point>, i: int, j: int, v: real, w: real)
    requires ValidPoints(points) && 0 <= j < i < |points| - 1 && v <= w
    requires points[i].value <= v && w <= points[j + 1].value
    ensures v == w == points[j + 1].value
  {
    if j + 1 < i {
      PointsOrdered(points, j + 1, i);
    }
  }

  lemma ReachedMonotone(cutpoints: seq<real>, v: real, w: real)
    requires v <= w
    requires forall i, j :: 0 <= i < |cutpoints| && 0 <= j < |cutpoints| && j == i + 1 ==> cutpoints[i] < cutpoints[j]
    ensures Reached(cutpoints, v) <= Reached(cutpoints, w)
  {
  }

  predicate Rises(m: Mapping) {
    match m
    case Linear(_, _, direction) => direction == HigherIsBetter
    case PiecewiseLinear(points) => ScoresRise(points)
    case Thresholds(_, _, _, scores) =>
      forall i, j :: 0 <= i < |scores| && 0 <= j < |scores| && i <= j ==> scores[i] <= scores[j]
  }

  /** A map whose table rises is non-decreasing over its whole domain. */
  lemma NumericMonotone(m: Mapping, v: real, w: real)
    requires ValidMapping(m) && Rises(m) && InDomain(m, v) && InDomain(m, w) && v <= w
    ensures NormalizeNumeric(m, v).value <= NormalizeNumeric(m, w).value
  {
    match m
    case Linear(min, max, _) => RatioMonotone(v - min, w - min, max - min);
    case PiecewiseLinear(points) => CurveMonotone(points, v, w);
    case Thresholds(_, _, cutpoints, _) => ReachedMonotone(cutpoints, v, w);
  }

  /** The two linear directions mirror each other, end to end. */
  lemma LinearMirror(min: real, max: real, value: real)
    requires min < max && min <= value <= max
    ensures NormalizeNumeric(Linear(min, max, HigherIsBetter), value).value
          + NormalizeNumeric(Linear(min, max, LowerIsBetter), value).value == 1.0
    ensures NormalizeNumeric(Linear(min, max, HigherIsBetter), min) == Ok(0.0)
    ensures NormalizeNumeric(Linear(min, max, HigherIsBetter), max) == Ok(1.0)
  {
    var d := max - min;
    assert (min - min) / d == 0.0 && d / d == 1.0;
  }
}
