/**
  External duplicate detection: sorted runs of at most 65536 IDs, merged 32 at a
  time until one run is left, under a disk quota. Temporary files are sequences;
  an ID is its 16 bytes read as one big-endian number.
 */
module UniqueIds {
  import opened Base

  const RUN_IDS: nat := 65536
  const FAN_IN: nat := 32
  const ID_BYTES: nat := 16
  const SPOOL_CAP: nat := 8 * 1024 * 1024 * 1024

  datatype SortError = DuplicateId | QuotaExceeded

  class Quota {
    var used: nat

    constructor (used: nat)
      ensures this.used == used
    {
      this.used := used;
    }

    /** Charges before it checks; only an overflowing addition leaves the charge unmade. */
    method Add(n: nat) returns (ok: bool)
      modifies this
      ensures ok <==> old(used) + n <= SPOOL_CAP
      ensures used == if old(used) + n < U64_LIMIT then old(used) + n else old(used)
    {
      if used + n >= U64_LIMIT {
        return false;
      }
      used := used + n;
      return used <= SPOOL_CAP;
    }
  }

  // ----- counting -----

  ghost function Count(s: seq<int>, x: int): nat {
    if s == [] then 0 else Count(s[..|s| - 1], x) + if s[|s| - 1] == x then 1 else 0
  }

  lemma {:induction false} CountConcat(a: seq<int>, b: seq<int>, x: int)
    ensures Count(a + b, x) == Count(a, x) + Count(b, x)
  {
    if b == [] {
      assert a + b == a;
    } else {
      assert (a + b)[..|a + b| - 1] == a + b[..|b| - 1];
      CountConcat(a, b[..|b| - 1], x);
    }
  }

  lemma CountCons(s: seq<int>, x: int)
    requires s != []
    ensures Count(s, x) == Count(s[1..], x) + if s[0] == x then 1 else 0
  {
    assert s == [s[0]] + s[1..];
    CountConcat([s[0]], s[1..], x);
    assert [s[0]][..0] == [];
    assert Count([s[0]], x) == Count([], x) + if s[0] == x then 1 else 0;
  }

  /** The same IDs, each as often. */
  ghost predicate Permutes(a: seq<int>, b: seq<int>) {
    |a| == |b| && forall x :: Count(a, x) == Count(b, x)
  }

  ghost predicate CountsAtMostOne(s: seq<int>) {
    forall x :: Count(s, x) <= 1
  }

  ghost predicate Distinct(s: seq<int>) {
    forall i, j :: 0 <= i < |s| && 0 <= j < |s| && i < j ==> s[i] != s[j]
  }

  lemma {:induction false} CountPresent(s: seq<int>, i: int)
    requires 0 <= i < |s|
    ensures Count(s, s[i]) >= 1
  {
    if i < |s| - 1 {
      CountPresent(s[..|s| - 1], i);
    }
  }

  lemma {:induction false} CountAbsent(s: seq<int>, x: int)
    requires forall i :: 0 <= i < |s| ==> s[i] != x
    ensures Count(s, x) == 0
  {
    if s != [] {
      CountAbsent(s[..|s| - 1], x);
    }
  }

  /** No two positions agree exactly when no ID is counted twice. */
  lemma {:induction false} DistinctIsCounted(s: seq<int>)
    ensures Distinct(s) <==> CountsAtMostOne(s)
  {
    if s != [] {
      var init, last := s[..|s| - 1], s[|s| - 1];
      DistinctIsCounted(init);
      if Distinct(s) {
        CountAbsent(init, last);
        assert forall x :: Count(s, x) == Count(init, x) + if last == x then 1 else 0;
      } else if Distinct(init) {
        var i :| 0 <= i < |init| && init[i] == last;
        CountPresent(init, i);
        assert Count(s, last) >= 2;
      } else {
        var x :| Count(init, x) > 1;
        assert Count(s, x) > 1;
      }
    }
  }

  ghost predicate Ascending(s: seq<int>) {
    forall i, j :: 0 <= i < |s| && 0 <= j < |s| && i < j ==> s[i] <= s[j]
  }

  ghost predicate StrictlyAscending(s: seq<int>) {
    forall i, j :: 0 <= i < |s| && 0 <= j < |s| && i < j ==> s[i] < s[j]
  }

  lemma DistinctPermutes(a: seq<int>, b: seq<int>)
    requires Permutes(a, b)
    ensures Distinct(a) <==> Distinct(b)
  {
    DistinctIsCounted(a);
    DistinctIsCounted(b);
    assert CountsAtMostOne(a) <==> CountsAtMostOne(b);
  }

  // ----- initial runs -----

  function InsertId(x: int, s: seq<int>): seq<int> {
    if s == [] then [x] else if x <= s[0] then [x] + s else [s[0]] + InsertId(x, s[1..])
  }

  function SortIds(s: seq<int>): seq<int> {
    if s == [] then [] else InsertId(s[0], SortIds(s[1..]))
  }

  lemma {:induction false} InsertCounts(x: int, s: seq<int>, y: int)
    ensures Count(InsertId(x, s), y) == Count(s, y) + if x == y then 1 else 0
    ensures |InsertId(x, s)| == |s| + 1
  {
    var r := InsertId(x, s);
    CountCons(r, y);
    if s != [] && x > s[0] {
      InsertCounts(x, s[1..], y);
      CountCons(s, y);
      assert r[1..] == InsertId(x, s[1..]);
    } else {
      assert r[1..] == s;
    }
  }

  lemma {:induction false} InsertAscends(x: int, s: seq<int>, low: int)
    requires Ascending(s) && low <= x && forall k :: 0 <= k < |s| ==> low <= s[k]
    ensures Ascending(InsertId(x, s)) && forall k :: 0 <= k < |InsertId(x, s)| ==> low <= InsertId(x, s)[k]
  {
    if s != [] && x > s[0] {
      InsertAscends(x, s[1..], s[0]);
    }
  }

  lemma {:induction false} SortSorted(s: seq<int>)
    ensures Ascending(SortIds(s)) && Permutes(SortIds(s), s)
  {
    if s != [] {
      var tail := SortIds(s[1..]);
      SortSorted(s[1..]);
      InsertAscends(s[0], tail, if tail == [] then s[0] else Min(s[0], tail[0]));
      forall x
        ensures Count(SortIds(s), x) == Count(s, x)
      {
        InsertCounts(s[0], tail, x);
        CountCons(s, x);
      }
      InsertCounts(s[0], tail, 0);
    }
  }

  /** Whether two neighbours of a sorted chunk are equal. */
  method HasRepeat(sorted: seq<int>) returns (repeated: bool)
    requires Ascending(sorted)
    ensures !repeated ==> StrictlyAscending(sorted)
    ensures repeated <==> !Distinct(sorted)
  {
    for i := 0 to |sorted|
      invariant forall k :: 0 <= k < i - 1 ==> sorted[k] < sorted[k + 1]
    {
      if i > 0 && sorted[i - 1] == sorted[i] {
        return true;
      }
    }
    StrictNeighbours(sorted);
    return false;
  }

  lemma StrictNeighbours(s: seq<int>)
    requires Ascending(s) && forall k :: 0 <= k < |s| - 1 ==> s[k] < s[k + 1]
    ensures StrictlyAscending(s)
  {
    forall i, j | 0 <= i < |s| && 0 <= j < |s| && i < j
      ensures s[i] < s[j]
    {
      assert s[i] < s[i + 1] && s[i + 1] <= s[j];
    }
  }

  /** Sorts one chunk and refuses equal neighbours. */
  method SortChunk(chunk: seq<int>) returns (r: Option<seq<int>>)
    ensures r.Some? <==> Distinct(chunk)
    ensures r.Some? ==> StrictlyAscending(r.value) && Permutes(r.value, chunk)
  {
    var sorted := SortIds(chunk);
    SortSorted(chunk);
    DistinctPermutes(sorted, chunk);
    var repeated := HasRepeat(sorted);
    return if repeated then None else Some(sorted);
  }

  /** Sorted runs that together hold exactly the given IDs. */
  ghost predicate Runs(runs: seq<seq<int>>, ids: seq<int>) {
    && (forall i :: 0 <= i < |runs| ==> StrictlyAscending(runs[i]))
    && Permutes(Flatten(runs), ids)
  }

  lemma RunsAppend(runs: seq<seq<int>>, ids: seq<int>, run: seq<int>, more: seq<int>)
    requires Runs(runs, ids) && StrictlyAscending(run) && Permutes(run, more)
    ensures Runs(runs + [run], ids + more)
  {
    FlattenAppend(runs, run);
    forall x
      ensures Count(Flatten(runs + [run]), x) == Count(ids + more, x)
    {
      CountConcat(Flatten(runs), run, x);
      CountConcat(ids, more, x);
    }
  }

  /** Reads the ID file in chunks and writes one sorted run per chunk. */
  method MakeRuns(ids: seq<int>, quota: Quota) returns (r: Result<seq<seq<int>>, SortError>)
    requires quota.used + ID_BYTES * |ids| < U64_LIMIT
    modifies quota
    ensures r.Ok? ==> Runs(r.value, ids) && quota.used == old(quota.used) + ID_BYTES * |ids|
    ensures r.Ok? ==> ids == [] || quota.used <= SPOOL_CAP
    ensures r.Err? && r.error == DuplicateId ==> !Distinct(ids)
    ensures r.Err? && r.error == QuotaExceeded ==> old(quota.used) + ID_BYTES * |ids| > SPOOL_CAP
  {
    var runs: seq<seq<int>>, pos := [], 0;
    while pos < |ids|
      invariant 0 <= pos <= |ids|
      invariant Runs(runs, ids[..pos])
      invariant quota.used == old(quota.used) + ID_BYTES * pos
      invariant pos == 0 || quota.used <= SPOOL_CAP
    {
      var end := Min(pos + RUN_IDS, |ids|);
      var chunk := ids[pos..end];
      var sorted := SortChunk(chunk);
      if sorted.None? {
        return Err(DuplicateId);
      }
      var paid := PayRun(|chunk|, quota);
      if !paid {
        return Err(QuotaExceeded);
      }
      RunsAppend(runs, ids[..pos], sorted.value, chunk);
      assert ids[..end] == ids[..pos] + chunk;
      runs := runs + [sorted.value];
      pos := end;
    }
    assert ids[..pos] == ids;
    return Ok(runs);
  }

  /** Charges sixteen bytes per ID written. */
  method PayRun(n: nat, quota: Quota) returns (ok: bool)
    requires quota.used + ID_BYTES * n < U64_LIMIT && n > 0
    modifies quota
    ensures ok <==> old(quota.used) + ID_BYTES * n <= SPOOL_CAP
    ensures ok ==> quota.used == old(quota.used) + ID_BYTES * n
  {
    for i := 0 to n
      invariant quota.used == old(quota.used) + ID_BYTES * i
      invariant i > 0 ==> quota.used <= SPOOL_CAP
    {
      var added := quota.Add(ID_BYTES);
      if !added {
        return false;
      }
    }
    return true;
  }

  // ----- merging -----

  ghost predicate Positions(group: seq<seq<int>>, pos: seq<nat>) {
    |pos| == |group| && forall i :: 0 <= i < |group| ==> pos[i] <= |group[i]|
  }

  /** How often the readers of a group still hold an ID. */
  ghost function Left(group: seq<seq<int>>, pos: seq<nat>, x: int): nat
    requires Positions(group, pos)
  {
    if group == [] then 0
    else
      var n := |group| - 1;
      Left(group[..n], pos[..n], x) + Count(group[n][pos[n]..], x)
  }

  /** How many IDs the readers of a group still hold. */
  ghost function LeftSize(group: seq<seq<int>>, pos: seq<nat>): nat
    requires Positions(group, pos)
  {
    if group == [] then 0
    else
      var n := |group| - 1;
      LeftSize(group[..n], pos[..n]) + |group[n]| - pos[n]
  }

  lemma {:induction false} LeftAll(group: seq<seq<int>>, pos: seq<nat>, x: int)
    requires Positions(group, pos) && forall i :: 0 <= i < |group| ==> pos[i] == 0
    ensures Left(group, pos, x) == Count(Flatten(group), x)
    ensures LeftSize(group, pos) == |Flatten(group)|
  {
    if group != [] {
      var n := |group| - 1;
      LeftAll(group[..n], pos[..n], x);
      assert group == group[..n] + [group[n]];
      FlattenAppend(group[..n], group[n]);
      CountConcat(Flatten(group[..n]), group[n], x);
      assert group[n][0..] == group[n];
    }
  }

  lemma {:induction false} LeftTake(group: seq<seq<int>>, pos: seq<nat>, i: int, x: int)
    requires Positions(group, pos) && 0 <= i < |group| && pos[i] < |group[i]|
    ensures var next := pos[i := pos[i] + 1];
            && Positions(group, next)
            && Left(group, pos, x) == Left(group, next, x) + (if group[i][pos[i]] == x then 1 else 0)
            && LeftSize(group, pos) == LeftSize(group, next) + 1
  {
    var n, next := |group| - 1, pos[i := pos[i] + 1];
    if i < n {
      LeftTake(group[..n], pos[..n], i, x);
      assert next[..n] == pos[..n][i := pos[i] + 1];
    } else {
      assert next[..n] == pos[..n];
      CountCons(group[n][pos[n]..], x);
      assert group[n][pos[n]..][1..] == group[n][pos[n] + 1..];
    }
  }

  lemma {:induction false} LeftNone(group: seq<seq<int>>, pos: seq<nat>, x: int)
    requires Positions(group, pos) && forall i :: 0 <= i < |group| ==> pos[i] == |group[i]|
    ensures Left(group, pos, x) == 0 && LeftSize(group, pos) == 0
  {
    if group != [] {
      LeftNone(group[..|group| - 1], pos[..|group| - 1], x);
    }
  }

  type Heap = set<(int, int)>

  predicate Before(a: (int, int), b: (int, int)) {
    a.0 < b.0 || (a.0 == b.0 && a.1 <= b.1)
  }

  ghost predicate Least(heap: Heap, p: (int, int)) {
    p in heap && forall q :: q in heap ==> Before(p, q)
  }

  /** The smallest entry of the heap, ties broken by reader. */
  method PeekMin(heap: Heap) returns (p: (int, int))
    requires heap != {}
    ensures Least(heap, p)
  {
    p :| p in heap;
    var todo := heap - {p};
    while todo != {}
      invariant p in heap && todo <= heap
      invariant forall q :: q in heap && q !in todo ==> Before(p, q)
      decreases |todo|
    {
      var q :| q in todo;
      todo := todo - {q};
      if !Before(p, q) {
        p := q;
      }
    }
  }

  /** One heap entry per unfinished reader: its next ID. */
  ghost predicate Heads(group: seq<seq<int>>, pos: seq<nat>, heap: Heap) {
    && Positions(group, pos)
    && (forall p :: p in heap ==> 0 <= p.1 < |group| && pos[p.1] < |group[p.1]| && p.0 == group[p.1][pos[p.1]])
    && (forall i :: 0 <= i < |group| && pos[i] < |group[i]| ==> (group[i][pos[i]], i) in heap)
  }

  /** Nothing that is still to come is smaller than what was written. */
  ghost predicate Below(out: seq<int>, group: seq<seq<int>>, pos: seq<nat>)
    requires |pos| == |group|
  {
    forall k, i, j :: 0 <= k < |out| && 0 <= i < |group| && pos[i] <= j < |group[i]| ==> out[k] <= group[i][j]
  }

  /** What was written and what is still to come are together the whole group. */
  ghost predicate Conserved(out: seq<int>, group: seq<seq<int>>, pos: seq<nat>)
    requires Positions(group, pos)
  {
    && |out| + LeftSize(group, pos) == |Flatten(group)|
    && forall x :: Count(out, x) + Left(group, pos, x) == Count(Flatten(group), x)
  }

  ghost predicate AllAscending(group: seq<seq<int>>) {
    forall i :: 0 <= i < |group| ==> StrictlyAscending(group[i])
  }

  ghost predicate Merging(group: seq<seq<int>>, pos: seq<nat>, heap: Heap, out: seq<int>) {
    && Heads(group, pos, heap)
    && AllAscending(group)
    && StrictlyAscending(out)
    && Below(out, group, pos)
    && Conserved(out, group, pos)
  }

  /** Reads every reader's first ID. */
  method OpenReaders(group: seq<seq<int>>) returns (pos: seq<nat>, heap: Heap)
    requires AllAscending(group)
    ensures Merging(group, pos, heap, [])
  {
    heap := {};
    pos := [];
    for i := 0 to |group|
      invariant |pos| == i && forall k :: 0 <= k < i ==> pos[k] == 0
      invariant forall p :: p in heap ==> 0 <= p.1 < i && 0 < |group[p.1]| && p.0 == group[p.1][0]
      invariant forall k :: 0 <= k < i && 0 < |group[k]| ==> (group[k][0], k) in heap
    {
      if group[i] != [] {
        heap := heap + {(group[i][0], i)};
      }
      pos := pos + [0];
    }
    forall x
      ensures Left(group, pos, x) == Count(Flatten(group), x) && LeftSize(group, pos) == |Flatten(group)|
    {
      LeftAll(group, pos, x);
    }
    LeftAll(group, pos, 0);
  }

  lemma EmitBelow(group: seq<seq<int>>, pos: seq<nat>, heap: Heap, out: seq<int>, p: (int, int))
    requires Heads(group, pos, heap) && AllAscending(group) && Below(out, group, pos) && Least(heap, p)
    ensures Below(out + [p.0], group, pos[p.1 := pos[p.1] + 1])
  {
  }

  lemma EmitAscends(group: seq<seq<int>>, pos: seq<nat>, heap: Heap, out: seq<int>, p: (int, int))
    requires Heads(group, pos, heap) && StrictlyAscending(out) && Below(out, group, pos) && p in heap
    requires out == [] || out[|out| - 1] != p.0
    ensures StrictlyAscending(out + [p.0])
  {
  }

  lemma EmitConserves(group: seq<seq<int>>, pos: seq<nat>, out: seq<int>, i: int)
    requires Positions(group, pos) && 0 <= i < |group| && pos[i] < |group[i]| && Conserved(out, group, pos)
    ensures var next := pos[i := pos[i] + 1];
            && Positions(group, next)
            && Conserved(out + [group[i][pos[i]]], group, next)
            && LeftSize(group, next) < LeftSize(group, pos)
  {
    var next, id := pos[i := pos[i] + 1], group[i][pos[i]];
    assert (out + [id])[..|out|] == out;
    forall x
      ensures Count(out + [id], x) + Left(group, next, x) == Count(Flatten(group), x)
    {
      LeftTake(group, pos, i, x);
    }
    LeftTake(group, pos, i, 0);
  }

  lemma NextHeads(group: seq<seq<int>>, pos: seq<nat>, heap: Heap, p: (int, int))
    requires Heads(group, pos, heap) && p in heap
    ensures var next := pos[p.1 := pos[p.1] + 1];
            var refill := if next[p.1] < |group[p.1]| then {(group[p.1][next[p.1]], p.1)} else {};
            Heads(group, next, (heap - {p}) + refill)
  {
  }

  /** Takes the least head off the heap and refills from its reader. */
  method Emit(group: seq<seq<int>>, pos: seq<nat>, heap: Heap, ghost out: seq<int>, p: (int, int))
    returns (next: seq<nat>, rest: Heap)
    requires Merging(group, pos, heap, out) && Least(heap, p)
    requires out == [] || out[|out| - 1] != p.0
    ensures Merging(group, next, rest, out + [p.0])
    ensures LeftSize(group, next) < LeftSize(group, pos)
  {
    EmitAscends(group, pos, heap, out, p);
    EmitBelow(group, pos, heap, out, p);
    EmitConserves(group, pos, out, p.1);
    NextHeads(group, pos, heap, p);
    next := pos[p.1 := pos[p.1] + 1];
    var refill: Heap := if next[p.1] < |group[p.1]| then {(group[p.1][next[p.1]], p.1)} else {};
    rest := (heap - {p}) + refill;
  }

  lemma AlreadyEmitted(group: seq<seq<int>>, pos: seq<nat>, heap: Heap, out: seq<int>, p: (int, int))
    requires Merging(group, pos, heap, out) && p in heap && out != [] && out[|out| - 1] == p.0
    ensures !Distinct(Flatten(group))
  {
    LeftTake(group, pos, p.1, p.0);
    CountPresent(out, |out| - 1);
    assert Count(Flatten(group), p.0) >= 2;
    DistinctIsCounted(Flatten(group));
  }

  /** Merges one group; equal IDs from different runs meet at the heap. */
  method MergeGroup(group: seq<seq<int>>, quota: Quota) returns (r: Result<seq<int>, SortError>)
    requires AllAscending(group)
    requires quota.used + ID_BYTES * |Flatten(group)| < U64_LIMIT
    modifies quota
    ensures r.Ok? ==> StrictlyAscending(r.value) && Permutes(r.value, Flatten(group))
                      && quota.used == old(quota.used) + ID_BYTES * |r.value|
    ensures r.Err? && r.error == DuplicateId ==> !Distinct(Flatten(group))
    ensures r.Err? && r.error == QuotaExceeded ==> old(quota.used) + ID_BYTES * |Flatten(group)| > SPOOL_CAP
  {
    var out: seq<int> := [];
    var pos: seq<nat>, heap := OpenReaders(group);
    while heap != {}
      invariant Merging(group, pos, heap, out)
      invariant quota.used == old(quota.used) + ID_BYTES * |out|
      decreases LeftSize(group, pos)
    {
      var p := PeekMin(heap);
      if out != [] && out[|out| - 1] == p.0 {
        AlreadyEmitted(group, pos, heap, out, p);
        return Err(DuplicateId);
      }
      LeftTake(group, pos, p.1, p.0);
      var added := quota.Add(ID_BYTES);
      if !added {
        return Err(QuotaExceeded);
      }
      pos, heap := Emit(group, pos, heap, out, p);
      out := out + [p.0];
    }
    AllRead(group, pos, out);
    return Ok(out);
  }

  lemma AllRead(group: seq<seq<int>>, pos: seq<nat>, out: seq<int>)
    requires Heads(group, pos, {}) && Conserved(out, group, pos)
    ensures Permutes(out, Flatten(group))
  {
    forall x
      ensures Count(out, x) == Count(Flatten(group), x)
    {
      LeftNone(group, pos, x);
    }
    LeftNone(group, pos, 0);
  }

  lemma DistinctSlice(s: seq<int>, i: int, j: int)
    requires 0 <= i <= j <= |s|
    ensures Distinct(s) ==> Distinct(s[i..j])
  {
  }

  /** The IDs of one group extend those of the groups before it and are among all the IDs. */
  lemma GroupOfRuns(runs: seq<seq<int>>, start: int, end: int)
    requires 0 <= start <= end <= |runs|
    ensures Flatten(runs[..end]) == Flatten(runs[..start]) + Flatten(runs[start..end])
    ensures |Flatten(runs[start..end])| <= |Flatten(runs)|
    ensures Distinct(Flatten(runs)) ==> Distinct(Flatten(runs[start..end]))
  {
    var before, group := Flatten(runs[..start]), Flatten(runs[start..end]);
    assert runs[..end] == runs[..start] + runs[start..end];
    FlattenConcat(runs[..start], runs[start..end]);
    assert runs == runs[..end] + runs[end..];
    FlattenConcat(runs[..end], runs[end..]);
    assert group == Flatten(runs)[|before|..|before| + |group|];
    DistinctSlice(Flatten(runs), |before|, |before| + |group|);
  }

  /** Removes the merged runs, returning each one's own charge. */
  method ReleaseRuns(group: seq<seq<int>>, quota: Quota)
    requires ID_BYTES * |Flatten(group)| <= quota.used
    modifies quota
    ensures quota.used == old(quota.used) - ID_BYTES * |Flatten(group)|
  {
    assert group[..0] == [];
    for i := 0 to |group|
      invariant quota.used == old(quota.used) - ID_BYTES * |Flatten(group[..i])|
    {
      RunsLeft(group, i);
      quota.used := quota.used - ID_BYTES * |group[i]|;
    }
    assert group[..|group|] == group;
  }

  lemma RunsLeft(group: seq<seq<int>>, i: int)
    requires 0 <= i < |group|
    ensures |Flatten(group[..i + 1])| == |Flatten(group[..i])| + |group[i]| <= |Flatten(group)|
  {
    assert group[..i + 1] == group[..i] + [group[i]];
    FlattenAppend(group[..i], group[i]);
    assert group == group[..i + 1] + group[i + 1..];
    FlattenConcat(group[..i + 1], group[i + 1..]);
  }

  /** One merge level: groups of up to 32 runs, each replaced by one; inputs are released afterwards. */
  method MergeLevel(runs: seq<seq<int>>, quota: Quota) returns (r: Result<seq<seq<int>>, SortError>)
    requires AllAscending(runs) && |runs| > 1
    requires quota.used + ID_BYTES * |Flatten(runs)| <= SPOOL_CAP
    modifies quota
    ensures r.Ok? ==> Runs(r.value, Flatten(runs)) && |r.value| == (|runs| + FAN_IN - 1) / FAN_IN
                      && quota.used == old(quota.used)
    ensures r.Err? ==> r.error == DuplicateId && !Distinct(Flatten(runs))
  {
    var next: seq<seq<int>>, start := [], 0;
    assert runs[..0] == [];
    while start < |runs|
      invariant 0 <= start <= |runs|
      invariant Runs(next, Flatten(runs[..start]))
      invariant quota.used == old(quota.used)
      invariant |next| == (start + FAN_IN - 1) / FAN_IN
      invariant start < |runs| ==> start % FAN_IN == 0
    {
      var end := Min(start + FAN_IN, |runs|);
      GroupOfRuns(runs, start, end);
      var merged := MergeGroup(runs[start..end], quota);
      if merged.Err? {
        return Err(merged.error);
      }
      ReleaseRuns(runs[start..end], quota);
      RunsAppend(next, Flatten(runs[..start]), merged.value, Flatten(runs[start..end]));
      next := next + [merged.value];
      start := end;
    }
    assert runs[..start] == runs;
    return Ok(next);
  }

  /**
    Succeeds exactly when all IDs are distinct and the quota holds one extra copy
    of the ID file; on success the quota is back at its entry value.
   */
  method CheckUnique(ids: seq<int>, quota: Quota) returns (r: Result<(), SortError>)
    requires ID_BYTES * |ids| <= quota.used <= SPOOL_CAP
    modifies quota
    ensures r.Ok? <==> Distinct(ids) && old(quota.used) + ID_BYTES * |ids| <= SPOOL_CAP
    ensures r.Ok? ==> quota.used == old(quota.used)
    ensures r == Err(DuplicateId) ==> !Distinct(ids)
    ensures r == Err(QuotaExceeded) ==> old(quota.used) + ID_BYTES * |ids| > SPOOL_CAP
  {
    var made := MakeRuns(ids, quota);
    if made.Err? {
      return Err(made.error);
    }
    var runs := made.value;
    quota.used := quota.used - |ids| * ID_BYTES;
    while |runs| > 1
      invariant Runs(runs, ids)
      invariant quota.used == old(quota.used) && quota.used + ID_BYTES * |ids| <= SPOOL_CAP
      decreases |runs|
    {
      DistinctPermutes(Flatten(runs), ids);
      var merged := MergeLevel(runs, quota);
      if merged.Err? {
        return Err(merged.error);
      }
      runs := merged.value;
    }
    LastRunIsAll(runs, ids);
    return Ok(());
  }

  lemma LastRunIsAll(runs: seq<seq<int>>, ids: seq<int>)
    requires Runs(runs, ids) && |runs| <= 1
    ensures Distinct(ids)
  {
    DistinctPermutes(Flatten(runs), ids);
    if |runs| == 1 {
      assert Flatten(runs) == runs[0] + Flatten([]) == runs[0];
    }
  }
}
