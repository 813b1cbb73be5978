/**
  The immutable ordinal index: pages of contiguous ranges, each entry naming
  either a leaf file (level 0) or a page one level lower.
  The meaning of an index is the flat sequence of its leaf entries.
 */
module IndexFormat {
  import opened Base

  /** What a traversal may hold in encoded index pages. */
  const WORKING_SET: nat := 4 * 1024 * 1024

  datatype IndexKind = DatasetBatches | RunChunks

  datatype ObjectKind = LeafFile | IndexFile

  /** A stored object's identity: its deterministic slot and its exact length. */
  datatype ObjectRef = ObjectRef(kind: ObjectKind, level: nat, start: int, end: int, byteCount: nat)

  datatype IndexEntry = IndexEntry(start: int, end: int, file: ObjectRef)

  datatype IndexDescriptor = IndexDescriptor(level: nat, start: int, end: int, file: ObjectRef)

  datatype IndexPage = IndexPage(kind: IndexKind, level: nat, start: int, end: int, entries: seq<IndexEntry>)

  datatype Limits = Limits(pageBytes: nat, pageEntries: nat, indexHeight: nat)

  /** Verified content of a stored object. */
  datatype Document<L> = Page(page: IndexPage) | Leaf(content: L)

  type Store<L> = map<ObjectRef, Document<L>>

  /** Nonempty half-open ranges, each starting where the one before ends. */
  predicate Contiguous(entries: seq<IndexEntry>) {
    && (forall i :: 0 <= i < |entries| ==> 0 <= entries[i].start < entries[i].end)
    && (forall i, j :: 0 <= i < |entries| && 0 <= j < |entries| && j == i + 1 ==> entries[i].end == entries[j].start)
  }

  predicate ValidPage(page: IndexPage, limits: Limits) {
    && 0 <= page.start < page.end
    && page.level < limits.indexHeight
    && 0 < |page.entries| <= limits.pageEntries
    && Contiguous(page.entries)
    && page.entries[0].start == page.start
    && page.entries[|page.entries| - 1].end == page.end
  }

  /** A descriptor accepts exactly a valid page of its own kind, level and range. */
  predicate ValidLink(d: IndexDescriptor, page: IndexPage, kind: IndexKind, limits: Limits) {
    && ValidPage(page, limits)
    && page.level == d.level
    && page.kind == kind
    && page.start == d.start
    && page.end == d.end
  }

  function Edge(level: nat, e: IndexEntry): IndexDescriptor
    requires level > 0
  {
    IndexDescriptor(level - 1, e.start, e.end, e.file)
  }

  /** The page a descriptor names, if it is stored and passes every check. */
  function Open<L>(store: Store<L>, d: IndexDescriptor, kind: IndexKind, limits: Limits): (r: Option<IndexPage>)
    ensures r.Some? ==> r.value.level == d.level
  {
    if d.file in store && store[d.file].Page? && ValidLink(d, store[d.file].page, kind, limits)
    then Some(store[d.file].page)
    else None
  }

  predicate Overlaps(e: IndexEntry, lo: int, hi: int) {
    !(e.end <= lo || e.start >= hi)
  }

  /** The reference meaning of a range request. */
  function Select(entries: seq<IndexEntry>, lo: int, hi: int): seq<IndexEntry> {
    if entries == [] then []
    else (if Overlaps(entries[0], lo, hi) then [entries[0]] else []) + Select(entries[1..], lo, hi)
  }

  /** A range meets a request exactly when they share a position. */
  lemma OverlapsMeans(e: IndexEntry, lo: int, hi: int)
    requires e.start < e.end && lo < hi
    ensures Overlaps(e, lo, hi) <==> exists x :: Covers(lo, hi, x) && Covers(e.start, e.end, x)
  {
    if Overlaps(e, lo, hi) {
      var x := if lo <= e.start then e.start else lo;
      assert Covers(lo, hi, x) && Covers(e.start, e.end, x);
    }
  }

  predicate Covers(start: int, end: int, x: int) {
    start <= x < end
  }

  lemma {:induction false} SelectConcat(a: seq<IndexEntry>, b: seq<IndexEntry>, lo: int, hi: int)
    ensures Select(a + b, lo, hi) == Select(a, lo, hi) + Select(b, lo, hi)
  {
    if a == [] {
      assert a + b == b;
    } else {
      assert (a + b)[1..] == a[1..] + b;
      SelectConcat(a[1..], b, lo, hi);
      var head := if Overlaps(a[0], lo, hi) then [a[0]] else [];
      assert head + (Select(a[1..], lo, hi) + Select(b, lo, hi)) == (head + Select(a[1..], lo, hi)) + Select(b, lo, hi);
    }
  }

  lemma {:induction false} SelectNone(entries: seq<IndexEntry>, lo: int, hi: int)
    requires forall e | e in entries :: !Overlaps(e, lo, hi)
    ensures Select(entries, lo, hi) == []
  {
    if entries != [] {
      assert entries[0] in entries;
      SelectNone(entries[1..], lo, hi);
    }
  }

  /** Every row is readable: leaves are stored, interior rows open to sound pages. */
  ghost predicate Sound<L>(store: Store<L>, kind: IndexKind, limits: Limits, level: nat, rows: seq<IndexEntry>)
    decreases level, |rows|
  {
    rows == [] ||
    (SoundRow(store, kind, limits, level, rows[0]) && Sound(store, kind, limits, level, rows[1..]))
  }

  ghost predicate SoundRow<L>(store: Store<L>, kind: IndexKind, limits: Limits, level: nat, row: IndexEntry)
    decreases level, 0
  {
    && row.file in store
    && if level == 0 then store[row.file].Leaf?
       else var child := Open(store, Edge(level, row), kind, limits);
            child.Some? && Sound(store, kind, limits, level - 1, child.value.entries)
  }

  /** The leaf entries below a row of a given level, in order. */
  ghost function Leaves<L>(store: Store<L>, kind: IndexKind, limits: Limits, level: nat, rows: seq<IndexEntry>)
    : seq<IndexEntry>
    decreases level, |rows|
  {
    if rows == [] then []
    else RowLeaves(store, kind, limits, level, rows[0]) + Leaves(store, kind, limits, level, rows[1..])
  }

  ghost function RowLeaves<L>(store: Store<L>, kind: IndexKind, limits: Limits, level: nat, row: IndexEntry)
    : seq<IndexEntry>
    decreases level, 0
  {
    if level == 0 then [row]
    else var child := Open(store, Edge(level, row), kind, limits);
         if child.Some? then Leaves(store, kind, limits, level - 1, child.value.entries) else []
  }

  lemma {:induction false} LeavesConcat<L>(store: Store<L>, kind: IndexKind, limits: Limits, level: nat,
                                           a: seq<IndexEntry>, b: seq<IndexEntry>)
    ensures Leaves(store, kind, limits, level, a + b)
         == Leaves(store, kind, limits, level, a) + Leaves(store, kind, limits, level, b)
    ensures Sound(store, kind, limits, level, a + b)
        <==> Sound(store, kind, limits, level, a) && Sound(store, kind, limits, level, b)
  {
    if a == [] {
      assert a + b == b;
    } else {
      assert (a + b)[1..] == a[1..] + b;
      LeavesConcat(store, kind, limits, level, a[1..], b);
    }
  }

  /** An immutable store only grows, and growth changes no sound index. */
  lemma {:induction false} Grow<L>(old_: Store<L>, new_: Store<L>, kind: IndexKind, limits: Limits, level: nat,
                                   rows: seq<IndexEntry>)
    requires Extends(old_, new_)
    requires Sound(old_, kind, limits, level, rows)
    ensures Sound(new_, kind, limits, level, rows)
    ensures Leaves(new_, kind, limits, level, rows) == Leaves(old_, kind, limits, level, rows)
    decreases level, |rows|
  {
    if rows != [] {
      if level > 0 {
        Grow(old_, new_, kind, limits, level - 1, Open(old_, Edge(level, rows[0]), kind, limits).value.entries);
      }
      Grow(old_, new_, kind, limits, level, rows[1..]);
    }
  }

  ghost predicate Extends<L>(old_: Store<L>, new_: Store<L>) {
    forall r :: r in old_ ==> r in new_ && new_[r] == old_[r]
  }

  lemma {:induction false} ContiguousOrder(rows: seq<IndexEntry>, i: int, j: int)
    requires Contiguous(rows) && 0 <= i < j < |rows|
    ensures rows[i].end <= rows[j].start
    decreases j
  {
    if i + 1 < j {
      ContiguousOrder(rows, i, j - 1);
    }
  }

  lemma ContiguousSlice(rows: seq<IndexEntry>, i: int, j: int)
    requires Contiguous(rows) && 0 <= i <= j <= |rows|
    ensures Contiguous(rows[i..j])
  {
  }

  /** Contiguous entries covering exactly start..end. */
  ghost predicate Spans(entries: seq<IndexEntry>, start: int, end: int) {
    && entries != []
    && Contiguous(entries)
    && entries[0].start == start
    && entries[|entries| - 1].end == end
  }

  lemma SpansConcat(a: seq<IndexEntry>, b: seq<IndexEntry>, start: int, mid: int, end: int)
    requires Spans(a, start, mid) && Spans(b, mid, end)
    ensures Spans(a + b, start, end)
  {
  }

  lemma SpansTail(rows: seq<IndexEntry>, start: int, end: int)
    requires Spans(rows, start, end) && |rows| > 1
    ensures Spans(rows[1..], rows[0].end, end)
  {
  }

  /** Leaves cover exactly the range of the rows they hang under. */
  lemma {:induction false} LeavesSpan<L>(store: Store<L>, kind: IndexKind, limits: Limits, level: nat,
                                         rows: seq<IndexEntry>, start: int, end: int)
    requires Sound(store, kind, limits, level, rows) && Spans(rows, start, end)
    ensures Spans(Leaves(store, kind, limits, level, rows), start, end)
    decreases level, |rows|
  {
    var head := RowLeaves(store, kind, limits, level, rows[0]);
    RowLeavesSpan(store, kind, limits, level, rows[0]);
    if |rows| > 1 {
      SpansTail(rows, start, end);
      LeavesSpan(store, kind, limits, level, rows[1..], rows[0].end, end);
      SpansConcat(head, Leaves(store, kind, limits, level, rows[1..]), start, rows[0].end, end);
    } else {
      assert Leaves(store, kind, limits, level, rows) == head + [] == head;
    }
  }

  lemma {:induction false} RowLeavesSpan<L>(store: Store<L>, kind: IndexKind, limits: Limits, level: nat,
                                            row: IndexEntry)
    requires SoundRow(store, kind, limits, level, row) && 0 <= row.start < row.end
    ensures Spans(RowLeaves(store, kind, limits, level, row), row.start, row.end)
    decreases level, 0
  {
    if level > 0 {
      var child := Open(store, Edge(level, row), kind, limits).value;
      LeavesSpan(store, kind, limits, level - 1, child.entries, row.start, row.end);
    }
  }

  /** A row that misses the request hides no leaf that meets it. */
  lemma RowMisses<L>(store: Store<L>, kind: IndexKind, limits: Limits, level: nat, row: IndexEntry, lo: int, hi: int)
    requires SoundRow(store, kind, limits, level, row) && 0 <= row.start < row.end
    requires !Overlaps(row, lo, hi)
    ensures Select(RowLeaves(store, kind, limits, level, row), lo, hi) == []
  {
    var leaves := RowLeaves(store, kind, limits, level, row);
    RowLeavesSpan(store, kind, limits, level, row);
    forall e | e in leaves
      ensures !Overlaps(e, lo, hi)
    {
      var k :| 0 <= k < |leaves| && leaves[k] == e;
      if 0 < k {
        ContiguousOrder(leaves, 0, k);
      }
      if k < |leaves| - 1 {
        ContiguousOrder(leaves, k, |leaves| - 1);
      }
    }
    SelectNone(leaves, lo, hi);
  }
}
