/**
  Depth-first range traversal with an explicit stack and a bounded working set.
  `WalkRows` is the plain recursive traversal; the cursor's `Next` peels exactly
  one item off it, errors included.
 */
module IndexTraversal {
  import opened Base
  import opened IndexFormat

  datatype ReadError = OutsideRoot | WorkingSetExceeded | MissingObject | InvalidLink

  /** What a traversal delivers, and whether it ends in an error afterwards. */
  datatype Walk = Walk(entries: seq<IndexEntry>, failed: bool)

  function Then(a: Walk, b: Walk): Walk {
    if a.failed then a else Walk(a.entries + b.entries, b.failed)
  }

  ghost function WalkRows<L>(store: Store<L>, kind: IndexKind, limits: Limits, level: nat, rows: seq<IndexEntry>,
                             resident: nat, lo: int, hi: int): Walk
    decreases level, |rows|
  {
    if rows == [] then Walk([], false)
    else Then(WalkRow(store, kind, limits, level, rows[0], resident, lo, hi),
              WalkRows(store, kind, limits, level, rows[1..], resident, lo, hi))
  }

  ghost function WalkRow<L>(store: Store<L>, kind: IndexKind, limits: Limits, level: nat, row: IndexEntry,
                            resident: nat, lo: int, hi: int): Walk
    decreases level, 0
  {
    if !Overlaps(row, lo, hi) then Walk([], false)
    else if level == 0 then
      if row.file in store && store[row.file].Leaf? then Walk([row], false) else Walk([], true)
    else if resident + row.file.byteCount > WORKING_SET then Walk([], true)
    else
      var child := Open(store, Edge(level, row), kind, limits);
      if child.None? then Walk([], true)
      else WalkRows(store, kind, limits, level - 1, child.value.entries, resident + row.file.byteCount, lo, hi)
  }

  /** The whole traversal from a root descriptor. */
  ghost function WalkRoot<L>(store: Store<L>, kind: IndexKind, limits: Limits, root: IndexDescriptor, lo: int,
                             hi: int): Walk
  {
    var page := Open(store, root, kind, limits);
    if root.file.byteCount > WORKING_SET || page.None? then Walk([], true)
    else WalkRows(store, kind, limits, root.level, page.value.entries, root.file.byteCount, lo, hi)
  }

  /** Page visits left: the measure that makes every traversal finite. */
  ghost function Visits<L>(store: Store<L>, kind: IndexKind, limits: Limits, level: nat, rows: seq<IndexEntry>): nat
    decreases level, |rows|
  {
    if rows == [] then 1
    else
      var child := if level == 0 then None else Open(store, Edge(level, rows[0]), kind, limits);
      1 + Visits(store, kind, limits, level, rows[1..])
      + if child.Some? then Visits(store, kind, limits, level - 1, child.value.entries) else 0
  }

  datatype Visited<L> = Again | Deliver(entry: IndexEntry, content: L) | Fail(error: ReadError)

  datatype Frame = Frame(page: IndexPage, index: nat, size: nat)

  predicate ValidFrame(f: Frame) {
    f.index <= |f.page.entries|
  }

  function Rest(f: Frame): seq<IndexEntry>
    requires ValidFrame(f)
  {
    f.page.entries[f.index..]
  }

  function Resident(stack: seq<Frame>): nat {
    if stack == [] then 0 else stack[|stack| - 1].size + Resident(stack[..|stack| - 1])
  }

  ghost function WalkStack<L>(store: Store<L>, kind: IndexKind, limits: Limits, stack: seq<Frame>, lo: int,
                              hi: int): Walk
    requires forall f | f in stack :: ValidFrame(f)
  {
    if stack == [] then Walk([], false)
    else
      var top := stack[|stack| - 1];
      assert top in stack;
      Then(WalkRows(store, kind, limits, top.page.level, Rest(top), Resident(stack), lo, hi),
           WalkStack(store, kind, limits, stack[..|stack| - 1], lo, hi))
  }

  ghost function StackVisits<L>(store: Store<L>, kind: IndexKind, limits: Limits, stack: seq<Frame>): nat
    requires forall f | f in stack :: ValidFrame(f)
  {
    if stack == [] then 0
    else
      var top := stack[|stack| - 1];
      assert top in stack;
      Visits(store, kind, limits, top.page.level, Rest(top))
      + StackVisits(store, kind, limits, stack[..|stack| - 1])
  }

  /** Leaving an exhausted page. */
  lemma PopFrame<L>(store: Store<L>, kind: IndexKind, limits: Limits, stack: seq<Frame>, lo: int, hi: int)
    requires stack != [] && forall f | f in stack :: ValidFrame(f)
    requires stack[|stack| - 1].index == |stack[|stack| - 1].page.entries|
    ensures var below := stack[..|stack| - 1];
            && (forall f | f in below :: ValidFrame(f))
            && WalkStack(store, kind, limits, stack, lo, hi) == WalkStack(store, kind, limits, below, lo, hi)
            && StackVisits(store, kind, limits, below) < StackVisits(store, kind, limits, stack)
            && Resident(below) == Resident(stack) - stack[|stack| - 1].size
  {
  }

  /** Moving past one entry splits off that entry's own traversal. */
  lemma AdvanceFrame<L>(store: Store<L>, kind: IndexKind, limits: Limits, stack: seq<Frame>, lo: int, hi: int)
    requires stack != [] && forall f | f in stack :: ValidFrame(f)
    requires stack[|stack| - 1].index < |stack[|stack| - 1].page.entries|
    ensures var top := stack[|stack| - 1];
            var entry := top.page.entries[top.index];
            var next := stack[..|stack| - 1] + [top.(index := top.index + 1)];
            var row := WalkRow(store, kind, limits, top.page.level, entry, Resident(stack), lo, hi);
            var child := if top.page.level == 0 then None else Open(store, Edge(top.page.level, entry), kind, limits);
            && (forall f | f in next :: ValidFrame(f))
            && Resident(next) == Resident(stack)
            && WalkStack(store, kind, limits, stack, lo, hi) == Then(row, WalkStack(store, kind, limits, next, lo, hi))
            && (row == Walk([], false) ==>
                  WalkStack(store, kind, limits, stack, lo, hi) == WalkStack(store, kind, limits, next, lo, hi))
            && StackVisits(store, kind, limits, stack) == 1 + StackVisits(store, kind, limits, next)
               + if child.Some? then Visits(store, kind, limits, child.value.level, child.value.entries) else 0
  {
    var below, top := stack[..|stack| - 1], stack[|stack| - 1];
    assert top in stack;
    var moved := top.(index := top.index + 1);
    var next := below + [moved];
    assert next[..|next| - 1] == below && next[|next| - 1] == moved;
    assert Rest(top)[0] == top.page.entries[top.index] && Rest(top)[1..] == Rest(moved);
    var row := WalkRow(store, kind, limits, top.page.level, Rest(top)[0], Resident(stack), lo, hi);
    var tail := WalkRows(store, kind, limits, top.page.level, Rest(moved), Resident(stack), lo, hi);
    var after := WalkStack(store, kind, limits, below, lo, hi);
    ThenAssociative(row, tail, after);
    assert Then(Walk([], false), Then(tail, after)).entries == Then(tail, after).entries;
  }

  /** Descending into a page puts its traversal in front. */
  lemma PushFrame<L>(store: Store<L>, kind: IndexKind, limits: Limits, stack: seq<Frame>, page: IndexPage, size: nat,
                     lo: int, hi: int)
    requires forall f | f in stack :: ValidFrame(f)
    ensures var next := stack + [Frame(page, 0, size)];
            && (forall f | f in next :: ValidFrame(f))
            && Resident(next) == Resident(stack) + size
            && WalkStack(store, kind, limits, next, lo, hi)
               == Then(WalkRows(store, kind, limits, page.level, page.entries, Resident(stack) + size, lo, hi),
                       WalkStack(store, kind, limits, stack, lo, hi))
            && StackVisits(store, kind, limits, next)
               == Visits(store, kind, limits, page.level, page.entries) + StackVisits(store, kind, limits, stack)
  {
  }

  class IndexCursor {
    var root: Option<IndexDescriptor>
    var stack: seq<Frame>
    var resident: nat
    const kind: IndexKind
    const start: int
    const end: int

    ghost predicate Valid()
      reads this
    {
      && (forall f | f in stack :: ValidFrame(f))
      && resident == Resident(stack) <= WORKING_SET
      && (root.Some? ==> stack == [])
    }

    /** Everything this cursor has still to deliver. */
    ghost function Pending<L>(store: Store<L>, limits: Limits): Walk
      reads this
      requires Valid()
    {
      if root.Some? then WalkRoot(store, kind, limits, root.value, start, end)
      else WalkStack(store, kind, limits, stack, start, end)
    }

    constructor (root: IndexDescriptor, kind: IndexKind, start: int, end: int)
      ensures Valid() && this.root == Some(root) && this.kind == kind && this.start == start && this.end == end
    {
      this.root := Some(root);
      this.kind := kind;
      this.start := start;
      this.end := end;
      this.stack := [];
      this.resident := 0;
    }

    /** Refuses a request that is empty or leaves the root's range. */
    static method Request(root: IndexDescriptor, kind: IndexKind, start: int, end: int)
      returns (r: Result<IndexCursor, ReadError>)
      ensures r.Ok? <==> root.start <= start < end <= root.end
      ensures r.Ok? ==> fresh(r.value) && r.value.Valid() && r.value.root == Some(root)
                        && r.value.kind == kind && r.value.start == start && r.value.end == end
    {
      if !(start >= root.start && end <= root.end && start < end) {
        return Err(OutsideRoot);
      }
      var cursor := new IndexCursor(root, kind, start, end);
      return Ok(cursor);
    }

    method OpenRoot<L>(store: Store<L>, limits: Limits) returns (error: Option<ReadError>)
      requires Valid()
      modifies this`root, this`stack, this`resident
      ensures error.Some? ==> old(Pending(store, limits)) == Walk([], true)
      ensures error.None? ==> Valid() && root.None? && Pending(store, limits) == old(Pending(store, limits))
    {
      if root.None? {
        return None;
      }
      var d := root.value;
      root := None;
      if d.file.byteCount > WORKING_SET {
        return Some(WorkingSetExceeded);
      }
      var page := Open(store, d, kind, limits);
      if page.None? {
        return Some(InvalidLink);
      }
      resident := d.file.byteCount;
      stack := [Frame(page.value, 0, d.file.byteCount)];
      PushFrame(store, kind, limits, [], page.value, d.file.byteCount, start, end);
      assert [] + stack == stack;
      ghost var all := WalkRows(store, kind, limits, d.level, page.value.entries, resident, start, end);
      assert Then(all, Walk([], false)).entries == all.entries;
      return None;
    }

    /** Loads the page below one entry, within the working set. */
    method Descend<L>(store: Store<L>, limits: Limits, level: nat, entry: IndexEntry) returns (error: Option<ReadError>)
      requires Valid() && root.None? && level > 0 && Overlaps(entry, start, end)
      modifies this`stack, this`resident
      ensures Valid()
      ensures var row := WalkRow(store, kind, limits, level, entry, old(resident), start, end);
              var child := Open(store, Edge(level, entry), kind, limits);
              && (error.Some? ==> row == Walk([], true))
              && (error.None? ==>
                    && child.Some?
                    && Pending(store, limits) == Then(row, old(Pending(store, limits)))
                    && StackVisits(store, kind, limits, stack)
                       == Visits(store, kind, limits, child.value.level, child.value.entries)
                          + old(StackVisits(store, kind, limits, stack)))
    {
      if resident + entry.file.byteCount > WORKING_SET {
        return Some(WorkingSetExceeded);
      }
      var child := Open(store, Edge(level, entry), kind, limits);
      if child.None? {
        return Some(InvalidLink);
      }
      PushFrame(store, kind, limits, stack, child.value, entry.file.byteCount, start, end);
      resident := resident + entry.file.byteCount;
      stack := stack + [Frame(child.value, 0, entry.file.byteCount)];
      return None;
    }

    /** Steps past the next entry of the top page and reports it. */
    method Advance<L>(ghost store: Store<L>, ghost limits: Limits) returns (entry: IndexEntry, level: nat)
      requires Valid() && root.None? && stack != [] && stack[|stack| - 1].index < |stack[|stack| - 1].page.entries|
      modifies this`stack
      ensures Valid() && stack != []
      ensures var row := WalkRow(store, kind, limits, level, entry, resident, start, end);
              && old(Pending(store, limits)) == Then(row, Pending(store, limits))
              && (row == Walk([], false) ==> old(Pending(store, limits)) == Pending(store, limits))
      ensures var child := if level == 0 then None else Open(store, Edge(level, entry), kind, limits);
              old(StackVisits(store, kind, limits, stack)) == 1 + StackVisits(store, kind, limits, stack)
                + if child.Some? then Visits(store, kind, limits, child.value.level, child.value.entries) else 0
    {
      var below, top := stack[..|stack| - 1], stack[|stack| - 1];
      assert top in stack;
      AdvanceFrame(store, kind, limits, stack, start, end);
      stack := below + [top.(index := top.index + 1)];
      return top.page.entries[top.index], top.page.level;
    }

    /** One round of the traversal loop over the top page. */
    method Visit<L>(store: Store<L>, limits: Limits) returns (r: Visited<L>)
      requires Valid() && root.None? && stack != []
      modifies this`stack, this`resident
      ensures Valid()
      ensures r.Again? ==> Pending(store, limits) == old(Pending(store, limits))
                           && StackVisits(store, kind, limits, stack) < old(StackVisits(store, kind, limits, stack))
      ensures r.Deliver? ==> && old(Pending(store, limits)) == Then(Walk([r.entry], false), Pending(store, limits))
                             && r.entry.file in store && store[r.entry.file] == Leaf(r.content)
      ensures r.Fail? ==> old(Pending(store, limits)) == Walk([], true)
    {
      var below, top := stack[..|stack| - 1], stack[|stack| - 1];
      assert top in stack;
      if top.index == |top.page.entries| {
        PopFrame(store, kind, limits, stack, start, end);
        resident := resident - top.size;
        stack := below;
        return Again;
      }
      var entry, level := Advance(store, limits);
      if entry.end <= start || entry.start >= end {
        return Again;
      }
      if level == 0 {
        if entry.file !in store || store[entry.file].Page? {
          return Fail(MissingObject);
        }
        return Deliver(entry, store[entry.file].content);
      }
      var error := Descend(store, limits, level, entry);
      return if error.Some? then Fail(error.value) else Again;
    }

    /**
      One item of the plain traversal: the next leaf entry with its bytes, the
      end, or the first error. The working set never exceeds its bound.
     */
    method Next<L>(store: Store<L>, limits: Limits) returns (r: Result<Option<(IndexEntry, L)>, ReadError>)
      requires Valid()
      modifies this`root, this`stack, this`resident
      ensures r.Err? ==> old(Pending(store, limits)) == Walk([], true)
      ensures r.Ok? ==> Valid() && root.None?
      ensures r.Ok? && r.value.None? ==> old(Pending(store, limits)) == Walk([], false) == Pending(store, limits)
      ensures r.Ok? && r.value.Some? ==>
                var (entry, content) := r.value.value;
                && old(Pending(store, limits)) == Then(Walk([entry], false), Pending(store, limits))
                && entry.file in store && store[entry.file] == Leaf(content)
    {
      var error := OpenRoot(store, limits);
      if error.Some? {
        return Err(error.value);
      }
      while stack != []
        invariant Valid() && root.None?
        invariant Pending(store, limits) == old(Pending(store, limits))
        decreases StackVisits(store, kind, limits, stack)
      {
        var visited := Visit(store, limits);
        match visited
        case Again =>
        case Deliver(entry, content) => return Ok(Some((entry, content)));
        case Fail(e) => return Err(e);
      }
      return Ok(None);
    }

    /** Reads until the end, as every consumer of a cursor does. */
    method Drain<L>(store: Store<L>, limits: Limits)
      returns (entries: seq<IndexEntry>, contents: seq<L>, error: Option<ReadError>)
      requires Valid()
      modifies this`root, this`stack, this`resident
      ensures Walk(entries, error.Some?) == old(Pending(store, limits))
      ensures |contents| == |entries|
      ensures forall i :: 0 <= i < |entries| ==> entries[i].file in store && store[entries[i].file] == Leaf(contents[i])
    {
      entries, contents, error := [], [], None;
      ghost var all := Pending(store, limits);
      while true
        invariant Valid()
        invariant all == Then(Walk(entries, false), Pending(store, limits))
        invariant |contents| == |entries|
        invariant forall i :: 0 <= i < |entries| ==>
                    entries[i].file in store && store[entries[i].file] == Leaf(contents[i])
        decreases |all.entries| - |entries|
      {
        ghost var before := Pending(store, limits);
        var r := Next(store, limits);
        if r.Err? {
          return entries, contents, Some(r.error);
        }
        if r.value.None? {
          return;
        }
        var (entry, content) := r.value.value;
        ThenAssociative(Walk(entries, false), Walk([entry], false), Pending(store, limits));
        entries, contents := entries + [entry], contents + [content];
      }
    }
  }

  lemma ThenAssociative(a: Walk, b: Walk, c: Walk)
    ensures Then(Then(a, b), c) == Then(a, Then(b, c))
  {
    assert a.entries + (b.entries + c.entries) == (a.entries + b.entries) + c.entries;
  }

  /** The heaviest chain of pages a request must hold below a page. */
  ghost function Heaviest<L>(store: Store<L>, kind: IndexKind, limits: Limits, level: nat, rows: seq<IndexEntry>,
                             lo: int, hi: int): nat
    decreases level, |rows|
  {
    if rows == [] then 0
    else
      var first := HeaviestRow(store, kind, limits, level, rows[0], lo, hi);
      var rest := Heaviest(store, kind, limits, level, rows[1..], lo, hi);
      if first <= rest then rest else first
  }

  ghost function HeaviestRow<L>(store: Store<L>, kind: IndexKind, limits: Limits, level: nat, row: IndexEntry,
                                lo: int, hi: int): nat
    decreases level, 0
  {
    if level == 0 || !Overlaps(row, lo, hi) then 0
    else
      var child := Open(store, Edge(level, row), kind, limits);
      if child.None? then 0
      else row.file.byteCount + Heaviest(store, kind, limits, level - 1, child.value.entries, lo, hi)
  }

  /**
    Over a sound index a traversal delivers exactly the leaves meeting the
    request, in order, and fails if and only if some chain of pages it must
    hold is heavier than the working set.
   */
  lemma {:induction false} WalkSelects<L>(store: Store<L>, kind: IndexKind, limits: Limits, level: nat,
                                          rows: seq<IndexEntry>, resident: nat, lo: int, hi: int)
    requires Sound(store, kind, limits, level, rows) && Contiguous(rows)
    requires resident <= WORKING_SET
    ensures var w := WalkRows(store, kind, limits, level, rows, resident, lo, hi);
            && (!w.failed ==> w.entries == Select(Leaves(store, kind, limits, level, rows), lo, hi))
            && (w.failed <==> resident + Heaviest(store, kind, limits, level, rows, lo, hi) > WORKING_SET)
    decreases level, |rows|
  {
    if rows != [] {
      ContiguousSlice(rows, 1, |rows|);
      assert rows[1..|rows|] == rows[1..];
      WalkSelects(store, kind, limits, level, rows[1..], resident, lo, hi);
      WalkRowSelects(store, kind, limits, level, rows[0], resident, lo, hi);
      SelectConcat(RowLeaves(store, kind, limits, level, rows[0]), Leaves(store, kind, limits, level, rows[1..]), lo,
                   hi);
    }
  }

  lemma {:induction false} WalkRowSelects<L>(store: Store<L>, kind: IndexKind, limits: Limits, level: nat,
                                             row: IndexEntry, resident: nat, lo: int, hi: int)
    requires SoundRow(store, kind, limits, level, row) && 0 <= row.start < row.end
    requires resident <= WORKING_SET
    ensures var w := WalkRow(store, kind, limits, level, row, resident, lo, hi);
            && (!w.failed ==> w.entries == Select(RowLeaves(store, kind, limits, level, row), lo, hi))
            && (w.failed <==> resident + HeaviestRow(store, kind, limits, level, row, lo, hi) > WORKING_SET)
    decreases level, 0
  {
    if !Overlaps(row, lo, hi) {
      RowMisses(store, kind, limits, level, row, lo, hi);
    } else if level > 0 {
      var held := resident + row.file.byteCount;
      if held <= WORKING_SET {
        WalkSelects(store, kind, limits, level - 1, Open(store, Edge(level, row), kind, limits).value.entries, held,
                    lo, hi);
      }
    }
  }

  /** The numeric reading: pages of bounded size under a root of bounded height always fit. */
  lemma {:induction false} HeaviestBound<L>(store: Store<L>, kind: IndexKind, limits: Limits, level: nat,
                                            rows: seq<IndexEntry>, lo: int, hi: int, pageBytes: nat)
    requires forall ref | ref in store && store[ref].Page? :: ref.byteCount <= pageBytes
    ensures Heaviest(store, kind, limits, level, rows, lo, hi) <= level * pageBytes
    decreases level, |rows|
  {
    if rows != [] {
      HeaviestBound(store, kind, limits, level, rows[1..], lo, hi, pageBytes);
      var child := if level == 0 then None else Open(store, Edge(level, rows[0]), kind, limits);
      if child.Some? {
        HeaviestBound(store, kind, limits, level - 1, child.value.entries, lo, hi, pageBytes);
        assert (level - 1) * pageBytes + pageBytes == level * pageBytes;
      }
    }
  }
}
