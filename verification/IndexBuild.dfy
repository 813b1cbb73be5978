/**
  Bottom-up construction of an ordinal index: children are packed greedily into
  pages bounded by entry count and encoded size, level by level, until one page
  remains. The same algorithm serves dataset batches and run chunks.
 */
module IndexBuilding {
  import opened Base
  import opened IndexFormat
  import opened IndexTraversal

  /** The size estimate every page starts from. */
  const PAGE_OVERHEAD: nat := 256
  const SQL_PAGE: nat := 256

  /** Encoded lengths; the encoding itself is not modelled. */
  datatype Codec = Codec(entryBytes: IndexEntry -> nat, pageBytes: IndexPage -> nat)

  datatype BuildError = EntryTooLarge | PageRejected | EmptyIndex | TooHigh

  datatype Level<L> = Level(rows: seq<IndexEntry>, store: Store<L>)

  datatype Built<L> = Built(root: IndexDescriptor, store: Store<L>)

  // ----- the specification: a greedy cut, then one page per group -----

  predicate Full(limits: Limits, open: seq<IndexEntry>, size: nat, bytes: nat) {
    open != [] && (|open| == limits.pageEntries || size + bytes > limits.pageBytes)
  }

  function Pack(limits: Limits, codec: Codec, open: seq<IndexEntry>, size: nat, rows: seq<IndexEntry>)
    : Option<seq<seq<IndexEntry>>>
    decreases |rows|
  {
    if rows == [] then Some(if open == [] then [] else [open])
    else
      var bytes := codec.entryBytes(rows[0]) + 1;
      if Full(limits, open, size, bytes) then
        if PAGE_OVERHEAD + bytes > limits.pageBytes then None
        else Prepend([open], Pack(limits, codec, [rows[0]], PAGE_OVERHEAD + bytes, rows[1..]))
      else if size + bytes > limits.pageBytes then None
      else Pack(limits, codec, open + [rows[0]], size + bytes, rows[1..])
  }

  function Prepend(groups: seq<seq<IndexEntry>>, rest: Option<seq<seq<IndexEntry>>>): Option<seq<seq<IndexEntry>>> {
    if rest.None? then None else Some(groups + rest.value)
  }

  predicate Cut(groups: seq<seq<IndexEntry>>) {
    forall i :: 0 <= i < |groups| ==> groups[i] != []
  }

  function MakePage(kind: IndexKind, level: nat, group: seq<IndexEntry>): IndexPage
    requires group != []
  {
    IndexPage(kind, level, group[0].start, group[|group| - 1].end, group)
  }

  function PageRow(codec: Codec, page: IndexPage): IndexEntry {
    IndexEntry(page.start, page.end, ObjectRef(IndexFile, page.level, page.start, page.end, codec.pageBytes(page)))
  }

  /** Creates a page conditionally; replaying identical content is accepted. */
  function Put<L(==)>(store: Store<L>, limits: Limits, codec: Codec, page: IndexPage): Option<Store<L>> {
    var file := PageRow(codec, page).file;
    if codec.pageBytes(page) > limits.pageBytes || !ValidPage(page, limits)
       || (file in store && store[file] != Page(page))
    then None
    else Some(store[file := Page(page)])
  }

  function PutAll<L(==)>(store: Store<L>, kind: IndexKind, limits: Limits, codec: Codec, level: nat,
                         groups: seq<seq<IndexEntry>>): Option<Level<L>>
    requires Cut(groups)
  {
    if groups == [] then Some(Level([], store))
    else
      var n := |groups| - 1;
      var before := PutAll(store, kind, limits, codec, level, groups[..n]);
      if before.None? then None
      else
        var page := MakePage(kind, level, groups[n]);
        var after := Put(before.value.store, limits, codec, page);
        if after.None? then None else Some(Level(before.value.rows + [PageRow(codec, page)], after.value))
  }

  lemma {:induction false} PackNonempty(limits: Limits, codec: Codec, open: seq<IndexEntry>, size: nat,
                                        rows: seq<IndexEntry>)
    ensures var groups := Pack(limits, codec, open, size, rows);
            groups.Some? ==> Cut(groups.value) && Flatten(groups.value) == open + rows
    decreases |rows|
  {
    if rows == [] {
      assert open + rows == open;
      assert Flatten([open]) == open + Flatten([]);
    } else {
      var bytes := codec.entryBytes(rows[0]) + 1;
      assert open + rows == (open + [rows[0]]) + rows[1..] == open + ([rows[0]] + rows[1..]);
      if Full(limits, open, size, bytes) {
        PackNonempty(limits, codec, [rows[0]], PAGE_OVERHEAD + bytes, rows[1..]);
        var rest := Pack(limits, codec, [rows[0]], PAGE_OVERHEAD + bytes, rows[1..]);
        if rest.Some? {
          FlattenConcat([open], rest.value);
          assert Flatten([open]) == open + Flatten([]) == open;
        }
      } else {
        PackNonempty(limits, codec, open + [rows[0]], size + bytes, rows[1..]);
      }
    }
  }

  ghost function LevelSpec<L>(store: Store<L>, kind: IndexKind, limits: Limits, codec: Codec, level: nat,
                                  rows: seq<IndexEntry>): Option<Level<L>>
  {
    var groups := Pack(limits, codec, [], PAGE_OVERHEAD, rows);
    PackNonempty(limits, codec, [], PAGE_OVERHEAD, rows);
    if groups.None? then None else PutAll(store, kind, limits, codec, level, groups.value)
  }

  ghost function IndexSpec<L>(store: Store<L>, kind: IndexKind, limits: Limits, codec: Codec, level: nat,
                                  rows: seq<IndexEntry>): Option<Built<L>>
    decreases limits.indexHeight - level
  {
    if level >= limits.indexHeight then None
    else
      var built := LevelSpec(store, kind, limits, codec, level, rows);
      if built.None? || built.value.rows == [] then None
      else if |built.value.rows| == 1 then
        var row := built.value.rows[0];
        Some(Built(IndexDescriptor(level, row.start, row.end, row.file), built.value.store))
      else IndexSpec(built.value.store, kind, limits, codec, level + 1, built.value.rows)
  }

  // ----- the construction, one bounded ledger page at a time -----

  /** Rows past an exclusive range cursor, as the ordered ledger query returns them. */
  function RowsAfter(rows: seq<IndexEntry>, after: int): seq<IndexEntry> {
    if rows == [] then []
    else if rows[0].start > after then rows[..Min(SQL_PAGE, |rows|)]
    else RowsAfter(rows[1..], after)
  }

  lemma {:induction false} RowsAfterCursor(rows: seq<IndexEntry>, done: nat, from: nat, after: int)
    requires Contiguous(rows) && from <= done <= |rows|
    requires after == if done == 0 then -1 else rows[done - 1].start
    ensures RowsAfter(rows[from..], after) == rows[done..Min(done + SQL_PAGE, |rows|)]
    decreases done - from
  {
    var rest := rows[from..];
    if from < done {
      if from < done - 1 {
        ContiguousOrder(rows, from, done - 1);
      }
      assert rest[0] == rows[from] && rest[1..] == rows[from + 1..];
      RowsAfterCursor(rows, done, from + 1, after);
    } else if rest != [] {
      if 0 < done {
        assert rows[done - 1].end == rows[done].start;
      }
      assert rest[..Min(SQL_PAGE, |rest|)] == rows[done..Min(done + SQL_PAGE, |rows|)];
    }
  }

  datatype Packing<L> = Packing(entries: seq<IndexEntry>, size: nat, out: Level<L>)

  /** Loop state: groups already written, the open page, and the rows still to come. */
  ghost predicate Progress<L>(store: Store<L>, kind: IndexKind, limits: Limits, codec: Codec, level: nat,
                              rows: seq<IndexEntry>, groups: seq<seq<IndexEntry>>, p: Packing<L>, done: int)
  {
    && 0 <= done <= |rows|
    && Cut(groups)
    && Pack(limits, codec, [], PAGE_OVERHEAD, rows)
       == Prepend(groups, Pack(limits, codec, p.entries, p.size, rows[done..]))
    && PutAll(store, kind, limits, codec, level, groups) == Some(p.out)
  }

  /** Adds the rows of one SQL page in order. */
  method AddRows<L(==)>(store: Store<L>, kind: IndexKind, limits: Limits, codec: Codec, level: nat,
                        ghost rows: seq<IndexEntry>,
                        ghost groups: seq<seq<IndexEntry>>, p: Packing<L>, ghost done: nat, page: seq<IndexEntry>)
    returns (r: Result<Packing<L>, BuildError>, ghost groups2: seq<seq<IndexEntry>>)
    requires Progress(store, kind, limits, codec, level, rows, groups, p, done)
    requires done + |page| <= |rows| && page == rows[done..done + |page|]
    ensures r.Ok? ==> Progress(store, kind, limits, codec, level, rows, groups2, r.value, done + |page|)
    ensures r.Err? ==> LevelSpec(store, kind, limits, codec, level, rows).None?
  {
    var packing := p;
    groups2 := groups;
    for i := 0 to |page|
      invariant Progress(store, kind, limits, codec, level, rows, groups2, packing, done + i)
    {
      var added;
      added, groups2 := AddRow(store, kind, limits, codec, level, rows, groups2, packing, done + i, page[i]);
      if added.Err? {
        return Err(added.error), groups2;
      }
      packing := added.value;
    }
    return Ok(packing), groups2;
  }

  /** Packs one ledger level into pages, reading it in bounded SQL pages. */
  method BuildLevel<L(==)>(store: Store<L>, kind: IndexKind, limits: Limits, codec: Codec, level: nat,
                           rows: seq<IndexEntry>)
    returns (r: Result<Level<L>, BuildError>)
    requires Contiguous(rows)
    ensures r.Ok? <==> LevelSpec(store, kind, limits, codec, level, rows).Some?
    ensures r.Ok? ==> LevelSpec(store, kind, limits, codec, level, rows) == Some(r.value)
  {
    var after, done := -1, 0;
    var p := Packing([], PAGE_OVERHEAD, Level([], store));
    ghost var groups: seq<seq<IndexEntry>> := [];
    assert Progress(store, kind, limits, codec, level, rows, groups, p, 0) by {
      assert rows[0..] == rows;
      assert forall all | Pack(limits, codec, [], PAGE_OVERHEAD, rows) == Some(all) :: [] + all == all;
    }
    while true
      invariant Progress(store, kind, limits, codec, level, rows, groups, p, done)
      invariant after == if done == 0 then -1 else rows[done - 1].start
      decreases |rows| - done
    {
      var page := RowsAfter(rows, after);
      RowsAfterCursor(rows, done, 0, after);
      if page == [] {
        break;
      }
      var added;
      added, groups := AddRows(store, kind, limits, codec, level, rows, groups, p, done, page);
      if added.Err? {
        return Err(added.error);
      }
      p, done, after := added.value, done + |page|, page[|page| - 1].start;
    }
    r := FinishLevel(store, kind, limits, codec, level, rows, groups, p);
  }

  /** The last open page. */
  method FinishLevel<L(==)>(store: Store<L>, kind: IndexKind, limits: Limits, codec: Codec, level: nat,
                            ghost rows: seq<IndexEntry>, ghost groups: seq<seq<IndexEntry>>, p: Packing<L>)
    returns (r: Result<Level<L>, BuildError>)
    requires Progress(store, kind, limits, codec, level, rows, groups, p, |rows|)
    ensures r.Ok? <==> LevelSpec(store, kind, limits, codec, level, rows).Some?
    ensures r.Ok? ==> LevelSpec(store, kind, limits, codec, level, rows) == Some(r.value)
  {
    assert rows[|rows|..] == [];
    if p.entries != [] {
      var next := PutGroup(store, kind, limits, codec, level, groups, p.out, p.entries);
      return if next.None? then Err(PageRejected) else Ok(next.value);
    }
    assert groups + [] == groups;
    return Ok(p.out);
  }

  /** One row: close the open page if the row does not fit it, then add the row. */
  method AddRow<L(==)>(store: Store<L>, kind: IndexKind, limits: Limits, codec: Codec, level: nat,
                       ghost rows: seq<IndexEntry>, ghost groups: seq<seq<IndexEntry>>, p: Packing<L>, ghost done: nat,
                       entry: IndexEntry)
    returns (r: Result<Packing<L>, BuildError>, ghost closed: seq<seq<IndexEntry>>)
    requires Progress(store, kind, limits, codec, level, rows, groups, p, done)
    requires done < |rows| && entry == rows[done]
    ensures r.Err? ==> LevelSpec(store, kind, limits, codec, level, rows).None?
    ensures r.Ok? ==> Progress(store, kind, limits, codec, level, rows, closed, r.value, done + 1)
  {
    var open := p;
    closed := groups;
    var bytes := codec.entryBytes(entry) + 1;
    if Full(limits, p.entries, p.size, bytes) {
      var next := PutGroup(store, kind, limits, codec, level, groups, p.out, p.entries);
      CloseStep(store, kind, limits, codec, level, rows, groups, p, done);
      closed := groups + [p.entries];
      if next.None? {
        return Err(PageRejected), closed;
      }
      open := Packing([], PAGE_OVERHEAD, next.value);
    }
    AppendStep(store, kind, limits, codec, level, rows, closed, open, done);
    if open.size + bytes > limits.pageBytes {
      return Err(EntryTooLarge), closed;
    }
    return Ok(Packing(open.entries + [entry], open.size + bytes, open.out)), closed;
  }

  /** Closing a full page keeps the loop state, or shows that the level cannot be written. */
  lemma CloseStep<L>(store: Store<L>, kind: IndexKind, limits: Limits, codec: Codec, level: nat, rows: seq<IndexEntry>,
                     groups: seq<seq<IndexEntry>>, p: Packing<L>, done: nat)
    requires Progress(store, kind, limits, codec, level, rows, groups, p, done)
    requires done < |rows| && Full(limits, p.entries, p.size, codec.entryBytes(rows[done]) + 1)
    ensures Cut(groups + [p.entries])
    ensures var next := PutAll(store, kind, limits, codec, level, groups + [p.entries]);
            if next.None? then LevelSpec(store, kind, limits, codec, level, rows).None?
            else Progress(store, kind, limits, codec, level, rows, groups + [p.entries],
                          Packing([], PAGE_OVERHEAD, next.value), done)
  {
    var closed := groups + [p.entries];
    ClosePage(limits, codec, rows, groups, p.entries, p.size, done);
    if PutAll(store, kind, limits, codec, level, closed).None? {
      PackNonempty(limits, codec, [], PAGE_OVERHEAD, rows);
      PutAllPrefix(store, kind, limits, codec, level, closed, Pack(limits, codec, [], PAGE_OVERHEAD, rows));
    }
  }

  /** Adding a row to a page with room keeps the loop state, or shows that the row fits no page. */
  lemma AppendStep<L>(store: Store<L>, kind: IndexKind, limits: Limits, codec: Codec, level: nat,
                      rows: seq<IndexEntry>, groups: seq<seq<IndexEntry>>, p: Packing<L>, done: nat)
    requires Progress(store, kind, limits, codec, level, rows, groups, p, done)
    requires done < |rows| && !Full(limits, p.entries, p.size, codec.entryBytes(rows[done]) + 1)
    ensures var bytes := codec.entryBytes(rows[done]) + 1;
            if p.size + bytes > limits.pageBytes then LevelSpec(store, kind, limits, codec, level, rows).None?
            else Progress(store, kind, limits, codec, level, rows, groups,
                          Packing(p.entries + [rows[done]], p.size + bytes, p.out), done + 1)
  {
    PackRow(limits, codec, rows, p.entries, p.size, done);
  }

  /** What the cut does with a row that the open page has room for. */
  lemma PackRow(limits: Limits, codec: Codec, rows: seq<IndexEntry>, open: seq<IndexEntry>, size: nat, done: nat)
    requires done < |rows| && !Full(limits, open, size, codec.entryBytes(rows[done]) + 1)
    ensures var bytes := codec.entryBytes(rows[done]) + 1;
            Pack(limits, codec, open, size, rows[done..])
            == if size + bytes > limits.pageBytes then None
               else Pack(limits, codec, open + [rows[done]], size + bytes, rows[done + 1..])
  {
    assert rows[done..][0] == rows[done] && rows[done..][1..] == rows[done + 1..];
  }

  /** Closing the open page when the next row does not fit is what the cut does. */
  lemma ClosePage(limits: Limits, codec: Codec, rows: seq<IndexEntry>, groups: seq<seq<IndexEntry>>,
                  entries: seq<IndexEntry>, size: nat, done: nat)
    requires done < |rows|
    requires Full(limits, entries, size, codec.entryBytes(rows[done]) + 1)
    ensures Prepend(groups, Pack(limits, codec, entries, size, rows[done..]))
         == Prepend(groups + [entries], Pack(limits, codec, [], PAGE_OVERHEAD, rows[done..]))
  {
    var rest := Pack(limits, codec, [], PAGE_OVERHEAD, rows[done..]);
    assert [] + [rows[done]] == [rows[done]];
    if rest.Some? {
      assert groups + ([entries] + rest.value) == (groups + [entries]) + rest.value;
    }
  }

  /** Writes one more page after the groups already written. */
  method PutGroup<L(==)>(store: Store<L>, kind: IndexKind, limits: Limits, codec: Codec, level: nat,
                         ghost groups: seq<seq<IndexEntry>>, out: Level<L>, entries: seq<IndexEntry>)
    returns (next: Option<Level<L>>)
    requires entries != [] && Cut(groups)
    requires PutAll(store, kind, limits, codec, level, groups) == Some(out)
    ensures Cut(groups + [entries])
    ensures next == PutAll(store, kind, limits, codec, level, groups + [entries])
  {
    var page := MakePage(kind, level, entries);
    var put := Put(out.store, limits, codec, page);
    assert (groups + [entries])[..|groups|] == groups;
    return if put.None? then None else Some(Level(out.rows + [PageRow(codec, page)], put.value));
  }

  lemma {:induction false} PutAllPrefix<L>(store: Store<L>, kind: IndexKind, limits: Limits, codec: Codec, level: nat,
                                           prefix: seq<seq<IndexEntry>>, all: Option<seq<seq<IndexEntry>>>)
    requires Cut(prefix)
    requires PutAll(store, kind, limits, codec, level, prefix).None?
    requires all.Some? ==> prefix <= all.value && Cut(all.value)
    ensures all.Some? ==> PutAll(store, kind, limits, codec, level, all.value).None?
    decreases if all.Some? then |all.value| else 0
  {
    if all.Some? && |prefix| < |all.value| {
      PutAllPrefix(store, kind, limits, codec, level, prefix, Some(all.value[..|all.value| - 1]));
    } else if all.Some? {
      assert prefix == all.value;
    }
  }

  /** Builds levels until one page is left; that page is the root. */
  method BuildIndex<L(==)>(store: Store<L>, kind: IndexKind, limits: Limits, codec: Codec, children: seq<IndexEntry>)
    returns (r: Result<Built<L>, BuildError>)
    requires Contiguous(children)
    ensures r.Ok? <==> IndexSpec(store, kind, limits, codec, 0, children).Some?
    ensures r.Ok? ==> IndexSpec(store, kind, limits, codec, 0, children) == Some(r.value)
  {
    var rows, current := children, store;
    for level := 0 to limits.indexHeight
      invariant Contiguous(rows)
      invariant IndexSpec(current, kind, limits, codec, level, rows)
                == IndexSpec(store, kind, limits, codec, 0, children)
    {
      var built := BuildLevel(current, kind, limits, codec, level, rows);
      if built.Err? {
        return Err(built.error);
      }
      if built.value.rows == [] {
        return Err(EmptyIndex);
      }
      if |built.value.rows| == 1 {
        var row := built.value.rows[0];
        return Ok(Built(IndexDescriptor(level, row.start, row.end, row.file), built.value.store));
      }
      LevelContiguous(current, kind, limits, codec, level, rows);
      rows, current := built.value.rows, built.value.store;
    }
    return Err(TooHigh);
  }

  // ----- what a built index means -----

  /** Every group is cut within the limits, and only when the next row did not fit. */
  lemma {:induction false} PackBounds(limits: Limits, codec: Codec, open: seq<IndexEntry>, size: nat,
                                      rows: seq<IndexEntry>)
    requires Pack(limits, codec, open, size, rows).Some?
    requires |open| <= limits.pageEntries && 0 < limits.pageEntries
    requires size == PAGE_OVERHEAD + GroupBytes(codec.entryBytes, open)
    requires open != [] ==> size <= limits.pageBytes
    ensures forall g | g in Pack(limits, codec, open, size, rows).value ::
              0 < |g| <= limits.pageEntries && PAGE_OVERHEAD + GroupBytes(codec.entryBytes, g) <= limits.pageBytes
    decreases |rows|
  {
    if rows != [] {
      var bytes := codec.entryBytes(rows[0]) + 1;
      if Full(limits, open, size, bytes) {
        assert [rows[0]][..0] == [];
        PackBounds(limits, codec, [rows[0]], PAGE_OVERHEAD + bytes, rows[1..]);
      } else {
        assert (open + [rows[0]])[..|open|] == open;
        PackBounds(limits, codec, open + [rows[0]], size + bytes, rows[1..]);
      }
    }
  }

  /** A group that could not have taken the first entry of the next one. */
  ghost predicate NoRoom(limits: Limits, codec: Codec, group: seq<IndexEntry>, next: seq<IndexEntry>) {
    && next != []
    && (|group| == limits.pageEntries
        || 256 + GroupBytes(codec.entryBytes, group) + codec.entryBytes(next[0]) + 1 > limits.pageBytes)
  }

  ghost predicate Greedy(limits: Limits, codec: Codec, groups: seq<seq<IndexEntry>>) {
    forall i, j :: 0 <= i < |groups| && 0 <= j < |groups| && j == i + 1 ==> NoRoom(limits, codec, groups[i], groups[j])
  }

  lemma GreedyCons(limits: Limits, codec: Codec, group: seq<IndexEntry>, rest: seq<seq<IndexEntry>>)
    requires Greedy(limits, codec, rest) && (rest != [] ==> NoRoom(limits, codec, group, rest[0]))
    ensures Greedy(limits, codec, [group] + rest)
  {
    var groups := [group] + rest;
    forall i, j | 0 <= i < |groups| && 0 <= j < |groups| && j == i + 1
      ensures NoRoom(limits, codec, groups[i], groups[j])
    {
      assert groups[j] == rest[i];
      if i > 0 {
        assert groups[i] == rest[i - 1];
      }
    }
  }

  /** The first group starts with the entries already on the open page. */
  lemma {:induction false} PackContinues(limits: Limits, codec: Codec, open: seq<IndexEntry>, size: nat,
                                         rows: seq<IndexEntry>)
    requires Pack(limits, codec, open, size, rows).Some? && open != []
    ensures var groups := Pack(limits, codec, open, size, rows).value;
            groups != [] && groups[0] != [] && groups[0][0] == open[0]
    decreases |rows|
  {
    if rows != [] && !Full(limits, open, size, codec.entryBytes(rows[0]) + 1) {
      PackContinues(limits, codec, open + [rows[0]], size + codec.entryBytes(rows[0]) + 1, rows[1..]);
    }
  }

  /** A full page is closed, and the row opens the next one. */
  lemma PackCloses(limits: Limits, codec: Codec, open: seq<IndexEntry>, size: nat, rows: seq<IndexEntry>)
    requires rows != [] && Full(limits, open, size, codec.entryBytes(rows[0]) + 1)
    requires Pack(limits, codec, open, size, rows).Some?
    requires size == PAGE_OVERHEAD + GroupBytes(codec.entryBytes, open)
    ensures var rest := Pack(limits, codec, [rows[0]], PAGE_OVERHEAD + codec.entryBytes(rows[0]) + 1, rows[1..]);
            && rest.Some? && Pack(limits, codec, open, size, rows).value == [open] + rest.value
            && rest.value != [] && NoRoom(limits, codec, open, rest.value[0])
  {
    PackContinues(limits, codec, [rows[0]], PAGE_OVERHEAD + codec.entryBytes(rows[0]) + 1, rows[1..]);
  }

  lemma PackAppends(limits: Limits, codec: Codec, open: seq<IndexEntry>, size: nat, rows: seq<IndexEntry>)
    requires rows != [] && !Full(limits, open, size, codec.entryBytes(rows[0]) + 1)
    requires Pack(limits, codec, open, size, rows).Some?
    ensures Pack(limits, codec, open, size, rows)
         == Pack(limits, codec, open + [rows[0]], size + codec.entryBytes(rows[0]) + 1, rows[1..])
  {
  }

  lemma PackEnds(limits: Limits, codec: Codec, open: seq<IndexEntry>, size: nat)
    ensures Pack(limits, codec, open, size, []).Some?
    ensures Greedy(limits, codec, Pack(limits, codec, open, size, []).value)
  {
    assert |Pack(limits, codec, open, size, []).value| <= 1;
  }

  /** No page is closed while the next entry still fits it. */
  lemma {:induction false} PackGreedy(limits: Limits, codec: Codec, open: seq<IndexEntry>, size: nat,
                                      rows: seq<IndexEntry>)
    requires Pack(limits, codec, open, size, rows).Some?
    requires size == PAGE_OVERHEAD + GroupBytes(codec.entryBytes, open)
    ensures Greedy(limits, codec, Pack(limits, codec, open, size, rows).value)
    decreases |rows|
  {
    if rows == [] {
      PackEnds(limits, codec, open, size);
    } else if Full(limits, open, size, codec.entryBytes(rows[0]) + 1) {
      ClosedGreedy(limits, codec, open, size, rows);
    } else {
      PackAppends(limits, codec, open, size, rows);
      GroupSnoc(codec.entryBytes, open, rows[0]);
      PackGreedy(limits, codec, open + [rows[0]], size + codec.entryBytes(rows[0]) + 1, rows[1..]);
    }
  }

  lemma {:induction false} ClosedGreedy(limits: Limits, codec: Codec, open: seq<IndexEntry>, size: nat,
                                        rows: seq<IndexEntry>)
    requires rows != [] && Full(limits, open, size, codec.entryBytes(rows[0]) + 1)
    requires Pack(limits, codec, open, size, rows).Some?
    requires size == PAGE_OVERHEAD + GroupBytes(codec.entryBytes, open)
    ensures Greedy(limits, codec, Pack(limits, codec, open, size, rows).value)
    decreases |rows|, 0
  {
    var first := PAGE_OVERHEAD + codec.entryBytes(rows[0]) + 1;
    PackCloses(limits, codec, open, size, rows);
    GroupSnoc(codec.entryBytes, [], rows[0]);
    PackGreedy(limits, codec, [rows[0]], first, rows[1..]);
    GreedyCons(limits, codec, open, Pack(limits, codec, [rows[0]], first, rows[1..]).value);
  }

  lemma GroupSnoc(entryBytes: IndexEntry -> nat, group: seq<IndexEntry>, row: IndexEntry)
    ensures GroupBytes(entryBytes, group + [row]) == GroupBytes(entryBytes, group) + entryBytes(row) + 1
    ensures group == [] ==> group + [row] == [row]
  {
    assert (group + [row])[..|group|] == group;
  }

  /** The entries of a page with their separators. */
  function GroupBytes(entryBytes: IndexEntry -> nat, group: seq<IndexEntry>): nat {
    if group == [] then 0
    else GroupBytes(entryBytes, group[..|group| - 1]) + entryBytes(group[|group| - 1]) + 1
  }

  /** Writing pages over sound rows gives sound rows one level up with the same leaves. */
  lemma {:induction false} PutAllSound<L>(store: Store<L>, kind: IndexKind, limits: Limits, codec: Codec, level: nat,
                                          groups: seq<seq<IndexEntry>>)
    requires Cut(groups)
    requires Sound(store, kind, limits, level, Flatten(groups))
    requires PutAll(store, kind, limits, codec, level, groups).Some?
    ensures var out := PutAll(store, kind, limits, codec, level, groups).value;
            && Extends(store, out.store)
            && Sound(out.store, kind, limits, level + 1, out.rows)
            && Leaves(out.store, kind, limits, level + 1, out.rows)
               == Leaves(store, kind, limits, level, Flatten(groups))
  {
    if groups != [] {
      var n := |groups| - 1;
      var init, last := groups[..n], groups[n];
      assert groups == init + [last];
      FlattenAppend(init, last);
      LeavesConcat(store, kind, limits, level, Flatten(init), last);
      PutAllSound(store, kind, limits, codec, level, init);
      var before := PutAll(store, kind, limits, codec, level, init).value;
      Grow(store, before.store, kind, limits, level, last);
      AppendSound(before, kind, limits, codec, level, last);
    }
  }

  lemma AppendSound<L>(before: Level<L>, kind: IndexKind, limits: Limits, codec: Codec, level: nat,
                       group: seq<IndexEntry>)
    requires group != [] && Sound(before.store, kind, limits, level, group)
    requires Sound(before.store, kind, limits, level + 1, before.rows)
    requires Put(before.store, limits, codec, MakePage(kind, level, group)).Some?
    ensures var page := MakePage(kind, level, group);
            var after := Put(before.store, limits, codec, page).value;
            var rows := before.rows + [PageRow(codec, page)];
            && Extends(before.store, after)
            && Sound(after, kind, limits, level + 1, rows)
            && Leaves(after, kind, limits, level + 1, rows)
               == Leaves(before.store, kind, limits, level + 1, before.rows)
                 + Leaves(before.store, kind, limits, level, group)
  {
    var page := MakePage(kind, level, group);
    var after := Put(before.store, limits, codec, page).value;
    PutSound(before.store, kind, limits, codec, level, group);
    Grow(before.store, after, kind, limits, level + 1, before.rows);
    LeavesConcat(after, kind, limits, level + 1, before.rows, [PageRow(codec, page)]);
  }

  lemma PutSound<L>(store: Store<L>, kind: IndexKind, limits: Limits, codec: Codec, level: nat, group: seq<IndexEntry>)
    requires group != [] && Sound(store, kind, limits, level, group)
    requires Put(store, limits, codec, MakePage(kind, level, group)).Some?
    ensures var page := MakePage(kind, level, group);
            var after := Put(store, limits, codec, page).value;
            && Extends(store, after)
            && Sound(after, kind, limits, level + 1, [PageRow(codec, page)])
            && Leaves(after, kind, limits, level + 1, [PageRow(codec, page)])
               == Leaves(store, kind, limits, level, group)
  {
    var page := MakePage(kind, level, group);
    var row := PageRow(codec, page);
    var after := Put(store, limits, codec, page).value;
    Grow(store, after, kind, limits, level, group);
    assert Open(after, Edge(level + 1, row), kind, limits) == Some(page);
    assert SoundRow(after, kind, limits, level + 1, row);
    assert [row][1..] == [];
    var leaves := Leaves(after, kind, limits, level, group);
    assert leaves + [] == leaves;
  }

  /** The first group and the rest are contiguous, and meet. */
  lemma HeadMeetsTail(groups: seq<seq<IndexEntry>>)
    requires Cut(groups) && groups != [] && Contiguous(Flatten(groups))
    ensures var head := groups[0];
            && Contiguous(head) && Contiguous(Flatten(groups[1..]))
            && 0 <= head[0].start < head[|head| - 1].end
            && (|groups| > 1 ==> head[|head| - 1].end == groups[1][0].start)
  {
    var flat, head, tail := Flatten(groups), groups[0], Flatten(groups[1..]);
    ContiguousSlice(flat, 0, |head|);
    ContiguousSlice(flat, |head|, |flat|);
    assert flat[0..|head|] == head && flat[|head|..|flat|] == tail;
    if 1 < |head| {
      ContiguousOrder(head, 0, |head| - 1);
    }
    if 1 < |groups| {
      assert tail[0] == groups[1][0] == flat[|head|];
      assert flat[|head| - 1] == head[|head| - 1];
    }
  }

  /** Pages cut from contiguous rows are contiguous themselves. */
  lemma {:induction false} PagesContiguous(kind: IndexKind, codec: Codec, level: nat, groups: seq<seq<IndexEntry>>,
                                           rows: seq<IndexEntry>)
    requires Cut(groups)
    requires Contiguous(Flatten(groups))
    requires |rows| == |groups|
    requires forall i :: 0 <= i < |groups| ==> rows[i] == PageRow(codec, MakePage(kind, level, groups[i]))
    ensures Contiguous(rows)
    decreases |groups|
  {
    if groups != [] {
      HeadMeetsTail(groups);
      PagesContiguous(kind, codec, level, groups[1..], rows[1..]);
      forall i, j | 0 <= i < |rows| && 0 <= j < |rows| && j == i + 1
        ensures rows[i].end == rows[j].start
      {
        if 0 < i {
          assert rows[1..][i - 1].end == rows[1..][j - 1].start;
        }
      }
    }
  }

  lemma LevelContiguous<L>(store: Store<L>, kind: IndexKind, limits: Limits, codec: Codec, level: nat,
                           rows: seq<IndexEntry>)
    requires Contiguous(rows)
    requires LevelSpec(store, kind, limits, codec, level, rows).Some?
    ensures Contiguous(LevelSpec(store, kind, limits, codec, level, rows).value.rows)
  {
    PackNonempty(limits, codec, [], PAGE_OVERHEAD, rows);
    assert [] + rows == rows;
    var groups := Pack(limits, codec, [], PAGE_OVERHEAD, rows).value;
    PutAllRows(store, kind, limits, codec, level, groups);
    PagesContiguous(kind, codec, level, groups, PutAll(store, kind, limits, codec, level, groups).value.rows);
  }

  lemma {:induction false} PutAllRows<L>(store: Store<L>, kind: IndexKind, limits: Limits, codec: Codec, level: nat,
                                         groups: seq<seq<IndexEntry>>)
    requires Cut(groups)
    requires PutAll(store, kind, limits, codec, level, groups).Some?
    ensures var rows := PutAll(store, kind, limits, codec, level, groups).value.rows;
            && |rows| == |groups|
            && forall i :: 0 <= i < |groups| ==> && rows[i] == PageRow(codec, MakePage(kind, level, groups[i]))
                                                 && rows[i].file.byteCount <= limits.pageBytes
  {
    if groups != [] {
      PutAllRows(store, kind, limits, codec, level, groups[..|groups| - 1]);
    }
  }

  /** A built index is sound, its root opens, and its leaves are the children it was built from. */
  lemma {:induction false} BuiltMeansChildren<L>(store: Store<L>, kind: IndexKind, limits: Limits, codec: Codec,
                                                 level: nat, rows: seq<IndexEntry>)
    requires Contiguous(rows) && Sound(store, kind, limits, level, rows)
    requires IndexSpec(store, kind, limits, codec, level, rows).Some?
    ensures var built := IndexSpec(store, kind, limits, codec, level, rows).value;
            var page := Open(built.store, built.root, kind, limits);
            && page.Some?
            && Sound(built.store, kind, limits, built.root.level, page.value.entries)
            && Leaves(built.store, kind, limits, built.root.level, page.value.entries)
               == Leaves(store, kind, limits, level, rows)
            && built.root.file.byteCount <= limits.pageBytes
    decreases limits.indexHeight - level
  {
    LevelSound(store, kind, limits, codec, level, rows);
    var out := LevelSpec(store, kind, limits, codec, level, rows).value;
    if |out.rows| == 1 {
      assert out.rows == [out.rows[0]];
      RootOfOne(out.store, kind, limits, level, out.rows[0]);
    } else {
      BuiltMeansChildren(out.store, kind, limits, codec, level + 1, out.rows);
    }
  }

  lemma LevelSound<L>(store: Store<L>, kind: IndexKind, limits: Limits, codec: Codec, level: nat, rows: seq<IndexEntry>)
    requires Contiguous(rows) && Sound(store, kind, limits, level, rows)
    requires LevelSpec(store, kind, limits, codec, level, rows).Some?
    ensures var out := LevelSpec(store, kind, limits, codec, level, rows).value;
            && Contiguous(out.rows)
            && Sound(out.store, kind, limits, level + 1, out.rows)
            && Leaves(out.store, kind, limits, level + 1, out.rows) == Leaves(store, kind, limits, level, rows)
            && forall i :: 0 <= i < |out.rows| ==> out.rows[i].file.byteCount <= limits.pageBytes
  {
    PackNonempty(limits, codec, [], PAGE_OVERHEAD, rows);
    assert [] + rows == rows;
    var groups := Pack(limits, codec, [], PAGE_OVERHEAD, rows).value;
    PutAllSound(store, kind, limits, codec, level, groups);
    PutAllRows(store, kind, limits, codec, level, groups);
    LevelContiguous(store, kind, limits, codec, level, rows);
  }

  lemma RootOfOne<L>(store: Store<L>, kind: IndexKind, limits: Limits, level: nat, row: IndexEntry)
    requires Sound(store, kind, limits, level + 1, [row])
    ensures var page := Open(store, IndexDescriptor(level, row.start, row.end, row.file), kind, limits);
            && page.Some? && Sound(store, kind, limits, level, page.value.entries)
            && Leaves(store, kind, limits, level, page.value.entries) == Leaves(store, kind, limits, level + 1, [row])
  {
  }

  /**
    Build, then read back any sub-range: the traversal delivers exactly the
    children meeting the request, in order and once each, and it fails exactly
    when the root's heaviest chain of pages exceeds the working set.
   */
  lemma BuildThenTraverse<L>(store: Store<L>, kind: IndexKind, limits: Limits, codec: Codec, children: seq<IndexEntry>,
                             lo: int, hi: int)
    requires Contiguous(children) && Sound(store, kind, limits, 0, children)
    requires IndexSpec(store, kind, limits, codec, 0, children).Some?
    ensures var built := IndexSpec(store, kind, limits, codec, 0, children).value;
            var page := Open(built.store, built.root, kind, limits);
            var walk := WalkRoot(built.store, kind, limits, built.root, lo, hi);
            && page.Some?
            && (walk.failed <==>
                  built.root.file.byteCount
                  + Heaviest(built.store, kind, limits, built.root.level, page.value.entries, lo, hi) > WORKING_SET)
            && (!walk.failed ==> walk.entries == Select(children, lo, hi))
  {
    BuiltMeansChildren(store, kind, limits, codec, 0, children);
    var built := IndexSpec(store, kind, limits, codec, 0, children).value;
    var page := Open(built.store, built.root, kind, limits).value;
    LeavesOfLeaves(store, kind, limits, children);
    if built.root.file.byteCount <= WORKING_SET {
      WalkSelects(built.store, kind, limits, built.root.level, page.entries, built.root.file.byteCount, lo, hi);
    }
  }

  lemma {:induction false} LeavesOfLeaves<L>(store: Store<L>, kind: IndexKind, limits: Limits, rows: seq<IndexEntry>)
    ensures Leaves(store, kind, limits, 0, rows) == rows
  {
    if rows != [] {
      LeavesOfLeaves(store, kind, limits, rows[1..]);
    }
  }
}
