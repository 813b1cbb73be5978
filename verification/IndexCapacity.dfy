/**
  How large a built index is: the page estimate bounds the encoded page, a
  level is refused only for an entry that fits no page, and which limits make
  every built index readable within the traversal's working set.
 */
module IndexCapacity {
  import opened Base
  import opened IndexFormat
  import opened IndexTraversal
  import opened IndexBuilding
  import UniqueIds

  /** An encoded page holds its entries and their separators inside a short frame. */
  ghost predicate Compact(codec: Codec) {
    forall page: IndexPage | page.entries != [] ::
      var listed := GroupBytes(codec.entryBytes, page.entries);
      listed <= codec.pageBytes(page) <= PAGE_OVERHEAD + listed
  }

  ghost predicate EntriesAtMost(codec: Codec, bound: nat) {
    forall e: IndexEntry :: codec.entryBytes(e) <= bound
  }

  // ----- the encoding: compact JSON, whose lengths depend on the numbers and the alias only -----

  /** Decimal digits of a number below ten thousand million, as every stored number is. */
  function Width(n: int): nat {
    if n < 10 then 1
    else if n < 100 then 2
    else if n < 1_000 then 3
    else if n < 10_000 then 4
    else if n < 100_000 then 5
    else if n < 1_000_000 then 6
    else if n < 10_000_000 then 7
    else if n < 100_000_000 then 8
    else if n < 1_000_000_000 then 9
    else 10
  }

  /** Digits counted one by one. */
  function Digits(n: nat): nat {
    if n < 10 then 1 else 1 + Digits(n / 10)
  }

  lemma {:induction false} WidthIsDigits(n: nat)
    requires n < 10_000_000_000
    ensures Width(n) == Digits(n)
  {
    if n >= 10 {
      WidthIsDigits(n / 10);
    }
  }

  /** Field names, punctuation, digests, owner ID and fixed key parts of one entry. */
  function EntryFrame(kind: IndexKind, child: ObjectKind): nat {
    match (kind, child)
    case (DatasetBatches, LeafFile) => 351
    case (DatasetBatches, IndexFile) => 354
    case (RunChunks, LeafFile) => 349
    case (RunChunks, IndexFile) => 351
  }

  function JsonEntry(kind: IndexKind, alias: nat, e: IndexEntry): nat {
    EntryFrame(kind, e.file.kind) + alias + Width(e.start) + Width(e.end)
    + Width(e.file.level) + Width(e.file.start) + Width(e.file.end) + Width(e.file.byteCount)
  }

  function PageFrame(kind: IndexKind): nat {
    if kind == DatasetBatches then 111 else 106
  }

  /** Encoded lengths under a storage alias of the given length. */
  function Json(kind: IndexKind, alias: nat): Codec {
    var entryBytes := (e: IndexEntry) => JsonEntry(kind, alias, e);
    Codec(entryBytes,
          (page: IndexPage) => PageFrame(page.kind) + Width(page.level) + Width(page.start) + Width(page.end)
                               + GroupBytes(entryBytes, page.entries) - 1)
  }

  /** The longest storage alias an object reference may carry, and the longest entry it leads to. */
  const ALIAS_LIMIT: nat := 128
  const LARGEST_ENTRY: nat := 542

  lemma JsonIsCompact(kind: IndexKind, alias: nat)
    requires alias <= ALIAS_LIMIT
    ensures Compact(Json(kind, alias))
    ensures EntriesAtMost(Json(kind, alias), LARGEST_ENTRY)
  {
  }

  lemma {:induction false} GroupAtMost(entryBytes: IndexEntry -> nat, group: seq<IndexEntry>, bound: nat)
    requires forall e | e in group :: entryBytes(e) <= bound
    ensures GroupBytes(entryBytes, group) <= |group| * (bound + 1)
  {
    if group != [] {
      GroupAtMost(entryBytes, group[..|group| - 1], bound);
      assert |group| * (bound + 1) == (|group| - 1) * (bound + 1) + (bound + 1);
    }
  }

  lemma {:induction false} GroupAtLeast(entryBytes: IndexEntry -> nat, group: seq<IndexEntry>, bound: nat)
    requires forall e | e in group :: entryBytes(e) >= bound
    ensures GroupBytes(entryBytes, group) >= |group| * (bound + 1)
  {
    if group != [] {
      GroupAtLeast(entryBytes, group[..|group| - 1], bound);
      assert |group| * (bound + 1) == (|group| - 1) * (bound + 1) + (bound + 1);
    }
  }

  // ----- when a level can be written -----

  predicate Fits(limits: Limits, codec: Codec, rows: seq<IndexEntry>) {
    forall i :: 0 <= i < |rows| ==> PAGE_OVERHEAD + codec.entryBytes(rows[i]) + 1 <= limits.pageBytes
  }

  /** The cut gives up exactly on a row that would not fit a page of its own. */
  lemma {:induction false} PackRefuses(limits: Limits, codec: Codec, open: seq<IndexEntry>, size: nat,
                                       rows: seq<IndexEntry>)
    requires size >= PAGE_OVERHEAD && (open == [] ==> size == PAGE_OVERHEAD)
    ensures Pack(limits, codec, open, size, rows).Some? <==> Fits(limits, codec, rows)
    decreases |rows|
  {
    if rows != [] {
      var bytes := codec.entryBytes(rows[0]) + 1;
      assert Fits(limits, codec, rows) <==>
             PAGE_OVERHEAD + bytes <= limits.pageBytes && Fits(limits, codec, rows[1..]) by {
        assert rows == [rows[0]] + rows[1..];
      }
      if PAGE_OVERHEAD + bytes <= limits.pageBytes {
        PackRefuses(limits, codec, [rows[0]], PAGE_OVERHEAD + bytes, rows[1..]);
        PackRefuses(limits, codec, open + [rows[0]], size + bytes, rows[1..]);
      }
    }
  }

  /** No page the cut produces is refused for its encoded size or its entry count. */
  lemma PackedPageFits(kind: IndexKind, limits: Limits, codec: Codec, level: nat, rows: seq<IndexEntry>,
                       group: seq<IndexEntry>)
    requires Compact(codec) && 0 < limits.pageEntries
    requires Pack(limits, codec, [], PAGE_OVERHEAD, rows).Some?
    requires group in Pack(limits, codec, [], PAGE_OVERHEAD, rows).value
    ensures 0 < |group| <= limits.pageEntries
    ensures codec.pageBytes(MakePage(kind, level, group)) <= limits.pageBytes
  {
    PackBounds(limits, codec, [], PAGE_OVERHEAD, rows);
    assert MakePage(kind, level, group).entries != [];
  }

  /** No index page of this level or above has been written yet. */
  ghost predicate Fresh<L>(store: Store<L>, level: nat) {
    forall file | file in store && file.kind == IndexFile :: file.level < level
  }

  /** Pages of this level lie before the end of the rows already covered. */
  ghost predicate Covered<L>(store: Store<L>, level: nat, rows: seq<IndexEntry>) {
    forall file | file in store && file.kind == IndexFile && file.level >= level ::
      file.level == level && rows != [] && file.start < rows[|rows| - 1].end
  }

  ghost predicate Writable(kind: IndexKind, limits: Limits, codec: Codec, level: nat, group: seq<IndexEntry>) {
    0 < |group| <= limits.pageEntries && codec.pageBytes(MakePage(kind, level, group)) <= limits.pageBytes
  }

  /** Pages cut from contiguous rows land in distinct slots, so all of them can be written. */
  lemma {:induction false} PutAllSucceeds<L>(store: Store<L>, kind: IndexKind, limits: Limits, codec: Codec, level: nat,
                                             groups: seq<seq<IndexEntry>>)
    requires Cut(groups) && Contiguous(Flatten(groups)) && level < limits.indexHeight
    requires forall g | g in groups :: Writable(kind, limits, codec, level, g)
    requires Fresh(store, level)
    ensures var out := PutAll(store, kind, limits, codec, level, groups);
            out.Some? && Covered(out.value.store, level, Flatten(groups))
  {
    if groups != [] {
      var n := |groups| - 1;
      var init, last := groups[..n], groups[n];
      assert groups == init + [last];
      SplitLast(init, last);
      PutAllSucceeds(store, kind, limits, codec, level, init);
      assert Writable(kind, limits, codec, level, last);
      PutSucceeds(PutAll(store, kind, limits, codec, level, init).value.store, kind, limits, codec, level,
                  Flatten(init),
                  last);
    }
  }

  lemma SplitLast(init: seq<seq<IndexEntry>>, last: seq<IndexEntry>)
    requires Contiguous(Flatten(init + [last]))
    ensures Flatten(init + [last]) == Flatten(init) + last
    ensures Contiguous(Flatten(init)) && Contiguous(last)
  {
    FlattenAppend(init, last);
    var flat, n := Flatten(init + [last]), |Flatten(init)|;
    ContiguousSlice(flat, 0, n);
    ContiguousSlice(flat, n, |flat|);
    assert flat[0..n] == Flatten(init) && flat[n..|flat|] == last;
  }

  lemma PutSucceeds<L>(store: Store<L>, kind: IndexKind, limits: Limits, codec: Codec, level: nat,
                       before: seq<IndexEntry>, last: seq<IndexEntry>)
    requires Writable(kind, limits, codec, level, last) && level < limits.indexHeight
    requires Contiguous(before + last) && Contiguous(last)
    requires Covered(store, level, before)
    ensures var after := Put(store, limits, codec, MakePage(kind, level, last));
            after.Some? && Covered(after.value, level, before + last)
  {
    var page := MakePage(kind, level, last);
    if before != [] {
      assert (before + last)[|before| - 1].end == (before + last)[|before|].start;
    }
    if 1 < |last| {
      ContiguousOrder(last, 0, |last| - 1);
    }
    assert PageRow(codec, page).file !in store;
    assert ValidPage(page, limits);
  }

  /** A level is written exactly when every row fits a page of its own. */
  lemma LevelWritten<L>(store: Store<L>, kind: IndexKind, limits: Limits, codec: Codec, level: nat,
                        rows: seq<IndexEntry>)
    requires Compact(codec) && 0 < limits.pageEntries && level < limits.indexHeight
    requires Contiguous(rows) && Fresh(store, level)
    ensures var built := LevelSpec(store, kind, limits, codec, level, rows);
            && (built.Some? <==> Fits(limits, codec, rows))
            && (built.Some? ==> Fresh(built.value.store, level + 1))
  {
    PackRefuses(limits, codec, [], PAGE_OVERHEAD, rows);
    var groups := Pack(limits, codec, [], PAGE_OVERHEAD, rows);
    if groups.Some? {
      PackNonempty(limits, codec, [], PAGE_OVERHEAD, rows);
      assert [] + rows == rows;
      forall g | g in groups.value
        ensures Writable(kind, limits, codec, level, g)
      {
        PackedPageFits(kind, limits, codec, level, rows, g);
      }
      PutAllSucceeds(store, kind, limits, codec, level, groups.value);
    }
  }

  // ----- how heavy a built index is -----

  lemma {:induction false} HeaviestConcat<L>(store: Store<L>, kind: IndexKind, limits: Limits, level: nat,
                                             a: seq<IndexEntry>, b: seq<IndexEntry>, lo: int, hi: int)
    ensures var first := Heaviest(store, kind, limits, level, a, lo, hi);
            var second := Heaviest(store, kind, limits, level, b, lo, hi);
            Heaviest(store, kind, limits, level, a + b, lo, hi) == if first <= second then second else first
  {
    if a == [] {
      assert a + b == b;
    } else {
      assert (a + b)[1..] == a[1..] + b;
      HeaviestConcat(store, kind, limits, level, a[1..], b, lo, hi);
    }
  }

  /** Growth of the store changes no sound row's weight. */
  lemma {:induction false} HeaviestGrow<L>(old_: Store<L>, new_: Store<L>, kind: IndexKind, limits: Limits, level: nat,
                                           rows: seq<IndexEntry>, lo: int, hi: int)
    requires Extends(old_, new_) && Sound(old_, kind, limits, level, rows)
    ensures Heaviest(new_, kind, limits, level, rows, lo, hi) == Heaviest(old_, kind, limits, level, rows, lo, hi)
    decreases level, |rows|
  {
    if rows != [] {
      if level > 0 {
        HeaviestGrow(old_, new_, kind, limits, level - 1, Open(old_, Edge(level, rows[0]), kind, limits).value.entries,
                     lo, hi);
      }
      HeaviestGrow(old_, new_, kind, limits, level, rows[1..], lo, hi);
    }
  }

  lemma {:induction false} LeavesWeighNothing<L>(store: Store<L>, kind: IndexKind, limits: Limits,
                                                 rows: seq<IndexEntry>, lo: int, hi: int)
    ensures Heaviest(store, kind, limits, 0, rows, lo, hi) == 0
  {
    if rows != [] {
      LeavesWeighNothing(store, kind, limits, rows[1..], lo, hi);
    }
  }

  /** Every page that can be written is within the bound. */
  ghost predicate PagesAtMost(limits: Limits, codec: Codec, bound: nat) {
    forall page | ValidPage(page, limits) && codec.pageBytes(page) <= limits.pageBytes :: codec.pageBytes(page) <= bound
  }

  /** One written page adds at most its own bound to what hangs below it. */
  lemma PutWeight<L>(before: Level<L>, kind: IndexKind, limits: Limits, codec: Codec, level: nat,
                     group: seq<IndexEntry>, bound: nat, lo: int, hi: int)
    requires group != [] && Sound(before.store, kind, limits, level, group)
    requires Sound(before.store, kind, limits, level + 1, before.rows)
    requires Put(before.store, limits, codec, MakePage(kind, level, group)).Some?
    requires PagesAtMost(limits, codec, bound)
    ensures var page := MakePage(kind, level, group);
            var after := Put(before.store, limits, codec, page).value;
            var above := Heaviest(before.store, kind, limits, level + 1, before.rows, lo, hi);
            var rows := before.rows + [PageRow(codec, page)];
            Heaviest(after, kind, limits, level + 1, rows, lo, hi) <= above
            || Heaviest(after, kind, limits, level + 1, rows, lo, hi)
               <= bound + Heaviest(before.store, kind, limits, level, group, lo, hi)
  {
    var page := MakePage(kind, level, group);
    var row := PageRow(codec, page);
    var after := Put(before.store, limits, codec, page).value;
    HeaviestGrow(before.store, after, kind, limits, level + 1, before.rows, lo, hi);
    HeaviestGrow(before.store, after, kind, limits, level, group, lo, hi);
    HeaviestConcat(after, kind, limits, level + 1, before.rows, [row], lo, hi);
    assert [row][1..] == [];
  }

  /** One level of pages adds at most one page to the heaviest chain. */
  lemma {:induction false} PutAllWeight<L>(store: Store<L>, kind: IndexKind, limits: Limits, codec: Codec, level: nat,
                                           groups: seq<seq<IndexEntry>>, bound: nat, lo: int, hi: int)
    requires Cut(groups) && Sound(store, kind, limits, level, Flatten(groups))
    requires PutAll(store, kind, limits, codec, level, groups).Some?
    requires PagesAtMost(limits, codec, bound)
    ensures var out := PutAll(store, kind, limits, codec, level, groups).value;
            Heaviest(out.store, kind, limits, level + 1, out.rows, lo, hi)
            <= bound + Heaviest(store, kind, limits, level, Flatten(groups), lo, hi)
  {
    if groups != [] {
      var n := |groups| - 1;
      var init, last := groups[..n], groups[n];
      assert groups == init + [last];
      FlattenAppend(init, last);
      LeavesConcat(store, kind, limits, level, Flatten(init), last);
      HeaviestConcat(store, kind, limits, level, Flatten(init), last, lo, hi);
      PutAllSound(store, kind, limits, codec, level, init);
      PutAllWeight(store, kind, limits, codec, level, init, bound, lo, hi);
      var before := PutAll(store, kind, limits, codec, level, init).value;
      Grow(store, before.store, kind, limits, level, last);
      HeaviestGrow(store, before.store, kind, limits, level, last, lo, hi);
      PutWeight(before, kind, limits, codec, level, last, bound, lo, hi);
    }
  }

  /** A level with one page opens to its own rows. */
  lemma OnePage<L>(store: Store<L>, kind: IndexKind, limits: Limits, codec: Codec, level: nat, rows: seq<IndexEntry>)
    requires LevelSpec(store, kind, limits, codec, level, rows).Some?
    requires |LevelSpec(store, kind, limits, codec, level, rows).value.rows| == 1
    ensures var out := LevelSpec(store, kind, limits, codec, level, rows).value;
            var row := out.rows[0];
            && Open(out.store, IndexDescriptor(level, row.start, row.end, row.file), kind, limits)
               == Some(MakePage(kind, level, rows))
            && row.file.byteCount == codec.pageBytes(MakePage(kind, level, rows)) <= limits.pageBytes
            && ValidPage(MakePage(kind, level, rows), limits)
  {
    PackNonempty(limits, codec, [], PAGE_OVERHEAD, rows);
    var groups := Pack(limits, codec, [], PAGE_OVERHEAD, rows).value;
    PutAllRows(store, kind, limits, codec, level, groups);
    assert groups == [groups[0]];
    assert Flatten(groups) == groups[0] + Flatten([]) == groups[0] == rows;
    assert groups[..0] == [];
  }

  /** What one written level weighs, both as children of another level and as a root. */
  lemma LevelWeight<L>(store: Store<L>, kind: IndexKind, limits: Limits, codec: Codec, level: nat,
                       rows: seq<IndexEntry>, bound: nat, lo: int, hi: int)
    requires Contiguous(rows) && Sound(store, kind, limits, level, rows)
    requires LevelSpec(store, kind, limits, codec, level, rows).Some?
    requires PagesAtMost(limits, codec, bound)
    ensures var out := LevelSpec(store, kind, limits, codec, level, rows).value;
            var below := Heaviest(store, kind, limits, level, rows, lo, hi);
            && Heaviest(out.store, kind, limits, level + 1, out.rows, lo, hi) <= bound + below
            && (|out.rows| == 1 ==>
                  var row := out.rows[0];
                  var page := Open(out.store, IndexDescriptor(level, row.start, row.end, row.file), kind, limits);
                  && page.Some? && row.file.byteCount <= bound
                  && Heaviest(out.store, kind, limits, level, page.value.entries, lo, hi) == below)
  {
    PackNonempty(limits, codec, [], PAGE_OVERHEAD, rows);
    assert [] + rows == rows;
    var groups := Pack(limits, codec, [], PAGE_OVERHEAD, rows).value;
    PutAllWeight(store, kind, limits, codec, level, groups, bound, lo, hi);
    var out := LevelSpec(store, kind, limits, codec, level, rows).value;
    if |out.rows| == 1 {
      PutAllSound(store, kind, limits, codec, level, groups);
      OnePage(store, kind, limits, codec, level, rows);
      HeaviestGrow(store, out.store, kind, limits, level, rows, lo, hi);
    }
  }

  /** The root and the heaviest chain below it weigh at most one bounded page per level. */
  lemma {:induction false} BuiltWeight<L>(store: Store<L>, kind: IndexKind, limits: Limits, codec: Codec, level: nat,
                                          rows: seq<IndexEntry>, bound: nat, lo: int, hi: int)
    requires Contiguous(rows) && Sound(store, kind, limits, level, rows)
    requires IndexSpec(store, kind, limits, codec, level, rows).Some?
    requires PagesAtMost(limits, codec, bound)
    ensures var built := IndexSpec(store, kind, limits, codec, level, rows).value;
            var page := Open(built.store, built.root, kind, limits);
            && level <= built.root.level < limits.indexHeight && page.Some?
            && built.root.file.byteCount
               + Heaviest(built.store, kind, limits, built.root.level, page.value.entries, lo, hi)
               <= (built.root.level - level + 1) * bound + Heaviest(store, kind, limits, level, rows, lo, hi)
    decreases limits.indexHeight - level
  {
    LevelSound(store, kind, limits, codec, level, rows);
    LevelWeight(store, kind, limits, codec, level, rows, bound, lo, hi);
    var out := LevelSpec(store, kind, limits, codec, level, rows).value;
    if |out.rows| != 1 {
      BuiltWeight(out.store, kind, limits, codec, level + 1, out.rows, bound, lo, hi);
      var built := IndexSpec(store, kind, limits, codec, level, rows).value;
      var entries := Open(built.store, built.root, kind, limits).value.entries;
      var total := built.root.file.byteCount
                   + Heaviest(built.store, kind, limits, built.root.level, entries, lo, hi);
      OneLevelMore(built.root.level - level, bound, total,
                   Heaviest(out.store, kind, limits, level + 1, out.rows, lo, hi),
                   Heaviest(store, kind, limits, level, rows, lo, hi));
    }
  }

  lemma OneLevelMore(k: nat, bound: nat, total: nat, mid: nat, below: nat)
    requires total <= k * bound + mid && mid <= bound + below
    ensures total <= (k + 1) * bound + below
  {
  }

  lemma Distribute(k: nat, size: nat)
    ensures (k + 1) * size == k * size + size
  {
  }

  /** A root of level k is readable whenever k + 1 of the largest pages fit the working set. */
  lemma Readable<L>(store: Store<L>, kind: IndexKind, limits: Limits, codec: Codec, children: seq<IndexEntry>,
                    built: Built<L>, bound: nat, lo: int, hi: int)
    requires Contiguous(children) && Sound(store, kind, limits, 0, children)
    requires IndexSpec(store, kind, limits, codec, 0, children) == Some(built)
    requires PagesAtMost(limits, codec, bound) && (built.root.level + 1) * bound <= WORKING_SET
    ensures WalkRoot(built.store, kind, limits, built.root, lo, hi) == Walk(Select(children, lo, hi), false)
  {
    BuildThenTraverse(store, kind, limits, codec, children, lo, hi);
    BuiltWeight(store, kind, limits, codec, 0, children, bound, lo, hi);
    LeavesWeighNothing(store, kind, limits, children, lo, hi);
  }

  /** Readability from the page byte limit alone. */
  lemma ReadableWithinHeight<L>(store: Store<L>, kind: IndexKind, limits: Limits, codec: Codec,
                                children: seq<IndexEntry>, built: Built<L>, lo: int, hi: int)
    requires Contiguous(children) && Sound(store, kind, limits, 0, children)
    requires IndexSpec(store, kind, limits, codec, 0, children) == Some(built)
    requires (built.root.level + 1) * limits.pageBytes <= WORKING_SET
    ensures WalkRoot(built.store, kind, limits, built.root, lo, hi) == Walk(Select(children, lo, hi), false)
  {
    Readable(store, kind, limits, codec, children, built, limits.pageBytes, lo, hi);
  }

  /** Readability from the entry count limit and the largest entry. */
  lemma ReadableByEntries<L>(store: Store<L>, kind: IndexKind, limits: Limits, codec: Codec,
                             children: seq<IndexEntry>, built: Built<L>, largest: nat, lo: int, hi: int)
    requires Compact(codec) && EntriesAtMost(codec, largest)
    requires Contiguous(children) && Sound(store, kind, limits, 0, children)
    requires IndexSpec(store, kind, limits, codec, 0, children) == Some(built)
    requires (built.root.level + 1) * (PAGE_OVERHEAD + limits.pageEntries * (largest + 1)) <= WORKING_SET
    ensures WalkRoot(built.store, kind, limits, built.root, lo, hi) == Walk(Select(children, lo, hi), false)
  {
    var bound := PAGE_OVERHEAD + limits.pageEntries * (largest + 1);
    forall page | ValidPage(page, limits)
      ensures codec.pageBytes(page) <= bound
    {
      GroupAtMost(codec.entryBytes, page.entries, largest);
      ProductGrows(|page.entries|, limits.pageEntries, largest + 1);
    }
    Readable(store, kind, limits, codec, children, built, bound, lo, hi);
  }

  lemma ProductGrows(a: nat, b: nat, size: nat)
    requires a <= b
    ensures a * size <= b * size
  {
  }

  /** The default limits: pages of at most 1 MiB and 256 entries, at most eight levels. */
  const DEFAULTS := Limits(MIB, 256, 8)

  /** At the default limits every index that is built can be read in every range. */
  lemma DefaultsReadable<L>(store: Store<L>, kind: IndexKind, alias: nat, children: seq<IndexEntry>, built: Built<L>,
                            lo: int, hi: int)
    requires alias <= ALIAS_LIMIT
    requires Contiguous(children) && Sound(store, kind, DEFAULTS, 0, children)
    requires IndexSpec(store, kind, DEFAULTS, Json(kind, alias), 0, children) == Some(built)
    ensures WalkRoot(built.store, kind, DEFAULTS, built.root, lo, hi) == Walk(Select(children, lo, hi), false)
  {
    JsonIsCompact(kind, alias);
    ReadableAtDefaults(store, kind, Json(kind, alias), children, built, lo, hi);
  }

  lemma ReadableAtDefaults<L>(store: Store<L>, kind: IndexKind, codec: Codec, children: seq<IndexEntry>,
                              built: Built<L>, lo: int, hi: int)
    requires Compact(codec) && EntriesAtMost(codec, LARGEST_ENTRY)
    requires Contiguous(children) && Sound(store, kind, DEFAULTS, 0, children)
    requires IndexSpec(store, kind, DEFAULTS, codec, 0, children) == Some(built)
    ensures WalkRoot(built.store, kind, DEFAULTS, built.root, lo, hi) == Walk(Select(children, lo, hi), false)
  {
    BuiltLevel(store, kind, DEFAULTS, codec, 0, children);
    DefaultRoom(built.root.level);
    ReadableByEntries(store, kind, DEFAULTS, codec, children, built, LARGEST_ENTRY, lo, hi);
  }

  lemma DefaultRoom(level: nat)
    requires level < DEFAULTS.indexHeight
    ensures (level + 1) * (PAGE_OVERHEAD + DEFAULTS.pageEntries * (LARGEST_ENTRY + 1)) <= WORKING_SET
  {
  }

  lemma {:induction false} BuiltLevel<L>(store: Store<L>, kind: IndexKind, limits: Limits, codec: Codec, level: nat,
                                         rows: seq<IndexEntry>)
    requires IndexSpec(store, kind, limits, codec, level, rows).Some?
    ensures level <= IndexSpec(store, kind, limits, codec, level, rows).value.root.level < limits.indexHeight
    decreases limits.indexHeight - level
  {
    var out := LevelSpec(store, kind, limits, codec, level, rows).value;
    if |out.rows| != 1 {
      BuiltLevel(out.store, kind, limits, codec, level + 1, out.rows);
    }
  }

  // ----- limits that admit an index no reader can hold -----

  /** Rows cut into pages of n, the last one possibly shorter. */
  function Chunks(rows: seq<IndexEntry>, n: nat): seq<seq<IndexEntry>>
    requires n > 0
    decreases |rows|
  {
    if rows == [] then []
    else if |rows| <= n then [rows]
    else [rows[..n]] + Chunks(rows[n..], n)
  }

  /** When a full page of the largest entries fits, pages are cut by count alone. */
  lemma {:induction false} CutByCount(limits: Limits, codec: Codec, open: seq<IndexEntry>, size: nat,
                                      rows: seq<IndexEntry>, largest: nat)
    requires 0 < limits.pageEntries && EntriesAtMost(codec, largest)
    requires PAGE_OVERHEAD + limits.pageEntries * (largest + 1) <= limits.pageBytes
    requires |open| <= limits.pageEntries && size <= PAGE_OVERHEAD + |open| * (largest + 1)
    ensures Pack(limits, codec, open, size, rows) == Some(Chunks(open + rows, limits.pageEntries))
    decreases |rows|
  {
    var n := limits.pageEntries;
    if rows == [] {
      assert open + rows == open;
    } else {
      var bytes := codec.entryBytes(rows[0]) + 1;
      assert (open + [rows[0]]) + rows[1..] == open + rows;
      assert [rows[0]] + rows[1..] == rows;
      if |open| == n {
        ProductGrows(1, n, largest + 1);
        CutByCount(limits, codec, [rows[0]], PAGE_OVERHEAD + bytes, rows[1..], largest);
        assert (open + rows)[..n] == open && (open + rows)[n..] == rows;
      } else {
        Distribute(|open|, largest + 1);
        ProductGrows(|open| + 1, n, largest + 1);
        CutByCount(limits, codec, open + [rows[0]], size + bytes, rows[1..], largest);
      }
    }
  }

  lemma {:induction false} ChunkAt(rows: seq<IndexEntry>, n: nat, k: nat, i: nat)
    requires n > 0 && |rows| == k * n && i < k
    ensures |Chunks(rows, n)| == k
    ensures 0 <= i * n <= (i + 1) * n <= |rows|
    ensures Chunks(rows, n)[i] == rows[i * n..(i + 1) * n]
    decreases k
  {
    Distribute(i, n);
    Distribute(k - 1, n);
    ProductGrows(i + 1, k, n);
    if k == 1 {
      assert rows[0..n] == rows;
    } else {
      ProductGrows(1, k - 1, n);
      ChunkAt(rows[n..], n, k - 1, if i == 0 then 0 else i - 1);
      if i > 0 {
        Distribute(i - 1, n);
        SliceOfRest(rows, n, (i - 1) * n, i * n);
      }
    }
  }

  lemma SliceOfRest(rows: seq<IndexEntry>, n: nat, lo: nat, hi: nat)
    requires lo <= hi && n + hi <= |rows|
    ensures rows[n..][lo..hi] == rows[n + lo..n + hi]
  {
  }

  ghost predicate Roomy(limits: Limits, codec: Codec, largest: nat) {
    && Compact(codec) && EntriesAtMost(codec, largest)
    && 0 < limits.pageEntries && PAGE_OVERHEAD + limits.pageEntries * (largest + 1) <= limits.pageBytes
  }

  ghost predicate PagesOf(kind: IndexKind, codec: Codec, level: nat, groups: seq<seq<IndexEntry>>,
                          rows: seq<IndexEntry>)
  {
    && Cut(groups) && |rows| == |groups|
    && forall i :: 0 <= i < |groups| ==> rows[i] == PageRow(codec, MakePage(kind, level, groups[i]))
  }

  /** With room for a full page, every level is written, one page for each n rows. */
  lemma LevelByCount<L>(store: Store<L>, kind: IndexKind, limits: Limits, codec: Codec, level: nat,
                        rows: seq<IndexEntry>, largest: nat)
    requires Roomy(limits, codec, largest) && level < limits.indexHeight
    requires Contiguous(rows) && Fresh(store, level)
    ensures var built := LevelSpec(store, kind, limits, codec, level, rows);
            var groups := Chunks(rows, limits.pageEntries);
            && built.Some? && PagesOf(kind, codec, level, groups, built.value.rows)
            && Fresh(built.value.store, level + 1) && Contiguous(built.value.rows)
  {
    CutByCount(limits, codec, [], PAGE_OVERHEAD, rows, largest);
    assert [] + rows == rows;
    ProductGrows(1, limits.pageEntries, largest + 1);
    assert Fits(limits, codec, rows);
    LevelWritten(store, kind, limits, codec, level, rows);
    LevelContiguous(store, kind, limits, codec, level, rows);
    LevelPages(store, kind, limits, codec, level, rows, Chunks(rows, limits.pageEntries));
  }

  lemma LevelPages<L>(store: Store<L>, kind: IndexKind, limits: Limits, codec: Codec, level: nat, rows: seq<IndexEntry>,
                      groups: seq<seq<IndexEntry>>)
    requires Pack(limits, codec, [], PAGE_OVERHEAD, rows) == Some(groups)
    requires LevelSpec(store, kind, limits, codec, level, rows).Some?
    ensures PagesOf(kind, codec, level, groups, LevelSpec(store, kind, limits, codec, level, rows).value.rows)
  {
    PackNonempty(limits, codec, [], PAGE_OVERHEAD, rows);
    PutAllRows(store, kind, limits, codec, level, groups);
  }

  /** k full pages of children make an index of two levels with exactly these pages. */
  lemma TwoLevels<L>(store: Store<L>, kind: IndexKind, limits: Limits, codec: Codec, children: seq<IndexEntry>,
                     largest: nat, k: nat)
    requires Roomy(limits, codec, largest) && 2 <= limits.indexHeight
    requires Contiguous(children) && Fresh(store, 0)
    requires 2 <= k <= limits.pageEntries && |children| == k * limits.pageEntries
    ensures var built := IndexSpec(store, kind, limits, codec, 0, children);
            && built.Some? && built.value.root.level == 1
            && var page := Open(built.value.store, built.value.root, kind, limits);
               && page.Some? && built.value.root.file.byteCount == codec.pageBytes(page.value)
               && TwoLevelRoot(kind, limits, codec, children, page.value.entries, k)
  {
    LevelByCount(store, kind, limits, codec, 0, children, largest);
    var first := LevelSpec(store, kind, limits, codec, 0, children).value;
    ChunkRows(kind, limits, codec, children, first.rows, k);
    RootLevel(first.store, kind, limits, codec, 1, first.rows, largest);
  }

  /** Rows that fit one page end the construction. */
  lemma RootLevel<L>(store: Store<L>, kind: IndexKind, limits: Limits, codec: Codec, level: nat, rows: seq<IndexEntry>,
                     largest: nat)
    requires Roomy(limits, codec, largest) && level < limits.indexHeight
    requires Contiguous(rows) && Fresh(store, level) && 0 < |rows| <= limits.pageEntries
    ensures var built := IndexSpec(store, kind, limits, codec, level, rows);
            && built.Some? && built.value.root.level == level
            && built.value.root.file.byteCount == codec.pageBytes(MakePage(kind, level, rows))
            && Open(built.value.store, built.value.root, kind, limits) == Some(MakePage(kind, level, rows))
  {
    LevelByCount(store, kind, limits, codec, level, rows, largest);
    OnePage(store, kind, limits, codec, level, rows);
  }

  lemma ChunkRows(kind: IndexKind, limits: Limits, codec: Codec, children: seq<IndexEntry>, rows: seq<IndexEntry>,
                  k: nat)
    requires 0 < k && 0 < limits.pageEntries && |children| == k * limits.pageEntries
    requires PagesOf(kind, codec, 0, Chunks(children, limits.pageEntries), rows)
    ensures TwoLevelRoot(kind, limits, codec, children, rows, k)
  {
    var n := limits.pageEntries;
    ChunkAt(children, n, k, 0);
    forall i | 0 <= i < k
      ensures RowOfPage(kind, limits, codec, children, rows, i)
    {
      ChunkAt(children, n, k, i);
      Distribute(i, n);
    }
  }

  /** Row i of the root names the page of children i * n up to (i + 1) * n. */
  ghost predicate TwoLevelRoot(kind: IndexKind, limits: Limits, codec: Codec, children: seq<IndexEntry>,
                               rows: seq<IndexEntry>, k: nat)
  {
    |rows| == k && forall i :: 0 <= i < k ==> RowOfPage(kind, limits, codec, children, rows, i)
  }

  ghost predicate RowOfPage(kind: IndexKind, limits: Limits, codec: Codec, children: seq<IndexEntry>,
                            rows: seq<IndexEntry>, i: nat)
  {
    var n := limits.pageEntries;
    && i < |rows| && i * n < (i + 1) * n <= |children|
    && rows[i] == PageRow(codec, MakePage(kind, 0, children[i * n..(i + 1) * n]))
  }

  lemma {:induction false} HeaviestAt<L>(store: Store<L>, kind: IndexKind, limits: Limits, level: nat,
                                         rows: seq<IndexEntry>, i: nat, lo: int, hi: int)
    requires i < |rows|
    ensures Heaviest(store, kind, limits, level, rows, lo, hi)
         >= HeaviestRow(store, kind, limits, level, rows[i], lo, hi)
  {
    if i > 0 {
      HeaviestAt(store, kind, limits, level, rows[1..], i - 1, lo, hi);
    }
  }

  /** A root and one of its pages that together pass the working set fail every request meeting that page. */
  lemma TooHeavy<L>(store: Store<L>, kind: IndexKind, limits: Limits, codec: Codec, children: seq<IndexEntry>,
                    built: Built<L>, rows: seq<IndexEntry>, i: nat, lo: int, hi: int)
    requires Contiguous(children) && Sound(store, kind, limits, 0, children)
    requires IndexSpec(store, kind, limits, codec, 0, children) == Some(built) && built.root.level == 1
    requires Open(built.store, built.root, kind, limits).Some?
    requires rows == Open(built.store, built.root, kind, limits).value.entries
    requires i < |rows| && Overlaps(rows[i], lo, hi)
    requires built.root.file.byteCount + rows[i].file.byteCount > WORKING_SET
    ensures WalkRoot(built.store, kind, limits, built.root, lo, hi).failed
  {
    BuiltMeansChildren(store, kind, limits, codec, 0, children);
    BuildThenTraverse(store, kind, limits, codec, children, lo, hi);
    SoundAt(built.store, kind, limits, 1, rows, i);
    HeaviestAt(built.store, kind, limits, 1, rows, i, lo, hi);
  }

  lemma {:induction false} SoundAt<L>(store: Store<L>, kind: IndexKind, limits: Limits, level: nat,
                                      rows: seq<IndexEntry>, i: nat)
    requires Sound(store, kind, limits, level, rows) && i < |rows|
    ensures SoundRow(store, kind, limits, level, rows[i])
  {
    if i > 0 {
      SoundAt(store, kind, limits, level, rows[1..], i - 1);
    }
  }

  lemma {:induction false} GroupConcat(entryBytes: IndexEntry -> nat, a: seq<IndexEntry>, b: seq<IndexEntry>)
    ensures GroupBytes(entryBytes, a + b) == GroupBytes(entryBytes, a) + GroupBytes(entryBytes, b)
    decreases |b|
  {
    if b == [] {
      assert a + b == a;
    } else {
      assert (a + b)[..|a + b| - 1] == a + b[..|b| - 1];
      GroupConcat(entryBytes, a, b[..|b| - 1]);
    }
  }

  /** The widest limits that are accepted, and a dataset of one-case batches under the longest alias. */
  const WIDEST := Limits(8 * MIB, 4096, 8)
  const BATCHES: nat := 4096 * 4096

  ghost predicate OneCaseBatches(children: seq<IndexEntry>) {
    && |children| == BATCHES
    && forall i :: 0 <= i < BATCHES ==> OneCase(children[i], i)
  }

  /** Batch i holds case i in at least a hundred bytes. */
  predicate OneCase(e: IndexEntry, i: nat) {
    && e.start == i && e.end == i + 1
    && e.file.kind == LeafFile && e.file.level == 0 && e.file.start == e.start && e.file.end == e.end
    && e.file.byteCount >= 100
  }

  /**
    What preparing one-case batches charges at most: a record and its newline,
    which the batch file holds beside its header, the ID, and the ID's copy
    while duplicates are sought.
   */
  function PreparationCharge(children: seq<IndexEntry>): nat {
    if children == [] then 0
    else
      var n := |children| - 1;
      PreparationCharge(children[..n]) + children[n].file.byteCount + 2 * UniqueIds.ID_BYTES
  }

  lemma {:induction false} ChargeAtMost(children: seq<IndexEntry>, bytes: nat)
    requires forall i :: 0 <= i < |children| ==> children[i].file.byteCount <= bytes
    ensures PreparationCharge(children) <= |children| * (bytes + 2 * UniqueIds.ID_BYTES)
  {
    if children != [] {
      var n := |children| - 1;
      ChargeAtMost(children[..n], bytes);
      Distribute(n, bytes + 2 * UniqueIds.ID_BYTES);
    }
  }

  /** Batches of at most 480 bytes pass preparation: the cap on its working files holds all of them. */
  lemma OneCaseBatchesPrepare(children: seq<IndexEntry>)
    requires OneCaseBatches(children) && forall i :: 0 <= i < BATCHES ==> children[i].file.byteCount <= 480
    ensures PreparationCharge(children) <= UniqueIds.SPOOL_CAP && children[|children| - 1].end <= I32_MAX
  {
    LastOrdinal(children);
    ChargeAtMost(children, 480);
    var n := |children|;
    assert 480 + 2 * UniqueIds.ID_BYTES == 512;
    assert n * 512 <= UniqueIds.SPOOL_CAP;
  }

  lemma LastOrdinal(children: seq<IndexEntry>)
    requires OneCaseBatches(children)
    ensures |children| == 16_777_216 && children[|children| - 1].end == |children|
  {
    assert OneCase(children[|children| - 1], |children| - 1);
  }

  /** Page i of the first level weighs at least this much; the last page more. */
  lemma BatchPageWeight(children: seq<IndexEntry>, i: nat)
    requires OneCaseBatches(children) && i < 4096
    ensures var page := children[i * 4096..(i + 1) * 4096];
            var listed := GroupBytes(Json(DatasetBatches, ALIAS_LIMIT).entryBytes, page);
            && listed >= 4096 * 488
            && (i == 4095 ==> listed >= 4096 * 516)
  {
    var codec := Json(DatasetBatches, ALIAS_LIMIT);
    var page := children[i * 4096..(i + 1) * 4096];
    forall e | e in page
      ensures codec.entryBytes(e) >= if i == 4095 then 515 else 487
    {
      var k :| 0 <= k < |page| && page[k] == e;
      assert OneCase(children[i * 4096 + k], i * 4096 + k);
    }
    GroupAtLeast(codec.entryBytes, page, if i == 4095 then 515 else 487);
  }

  /** The first row of the root whose range starts with eight digits. */
  const WIDE_ROW: nat := 2442

  /** Every row of the root names a page of more than a million bytes, so it takes at least 500 bytes itself. */
  lemma RootRowWeight(children: seq<IndexEntry>, rows: seq<IndexEntry>, i: nat)
    requires OneCaseBatches(children) && i < 4096
    requires TwoLevelRoot(DatasetBatches, WIDEST, Json(DatasetBatches, ALIAS_LIMIT), children, rows, 4096)
    ensures Json(DatasetBatches, ALIAS_LIMIT).entryBytes(rows[i]) >= if i < WIDE_ROW then 500 else 522
    ensures rows[i].start == 4096 * i && rows[i].end == 4096 * i + 4096
    ensures i == 4095 ==> rows[i].file.byteCount >= 4096 * 516
  {
    var codec := Json(DatasetBatches, ALIAS_LIMIT);
    assert RowOfPage(DatasetBatches, WIDEST, codec, children, rows, i);
    BatchPageWeight(children, i);
    JsonIsCompact(DatasetBatches, ALIAS_LIMIT);
    var page := children[i * 4096..(i + 1) * 4096];
    assert OneCase(children[i * 4096], i * 4096) && OneCase(children[i * 4096 + 4095], i * 4096 + 4095);
    assert page[0] == children[i * 4096] && page[4095] == children[i * 4096 + 4095];
    assert rows[i].file.byteCount >= 4096 * 488;
  }

  lemma RootWeight(children: seq<IndexEntry>, rows: seq<IndexEntry>)
    requires OneCaseBatches(children)
    requires TwoLevelRoot(DatasetBatches, WIDEST, Json(DatasetBatches, ALIAS_LIMIT), children, rows, 4096)
    ensures GroupBytes(Json(DatasetBatches, ALIAS_LIMIT).entryBytes, rows)
         >= WIDE_ROW * 501 + (4096 - WIDE_ROW) * 523
  {
    var codec := Json(DatasetBatches, ALIAS_LIMIT);
    RowsWeight(children, rows, 0, WIDE_ROW, 500);
    RowsWeight(children, rows, WIDE_ROW, 4096, 522);
    assert rows == rows[0..WIDE_ROW] + rows[WIDE_ROW..4096];
    GroupConcat(codec.entryBytes, rows[0..WIDE_ROW], rows[WIDE_ROW..4096]);
  }

  lemma RowsWeight(children: seq<IndexEntry>, rows: seq<IndexEntry>, from: nat, to: nat, bound: nat)
    requires OneCaseBatches(children) && from <= to <= 4096
    requires TwoLevelRoot(DatasetBatches, WIDEST, Json(DatasetBatches, ALIAS_LIMIT), children, rows, 4096)
    requires bound <= 500 || (from >= WIDE_ROW && bound <= 522)
    ensures GroupBytes(Json(DatasetBatches, ALIAS_LIMIT).entryBytes, rows[from..to]) >= (to - from) * (bound + 1)
  {
    var codec, part := Json(DatasetBatches, ALIAS_LIMIT), rows[from..to];
    forall e | e in part
      ensures codec.entryBytes(e) >= bound
    {
      var k :| 0 <= k < |part| && part[k] == e;
      RootRowWeight(children, rows, from + k);
    }
    GroupAtLeast(codec.entryBytes, part, bound);
  }

  /**
    The widest accepted limits admit an index that cannot be read back: sixteen
    million batches of one case under the longest alias make a root and a last
    page of more than 4 MiB together, so no request reaching the last page
    succeeds.
   */
  lemma BuiltButUnreadable<L>(store: Store<L>, children: seq<IndexEntry>, lo: int, hi: int)
    requires OneCaseBatches(children)
    requires Sound(store, DatasetBatches, WIDEST, 0, children) && Fresh(store, 0)
    requires lo < 16_777_216 && 16_773_120 < hi
    ensures var built := IndexSpec(store, DatasetBatches, WIDEST, Json(DatasetBatches, ALIAS_LIMIT), 0, children);
            && built.Some?
            && WalkRoot(built.value.store, DatasetBatches, WIDEST, built.value.root, lo, hi).failed
  {
    var codec := Json(DatasetBatches, ALIAS_LIMIT);
    JsonIsCompact(DatasetBatches, ALIAS_LIMIT);
    BatchesContiguous(children);
    TwoLevels(store, DatasetBatches, WIDEST, codec, children, LARGEST_ENTRY, 4096);
    var built := IndexSpec(store, DatasetBatches, WIDEST, codec, 0, children).value;
    var rows := Open(built.store, built.root, DatasetBatches, WIDEST).value.entries;
    RootWeight(children, rows);
    RootRowWeight(children, rows, 4095);
    TooHeavy(store, DatasetBatches, WIDEST, codec, children, built, rows, 4095, lo, hi);
  }

  lemma BatchesContiguous(children: seq<IndexEntry>)
    requires OneCaseBatches(children)
    ensures Contiguous(children)
  {
    forall i | 0 <= i < |children|
      ensures OneCase(children[i], i)
    {
    }
  }
}
