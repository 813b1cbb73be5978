/**
  A shard's gate counts as a chain of pages: written from the last page to the
  first, shrinking a page until it encodes, and read from the first page to the
  last under a validator that trusts only the manifest's totals.
 */
module GateChain {
  import opened Base

  /** Slots per shard: at most 64 gates, one more than the last start. */
  const STRIDE: int := 65
  const MAX_GATES: int := 64
  const SHARDS: int := 128

  datatype GateCount = GateCount(id: string, planned: int)

  datatype Slot = Slot(start: int, end: int)

  datatype GatePage = GatePage(shard: int, entries: seq<GateCount>, next: Option<Slot>)

  datatype Descriptor = Descriptor(first: Option<Slot>, pageCount: int, entryCount: int)

  datatype Limits = Limits(pageBytes: nat, pageEntries: nat)

  /** The encoder's page sizes and the shape test for gate IDs, both arbitrary. */
  datatype Codec = Codec(size: GatePage -> nat, wellFormed: string -> bool)

  type Store = map<Slot, GatePage>

  /** Code-point order, which is also the byte order of UTF-8. */
  predicate Before(a: string, b: string) {
    b != [] && (a == [] || a[0] < b[0] || (a[0] == b[0] && Before(a[1..], b[1..])))
  }

  predicate Ordered(entries: seq<GateCount>) {
    forall i, j :: 0 <= i < |entries| && 0 <= j < |entries| && j == i + 1 ==> Before(entries[i].id, entries[j].id)
  }

  predicate ValidPage(page: GatePage, codec: Codec, limits: Limits) {
    && 0 <= page.shard < SHARDS
    && 0 < |page.entries| <= limits.pageEntries
    && (forall i :: 0 <= i < |page.entries| ==> codec.wellFormed(page.entries[i].id) && page.entries[i].planned >= 0)
    && Ordered(page.entries)
  }

  predicate Encodes(page: GatePage, codec: Codec, limits: Limits) {
    codec.size(page) <= limits.pageBytes && ValidPage(page, codec, limits)
  }

  function SlotOf(shard: int, start: int, end: int): Slot {
    Slot(shard * STRIDE + start, shard * STRIDE + end)
  }

  /** Entries from a position on, as a readable chain of exactly so many pages. */
  ghost predicate Chain(store: Store, next: Option<Slot>, shard: int, at: int, entries: seq<GateCount>, pages: int,
                        codec: Codec, limits: Limits)
    decreases |entries|
  {
    if next.None? then entries == [] && pages == 0
    else
      && next.value in store
      && var page := store[next.value];
         var k := |page.entries|;
         && Encodes(page, codec, limits)
         && page.shard == shard
         && k <= |entries|
         && page.entries == entries[..k]
         && next.value == SlotOf(shard, at, at + k)
         && pages > 0
         && Chain(store, page.next, shard, at + k, entries[k..], pages - 1, codec, limits)
  }

  /** A chain ignores slots that start before it. */
  lemma {:induction false} ChainPut(store: Store, next: Option<Slot>, shard: int, at: int, entries: seq<GateCount>,
                                    pages: int, codec: Codec, limits: Limits, slot: Slot, page: GatePage)
    requires Chain(store, next, shard, at, entries, pages, codec, limits) && slot.start < shard * STRIDE + at
    ensures Chain(store[slot := page], next, shard, at, entries, pages, codec, limits)
    decreases |entries|
  {
    if next.Some? {
      var k := |store[next.value].entries|;
      ChainPut(store, store[next.value].next, shard, at + k, entries[k..], pages - 1, codec, limits, slot, page);
    }
  }

  /** A chain depends only on its own shard's slots. */
  lemma {:induction false} ChainFrame(store: Store, other: Store, next: Option<Slot>, shard: int, at: int,
                                      entries: seq<GateCount>, pages: int, codec: Codec, limits: Limits)
    requires Chain(store, next, shard, at, entries, pages, codec, limits) && 0 <= at && at + |entries| <= MAX_GATES
    requires forall s :: s in store && Owns(shard, s) ==> s in other && other[s] == store[s]
    ensures Chain(other, next, shard, at, entries, pages, codec, limits)
    decreases |entries|
  {
    if next.Some? {
      var k := |store[next.value].entries|;
      assert Owns(shard, next.value);
      ChainFrame(store, other, store[next.value].next, shard, at + k, entries[k..], pages - 1, codec, limits);
    }
  }

  ghost predicate Owns(shard: int, s: Slot) {
    shard * STRIDE <= s.start < s.end < (shard + 1) * STRIDE
  }

  lemma {:induction false} ChainCounts(store: Store, next: Option<Slot>, shard: int, at: int, entries: seq<GateCount>,
                                       pages: int, codec: Codec, limits: Limits)
    requires Chain(store, next, shard, at, entries, pages, codec, limits)
    ensures 0 <= pages <= |entries| <= pages * limits.pageEntries
    ensures next.None? <==> pages == 0
    ensures pages == 0 <==> entries == []
    decreases |entries|
  {
    if next.Some? {
      var k := |store[next.value].entries|;
      ChainCounts(store, store[next.value].next, shard, at + k, entries[k..], pages - 1, codec, limits);
      assert pages * limits.pageEntries == (pages - 1) * limits.pageEntries + limits.pageEntries;
    }
  }

  // ----- writing -----

  function PageOf(shard: int, entries: seq<GateCount>, start: int, end: int, next: Option<Slot>): GatePage
    requires 0 <= start <= end <= |entries|
  {
    GatePage(shard, entries[start..end], next)
  }

  function LowestStart(end: int, limits: Limits): int {
    if end <= limits.pageEntries then 0 else end - limits.pageEntries
  }

  /** Drops entries from the front until the page encodes; gives up at a single entry. */
  method FitPage(shard: int, entries: seq<GateCount>, end: int, next: Option<Slot>, codec: Codec, limits: Limits)
    returns (r: Option<int>)
    requires 0 < end <= |entries|
    ensures r.Some? ==> LowestStart(end, limits) <= r.value < end
    ensures r.Some? ==> Encodes(PageOf(shard, entries, r.value, end, next), codec, limits)
    ensures r.Some? ==> forall s :: LowestStart(end, limits) <= s < r.value ==>
                          !Encodes(PageOf(shard, entries, s, end, next), codec, limits)
    ensures r.None? ==> !Encodes(PageOf(shard, entries, end - 1, end, next), codec, limits)
  {
    var start := LowestStart(end, limits);
    while true
      invariant LowestStart(end, limits) <= start <= end
      invariant start == end ==> limits.pageEntries == 0
      invariant forall s :: LowestStart(end, limits) <= s < start ==>
                  !Encodes(PageOf(shard, entries, s, end, next), codec, limits)
      decreases end - start
    {
      if Encodes(PageOf(shard, entries, start, end, next), codec, limits) {
        return Some(start);
      }
      if start + 1 >= end {
        return None;
      }
      start := start + 1;
    }
  }

  ghost predicate InRange(s: Slot, shard: int, n: int) {
    shard * STRIDE <= s.start < s.end <= shard * STRIDE + n
  }

  /** Only slots of the first n positions of a shard may have changed. */
  ghost predicate KeepsOthers(store: Store, after: Store, shard: int, n: int) {
    forall s :: s in store && !InRange(s, shard, n) ==> s in after && after[s] == store[s]
  }

  /** Storing a page in front of a chain gives a chain one page longer. */
  lemma StorePage(store: Store, next: Option<Slot>, shard: int, start: int, end: int, entries: seq<GateCount>,
                  pages: int, codec: Codec, limits: Limits)
    requires 0 <= start < end <= |entries|
    requires Chain(store, next, shard, end, entries[end..], pages, codec, limits)
    requires Encodes(PageOf(shard, entries, start, end, next), codec, limits)
    ensures Chain(store[SlotOf(shard, start, end) := PageOf(shard, entries, start, end, next)],
                  Some(SlotOf(shard, start, end)),
                  shard, start, entries[start..], pages + 1, codec, limits)
  {
    var slot, page := SlotOf(shard, start, end), PageOf(shard, entries, start, end, next);
    ChainPut(store, next, shard, end, entries[end..], pages, codec, limits, slot, page);
    ChainCounts(store, next, shard, end, entries[end..], pages, codec, limits);
    assert entries[start..][..end - start] == entries[start..end];
    assert entries[start..][end - start..] == entries[end..];
  }

  /** Every entry fits a page of its own. */
  ghost predicate EntriesFit(shard: int, entries: seq<GateCount>, codec: Codec, limits: Limits) {
    && 0 <= shard < 128 && limits.pageEntries > 0
    && (forall i :: 0 <= i < |entries| ==> codec.wellFormed(entries[i].id) && entries[i].planned >= 0)
    && forall i, next :: 0 <= i < |entries| ==> codec.size(GatePage(shard, [entries[i]], next)) <= limits.pageBytes
  }

  /** Writes the chain backwards, so every page can name the one after it. */
  method WriteGates(store: Store, shard: int, entries: seq<GateCount>, codec: Codec, limits: Limits)
    returns (r: Option<(Store, Descriptor)>)
    ensures r.Some? ==> var (after, d) := r.value;
              && Chain(after, d.first, shard, 0, entries, d.pageCount, codec, limits)
              && d.entryCount == |entries|
              && KeepsOthers(store, after, shard, |entries|)
    ensures r.None? ==> exists i, next ::
              0 <= i < |entries| && !Encodes(GatePage(shard, [entries[i]], next), codec, limits)
    ensures EntriesFit(shard, entries, codec, limits) ==> r.Some?
  {
    var after, next, pages, end := store, None, 0, |entries|;
    assert entries[end..] == [];
    while end > 0
      invariant 0 <= end <= |entries|
      invariant Chain(after, next, shard, end, entries[end..], pages, codec, limits)
      invariant KeepsOthers(store, after, shard, |entries|)
    {
      var fit := FitPage(shard, entries, end, next, codec, limits);
      if fit.None? {
        assert entries[end - 1..end] == [entries[end - 1]];
        return None;
      }
      var start, page := fit.value, PageOf(shard, entries, fit.value, end, next);
      var slot := SlotOf(shard, start, end);
      StorePage(after, next, shard, start, end, entries, pages, codec, limits);
      after := after[slot := page];
      next := Some(slot);
      pages := pages + 1;
      end := start;
    }
    assert entries[0..] == entries;
    return Some((after, Descriptor(next, pages, |entries|)));
  }

  /** A later shard's pages leave every earlier chain readable. */
  lemma ChainsCoexist(store: Store, after: Store, a: int, b: int, mine: seq<GateCount>, theirs: seq<GateCount>,
                      d: Descriptor, codec: Codec, limits: Limits)
    requires a != b && |mine| <= MAX_GATES && |theirs| <= MAX_GATES
    requires Chain(store, d.first, a, 0, mine, d.pageCount, codec, limits)
    requires KeepsOthers(store, after, b, |theirs|)
    ensures Chain(after, d.first, a, 0, mine, d.pageCount, codec, limits)
  {
    assert forall s :: Owns(a, s) ==> !InRange(s, b, |theirs|);
    ChainFrame(store, after, d.first, a, 0, mine, d.pageCount, codec, limits);
  }

  // ----- reading -----

  predicate ValidDescriptor(d: Descriptor, limits: Limits) {
    && d.pageCount >= 0 && d.entryCount >= 0
    && (d.pageCount == 0 <==> d.entryCount == 0)
    && (d.first.None? <==> d.pageCount == 0)
    && d.pageCount <= d.entryCount <= d.pageCount * limits.pageEntries
  }

  predicate WithinCases(entries: seq<GateCount>, caseCount: int) {
    forall i :: 0 <= i < |entries| ==> entries[i].planned <= caseCount
  }

  /** What the validator remembers between pages. */
  datatype Progress = Progress(next: Option<Slot>, pages: int, entries: int, last: Option<string>)

  predicate Acceptable(p: Progress, shard: int, caseCount: int, reference: Slot, page: GatePage, codec: Codec,
                       limits: Limits)
  {
    && ValidPage(page, codec, limits)
    && p.next == Some(reference) && page.shard == shard
    && (p.last.None? || Before(p.last.value, page.entries[0].id))
    && WithinCases(page.entries, caseCount)
    && p.pages >= 1 && p.entries >= |page.entries|
    && (p.pages == 1 <==> page.next.None?)
    && (p.pages == 1 <==> p.entries == |page.entries|)
    && page.next != Some(reference)
  }

  function Advanced(p: Progress, page: GatePage): Progress
    requires page.entries != []
  {
    Progress(page.next, p.pages - 1, p.entries - |page.entries|, Some(page.entries[|page.entries| - 1].id))
  }

  class ChainValidator {
    const shard: int
    const caseCount: int
    var next: Option<Slot>
    var remainingPages: int
    var remainingEntries: int
    var lastGate: Option<string>

    constructor (d: Descriptor, shard: int, caseCount: int)
      ensures this.shard == shard && this.caseCount == caseCount
      ensures State() == Progress(d.first, d.pageCount, d.entryCount, None)
    {
      this.shard, this.caseCount := shard, caseCount;
      next, remainingPages, remainingEntries, lastGate := d.first, d.pageCount, d.entryCount, None;
    }

    function State(): Progress
      reads this
    {
      Progress(next, remainingPages, remainingEntries, lastGate)
    }

    /** Advances only after every check succeeds; a failed page leaves the state intact. */
    method Accept(reference: Slot, page: GatePage, codec: Codec, limits: Limits) returns (ok: bool)
      modifies this
      ensures ok <==> Acceptable(old(State()), shard, caseCount, reference, page, codec, limits)
      ensures State() == if ok then Advanced(old(State()), page) else old(State())
    {
      if !ValidPage(page, codec, limits) || next != Some(reference) || page.shard != shard {
        return false;
      }
      if lastGate.Some? && !Before(lastGate.value, page.entries[0].id) {
        return false;
      }
      if !WithinCases(page.entries, caseCount) {
        return false;
      }
      var pages := remainingPages - 1;
      var entries := remainingEntries - |page.entries|;
      if !(pages >= 0 && entries >= 0 && (pages == 0) == page.next.None? && (pages == 0) == (entries == 0)) {
        return false;
      }
      if page.next == Some(reference) {
        return false;
      }
      remainingPages := pages;
      remainingEntries := entries;
      lastGate := Some(page.entries[|page.entries| - 1].id);
      next := page.next;
      return true;
    }
  }

  function CountsOf(entries: seq<GateCount>): map<string, int> {
    if entries == [] then map[]
    else CountsOf(entries[..|entries| - 1])[entries[|entries| - 1].id := entries[|entries| - 1].planned]
  }

  lemma CountsSnoc(entries: seq<GateCount>, e: GateCount)
    ensures CountsOf(entries + [e]) == CountsOf(entries)[e.id := e.planned]
  {
    assert (entries + [e])[..|entries|] == entries;
  }

  method AddCounts(counts: map<string, int>, entries: seq<GateCount>, ghost earlier: seq<GateCount>)
    returns (r: map<string, int>)
    requires counts == CountsOf(earlier)
    ensures r == CountsOf(earlier + entries)
  {
    r := counts;
    assert earlier + entries[..0] == earlier;
    for i := 0 to |entries|
      invariant r == CountsOf(earlier + entries[..i])
    {
      r := r[entries[i].id := entries[i].planned];
      CountsSnoc(earlier + entries[..i], entries[i]);
      assert earlier + entries[..i + 1] == (earlier + entries[..i]) + [entries[i]];
    }
    assert entries[..|entries|] == entries;
  }

  lemma OrderedAppend(a: seq<GateCount>, b: seq<GateCount>)
    requires Ordered(a) && Ordered(b) && b != []
    ensures Ordered(a + b) <==> (a == [] || Before(a[|a| - 1].id, b[0].id))
  {
    var ab := a + b;
    if a != [] {
      assert ab[|a| - 1] == a[|a| - 1] && ab[|a|] == b[0];
      if Before(a[|a| - 1].id, b[0].id) {
        forall i, j | 0 <= i < |ab| && 0 <= j < |ab| && j == i + 1
          ensures Before(ab[i].id, ab[j].id)
        {
          if i >= |a| {
            assert ab[i] == b[i - |a|] && ab[j] == b[j - |a|];
          }
        }
      }
    } else {
      assert ab == b;
    }
  }

  /** The part of a chain that is still to be read. */
  ghost predicate Unread(store: Store, p: Progress, shard: int, read: seq<GateCount>, entries: seq<GateCount>,
                         codec: Codec, limits: Limits) {
    && |read| <= |entries|
    && read == entries[..|read|]
    && p.entries == |entries| - |read|
    && Chain(store, p.next, shard, |read|, entries[|read|..], p.pages, codec, limits)
  }

  /** What has been accepted so far. */
  ghost predicate Accepted(p: Progress, caseCount: int, total: int, read: seq<GateCount>) {
    && Ordered(read)
    && WithinCases(read, caseCount)
    && |read| + p.entries == total
    && p.last == (if read == [] then None else Some(read[|read| - 1].id))
    && p.pages >= 0
    && (p.pages == 0 <==> p.entries == 0)
    && (p.pages == 0 <==> p.next.None?)
  }

  /** On a written chain the validator refuses only a misordered or oversized count. */
  lemma RefusedOnlyFor(store: Store, p: Progress, shard: int, caseCount: int, total: int, read: seq<GateCount>,
                       entries: seq<GateCount>, codec: Codec, limits: Limits)
    requires Unread(store, p, shard, read, entries, codec, limits) && Accepted(p, caseCount, total, read)
             && p.next.Some?
    requires Ordered(entries) && WithinCases(entries, caseCount)
    ensures Acceptable(p, shard, caseCount, p.next.value, store[p.next.value], codec, limits)
  {
    var at, page := |read|, store[p.next.value];
    var k := |page.entries|;
    ChainCounts(store, page.next, shard, at + k, entries[at..][k..], p.pages - 1, codec, limits);
    assert page.entries == entries[at..][..k];
    assert forall i :: 0 <= i < k ==> page.entries[i] == entries[at + i];
    if read != [] {
      assert entries[at - 1] == read[at - 1];
      assert Before(entries[at - 1].id, entries[at].id);
    }
    NextElsewhere(store, page.next, shard, at + k, entries[at..][k..], p.pages - 1, codec, limits, p.next.value);
  }

  lemma NextElsewhere(store: Store, next: Option<Slot>, shard: int, at: int, entries: seq<GateCount>, pages: int,
                      codec: Codec, limits: Limits, slot: Slot)
    requires Chain(store, next, shard, at, entries, pages, codec, limits) && slot.start < shard * STRIDE + at
    ensures next != Some(slot)
  {
  }

  /** Past its first page, a chain is the chain of the remaining entries. */
  lemma ChainNext(store: Store, next: Option<Slot>, shard: int, read: seq<GateCount>, entries: seq<GateCount>,
                  pages: int, codec: Codec, limits: Limits)
    requires next.Some? && |read| <= |entries| && read == entries[..|read|]
    requires Chain(store, next, shard, |read|, entries[|read|..], pages, codec, limits)
    ensures next.value in store
    ensures var page := store[next.value];
            var at := |read| + |page.entries|;
            && at <= |entries|
            && read + page.entries == entries[..at]
            && Chain(store, page.next, shard, at, entries[at..], pages - 1, codec, limits)
  {
  }

  /** Accepting a page extends the ordered list by its entries. */
  lemma AcceptedNext(p: Progress, shard: int, caseCount: int, total: int, read: seq<GateCount>, reference: Slot,
                     page: GatePage, codec: Codec, limits: Limits)
    requires Accepted(p, caseCount, total, read) && Acceptable(p, shard, caseCount, reference, page, codec, limits)
    ensures Accepted(Advanced(p, page), caseCount, total, read + page.entries)
  {
    OrderedAppend(read, page.entries);
  }

  lemma UnreadNext(store: Store, p: Progress, shard: int, read: seq<GateCount>, entries: seq<GateCount>, codec: Codec,
                   limits: Limits)
    requires Unread(store, p, shard, read, entries, codec, limits) && p.next.Some?
    ensures p.next.value in store && store[p.next.value].entries != []
    ensures Unread(store, Advanced(p, store[p.next.value]), shard, read + store[p.next.value].entries, entries, codec,
                   limits)
  {
    ChainNext(store, p.next, shard, read, entries, p.pages, codec, limits);
  }

  /**
    Follows a chain from its descriptor. Whatever the store holds, a success is an
    ordered list of exactly the promised length; on a chain that was written it
    succeeds exactly when the gates are ordered and within the case count, and
    gives them all back.
   */
  method ReadGates(store: Store, d: Descriptor, shard: int, caseCount: int, codec: Codec, limits: Limits,
                   ghost entries: seq<GateCount>)
    returns (r: Option<map<string, int>>, ghost read: seq<GateCount>, pages: nat)
    ensures r.Some? ==> r.value == CountsOf(read) && |read| == d.entryCount <= MAX_GATES && pages == d.pageCount
                        && Ordered(read) && WithinCases(read, caseCount)
    ensures Chain(store, d.first, shard, 0, entries, d.pageCount, codec, limits) && d.entryCount == |entries| ==>
              && (r.Some? <==> |entries| <= 64 && 0 <= shard < 128 && caseCount > 0 && Ordered(entries)
                               && forall i :: 0 <= i < |entries| ==> entries[i].planned <= caseCount)
              && (r.Some? ==> read == entries)
  {
    read, pages := [], 0;
    ghost var written := Chain(store, d.first, shard, 0, entries, d.pageCount, codec, limits)
      && d.entryCount == |entries|;
    if written {
      ChainCounts(store, d.first, shard, 0, entries, d.pageCount, codec, limits);
      assert entries[0..] == entries && entries[..0] == [];
    }
    if d.entryCount > MAX_GATES || !ValidDescriptor(d, limits) || shard < 0 || shard >= SHARDS || caseCount <= 0 {
      return None, read, pages;
    }
    var v := new ChainValidator(d, shard, caseCount);
    var counts: map<string, int> := map[];
    while v.next.Some?
      invariant v.shard == shard && v.caseCount == caseCount && fresh(v)
      invariant Accepted(v.State(), caseCount, d.entryCount, read) && counts == CountsOf(read)
      invariant pages + v.remainingPages == d.pageCount
      invariant written ==> Unread(store, v.State(), shard, read, entries, codec, limits)
      decreases v.remainingPages
    {
      var reference := v.next.value;
      ghost var before := v.State();
      if written {
        UnreadNext(store, before, shard, read, entries, codec, limits);
        if Ordered(entries) && WithinCases(entries, caseCount) {
          RefusedOnlyFor(store, before, shard, caseCount, d.entryCount, read, entries, codec, limits);
        }
      }
      if reference !in store {
        return None, read, pages;
      }
      var page := store[reference];
      var ok := v.Accept(reference, page, codec, limits);
      if !ok {
        return None, read, pages;
      }
      AcceptedNext(before, shard, caseCount, d.entryCount, read, reference, page, codec, limits);
      counts := AddCounts(counts, page.entries, read);
      read := read + page.entries;
      pages := pages + 1;
    }
    if v.remainingPages != 0 || v.remainingEntries != 0 {
      return None, read, pages;
    }
    assert written ==> entries[..|read|] == entries;
    return Some(counts), read, pages;
  }

  // ----- ordered chains hold each gate once -----

  lemma {:induction false} BeforeTransitive(a: string, b: string, c: string)
    requires Before(a, b) && Before(b, c)
    ensures Before(a, c)
  {
    if a != [] && a[0] == b[0] && b[0] == c[0] {
      BeforeTransitive(a[1..], b[1..], c[1..]);
    }
  }

  lemma {:induction false} BeforeIrreflexive(a: string)
    ensures !Before(a, a)
  {
    if a != [] {
      BeforeIrreflexive(a[1..]);
    }
  }

  lemma {:induction false} OrderedFar(entries: seq<GateCount>, i: int, j: int)
    requires Ordered(entries) && 0 <= i < j < |entries|
    ensures Before(entries[i].id, entries[j].id)
    decreases j
  {
    if i + 1 < j {
      OrderedFar(entries, i, j - 1);
      BeforeTransitive(entries[i].id, entries[j - 1].id, entries[j].id);
    }
  }

  lemma LastIsNew(entries: seq<GateCount>)
    requires Ordered(entries) && entries != []
    ensures forall i :: 0 <= i < |entries| - 1 ==> entries[i].id != entries[|entries| - 1].id
  {
    var n := |entries| - 1;
    forall i | 0 <= i < n
      ensures entries[i].id != entries[n].id
    {
      OrderedFar(entries, i, n);
      BeforeIrreflexive(entries[n].id);
    }
  }

  /** An accepted chain gives every gate its own count: nothing is overwritten. */
  lemma {:induction false} CountsComplete(entries: seq<GateCount>)
    requires Ordered(entries)
    ensures |CountsOf(entries)| == |entries|
    ensures forall i :: 0 <= i < |entries| ==>
              entries[i].id in CountsOf(entries) && CountsOf(entries)[entries[i].id] == entries[i].planned
    ensures forall id :: id in CountsOf(entries) ==> exists i :: 0 <= i < |entries| && entries[i].id == id
  {
    if entries != [] {
      var n := |entries| - 1;
      var init := entries[..n];
      CountsComplete(init);
      LastIsNew(entries);
      assert forall i :: 0 <= i < n ==> init[i] == entries[i];
      assert entries[n].id !in CountsOf(init);
    }
  }
}
