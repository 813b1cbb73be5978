/**
  The worker-local cache of verified files: a recency-ordered queue whose charged
  bytes and length are bounded. Lookup and insert are separate critical sections,
  so any number of readers may interleave between them.
 */
module ReadCache {
  import opened Base

  const CAPACITY: nat := 8 * 1024 * 1024
  const MAX_FILE: nat := 1024 * 1024
  const MAX_ENTRIES: nat := 256

  /** An immutable file identity; encodedLength is the size of its JSON form. */
  datatype Reference = Reference(name: string, digest: Digest, byteCount: nat, encodedLength: nat)

  datatype Key = Key(binding: string, reference: Reference)

  datatype Entry = Entry(key: Key, bytes: seq<byte>, charge: nat)

  predicate Admissible(reference: Reference, limit: nat) {
    0 < reference.byteCount <= limit
  }

  predicate Matches(reference: Reference, bytes: seq<byte>) {
    |bytes| == reference.byteCount && Blake3(bytes) == reference.digest
  }

  function ChargeOf(key: Key, bytes: seq<byte>, overhead: nat): nat {
    |bytes| + key.reference.encodedLength + |key.binding| + overhead
  }

  // ----- the queue as a value -----

  predicate Has(entries: seq<Entry>, key: Key) {
    exists i :: 0 <= i < |entries| && entries[i].key == key
  }

  ghost function Charged(entries: seq<Entry>): nat {
    if entries == [] then 0 else entries[0].charge + Charged(entries[1..])
  }

  /** What the entries really hold: bytes, encoded references, bindings and the bookkeeping of each. */
  ghost function Footprint(entries: seq<Entry>, overhead: nat): nat {
    if entries == [] then 0
    else
      var e := entries[|entries| - 1];
      Footprint(entries[..|entries| - 1], overhead)
      + (|e.bytes| + e.key.reference.encodedLength + |e.key.binding| + overhead)
  }

  ghost predicate Honest(entries: seq<Entry>, overhead: nat) {
    forall i :: 0 <= i < |entries| ==> HonestEntry(entries[i], overhead)
  }

  /** An entry is charged what it holds, and holds no more than a small file. */
  ghost predicate HonestEntry(e: Entry, overhead: nat) {
    && e.charge == |e.bytes| + e.key.reference.encodedLength + |e.key.binding| + overhead
    && |e.bytes| <= 1024 * 1024
  }

  lemma {:induction false} ChargedIsFootprint(entries: seq<Entry>, overhead: nat)
    requires Honest(entries, overhead)
    ensures Charged(entries) == Footprint(entries, overhead)
  {
    if entries != [] {
      var n := |entries| - 1;
      ChargedIsFootprint(entries[..n], overhead);
      assert entries == entries[..n] + [entries[n]];
      ChargedConcat(entries[..n], [entries[n]]);
      assert Charged([entries[n]]) == entries[n].charge + Charged([]);
    }
  }

  ghost function Keys(entries: seq<Entry>): seq<Key> {
    seq(|entries|, i requires 0 <= i < |entries| => entries[i].key)
  }

  ghost predicate DistinctKeys(keys: seq<Key>) {
    forall i, j :: 0 <= i < |keys| && 0 <= j < |keys| && i != j ==> keys[i] != keys[j]
  }

  ghost predicate Bounded(entries: seq<Entry>) {
    && Charged(entries) <= CAPACITY
    && |entries| <= MAX_ENTRIES
    && DistinctKeys(Keys(entries))
    && forall i :: 0 <= i < |entries| ==> Matches(entries[i].key.reference, entries[i].bytes)
  }

  ghost predicate Fits(entries: seq<Entry>, charge: nat) {
    Charged(entries) + charge <= CAPACITY && |entries| < MAX_ENTRIES
  }

  lemma {:induction false} ChargedConcat(a: seq<Entry>, b: seq<Entry>)
    ensures Charged(a + b) == Charged(a) + Charged(b)
  {
    if a == [] {
      assert a + b == b;
    } else {
      assert (a + b)[1..] == a[1..] + b;
      ChargedConcat(a[1..], b);
    }
  }

  /** The least number of oldest entries whose removal makes room. */
  ghost predicate LeastEviction(entries: seq<Entry>, charge: nat, k: int) {
    && 0 <= k <= |entries|
    && Fits(entries[k..], charge)
    && (k > 0 ==> !Fits(entries[k - 1..], charge))
  }

  lemma {:induction false} TailSmaller(entries: seq<Entry>, k: int)
    requires 0 <= k <= |entries|
    ensures Charged(entries[k..]) <= Charged(entries)
  {
    assert entries == entries[..k] + entries[k..];
    ChargedConcat(entries[..k], entries[k..]);
  }

  // ----- the shared cache -----

  class Cache {
    const overhead: nat
    var entries: seq<Entry>
    var charged: nat

    ghost predicate Valid()
      reads this
    {
      Bounded(entries) && Honest(entries, overhead) && charged == Charged(entries)
    }

    /** The counter is the memory the entries hold, and that is within the capacity. */
    lemma MemoryBound()
      requires Valid()
      ensures charged == Footprint(entries, overhead) <= 8 * 1024 * 1024
    {
      ChargedIsFootprint(entries, overhead);
    }

    constructor (overhead: nat)
      ensures Valid() && entries == [] && this.overhead == overhead
    {
      this.overhead := overhead;
      entries := [];
      charged := 0;
    }

    /** A hit returns the retained bytes and becomes the newest entry; a miss changes nothing. */
    method Lookup(key: Key) returns (hit: Option<seq<byte>>)
      requires Valid()
      modifies this
      ensures Valid()
      ensures hit.Some? <==> Has(old(entries), key)
      ensures hit.None? ==> entries == old(entries)
      ensures hit.Some? ==> exists i :: Promoted(old(entries), entries, i) && old(entries)[i].key == key
                                        && hit.value == old(entries)[i].bytes
    {
      var i := 0;
      while i < |entries| && entries[i].key != key
        invariant 0 <= i <= |entries|
        invariant forall j :: 0 <= j < i ==> entries[j].key != key
      {
        i := i + 1;
      }
      if i == |entries| {
        return None;
      }
      var entry := entries[i];
      PromoteKeeps(entries, i);
      ghost var before := entries;
      entries := entries[..i] + entries[i + 1..] + [entry];
      assert Promoted(before, entries, i);
      return Some(entry.bytes);
    }

    /** Evicts no more than needed, oldest first; never pops an empty queue. */
    method Evict(charge: nat)
      requires Valid() && charge <= CAPACITY
      modifies this
      ensures Valid()
      ensures exists k :: LeastEviction(old(entries), charge, k) && entries == old(entries)[k..]
    {
      ghost var k := 0;
      assert entries[0..] == entries;
      while charged + charge > CAPACITY || |entries| >= MAX_ENTRIES
        invariant 0 <= k <= |old(entries)| && entries == old(entries)[k..]
        invariant Valid()
        invariant k > 0 ==> !Fits(old(entries)[k - 1..], charge)
        decreases |entries|
      {
        TailBounded(entries);
        charged := charged - entries[0].charge;
        entries := entries[1..];
        k := k + 1;
      }
      assert LeastEviction(old(entries), charge, k);
    }

    /** Retains small verified bytes unless the key is already there. */
    method Insert(key: Key, bytes: seq<byte>)
      requires Valid() && Matches(key.reference, bytes)
      modifies this
      ensures Valid()
      ensures Skipped(old(entries), key, bytes, overhead) ==> entries == old(entries)
      ensures !Skipped(old(entries), key, bytes, overhead) ==>
                var e := Entry(key, bytes, ChargeOf(key, bytes, overhead));
                exists k :: LeastEviction(old(entries), e.charge, k) && entries == old(entries)[k..] + [e]
      ensures |bytes| <= 1024 * 1024 && !Has(old(entries), key)
              && |bytes| + key.reference.encodedLength + |key.binding| + overhead <= 8 * 1024 * 1024 ==>
                entries != [] && entries[|entries| - 1].key == key && entries[|entries| - 1].bytes == bytes
    {
      if |bytes| > MAX_FILE {
        return;
      }
      var charge := ChargeOf(key, bytes, overhead);
      if charge <= CAPACITY && !Has(entries, key) {
        Evict(charge);
        var entry := Entry(key, bytes, charge);
        AppendBounded(entries, entry);
        charged := charged + charge;
        entries := entries + [entry];
      }
    }

    /**
      One read: a hit is verified again like a download, and a success is exactly
      what a read without the cache gives. Budget, cancellation and clock enter as
      what each check observed.
     */
    method Read(key: Key, limit: nat, live: bool, cancelled: bool, download: Option<seq<byte>>,
                cancelledLater: bool, expired: bool)
      returns (r: Option<seq<byte>>)
      requires Valid()
      modifies this
      ensures Valid()
      ensures r.Some? ==> r.value == key.reference.digest.content
      ensures r.Some? <==> && live && 0 < key.reference.byteCount <= limit && !cancelled && !cancelledLater && !expired
                           && (Has(old(entries), key) || (download.Some? && Matches(key.reference, download.value)))
      ensures Uncached(key.reference, limit, live, cancelled, download, cancelledLater, expired).Some? ==>
                r == Uncached(key.reference, limit, live, cancelled, download, cancelledLater, expired)
    {
      if !live || !Admissible(key.reference, limit) || cancelled {
        return None;
      }
      var hit := Lookup(key);
      var got := if hit.Some? then hit else download;
      if got.None? || !Matches(key.reference, got.value) || cancelledLater || expired {
        return None;
      }
      Insert(key, got.value);
      return got;
    }
  }

  function Uncached(reference: Reference, limit: nat, live: bool, cancelled: bool, download: Option<seq<byte>>,
                    cancelledLater: bool, expired: bool): Option<seq<byte>> {
    if live && Admissible(reference, limit) && !cancelled && download.Some? && Matches(reference, download.value)
       && !cancelledLater && !expired
    then download else None
  }

  predicate Skipped(entries: seq<Entry>, key: Key, bytes: seq<byte>, overhead: nat) {
    |bytes| > MAX_FILE || ChargeOf(key, bytes, overhead) > CAPACITY || Has(entries, key)
  }

  ghost predicate Promoted(before: seq<Entry>, after: seq<Entry>, i: int) {
    0 <= i < |before| && after == before[..i] + before[i + 1..] + [before[i]]
  }

  lemma PromoteKeeps(entries: seq<Entry>, i: int)
    requires Bounded(entries) && 0 <= i < |entries|
    ensures var after := entries[..i] + entries[i + 1..] + [entries[i]];
            Bounded(after) && Charged(after) == Charged(entries)
  {
    var after := entries[..i] + entries[i + 1..] + [entries[i]];
    PromoteCharge(entries, i);
    PromoteDistinct(entries, i);
    forall j | 0 <= j < |after|
      ensures Matches(after[j].key.reference, after[j].bytes)
    {
      assert after[j] == entries[Origin(|entries|, i, j)];
    }
  }

  lemma {:induction false} ChargedSplit(entries: seq<Entry>, i: int)
    requires 0 <= i < |entries|
    ensures Charged(entries) == Charged(entries[..i]) + entries[i].charge + Charged(entries[i + 1..])
  {
    if i > 0 {
      ChargedSplit(entries[1..], i - 1);
      assert entries[..i][1..] == entries[1..][..i - 1];
      assert entries[1..][i..] == entries[i + 1..];
    }
  }

  lemma PromoteCharge(entries: seq<Entry>, i: int)
    requires 0 <= i < |entries|
    ensures Charged(entries[..i] + entries[i + 1..] + [entries[i]]) == Charged(entries)
  {
    ChargedSplit(entries, i);
    ChargedConcat(entries[..i], entries[i + 1..]);
    ChargedConcat(entries[..i] + entries[i + 1..], [entries[i]]);
    assert Charged([entries[i]]) == entries[i].charge + Charged([]);
  }

  /** Where the entry at a position stood before the promotion. */
  ghost function Origin(n: int, i: int, j: int): int {
    if j < i then j else if j < n - 1 then j + 1 else i
  }

  lemma PromoteDistinct(entries: seq<Entry>, i: int)
    requires DistinctKeys(Keys(entries)) && 0 <= i < |entries|
    ensures DistinctKeys(Keys(entries[..i] + entries[i + 1..] + [entries[i]]))
  {
    var after := entries[..i] + entries[i + 1..] + [entries[i]];
    var n := |entries|;
    forall a, b | 0 <= a < |after| && 0 <= b < |after| && a != b
      ensures Keys(after)[a] != Keys(after)[b]
    {
      assert Keys(after)[a] == Keys(entries)[Origin(n, i, a)];
      assert Keys(after)[b] == Keys(entries)[Origin(n, i, b)];
    }
  }

  lemma TailBounded(entries: seq<Entry>)
    requires Bounded(entries) && entries != []
    ensures Bounded(entries[1..]) && Charged(entries) == entries[0].charge + Charged(entries[1..])
  {
    assert forall i :: 0 <= i < |entries| - 1 ==> Keys(entries[1..])[i] == Keys(entries)[i + 1];
  }

  lemma AppendBounded(entries: seq<Entry>, e: Entry)
    requires Bounded(entries) && Fits(entries, e.charge) && !Has(entries, e.key) && Matches(e.key.reference, e.bytes)
    ensures Bounded(entries + [e]) && Charged(entries + [e]) == Charged(entries) + e.charge
  {
    ChargedConcat(entries, [e]);
    var keys := Keys(entries + [e]);
    assert forall i :: 0 <= i < |entries| ==> keys[i] == Keys(entries)[i] && keys[i] == entries[i].key;
  }

  // ----- every interleaving of the two critical sections -----

  datatype Section = Look(key: Key) | Store(key: Key, bytes: seq<byte>)

  /** What a section may do to the queue, as the methods state it. */
  ghost predicate Applies(before: seq<Entry>, s: Section, after: seq<Entry>, overhead: nat) {
    match s
    case Look(key) =>
      if Has(before, key) then exists i :: Promoted(before, after, i) && before[i].key == key else after == before
    case Store(key, bytes) =>
      if Skipped(before, key, bytes, overhead) then after == before
      else
        var e := Entry(key, bytes, ChargeOf(key, bytes, overhead));
        Matches(key.reference, bytes) && exists k :: LeastEviction(before, e.charge, k) && after == before[k..] + [e]
  }

  ghost predicate Uses(before: seq<Entry>, s: Section, overhead: nat) {
    match s
    case Look(key) => Has(before, key)
    case Store(key, bytes) => !Skipped(before, key, bytes, overhead)
  }

  ghost function Without(keys: seq<Key>, key: Key): seq<Key> {
    if keys == [] then [] else (if keys[0] == key then [] else [keys[0]]) + Without(keys[1..], key)
  }

  /** All keys ever used, in order of last use. */
  ghost function ByLastUse(trace: seq<seq<Entry>>, sections: seq<Section>, overhead: nat): seq<Key>
    requires |trace| == |sections| + 1
  {
    if sections == [] then []
    else
      var n := |sections| - 1;
      var earlier := ByLastUse(trace[..n + 1], sections[..n], overhead);
      if Uses(trace[n], sections[n], overhead) then Without(earlier, sections[n].key) + [sections[n].key] else earlier
  }

  ghost predicate Behaviour(trace: seq<seq<Entry>>, sections: seq<Section>, overhead: nat) {
    && |trace| == |sections| + 1
    && trace[0] == []
    && forall i :: 0 <= i < |sections| ==> Applies(trace[i], sections[i], trace[i + 1], overhead)
  }

  lemma {:induction false} WithoutConcat(a: seq<Key>, b: seq<Key>, key: Key)
    ensures Without(a + b, key) == Without(a, key) + Without(b, key)
  {
    if a == [] {
      assert a + b == b;
    } else {
      assert (a + b)[1..] == a[1..] + b;
      WithoutConcat(a[1..], b, key);
    }
  }

  lemma {:induction false} WithoutAbsent(keys: seq<Key>, key: Key)
    requires forall i :: 0 <= i < |keys| ==> keys[i] != key
    ensures Without(keys, key) == keys
  {
    if keys != [] {
      WithoutAbsent(keys[1..], key);
    }
  }

  /** The queue holds exactly the most recently used keys, newest last. */
  ghost predicate Newest(entries: seq<Entry>, order: seq<Key>) {
    exists older: seq<Key> :: order == older + Keys(entries)
  }

  lemma DistinctTail(keys: seq<Key>)
    requires DistinctKeys(keys) && keys != []
    ensures DistinctKeys(keys[1..]) && forall j :: 0 <= j < |keys[1..]| ==> keys[1..][j] != keys[0]
  {
    assert forall j :: 0 <= j < |keys| - 1 ==> keys[1..][j] == keys[j + 1];
  }

  lemma Rejoin(keys: seq<Key>, i: int)
    requires 0 < i < |keys|
    ensures [keys[0]] + (keys[1..][..i - 1] + keys[1..][i..]) == keys[..i] + keys[i + 1..]
    ensures keys[1..][i - 1] == keys[i]
  {
  }

  lemma {:induction false} WithoutOne(keys: seq<Key>, i: int)
    requires DistinctKeys(keys) && 0 <= i < |keys|
    ensures Without(keys, keys[i]) == keys[..i] + keys[i + 1..]
  {
    DistinctTail(keys);
    if i == 0 {
      WithoutAbsent(keys[1..], keys[0]);
    } else {
      WithoutOne(keys[1..], i - 1);
      Rejoin(keys, i);
    }
  }

  lemma PromotedKeys(before: seq<Entry>, after: seq<Entry>, i: int)
    requires Promoted(before, after, i) && DistinctKeys(Keys(before))
    ensures Keys(after) == Without(Keys(before), before[i].key) + [before[i].key]
  {
    WithoutOne(Keys(before), i);
    assert Keys(after) == Keys(before)[..i] + Keys(before)[i + 1..] + [before[i].key];
  }

  lemma Shift(older: seq<Key>, newer: seq<Key>, key: Key)
    ensures (older + newer) + [key] == older + (newer + [key])
  {
  }

  lemma PromoteNewest(before: seq<Entry>, after: seq<Entry>, i: int, order: seq<Key>)
    requires Promoted(before, after, i) && DistinctKeys(Keys(before)) && Newest(before, order)
    ensures Newest(after, Without(order, before[i].key) + [before[i].key])
  {
    var older: seq<Key> :| order == older + Keys(before);
    var key := before[i].key;
    WithoutConcat(older, Keys(before), key);
    PromotedKeys(before, after, i);
    Shift(Without(older, key), Without(Keys(before), key), key);
  }

  lemma AppendedKeys(before: seq<Entry>, k: int, e: Entry)
    requires 0 <= k <= |before| && !Has(before, e.key)
    ensures Keys(before[k..] + [e]) == Keys(before)[k..] + [e.key]
    ensures Without(Keys(before), e.key) == Keys(before)
  {
    assert forall i :: 0 <= i < |before| ==> Keys(before)[i] == before[i].key;
    WithoutAbsent(Keys(before), e.key);
  }

  lemma AppendNewest(before: seq<Entry>, k: int, e: Entry, order: seq<Key>)
    requires 0 <= k <= |before| && !Has(before, e.key) && Newest(before, order)
    ensures Newest(before[k..] + [e], Without(order, e.key) + [e.key])
  {
    var older: seq<Key> :| order == older + Keys(before);
    WithoutConcat(older, Keys(before), e.key);
    AppendedKeys(before, k, e);
    SplitShift(Without(older, e.key), Keys(before), k, e.key);
  }

  lemma SplitShift(older: seq<Key>, newer: seq<Key>, k: int, key: Key)
    requires 0 <= k <= |newer|
    ensures (older + newer) + [key] == (older + newer[..k]) + (newer[k..] + [key])
  {
  }

  lemma {:induction false} WithoutDistinct(keys: seq<Key>, key: Key)
    requires DistinctKeys(keys)
    ensures DistinctKeys(Without(keys, key))
    ensures forall i :: 0 <= i < |Without(keys, key)| ==> Without(keys, key)[i] != key && Without(keys, key)[i] in keys
  {
    if keys != [] {
      assert forall i :: 0 <= i < |keys| - 1 ==> keys[1..][i] == keys[i + 1];
      WithoutDistinct(keys[1..], key);
    }
  }

  lemma SectionKeeps(before: seq<Entry>, s: Section, after: seq<Entry>, overhead: nat)
    requires Bounded(before) && Applies(before, s, after, overhead)
    ensures Bounded(after)
  {
    if s.Look? && Has(before, s.key) {
      var i :| Promoted(before, after, i) && before[i].key == s.key;
      PromoteKeeps(before, i);
    } else if s.Store? && !Skipped(before, s.key, s.bytes, overhead) {
      var e := Entry(s.key, s.bytes, ChargeOf(s.key, s.bytes, overhead));
      var k :| LeastEviction(before, e.charge, k) && after == before[k..] + [e];
      DropBounded(before, k);
      AppendBounded(before[k..], e);
    }
  }

  lemma SectionHonest(before: seq<Entry>, s: Section, after: seq<Entry>, overhead: nat)
    requires Honest(before, overhead) && Applies(before, s, after, overhead)
    ensures Honest(after, overhead)
  {
    if s.Look? && Has(before, s.key) {
      var i :| Promoted(before, after, i) && before[i].key == s.key;
      forall j | 0 <= j < |after|
        ensures HonestEntry(after[j], overhead)
      {
        assert after[j] == before[Origin(|before|, i, j)];
      }
    } else if s.Store? && !Skipped(before, s.key, s.bytes, overhead) {
      var e := Entry(s.key, s.bytes, ChargeOf(s.key, s.bytes, overhead));
      var k :| LeastEviction(before, e.charge, k) && after == before[k..] + [e];
    }
  }

  lemma DropBounded(entries: seq<Entry>, k: int)
    requires Bounded(entries) && 0 <= k <= |entries|
    ensures Bounded(entries[k..])
  {
    TailSmaller(entries, k);
    assert forall i :: 0 <= i < |entries| - k ==> Keys(entries[k..])[i] == Keys(entries)[i + k];
  }

  lemma SectionNewest(before: seq<Entry>, s: Section, after: seq<Entry>, overhead: nat, order: seq<Key>)
    requires Bounded(before) && Applies(before, s, after, overhead) && Newest(before, order)
    ensures Newest(after, if Uses(before, s, overhead) then Without(order, s.key) + [s.key] else order)
  {
    if s.Look? && Has(before, s.key) {
      var i :| Promoted(before, after, i) && before[i].key == s.key;
      PromoteNewest(before, after, i, order);
    } else if s.Store? && !Skipped(before, s.key, s.bytes, overhead) {
      var e := Entry(s.key, s.bytes, ChargeOf(s.key, s.bytes, overhead));
      var k :| LeastEviction(before, e.charge, k) && after == before[k..] + [e];
      AppendNewest(before, k, e, order);
    }
  }

  lemma {:induction false} ByLastUseDistinct(trace: seq<seq<Entry>>, sections: seq<Section>, overhead: nat)
    requires |trace| == |sections| + 1
    ensures DistinctKeys(ByLastUse(trace, sections, overhead))
  {
    if sections != [] {
      var n := |sections| - 1;
      ByLastUseDistinct(trace[..n + 1], sections[..n], overhead);
      WithoutDistinct(ByLastUse(trace[..n + 1], sections[..n], overhead), sections[n].key);
    }
  }

  /**
    However the sections of any number of readers interleave, the cache stays
    within its bounds, holds only verified bytes under distinct keys, and consists
    of the most recently used keys in order of use.
   */
  lemma {:induction false} CacheSafety(trace: seq<seq<Entry>>, sections: seq<Section>, overhead: nat)
    requires Behaviour(trace, sections, overhead)
    ensures Bounded(trace[|sections|])
    ensures Honest(trace[|sections|], overhead) && Footprint(trace[|sections|], overhead) <= 8 * 1024 * 1024
    ensures var order := ByLastUse(trace, sections, overhead);
            DistinctKeys(order) && Newest(trace[|sections|], order)
  {
    var n := |sections|;
    ByLastUseDistinct(trace, sections, overhead);
    if n == 0 {
      assert [] + Keys([]) == [];
    } else {
      assert Behaviour(trace[..n], sections[..n - 1], overhead);
      CacheSafety(trace[..n], sections[..n - 1], overhead);
      assert trace[..n][n - 1] == trace[n - 1];
      assert Applies(trace[n - 1], sections[n - 1], trace[n - 1 + 1], overhead);
      SectionKeeps(trace[n - 1], sections[n - 1], trace[n], overhead);
      SectionHonest(trace[n - 1], sections[n - 1], trace[n], overhead);
      SectionNewest(trace[n - 1], sections[n - 1], trace[n], overhead,
                    ByLastUse(trace[..n], sections[..n - 1], overhead));
    }
    ChargedIsFootprint(trace[n], overhead);
  }
}
