/**
  Grouped upload of case files under a fenced lease. A group is registered in
  the ledger before any of its files is written; verified files are then
  acknowledged as a contiguous prefix. Owners may crash, lose replies or keep
  writing after their lease expired.
 */
module Upload {
  import opened Base

  const MAX_FILES: nat := 64
  const MAX_PAYLOAD: nat := 64 * 1024 * 1024
  const MAX_METADATA: nat := 256 * 1024

  /** One case file: its ordinal range, exact bytes and ledger metadata size. */
  datatype File = File(start: int, end: int, bytes: seq<byte>, metadata: nat)

  // ----- bounded groups -----

  predicate Fits(count: nat, payload: nat, metadata: nat, nextPayload: nat, nextMetadata: nat) {
    count < MAX_FILES && payload + nextPayload <= MAX_PAYLOAD && metadata + nextMetadata <= MAX_METADATA
  }

  function Payload(files: seq<File>): nat {
    if files == [] then 0 else Payload(files[..|files| - 1]) + |files[|files| - 1].bytes|
  }

  function Metadata(files: seq<File>): nat {
    if files == [] then 2 else Metadata(files[..|files| - 1]) + files[|files| - 1].metadata
  }

  predicate Bounded(group: seq<File>) {
    |group| <= MAX_FILES && Payload(group) <= MAX_PAYLOAD && Metadata(group) <= MAX_METADATA
  }

  lemma AppendFile(files: seq<File>, file: File)
    ensures Payload(files + [file]) == Payload(files) + |file.bytes|
    ensures Metadata(files + [file]) == Metadata(files) + file.metadata
  {
    assert (files + [file])[..|files|] == files;
  }

  class Uploader {
    var pending: seq<File>
    var payloadBytes: nat
    var metadataBytes: nat
    var flushed: seq<seq<File>>

    ghost predicate Valid()
      reads this
    {
      && payloadBytes == Payload(pending) && metadataBytes == Metadata(pending)
      && Bounded(pending) && |pending| < MAX_FILES
      && forall i :: 0 <= i < |flushed| ==> Bounded(flushed[i]) && flushed[i] != []
    }

    /** Every file accepted so far, in order. */
    ghost function Accepted(): seq<File>
      reads this
    {
      Flatten(flushed) + pending
    }

    constructor ()
      ensures Valid() && Accepted() == []
    {
      pending, payloadBytes, metadataBytes, flushed := [], 0, 2, [];
    }

    /** Hands the open group to the ledger protocol. */
    method Flush()
      requires Bounded(pending) && forall i :: 0 <= i < |flushed| ==> Bounded(flushed[i]) && flushed[i] != []
      modifies this
      ensures Valid() && pending == [] && Accepted() == old(Accepted())
      ensures old(pending) != [] ==> flushed == old(flushed) + [old(pending)]
      ensures old(pending) == [] ==> flushed == old(flushed)
    {
      var files := pending;
      pending, payloadBytes, metadataBytes := [], 0, 2;
      if files != [] {
        FlattenAppend(flushed, files);
        flushed := flushed + [files];
      }
      assert Flatten(flushed) + [] == Flatten(flushed);
    }

    /** Adds a file that fits the open group, and closes the group if it is now full. */
    method Append(file: File)
      requires Valid() && Fits(|pending|, payloadBytes, metadataBytes, |file.bytes|, file.metadata)
      modifies this
      ensures Valid() && Accepted() == old(Accepted()) + [file]
      ensures var open := old(pending) + [file];
              if |open| == MAX_FILES then flushed == old(flushed) + [open] && pending == []
              else flushed == old(flushed) && pending == open
    {
      AppendFile(pending, file);
      assert Flatten(flushed) + (pending + [file]) == Accepted() + [file];
      payloadBytes := payloadBytes + |file.bytes|;
      metadataBytes := metadataBytes + file.metadata;
      pending := pending + [file];
      if |pending| == MAX_FILES {
        Flush();
      }
    }

    /** Adds a file, closing the open group first if the file would overflow it. */
    method Push(file: File) returns (ok: bool)
      requires Valid()
      modifies this
      ensures Valid()
      ensures ok <==> |file.bytes| <= MAX_PAYLOAD && file.metadata + 2 <= MAX_METADATA
      ensures ok ==> Accepted() == old(Accepted()) + [file]
      ensures !ok ==> pending == old(pending) && flushed == old(flushed)
      ensures ok ==>
                var fits := && |old(pending)| < 64 && Payload(old(pending)) + |file.bytes| <= 64 * 1024 * 1024
                            && Metadata(old(pending)) + file.metadata <= 256 * 1024;
                var open := if fits then old(pending) + [file] else [file];
                var closed := if fits || old(pending) == [] then old(flushed) else old(flushed) + [old(pending)];
                if |open| == MAX_FILES then flushed == closed + [open] && pending == []
                else flushed == closed && pending == open
    {
      if !(|file.bytes| <= MAX_PAYLOAD && file.metadata + 2 <= MAX_METADATA) {
        return false;
      }
      if !Fits(|pending|, payloadBytes, metadataBytes, |file.bytes|, file.metadata) {
        Flush();
        assert [] + [file] == [file];
      }
      Append(file);
      return true;
    }
  }

  // ----- the ledger protocol -----

  ghost predicate ValidFiles(files: seq<File>) {
    && (forall i :: 0 <= i < |files| ==> files[i].start < files[i].end)
    && (files != [] ==> files[0].start == 0)
    && forall i, j :: 0 <= i < |files| && 0 <= j < |files| && j == i + 1 ==> files[i].end == files[j].start
  }

  datatype Owner =
    | At(next: nat, hi: nat)
    | Planned(first: nat, hi: nat, flags: set<nat>, end: nat, changed: bool)

  datatype World = World(live: Option<nat>, generation: nat, registered: set<nat>, acked: set<nat>, cursor: int,
                         remote: map<nat, seq<byte>>, owners: map<nat, Owner>)

  datatype Action =
    | Claim
    | Expire
    | Crash(g: nat)
    | OpenGroup(g: nat, hi: nat)
    | Plan(g: nat)
    | Write(g: nat)
    | Skip(g: nat)
    | Checkpoint(g: nat)

  predicate Between(i: nat, lo: nat, hi: nat) {
    lo <= i < hi
  }

  function Span(lo: nat, hi: nat): set<nat> {
    set i: nat | i < hi && Between(i, lo, hi)
  }

  function Drop(w: World, g: nat): World {
    w.(owners := w.owners - {g})
  }

  function Become(w: World, g: nat, o: Owner): World {
    w.(owners := w.owners[g := o])
  }

  /** The acknowledgement walk: an acknowledged prefix, then contiguous new files from the cursor. */
  function Advance(files: seq<File>, w: World, i: nat, end: nat, cursor: int, count: nat): Option<int>
    requires i <= end <= |files|
    decreases end - i
  {
    if i == end then Some(cursor)
    else if i in w.acked then
      if count == 0 && files[i].end <= w.cursor then Advance(files, w, i + 1, end, cursor, count) else None
    else if files[i].start == cursor then Advance(files, w, i + 1, end, files[i].end, count + 1)
    else None
  }

  function Step(files: seq<File>, w: World, action: Action): World {
    match action
    case Claim =>
      var next := w.generation + 1;
      if w.live.None? then Become(w.(live := Some(next), generation := next), next, At(0, 0)) else w
    case Expire => w.(live := None)
    case Crash(g) => Drop(w, g)
    case OpenGroup(g, hi) =>
      if g in w.owners && w.owners[g].At? && w.owners[g].next == w.owners[g].hi && w.owners[g].next < hi <= |files|
         && hi - w.owners[g].next <= MAX_FILES
      then Become(w, g, At(w.owners[g].next, hi)) else w
    case Plan(g) =>
      if g in w.owners && w.owners[g].At? && w.owners[g].next < w.owners[g].hi then
        var o := w.owners[g];
        if w.live == Some(g) then
          Become(w.(registered := w.registered + Span(o.next, o.hi)), g,
                 Planned(o.next, o.hi, w.acked * Span(o.next, o.hi), o.next, false))
        else Drop(w, g)
      else w
    case Write(g) =>
      if g in w.owners && w.owners[g].Planned? && w.owners[g].end < w.owners[g].hi <= |files|
         && w.owners[g].end !in w.owners[g].flags then
        var o := w.owners[g];
        if o.end in w.remote && w.remote[o.end] != files[o.end].bytes then Drop(w, g)
        else Become(w.(remote := w.remote[o.end := files[o.end].bytes]), g, o.(end := o.end + 1, changed := true))
      else w
    case Skip(g) =>
      if g in w.owners && w.owners[g].Planned? && w.owners[g].end < w.owners[g].hi
         && w.owners[g].end in w.owners[g].flags then
        Become(w, g, w.owners[g].(end := w.owners[g].end + 1))
      else w
    case Checkpoint(g) =>
      if g in w.owners && w.owners[g].Planned? && w.owners[g].first < w.owners[g].end <= |files| then
        var o := w.owners[g];
        if !o.changed then Become(w, g, At(o.end, o.hi))
        else
          var cursor := Advance(files, w, o.first, o.end, w.cursor, 0);
          if w.live == Some(g) && cursor.Some? && Span(o.first, o.end) <= w.registered then
            Become(w.(acked := w.acked + Span(o.first, o.end), cursor := cursor.value), g, At(o.end, o.hi))
          else Drop(w, g)
      else w
  }

  function Run(files: seq<File>, w: World, actions: seq<Action>): World
    decreases |actions|
  {
    if actions == [] then w else Run(files, Step(files, w, actions[0]), actions[1..])
  }

  function Initial(): World {
    World(None, 0, {}, {}, 0, map[], map[])
  }

  // ----- invariants -----

  ghost predicate PrefixAcked(files: seq<File>, acked: set<nat>, cursor: int, k: nat) {
    k <= |files| && acked == Span(0, k) && cursor == if k == 0 then 0 else files[k - 1].end
  }

  ghost predicate OwnerOk(files: seq<File>, w: World, g: nat, o: Owner) {
    match o
    case At(next, hi) => next <= hi <= |files| && Span(0, next) <= w.acked
    case Planned(first, hi, flags, end, changed) =>
      && first <= end <= hi <= |files| && first < hi
      && Span(0, first) <= w.acked
      && flags <= w.acked
      && Span(first, hi) <= w.registered
      && (forall i :: first <= i < end ==> i in flags || i in w.remote)
      && (!changed ==> Span(first, end) <= flags)
  }

  ghost predicate Inv(files: seq<File>, w: World) {
    && (exists k: nat :: PrefixAcked(files, w.acked, w.cursor, k))
    && (forall i :: i in w.remote ==> i < |files| && i in w.registered && w.remote[i] == files[i].bytes)
    && (forall i :: i in w.acked ==> i in w.remote)
    && (forall g :: g in w.owners ==> g <= w.generation && OwnerOk(files, w, g, w.owners[g]))
    && (w.live.Some? ==> w.live.value <= w.generation)
  }

  lemma {:induction false} AdvancePrefix(files: seq<File>, w: World, i: nat, end: nat, k: nat, m: nat, count: nat)
    requires ValidFiles(files) && PrefixAcked(files, w.acked, w.cursor, k)
    requires i <= end <= |files| && i <= m && k <= m <= |files|
    requires count == m - k && (count > 0 ==> m == i)
    ensures var r := Advance(files, w, i, end, if m == 0 then 0 else files[m - 1].end, count);
            var last := if end <= m then m else end;
            r == Some(if last == 0 then 0 else files[last - 1].end)
    decreases end - i
  {
    if i < end {
      if i < k {
        FileOrder(files, i, k - 1);
        AdvancePrefix(files, w, i + 1, end, k, m, count);
      } else {
        assert i == m;
        assert m > 0 ==> files[m - 1].end == files[m].start;
        AdvancePrefix(files, w, i + 1, end, k, m + 1, count + 1);
      }
    }
  }

  lemma {:induction false} FileOrder(files: seq<File>, i: nat, j: nat)
    requires ValidFiles(files) && i <= j < |files|
    ensures files[i].end <= files[j].end
    decreases j - i
  {
    if i < j {
      FileOrder(files, i, j - 1);
      assert files[j - 1].end == files[j].start;
    }
  }

  /** A live owner's checkpoint is never refused, and it leaves its whole span acknowledged. */
  lemma CheckpointAccepted(files: seq<File>, w: World, g: nat)
    requires ValidFiles(files) && Inv(files, w)
    requires g in w.owners && w.owners[g].Planned? && w.owners[g].first < w.owners[g].end
    requires w.owners[g].changed ==> w.live == Some(g)
    ensures var o := w.owners[g];
            var after := Step(files, w, Checkpoint(g));
            && g in after.owners && after.owners[g] == At(o.end, o.hi)
            && Span(0, o.end) <= after.acked
            && exists k: nat :: PrefixAcked(files, after.acked, after.cursor, k)
  {
    var o := w.owners[g];
    assert OwnerOk(files, w, g, o);
    var k: nat :| PrefixAcked(files, w.acked, w.cursor, k);
    SpanOrder(o.first, k);
    if o.changed {
      WalkAccepted(files, w, o.first, o.end, k);
    } else {
      SpanJoin(o.first, o.end, w.acked);
    }
  }

  /** From inside the acknowledged prefix the walk reaches the end of its span, and the prefix grows to it. */
  lemma WalkAccepted(files: seq<File>, w: World, first: nat, end: nat, k: nat)
    requires ValidFiles(files) && PrefixAcked(files, w.acked, w.cursor, k) && first <= k && first <= end <= |files|
    ensures var cursor := Advance(files, w, first, end, w.cursor, 0);
            && cursor.Some?
            && PrefixAcked(files, w.acked + Span(first, end), cursor.value, if end <= k then k else end)
            && Span(0, end) <= w.acked + Span(first, end)
  {
    AdvancePrefix(files, w, first, end, k, k, 0);
    SpanUnion(first, end, k);
  }

  lemma SpanOrder(a: nat, b: nat)
    requires Span(0, a) <= Span(0, b)
    ensures a <= b
  {
    if a > 0 {
      assert a - 1 in Span(0, a);
    }
  }

  lemma SpanUnion(first: nat, end: nat, k: nat)
    requires first <= end && first <= k
    ensures Span(0, k) + Span(first, end) == Span(0, if end <= k then k else end)
  {
  }

  lemma SpanJoin(first: nat, end: nat, s: set<nat>)
    requires Span(0, first) <= s && Span(first, end) <= s
    ensures Span(0, end) <= s
  {
    forall i | i in Span(0, end)
      ensures i in s
    {
      assert i in Span(0, first) || i in Span(first, end);
    }
  }

  /** Monotone growth of ledger and store keeps every other owner's knowledge true. */
  lemma OwnerStays(files: seq<File>, w: World, after: World, h: nat, o: Owner)
    requires OwnerOk(files, w, h, o)
    requires w.acked <= after.acked && w.registered <= after.registered && w.remote.Keys <= after.remote.Keys
    ensures OwnerOk(files, after, h, o)
  {
  }

  lemma Settle(files: seq<File>, w: World, after: World, g: nat)
    requires Inv(files, w)
    requires exists k: nat :: PrefixAcked(files, after.acked, after.cursor, k)
    requires w.acked <= after.acked && w.registered <= after.registered && w.remote.Keys <= after.remote.Keys
    requires forall i :: i in after.remote ==> i < |files| && i in after.registered && after.remote[i] == files[i].bytes
    requires forall i :: i in after.acked ==> i in after.remote
    requires after.generation >= w.generation && (after.live.Some? ==> after.live.value <= after.generation)
    requires forall h | h in after.owners :: h != g ==> h in w.owners && after.owners[h] == w.owners[h]
    requires g in after.owners ==> g <= after.generation && OwnerOk(files, after, g, after.owners[g])
    ensures Inv(files, after)
  {
    forall h | h in after.owners
      ensures h <= after.generation && OwnerOk(files, after, h, after.owners[h])
    {
      if h != g {
        OwnerStays(files, w, after, h, w.owners[h]);
      }
    }
  }

  lemma PlanKeeps(files: seq<File>, w: World, g: nat)
    requires ValidFiles(files) && Inv(files, w)
    ensures Inv(files, Step(files, w, Plan(g)))
  {
    if g in w.owners {
      assert OwnerOk(files, w, g, w.owners[g]);
      Settle(files, w, Step(files, w, Plan(g)), g);
    }
  }

  lemma WriteKeeps(files: seq<File>, w: World, g: nat)
    requires ValidFiles(files) && Inv(files, w)
    ensures Inv(files, Step(files, w, Write(g)))
  {
    if g in w.owners && w.owners[g].Planned? && w.owners[g].end < w.owners[g].hi <= |files|
       && w.owners[g].end !in w.owners[g].flags {
      var o := w.owners[g];
      assert OwnerOk(files, w, g, o);
      assert o.end in Span(o.first, o.hi);
      if o.end !in w.remote || w.remote[o.end] == files[o.end].bytes {
        WriteOwner(files, w, g, o);
      }
      Settle(files, w, Step(files, w, Write(g)), g);
    }
  }

  lemma WriteOwner(files: seq<File>, w: World, g: nat, o: Owner)
    requires o.Planned? && OwnerOk(files, w, g, o) && o.end < o.hi
    ensures var written := o.(end := o.end + 1, changed := true);
            OwnerOk(files, Become(w.(remote := w.remote[o.end := files[o.end].bytes]), g, written), g, written)
  {
  }

  lemma SkipKeeps(files: seq<File>, w: World, g: nat)
    requires ValidFiles(files) && Inv(files, w)
    ensures Inv(files, Step(files, w, Skip(g)))
  {
    if g in w.owners && w.owners[g].Planned? && w.owners[g].end < w.owners[g].hi
       && w.owners[g].end in w.owners[g].flags {
      var o := w.owners[g];
      assert OwnerOk(files, w, g, o);
      SkipOwner(files, w, g, o);
      Settle(files, w, Step(files, w, Skip(g)), g);
    }
  }

  lemma SkipOwner(files: seq<File>, w: World, g: nat, o: Owner)
    requires o.Planned? && OwnerOk(files, w, g, o) && o.end < o.hi && o.end in o.flags
    ensures var skipped := o.(end := o.end + 1);
            OwnerOk(files, Become(w, g, skipped), g, skipped)
  {
    assert Span(o.first, o.end + 1) == Span(o.first, o.end) + {o.end};
  }

  lemma CheckpointKeeps(files: seq<File>, w: World, g: nat)
    requires ValidFiles(files) && Inv(files, w)
    ensures Inv(files, Step(files, w, Checkpoint(g)))
  {
    if g in w.owners && w.owners[g].Planned? && w.owners[g].first < w.owners[g].end {
      var o := w.owners[g];
      assert OwnerOk(files, w, g, o);
      if o.changed && w.live != Some(g) {
        Settle(files, w, Step(files, w, Checkpoint(g)), g);
      } else {
        CheckpointAccepted(files, w, g);
        Settle(files, w, Step(files, w, Checkpoint(g)), g);
      }
    }
  }

  lemma StepKeeps(files: seq<File>, w: World, action: Action)
    requires ValidFiles(files) && Inv(files, w)
    ensures Inv(files, Step(files, w, action))
  {
    match action
    case Claim => Settle(files, w, Step(files, w, action), w.generation + 1);
    case Expire => Settle(files, w, Step(files, w, action), 0);
    case Crash(g) => Settle(files, w, Step(files, w, action), g);
    case OpenGroup(g, hi) => Settle(files, w, Step(files, w, action), g);
    case Plan(g) => PlanKeeps(files, w, g);
    case Write(g) => WriteKeeps(files, w, g);
    case Skip(g) => SkipKeeps(files, w, g);
    case Checkpoint(g) => CheckpointKeeps(files, w, g);
  }

  lemma {:induction false} RunKeeps(files: seq<File>, w: World, actions: seq<Action>)
    requires ValidFiles(files) && Inv(files, w)
    ensures Inv(files, Run(files, w, actions))
    decreases |actions|
  {
    if actions != [] {
      StepKeeps(files, w, actions[0]);
      RunKeeps(files, Step(files, w, actions[0]), actions[1..]);
    }
  }

  /**
    Over every run with crashes, resumes and replaced owners: what is stored
    was registered first and is exact, what is acknowledged is stored and forms
    a prefix, and an owner past a group has that whole group acknowledged.
   */
  lemma UploadSafety(files: seq<File>, actions: seq<Action>)
    requires ValidFiles(files)
    ensures var w := Run(files, Initial(), actions);
            && (forall i :: i in w.remote ==> i < |files| && i in w.registered && w.remote[i] == files[i].bytes)
            && (forall i :: i in w.acked ==> i in w.remote)
            && (exists k: nat :: PrefixAcked(files, w.acked, w.cursor, k))
            && (forall g :: g in w.owners && w.owners[g].At? ==> Span(0, w.owners[g].next) <= w.acked)
  {
    assert PrefixAcked(files, {}, 0, 0);
    RunKeeps(files, Initial(), actions);
    var w := Run(files, Initial(), actions);
    forall g | g in w.owners && w.owners[g].At?
      ensures Span(0, w.owners[g].next) <= w.acked
    {
      assert OwnerOk(files, w, g, w.owners[g]);
    }
  }
}
