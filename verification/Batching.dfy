/**
  Cutting a spool of canonical record lines into bounded case files. Only each
  file's header line and spool offset are kept; a file is rebuilt from them
  when it is uploaded.
 */
module Batching {
  import opened Base

  const LF: byte := 10
  const HEADER_SCAN: nat := 1024

  /** Header encoding and batching limits. */
  datatype Format = Format(header: (int, int) -> seq<byte>, maxCases: nat, maxBytes: nat)

  ghost predicate ValidFormat(f: Format) {
    f.maxCases > 0 && forall a, b :: LF !in f.header(a, b)
  }

  ghost predicate ValidLine(line: seq<byte>) {
    line != [] && line[|line| - 1] == LF && LF !in line[..|line| - 1]
  }

  ghost predicate Lines(lines: seq<seq<byte>>) {
    forall i :: 0 <= i < |lines| ==> ValidLine(lines[i])
  }

  /** The stored file of records start..end: a header line, then the record lines. */
  function Encoded(f: Format, lines: seq<seq<byte>>, start: int, end: int): seq<byte>
    requires 0 <= start <= end <= |lines|
  {
    f.header(start, end) + [LF] + Flatten(lines[start..end])
  }

  function Offset(lines: seq<seq<byte>>, k: int): nat
    requires 0 <= k <= |lines|
  {
    |Flatten(lines[..k])|
  }

  lemma FlattenSlice(lines: seq<seq<byte>>, i: int, j: int)
    requires 0 <= i <= j <= |lines|
    ensures Offset(lines, i) <= Offset(lines, j) <= |Flatten(lines)|
    ensures Flatten(lines)[Offset(lines, i)..Offset(lines, j)] == Flatten(lines[i..j])
  {
    assert lines[..j] == lines[..i] + lines[i..j] && lines == lines[..j] + lines[j..];
    FlattenConcat(lines[..i], lines[i..j]);
    FlattenConcat(lines[..j], lines[j..]);
  }

  lemma FlattenNext(lines: seq<seq<byte>>, i: int, j: int)
    requires 0 <= i <= j < |lines|
    ensures Flatten(lines[i..j + 1]) == Flatten(lines[i..j]) + lines[j]
  {
    assert lines[i..j + 1] == lines[i..j] + [lines[j]];
    FlattenAppend(lines[i..j], lines[j]);
  }

  // ----- reading lines -----

  function LineEnd(spool: seq<byte>, pos: nat): nat
    requires pos <= |spool|
    ensures pos <= LineEnd(spool, pos) <= |spool|
    decreases |spool| - pos
  {
    if pos == |spool| then pos else if spool[pos] == LF then pos + 1 else LineEnd(spool, pos + 1)
  }

  lemma {:induction false} LineEndAt(spool: seq<byte>, pos: nat, line: seq<byte>, k: nat)
    requires ValidLine(line) && k < |line| && pos + |line| <= |spool| && spool[pos..pos + |line|] == line
    ensures LineEnd(spool, pos + k) == pos + |line|
    decreases |line| - k
  {
    assert spool[pos + k] == line[k];
    if k < |line| - 1 {
      assert line[k] in line[..|line| - 1];
      LineEndAt(spool, pos, line, k + 1);
    }
  }

  lemma LineEndOf(spool: seq<byte>, pos: nat, line: seq<byte>)
    requires ValidLine(line) && pos + |line| <= |spool| && spool[pos..pos + |line|] == line
    ensures LineEnd(spool, pos) == pos + |line|
  {
    LineEndAt(spool, pos, line, 0);
  }

  lemma LineSpan(lines: seq<seq<byte>>, i: int)
    requires 0 <= i < |lines|
    ensures Offset(lines, i + 1) == Offset(lines, i) + |lines[i]| <= |Flatten(lines)|
    ensures Flatten(lines)[Offset(lines, i)..Offset(lines, i + 1)] == lines[i]
  {
    FlattenSlice(lines, i, i + 1);
    FlattenNext(lines, i, i);
    assert lines[i..i] == [] && [] + lines[i] == lines[i];
  }

  /** Reading at a line's offset returns exactly that line. */
  lemma ReadsLine(spool: seq<byte>, lines: seq<seq<byte>>, i: int)
    requires Lines(lines) && spool == Flatten(lines) && 0 <= i < |lines|
    ensures Offset(lines, i) < |spool| && LineEnd(spool, Offset(lines, i)) == Offset(lines, i + 1)
    ensures spool[Offset(lines, i)..Offset(lines, i + 1)] == lines[i]
  {
    LineSpan(lines, i);
    LineEndOf(spool, Offset(lines, i), lines[i]);
  }

  // ----- building one file -----

  datatype BatchError = EmptyBatch | RecordTooLarge | HeaderOversized | TooLong | SourceChanged

  class CaseBatchBuilder {
    const start: int
    var end: int
    var records: seq<byte>

    ghost predicate Holds(f: Format, lines: seq<seq<byte>>)
      reads this
    {
      && 0 <= start <= end <= |lines|
      && records == Flatten(lines[start..end])
      && end - start <= f.maxCases
      && (start < end ==> |Encoded(f, lines, start, end)| <= f.maxBytes)
    }

    constructor (start: int)
      ensures this.start == start && this.end == start && this.records == []
    {
      this.start := start;
      this.end := start;
      this.records := [];
    }

    /** Accounts for the updated header and both terminators before accepting a record. */
    method TryPush(f: Format, record: seq<byte>, ghost lines: seq<seq<byte>>) returns (r: Result<bool, BatchError>)
      requires Holds(f, lines) && end < |lines| && lines[end] == record + [LF]
      modifies this
      ensures Holds(f, lines)
      ensures r.Ok? && r.value ==> end == old(end) + 1
      ensures !(r.Ok? && r.value) ==> end == old(end) && records == old(records)
      ensures r == Ok(true) <==> && old(end) - start < f.maxCases && |record| <= f.maxBytes
                                 && |Encoded(f, lines, start, old(end) + 1)| <= f.maxBytes
      ensures r.Err? ==> start == old(end) || |record| > f.maxBytes
      ensures r == Ok(false) ==> start < old(end)
    {
      if |record| > f.maxBytes {
        return Err(RecordTooLarge);
      }
      FlattenNext(lines, start, end);
      var newBytes := |f.header(start, end + 1)| + 1 + |records| + |record| + 1;
      if end - start == f.maxCases || newBytes > f.maxBytes {
        if end == start {
          return Err(RecordTooLarge);
        }
        return Ok(false);
      }
      records := records + record + [LF];
      assert records == Flatten(lines[start..end]) + lines[end];
      end := end + 1;
      return Ok(true);
    }

    method Finish(f: Format, ghost lines: seq<seq<byte>>) returns (r: Result<seq<byte>, BatchError>)
      requires Holds(f, lines)
      ensures r.Ok? <==> start < end
      ensures r.Ok? ==> r.value == Encoded(f, lines, start, end)
    {
      if end == start {
        return Err(EmptyBatch);
      }
      return Ok(f.header(start, end) + [LF] + records);
    }
  }

  // ----- the ingest loop -----

  /** What is kept of a file between cutting and upload. */
  datatype Pending = Pending(start: int, end: int, byteCount: nat, digest: Digest, offset: nat, header: seq<byte>)

  /** Finds the header line of an encoded file. */
  method HeaderOf(encoded: seq<byte>) returns (r: Option<seq<byte>>)
    ensures r.Some? ==>
              r.value <= encoded && r.value != [] && r.value[|r.value| - 1] == LF && LF !in r.value[..|r.value| - 1]
    ensures r.Some? <==> LF in encoded[..Min(HEADER_SCAN, |encoded|)]
  {
    var limit := Min(HEADER_SCAN, |encoded|);
    for i := 0 to limit
      invariant LF !in encoded[..i]
    {
      if encoded[i] == LF {
        assert encoded[..i + 1][..i] == encoded[..i];
        assert encoded[..limit][i] == LF;
        return Some(encoded[..i + 1]);
      }
      assert encoded[..i + 1] == encoded[..i] + [encoded[i]];
    }
    return None;
  }

  lemma HeaderUnique(f: Format, lines: seq<seq<byte>>, start: int, end: int, header: seq<byte>)
    requires ValidFormat(f) && 0 <= start <= end <= |lines|
    requires header <= Encoded(f, lines, start, end) && header != [] && header[|header| - 1] == LF
             && LF !in header[..|header| - 1]
    ensures header == f.header(start, end) + [LF]
  {
    var h, all := f.header(start, end), Encoded(f, lines, start, end);
    assert all[|h|] == LF && all[|header| - 1] == LF;
    assert forall i | 0 <= i < |h| :: h[i] in h && all[i] == h[i];
    assert forall i | 0 <= i < |header| - 1 :: header[i] in header[..|header| - 1] && all[i] == header[i];
    assert |header| - 1 == |h|;
  }

  /** A kept file that is exactly records start..end and can be found in the spool. */
  ghost predicate Exact(f: Format, lines: seq<seq<byte>>, p: Pending) {
    && 0 <= p.start < p.end <= |lines|
    && p.end - p.start <= f.maxCases
    && p.byteCount == |Encoded(f, lines, p.start, p.end)| <= f.maxBytes
    && p.digest == Blake3(Encoded(f, lines, p.start, p.end))
    && p.offset == Offset(lines, p.start)
    && p.header == f.header(p.start, p.end) + [LF]
  }

  /** Files that follow one another from the first record. */
  ghost predicate Chain(batches: seq<Pending>, upTo: int) {
    && (batches == [] ==> upTo == 0)
    && (batches != [] ==> batches[0].start == 0 && batches[|batches| - 1].end == upTo)
    && forall i, j :: 0 <= i < |batches| && 0 <= j < |batches| && j == i + 1 ==> batches[i].end == batches[j].start
  }

  ghost predicate Cut(f: Format, lines: seq<seq<byte>>, batches: seq<Pending>, upTo: int) {
    Chain(batches, upTo) && forall i :: 0 <= i < |batches| ==> Exact(f, lines, batches[i])
  }

  /** A file that could not have taken the next record. */
  ghost predicate Full(f: Format, lines: seq<seq<byte>>, p: Pending) {
    && 0 <= p.start <= p.end < |lines|
    && (p.end - p.start == f.maxCases || |Encoded(f, lines, p.start, p.end + 1)| > f.maxBytes)
  }

  /** Closes the current file. */
  method Close(f: Format, builder: CaseBatchBuilder, offset: nat, ghost lines: seq<seq<byte>>, batches: seq<Pending>)
    returns (r: Result<seq<Pending>, BatchError>)
    requires ValidFormat(f) && builder.Holds(f, lines) && offset == Offset(lines, builder.start)
    requires Cut(f, lines, batches, builder.start)
    ensures r.Ok? ==> && builder.start < builder.end && Cut(f, lines, r.value, builder.end)
                      && |r.value| == |batches| + 1 && r.value[..|batches|] == batches
                      && r.value[|batches|].start == builder.start && r.value[|batches|].end == builder.end
    ensures builder.start < builder.end && |f.header(builder.start, builder.end)| < HEADER_SCAN ==> r.Ok?
  {
    var encoded := builder.Finish(f, lines);
    if encoded.Err? {
      return Err(encoded.error);
    }
    var bytes := encoded.value;
    ghost var h := |f.header(builder.start, builder.end)|;
    assert bytes[h] == LF;
    assert h < HEADER_SCAN ==> bytes[..Min(HEADER_SCAN, |bytes|)][h] == LF;
    var header := HeaderOf(bytes);
    if header.None? {
      return Err(HeaderOversized);
    }
    HeaderUnique(f, lines, builder.start, builder.end, header.value);
    return Ok(batches + [Pending(builder.start, builder.end, |bytes|, Blake3(bytes), offset, header.value)]);
  }

  ghost predicate FitsAlone(f: Format, lines: seq<seq<byte>>, i: int)
    requires 0 <= i < |lines|
  {
    |Encoded(f, lines, i, i + 1)| <= f.maxBytes && |lines[i]| <= f.maxBytes
  }

  /** Every record fits a file of its own, and headers are short. */
  ghost predicate AllFit(f: Format, lines: seq<seq<byte>>) {
    && (forall i :: 0 <= i < |lines| ==> FitsAlone(f, lines, i))
    && ShortHeaders(f)
  }

  ghost predicate ShortHeaders(f: Format) {
    forall a, b :: |f.header(a, b)| < HEADER_SCAN
  }

  /** The next line of the spool, or nothing at its end. */
  method ReadLine(spool: seq<byte>, offset: nat, ghost lines: seq<seq<byte>>, ghost k: nat) returns (line: seq<byte>)
    requires Lines(lines) && spool == Flatten(lines) && k <= |lines| && offset == Offset(lines, k)
    ensures line == if k < |lines| then lines[k] else []
    ensures k < |lines| ==> offset + |line| == Offset(lines, k + 1) && line != []
  {
    assert lines[..|lines|] == lines;
    if k < |lines| {
      ReadsLine(spool, lines, k);
      LineSpan(lines, k);
      assert ValidLine(lines[k]);
    }
    return spool[offset..LineEnd(spool, offset)];
  }

  /**
    Cuts the whole spool: on success the files cover records 0..n contiguously,
    each is exact and none but the last could have taken one record more;
    records that fit a file of their own always succeed.
   */
  method Ingest(f: Format, spool: seq<byte>, ghost lines: seq<seq<byte>>) returns (r: Result<seq<Pending>, BatchError>)
    requires ValidFormat(f) && Lines(lines) && spool == Flatten(lines)
    ensures r.Ok? ==> lines != [] && ClosedButLast(f, lines, r.value)
    ensures lines != [] && AllFit(f, lines) ==> r.Ok?
  {
    var offset, batchOffset := 0, 0;
    var batches: seq<Pending> := [];
    var builder := new CaseBatchBuilder(0);
    assert lines[0..0] == [] && lines[..0] == [];
    while true
      invariant fresh(builder) && builder.Holds(f, lines)
      invariant offset == Offset(lines, builder.end) && batchOffset == Offset(lines, builder.start)
      invariant Closed(f, lines, batches, builder.start)
      invariant builder.end > 0 ==> builder.start < builder.end
      decreases |lines| - builder.end
    {
      var line := ReadLine(spool, offset, lines, builder.end);
      if |line| > f.maxBytes {
        assert !FitsAlone(f, lines, builder.end);
        return Err(TooLong);
      }
      if line == [] {
        break;
      }
      var record := line[..|line| - 1];
      assert lines[builder.end] == record + [LF];
      var cut;
      cut, builder := AddRecord(f, record, builder, batchOffset, lines, batches);
      if cut.Err? {
        return Err(cut.error);
      }
      if |cut.value| > |batches| {
        batchOffset := offset;
      }
      batches := cut.value;
      offset := offset + |line|;
    }
    r := CloseLast(f, builder, batchOffset, lines, batches);
  }

  /** The last file may still have room. */
  ghost predicate ClosedButLast(f: Format, lines: seq<seq<byte>>, batches: seq<Pending>) {
    Cut(f, lines, batches, |lines|) && forall i :: 0 <= i < |batches| - 1 ==> Full(f, lines, batches[i])
  }

  method CloseLast(f: Format, builder: CaseBatchBuilder, batchOffset: nat, ghost lines: seq<seq<byte>>,
                   batches: seq<Pending>)
    returns (r: Result<seq<Pending>, BatchError>)
    requires ValidFormat(f) && builder.Holds(f, lines) && builder.end == |lines|
    requires batchOffset == Offset(lines, builder.start) && Closed(f, lines, batches, builder.start)
    ensures r.Ok? ==> ClosedButLast(f, lines, r.value) && builder.start < builder.end
    ensures builder.start < builder.end && ShortHeaders(f) ==> r.Ok?
  {
    r := Close(f, builder, batchOffset, lines, batches);
    if r.Ok? {
      assert forall i :: 0 <= i < |batches| ==> r.value[i] == batches[i];
    }
  }

  /** Files cut so far: a contiguous cover up to a record, every one of them full. */
  ghost predicate Closed(f: Format, lines: seq<seq<byte>>, batches: seq<Pending>, upTo: int) {
    Cut(f, lines, batches, upTo) && forall i :: 0 <= i < |batches| ==> Full(f, lines, batches[i])
  }

  /** Adds one record to the current file, or closes that file and starts the next with it. */
  method AddRecord(f: Format, record: seq<byte>, builder: CaseBatchBuilder, batchOffset: nat,
                   ghost lines: seq<seq<byte>>, batches: seq<Pending>)
    returns (r: Result<seq<Pending>, BatchError>, next: CaseBatchBuilder)
    requires ValidFormat(f) && builder.Holds(f, lines) && builder.end < |lines| && lines[builder.end] == record + [LF]
    requires batchOffset == Offset(lines, builder.start) && Closed(f, lines, batches, builder.start)
             && |record| <= f.maxBytes
    modifies builder
    ensures next == builder || fresh(next)
    ensures r.Ok? ==> && next.Holds(f, lines) && next.start < next.end == old(builder.end) + 1
                      && Closed(f, lines, r.value, next.start)
                      && (if next == builder then r.value == batches
                          else |r.value| == |batches| + 1 && next.start == old(builder.end))
    ensures FitsAlone(f, lines, old(builder.end)) && ShortHeaders(f) ==> r.Ok?
  {
    next := builder;
    var pushed := builder.TryPush(f, record, lines);
    if pushed.Err? {
      return Err(pushed.error), next;
    }
    if pushed.value {
      return Ok(batches), next;
    }
    r := CloseFull(f, builder, batchOffset, lines, batches);
    if r.Err? {
      return;
    }
    next := new CaseBatchBuilder(builder.end);
    assert lines[next.end..next.end] == [];
    pushed := next.TryPush(f, record, lines);
    if pushed != Ok(true) {
      return Err(RecordTooLarge), next;
    }
  }

  /** Closes a file that refused the next record. */
  method CloseFull(f: Format, builder: CaseBatchBuilder, batchOffset: nat, ghost lines: seq<seq<byte>>,
                   batches: seq<Pending>)
    returns (r: Result<seq<Pending>, BatchError>)
    requires ValidFormat(f) && builder.Holds(f, lines) && builder.start < builder.end < |lines|
    requires builder.end - builder.start == f.maxCases
             || |Encoded(f, lines, builder.start, builder.end + 1)| > f.maxBytes
    requires batchOffset == Offset(lines, builder.start) && Closed(f, lines, batches, builder.start)
    ensures r.Ok? ==> Closed(f, lines, r.value, builder.end) && |r.value| == |batches| + 1
    ensures ShortHeaders(f) ==> r.Ok?
  {
    r := Close(f, builder, batchOffset, lines, batches);
    if r.Ok? {
      assert forall i :: 0 <= i < |batches| ==> r.value[i] == batches[i];
    }
  }

  /** The spool still holds, at the recorded offset, what follows the kept header in the recorded file. */
  ghost predicate StillSpooled(spool: seq<byte>, p: Pending) {
    var file := p.digest.content;
    && |file| == p.byteCount && p.header <= file
    && var rest := file[|p.header|..];
       rest == [] || (p.offset + |rest| <= |spool| && spool[p.offset..p.offset + |rest|] == rest)
  }

  /** Rebuilds one file from its kept header and the spool, and proves its digest. */
  method Rebuild(spool: seq<byte>, p: Pending) returns (r: Result<seq<byte>, BatchError>)
    ensures r.Ok? <==> StillSpooled(spool, p)
    ensures r.Ok? ==> r.value == p.digest.content
    ensures forall f, lines: seq<seq<byte>> | spool == Flatten(lines) && Exact(f, lines, p) ::
              r == Ok(Encoded(f, lines, p.start, p.end))
  {
    forall f, lines: seq<seq<byte>> | spool == Flatten(lines) && Exact(f, lines, p)
      ensures StillSpooled(spool, p) && p.digest.content == Encoded(f, lines, p.start, p.end)
    {
      RebuildReproduces(f, spool, lines, p);
    }
    if p.byteCount < |p.header| {
      return Err(SourceChanged);
    }
    var body := p.byteCount - |p.header|;
    var from := Min(p.offset, |spool|);
    var bytes := p.header + spool[from..Min(from + body, |spool|)];
    if |bytes| != p.byteCount || Blake3(bytes) != p.digest {
      return Err(SourceChanged);
    }
    assert bytes[|p.header|..] == spool[from..from + body];
    return Ok(bytes);
  }

  /** Round trip: every file the ingest loop cut can be found again, byte for byte. */
  lemma RebuildReproduces(f: Format, spool: seq<byte>, lines: seq<seq<byte>>, p: Pending)
    requires spool == Flatten(lines) && Exact(f, lines, p)
    ensures StillSpooled(spool, p) && p.digest.content == Encoded(f, lines, p.start, p.end)
  {
    FlattenSlice(lines, p.start, p.end);
    assert p.digest.content[|p.header|..] == Flatten(lines[p.start..p.end]);
  }
}
