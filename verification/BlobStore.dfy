/**
  Immutable object creation over a lossy transport. Every request may be lost,
  refused, delayed or answered wrongly; conditional PUT (`If-None-Match: *`)
  only ever creates. One request counter covers writes, reads and retries.
 */
module BlobStore {
  import opened Base

  const MAX_REQUESTS: nat := 32

  datatype ErrorKind = Invalid | Missing | Unauthorized | Conflict | Corrupt | Unsupported | Transient | Timeout
                     | Cancelled | Exhausted | Local

  datatype ObjectRef = ObjectRef(byteCount: nat, digest: Digest, revision: Option<string>)

  datatype StorageError = StorageError(kind: ErrorKind, uncertain: bool)

  // ----- verified copies -----

  /** One answer of a byte stream; running out of answers, or an empty one, is end of file. */
  datatype Read = Data(bytes: seq<byte>) | Broken(unexpectedEof: bool) | Stalled

  datatype Ending = Eof | BrokenOff(unexpectedEof: bool) | StalledOut

  function StreamBytes(stream: seq<Read>): seq<byte> {
    if stream == [] || !stream[0].Data? || stream[0].bytes == [] then []
    else stream[0].bytes + StreamBytes(stream[1..])
  }

  function StreamEnding(stream: seq<Read>): Ending {
    if stream == [] then Eof
    else match stream[0]
      case Data(bytes) => if bytes == [] then Eof else StreamEnding(stream[1..])
      case Broken(u) => BrokenOff(u)
      case Stalled => StalledOut
  }

  /** What a copy must answer, in terms of the whole stream. */
  function Verdict(reference: ObjectRef, stream: seq<Read>): Option<ErrorKind> {
    var bytes := StreamBytes(stream);
    if |bytes| > reference.byteCount then Some(Corrupt)
    else match StreamEnding(stream)
      case Eof => if |bytes| == reference.byteCount && Blake3(bytes) == reference.digest then None else Some(Corrupt)
      case BrokenOff(u) => Some(if |bytes| > 0 || u then Corrupt else Transient)
      case StalledOut => Some(Timeout)
  }

  function Rest(stream: seq<Read>, n: nat): seq<Read>
    requires stream != [] && stream[0].Data? && 0 < n <= |stream[0].bytes|
  {
    if n == |stream[0].bytes| then stream[1..] else [Data(stream[0].bytes[n..])] + stream[1..]
  }

  lemma Split(bytes: seq<byte>, tail: seq<byte>, n: nat)
    requires n <= |bytes|
    ensures bytes + tail == bytes[..n] + (bytes[n..] + tail)
  {
    assert bytes == bytes[..n] + bytes[n..];
  }

  /** Reading n bytes takes them off the front and leaves the ending as it was. */
  lemma TakeBytes(stream: seq<Read>, n: nat)
    requires stream != [] && stream[0].Data? && 0 < n <= |stream[0].bytes|
    ensures StreamBytes(stream) == stream[0].bytes[..n] + StreamBytes(Rest(stream, n))
    ensures StreamEnding(Rest(stream, n)) == StreamEnding(stream)
  {
    var bytes, rest := stream[0].bytes, Rest(stream, n);
    if n == |bytes| {
      assert bytes[..n] == bytes;
    } else {
      assert rest[0] == Data(bytes[n..]) && rest[1..] == stream[1..];
      assert StreamBytes(rest) == bytes[n..] + StreamBytes(stream[1..]);
      Split(bytes, StreamBytes(stream[1..]), n);
    }
  }

  lemma TakeShrinks(stream: seq<Read>, n: nat)
    requires stream != [] && stream[0].Data? && 0 < n <= |stream[0].bytes|
    ensures StreamSize(Rest(stream, n)) < StreamSize(stream)
  {
    if n < |stream[0].bytes| {
      assert Rest(stream, n)[1..] == stream[1..];
    }
  }

  /** One read moves bytes from the stream to the output. */
  lemma ReadStep(all: seq<byte>, output: seq<byte>, stream: seq<Read>, n: nat)
    requires stream != [] && stream[0].Data? && 0 < n <= |stream[0].bytes|
    requires all == output + StreamBytes(stream)
    ensures all == (output + stream[0].bytes[..n]) + StreamBytes(Rest(stream, n))
  {
    TakeBytes(stream, n);
    var part, rest := stream[0].bytes[..n], StreamBytes(Rest(stream, n));
    assert output + (part + rest) == (output + part) + rest;
  }

  function StreamSize(stream: seq<Read>): nat {
    if stream == [] then 0 else 1 + (if stream[0].Data? then |stream[0].bytes| else 0) + StreamSize(stream[1..])
  }

  /** Hashes a stream through a fixed buffer and reads one extra byte to reject excess content. */
  method CopyVerified(input: seq<Read>, reference: ObjectRef, buffer: nat)
    returns (error: Option<ErrorKind>, output: seq<byte>)
    requires buffer > 0
    ensures error == Verdict(reference, input)
    ensures error.None? ==>
              output == StreamBytes(input) && |output| == reference.byteCount && Blake3(output) == reference.digest
  {
    var stream, count := input, 0;
    output := [];
    while stream != [] && stream[0] != Data([])
      invariant count == |output| <= reference.byteCount
      invariant StreamBytes(input) == output + StreamBytes(stream)
      invariant StreamEnding(input) == StreamEnding(stream)
      decreases StreamSize(stream)
    {
      var limit := Min(reference.byteCount - count + 1, buffer);
      match stream[0]
      case Broken(u) => return Some(if count > 0 || u then Corrupt else Transient), output;
      case Stalled => return Some(Timeout), output;
      case Data(bytes) =>
        var n := Min(limit, |bytes|);
        TakeBytes(stream, n);
        TakeShrinks(stream, n);
        ReadStep(StreamBytes(input), output, stream, n);
        count := count + n;
        if count > reference.byteCount {
          return Some(Corrupt), output;
        }
        output := output + bytes[..n];
        stream := Rest(stream, n);
    }
    assert output + [] == output;
    if count != reference.byteCount || Blake3(output) != reference.digest {
      return Some(Corrupt), output;
    }
    return None, output;
  }

  // ----- transport -----

  datatype Download = Download(length: nat, revision: Option<string>, stream: seq<Read>)

  /** A wait is cut short by cancellation or by the operation's deadline. */
  datatype Interruption = ByCancel | ByDeadline {
    function Kind(): ErrorKind {
      if ByCancel? then Cancelled else Timeout
    }
  }

  /** What the world does around one request. */
  datatype Event = Event(
    rival: Option<seq<byte>>,              // another writer creates the object first
    putReply: Option<ErrorKind>,           // None is success; the reply may be lost after the write
    applied: bool,                         // whether the server carried the PUT out, if the key was free
    getReply: Result<Download, ErrorKind>,
    interrupted: Option<Interruption>,     // while reading the body
    pause: Option<Interruption>)           // during a backoff

  function DownloadVerdict(reference: ObjectRef, download: Download,
                           interrupted: Option<Interruption>): Option<ErrorKind>
  {
    if download.length != reference.byteCount || (reference.revision.Some? && reference.revision != download.revision)
    then Some(Corrupt)
    else if interrupted.Some? then Some(interrupted.value.Kind())
    else Verdict(reference, download.stream)
  }

  datatype Sent =
    | Put(bytes: seq<byte>, reply: Option<ErrorKind>, before: Option<seq<byte>>, after: Option<seq<byte>>)
    | Get(answer: Result<Download, ErrorKind>, before: Option<seq<byte>>)

  /** The last request found the key absent. */
  ghost predicate AbsentLast(log: seq<Sent>) {
    log != [] && log[|log| - 1].Get? && log[|log| - 1].answer == Err(Missing)
  }

  /** Every PUT carries the same bytes, and none but the first is sent unless the request before it found nothing. */
  ghost predicate Orderly(log: seq<Sent>, bytes: seq<byte>) {
    forall k :: 0 <= k < |log| && log[k].Put? ==>
                  log[k].bytes == bytes && (k == 0 || AbsentLast(log[..k]))
  }

  lemma OrderlyPut(before: seq<Sent>, log: seq<Sent>, bytes: seq<byte>)
    requires Orderly(before, bytes) && (before != [] ==> AbsentLast(before))
    requires |log| == |before| + 1 && log[..|before|] == before && log[|before|].Put? && log[|before|].bytes == bytes
    ensures Orderly(log, bytes)
  {
    forall k | 0 <= k < |log| && log[k].Put?
      ensures log[k].bytes == bytes && (k == 0 || AbsentLast(log[..k]))
    {
      if k < |before| {
        assert log[k] == before[k] && log[..k] == before[..k];
      }
    }
  }

  lemma OrderlyGets(before: seq<Sent>, log: seq<Sent>, bytes: seq<byte>)
    requires Orderly(before, bytes) && before <= log && forall k :: |before| <= k < |log| ==> log[k].Get?
    ensures Orderly(log, bytes)
  {
    forall k | 0 <= k < |log| && log[k].Put?
      ensures log[k].bytes == bytes && (k == 0 || AbsentLast(log[..k]))
    {
      assert log[k] == before[k] && log[..k] == before[..k];
    }
  }

  /** A PUT that the server refused outright, before looking at the key. */
  predicate RefusedPut(s: Sent) {
    s.Put? && (s.reply == Some(Unauthorized) || s.reply == Some(Unsupported))
  }

  /** A GET that settles a PUT: it returned the object, or the PUT failed and the object is absent. */
  predicate Settles(put: Sent, get: Sent) {
    put.Put? && get.Get? && (get.answer.Ok? || (get.answer.error == Missing && put.reply.Some?))
  }

  ghost predicate LastPut(log: seq<Sent>, p: int) {
    0 <= p < |log| && log[p].Put? && forall k :: p < k < |log| ==> log[k].Get?
  }

  /** Nothing about this key is left to reconcile. */
  ghost predicate Settled(log: seq<Sent>) {
    forall p :: LastPut(log, p) ==> RefusedPut(log[p]) || exists g :: p < g < |log| && Settles(log[p], log[g])
  }

  class Operation {
    var remaining: nat
    var retry: nat
    var log: seq<Sent>
    var content: Option<seq<byte>>
    const requests: nat
    const script: nat -> Event

    ghost predicate Valid()
      reads this
    {
      |log| + remaining == requests
    }

    constructor (requests: nat, script: nat -> Event, content: Option<seq<byte>>)
      ensures Valid() && log == [] && remaining == requests && this.content == content
      ensures this.requests == requests && this.script == script
    {
      this.requests := requests;
      this.remaining := requests;
      this.retry := 0;
      this.log := [];
      this.script := script;
      this.content := content;
    }

    method SendPut(bytes: seq<byte>) returns (reply: Option<ErrorKind>)
      requires Valid()
      modifies this`remaining, this`log, this`content
      ensures Valid()
      ensures old(remaining) == 0 ==> reply == Some(Exhausted) && log == old(log) && content == old(content)
      ensures old(remaining) > 0 ==> |log| == |old(log)| + 1 && log[..|old(log)|] == old(log)
                                     && log[|old(log)|].Put? && log[|old(log)|].bytes == bytes
                                     && log[|old(log)|].reply == reply == script(|old(log)|).putReply
                                     && log[|old(log)|].after == content
                                     && (log[|old(log)|].before.Some? ==> content == log[|old(log)|].before)
      ensures old(content).Some? ==> content == old(content)
    {
      if remaining == 0 {
        return Some(Exhausted);
      }
      remaining := remaining - 1;
      var e := script(|log|);
      var before := if content.None? then e.rival else content;
      content := if before.None? && e.applied then Some(bytes) else before;
      log := log + [Put(bytes, e.putReply, before, content)];
      return e.putReply;
    }

    method SendGet() returns (answer: Result<Download, ErrorKind>)
      requires Valid()
      modifies this`remaining, this`log, this`content
      ensures Valid()
      ensures old(remaining) == 0 ==> answer == Err(Exhausted) && log == old(log) && content == old(content)
      ensures old(remaining) > 0 ==> log == old(log) + [Get(answer, content)] && remaining == old(remaining) - 1
                                     && answer == script(|old(log)|).getReply
      ensures old(content).Some? ==> content == old(content)
    {
      if remaining == 0 {
        return Err(Exhausted);
      }
      remaining := remaining - 1;
      var e := script(|log|);
      content := if content.None? then e.rival else content;
      log := log + [Get(e.getReply, content)];
      return e.getReply;
    }

    /** Refuses to wait when no request is left; waits are capped at two seconds. */
    method Backoff() returns (error: Option<ErrorKind>)
      modifies this`retry
      ensures error == WaitError(remaining, script(|log|).pause)
    {
      if remaining == 0 {
        return Some(Exhausted);
      }
      retry := retry + 1;
      var pause := script(|log|).pause;
      return if pause.Some? then Some(pause.value.Kind()) else None;
    }

    /** Retries a GET through transient answers only; nothing but GETs is sent. */
    method GetRetry() returns (answer: Result<Download, ErrorKind>)
      requires Valid()
      modifies this`remaining, this`log, this`content, this`retry
      ensures Valid() && old(log) <= log
      ensures Retried(log, remaining, script, |old(log)|, answer)
      ensures answer.Ok? ==> log[|log| - 1] == Get(answer, content)
      ensures answer == Err(Missing) <==> |log| > |old(log)| && log[|log| - 1].answer == Err(Missing)
      ensures old(content).Some? ==> content == old(content)
    {
      while true
        invariant Valid() && old(log) <= log
        invariant Asked(log, |old(log)|, script)
        invariant forall k :: |old(log)| <= k < |log| ==> log[k].answer == Err(Transient)
        invariant remaining > 0 || |log| == |old(log)|
        invariant old(content).Some? ==> content == old(content)
        decreases remaining
      {
        answer := SendGet();
        if answer != Err(Transient) {
          return;
        }
        var error := Backoff();
        if error.Some? {
          return Err(error.value);
        }
      }
    }

    /** Length and revision first, then the exact bytes. */
    method VerifyDownload(reference: ObjectRef, download: Download, buffer: nat)
      returns (error: Option<ErrorKind>, output: seq<byte>)
      requires buffer > 0
      ensures error == DownloadVerdict(reference, download, script(|log|).interrupted)
      ensures error.None? ==>
                output == StreamBytes(download.stream) && |output| == reference.byteCount
                && Blake3(output) == reference.digest
    {
      if download.length != reference.byteCount
         || (reference.revision.Some? && reference.revision != download.revision) {
        return Some(Corrupt), [];
      }
      var interrupted := script(|log|).interrupted;
      if interrupted.Some? {
        return Some(interrupted.value.Kind()), [];
      }
      error, output := CopyVerified(download.stream, reference, buffer);
    }

    /** One attempt: a verdict, or nothing if a fault before the first byte was waited out. */
    method ReadOnce(reference: ObjectRef, buffer: nat, ghost first: nat)
      returns (r: Option<Result<seq<byte>, ErrorKind>>)
      requires Valid() && buffer > 0 && Faults(log, first, script) && (remaining > 0 || |log| == first)
      modifies this`remaining, this`log, this`content, this`retry
      ensures Valid() && old(log) <= log
      ensures r.None? ==> Faults(log, first, script) && 0 < remaining < old(remaining)
      ensures r.Some? ==> Stopped(log, reference, remaining, script, first, r.value)
      ensures r.Some? && |log| == first ==> r.value == Err(Exhausted)
      ensures r == Some(Err(Corrupt)) ==> |log| > first && Corrupted(reference, log[|log| - 1].answer)
      ensures old(content).Some? ==> content == old(content)
    {
      var answer := GetRetry();
      if answer.Err? {
        return Some(Err(answer.error));
      }
      var error, output := VerifyDownload(reference, answer.value, buffer);
      if error.None? {
        return Some(Ok(output));
      }
      VerdictMeans(reference, answer.value.stream);
      if error.value != Transient {
        return Some(Err(error.value));
      }
      var waited := Backoff();
      return if waited.Some? then Some(Err(waited.value)) else None;
    }

    /**
      Reads an object, starting over after a transient fault; only GETs are sent.
      A fault before the first byte is transient, so a read recovers from any
      number of them that the budget allows.
     */
    method ReadObject(reference: ObjectRef, buffer: nat) returns (r: Result<seq<byte>, ErrorKind>)
      requires Valid() && buffer > 0
      modifies this`remaining, this`log, this`content, this`retry
      ensures Valid() && old(log) <= log && Asked(log, |old(log)|, script)
      ensures r.Ok? ==>
                Matched(log, reference) && r.value == StreamBytes(log[|log| - 1].answer.value.stream)
                && Blake3(r.value) == reference.digest
      ensures |log| == |old(log)| ==> remaining == 0 && r == Err(Exhausted)
      ensures r.Err? && |log| > |old(log)| ==> ReadExplains(log, reference, remaining, script, r.error)
      ensures forall k :: |old(log)| <= k < |log| - 1 ==> Fault(log[k].answer)
      ensures r == Err(Corrupt) ==> |log| > |old(log)| && Corrupted(reference, log[|log| - 1].answer)
      ensures Recovered(script, reference, |old(log)|, requests, |log|, r)
      ensures old(content).Some? ==> content == old(content)
    {
      ghost var first := |log|;
      while true
        invariant Valid() && old(log) <= log && Faults(log, first, script)
        invariant remaining > 0 || |log| == first
        invariant old(content).Some? ==> content == old(content)
        decreases remaining
      {
        var attempt := ReadOnce(reference, buffer, first);
        if attempt.Some? {
          RecoveryEnds(log, reference, remaining, script, first, attempt.value);
          return attempt.value;
        }
      }
    }

    /** Compares the object read back; one that differs is a conflict if the PUT met it. */
    method Judge(reference: ObjectRef, download: Download, buffer: nat, reply: Option<ErrorKind>, ghost p: int)
      returns (outcome: Outcome)
      requires buffer > 0 && LastPut(log, p) && log[p].reply == reply
      requires p < |log| - 1 && log[|log| - 1].answer == Ok(download)
      ensures Settled(log) && !outcome.Absent?
      ensures outcome.Created? <==> DownloadVerdict(reference, download, script(|log|).interrupted).None?
      ensures outcome.Created? ==> Matched(log, reference)
      ensures outcome.Failed? ==>
                !outcome.error.uncertain && Explained(log, reference, remaining, script, outcome.error.kind)
    {
      SettledLast(log, p);
      var e, _ := VerifyDownload(reference, download, buffer);
      if e.None? {
        return Created;
      }
      var found := if e.value == Corrupt && reply == Some(Conflict) then Conflict else e.value;
      ReadBackExplains(log, reference, remaining, script, p, e.value, found);
      return Failed(StorageError(found, false));
    }

    /** Reads the key back after a PUT whose reply was success, a conflict or a transient fault. */
    method Reconcile(reference: ObjectRef, buffer: nat, reply: Option<ErrorKind>) returns (outcome: Outcome)
      requires Valid() && buffer > 0
      requires log != [] && log[|log| - 1].Put? && log[|log| - 1].reply == reply
      requires reply.None? || reply == Some(Conflict) || reply == Some(Transient)
      modifies this`remaining, this`log, this`content, this`retry
      ensures Valid() && old(log) <= log && forall k :: |old(log)| <= k < |log| ==> log[k].Get?
      ensures old(content).Some? ==> content == old(content)
      ensures outcome.Created? ==> Settled(log) && Matched(log, reference) && content == log[|log| - 1].before
      ensures outcome.Absent? ==> Settled(log) && PutFailed(log)
      ensures outcome.Failed? ==> (outcome.error.uncertain <==> !Settled(log))
      ensures outcome.Failed? ==> Explained(log, reference, remaining, script, outcome.error.kind)
      ensures outcome.Absent? ==> reply.Some? && |log| > |old(log)| && log[|log| - 1].answer == Err(Missing)
      ensures !outcome.Created? ==> !Confirmable(script, reference, |old(log)|, requests)
    {
      ghost var p := |log| - 1;
      var answer := GetRetry();
      ConfirmedByGet(log, reference, remaining, script, p + 1, answer);
      assert LastPut(log, p);
      match answer
      case Ok(download) =>
        outcome := Judge(reference, download, buffer, reply, p);
      case Err(kind) =>
        if kind == Missing && reply.Some? {
          SettledLast(log, p);
          return Absent;
        }
        RetryExplains(log, reference, remaining, script, p, kind);
        return Failed(StorageError(kind, true));
    }

    /** One conditional PUT of the staged bytes, read back unless it was refused. */
    method PutOnce(reference: ObjectRef, staged: seq<byte>, buffer: nat) returns (outcome: Outcome)
      requires Valid() && remaining > 0 && buffer > 0
      requires Orderly(log, staged) && (log != [] ==> AbsentLast(log))
      requires Unconfirmed(log, reference, requests, script)
      modifies this`remaining, this`log, this`content, this`retry
      ensures Valid() && Orderly(log, staged) && log != []
      ensures old(content).Some? ==> content == old(content)
      ensures |log| > |old(log)|
      ensures outcome.Created? ==> Settled(log) && Matched(log, reference) && content == log[|log| - 1].before
      ensures outcome.Absent? ==> Settled(log) && AbsentLast(log) && PutFailed(log)
      ensures outcome.Failed? ==> (outcome.error.uncertain <==> !Settled(log))
      ensures outcome.Failed? ==> Explained(log, reference, remaining, script, outcome.error.kind)
      ensures !outcome.Created? ==> Unconfirmed(log, reference, requests, script)
    {
      ghost var before := log;
      var reply := SendPut(staged);
      OrderlyPut(before, log, staged);
      ghost var sent := log;
      if reply.Some? && reply.value != Conflict && reply.value != Transient {
        RefusalExplains(log, reference, remaining, script, reply.value);
        UnconfirmedStays(before, log, reference, requests, script);
        var refused := reply.value == Unauthorized || reply.value == Unsupported;
        return Failed(StorageError(reply.value, !refused));
      }
      outcome := Reconcile(reference, buffer, reply);
      OrderlyGets(sent, log, staged);
      assert log[..|before|] == before && log[|before|] == sent[|before|];
      if !outcome.Created? {
        UnconfirmedStays(before, log, reference, requests, script);
      }
    }

    /** The write, reconcile, retry loop on staged bytes. */
    method PutAndReconcile(reference: ObjectRef, staged: seq<byte>, buffer: nat) returns (error: Option<StorageError>)
      requires Valid() && log == [] && remaining > 0 && buffer > 0
      modifies this`remaining, this`log, this`content, this`retry
      ensures Valid()
      ensures old(content).Some? ==> content == old(content)
      ensures Orderly(log, staged)
      ensures error.Some? ==> (error.value.uncertain <==> !Settled(log))
      ensures log != []
      ensures error.Some? ==> Explained(log, reference, remaining, script, error.value.kind)
      ensures error.Some? ==> Unconfirmed(log, reference, requests, script)
      ensures error.None? ==> Settled(log) && Matched(log, reference) && content == log[|log| - 1].before
    {
      while true
        invariant Valid() && remaining > 0
        invariant old(content).Some? ==> content == old(content)
        invariant Orderly(log, staged) && (log != [] ==> AbsentLast(log))
        invariant Unconfirmed(log, reference, requests, script)
        decreases remaining
      {
        var outcome := PutOnce(reference, staged, buffer);
        match outcome
        case Created => return None;
        case Failed(e) => return Some(e);
        case Absent =>
          var e := Backoff();
          if e.Some? {
            AbsentExplains(log, reference, remaining, script, e.value);
            return Some(StorageError(e.value, false));
          }
      }
    }
  }

  datatype Outcome = Created | Absent | Failed(error: StorageError)

  /** From the given position on only GETs were sent, each answered as scripted. */
  ghost predicate Asked(log: seq<Sent>, first: nat, script: nat -> Event) {
    forall k :: first <= k < |log| ==> log[k].Get? && log[k].answer == script(k).getReply
  }

  /** Every request from the given position on met a fault. */
  ghost predicate Faults(log: seq<Sent>, first: nat, script: nat -> Event) {
    first <= |log| && Asked(log, first, script) && forall k :: first <= k < |log| ==> Fault(log[k].answer)
  }

  /** The stream breaks before it has delivered a byte, and not by ending early. */
  predicate BreaksAtOnce(stream: seq<Read>) {
    stream != [] && stream[0] == Broken(false)
  }

  /** The stream delivers a byte, or ends where the first byte should be. */
  predicate DeliversOrEnds(stream: seq<Read>) {
    stream == [] || stream[0].Data? || stream[0] == Broken(true)
  }

  /** A fault worth another request: the server said so, or the connection broke before the first byte. */
  predicate Fault(answer: Result<Download, ErrorKind>) {
    if answer.Ok? then BreaksAtOnce(answer.value.stream) else answer.error == Transient
  }

  predicate WrongObject(reference: ObjectRef, download: Download) {
    download.length != reference.byteCount || (reference.revision.Some? && reference.revision != download.revision)
  }

  /** What a read may call corrupt. */
  predicate Corrupted(reference: ObjectRef, answer: Result<Download, ErrorKind>) {
    if answer.Ok? then WrongObject(reference, answer.value) || DeliversOrEnds(answer.value.stream)
    else answer.error == Corrupt
  }

  /** Faults that leave time for another try. */
  ghost predicate FaultAt(script: nat -> Event, reference: ObjectRef, i: nat) {
    && Fault(script(i).getReply)
    && (script(i).getReply.Ok? ==> !WrongObject(reference, script(i).getReply.value) && script(i + 1).interrupted.None?)
    && script(i + 1).pause.None?
  }

  /** The whole object, delivered without interruption. */
  ghost predicate WholeAt(script: nat -> Event, reference: ObjectRef, i: nat) {
    && script(i).getReply.Ok? && script(i + 1).interrupted.None?
    && var download := script(i).getReply.value;
       && !WrongObject(reference, download) && StreamEnding(download.stream).Eof?
       && StreamBytes(download.stream) == reference.digest.content
       && |StreamBytes(download.stream)| == reference.byteCount
  }

  /** k faults, then the whole object. */
  ghost predicate Recovers(script: nat -> Event, reference: ObjectRef, first: nat, k: nat) {
    (forall i :: first <= i < first + k ==> FaultAt(script, reference, i)) && WholeAt(script, reference, first + k)
  }

  /** The verdict on a stream, in terms of what the stream does. */
  lemma VerdictMeans(reference: ObjectRef, stream: seq<Read>)
    ensures Verdict(reference, stream) == Some(Transient) <==> BreaksAtOnce(stream)
    ensures Verdict(reference, stream) == Some(Corrupt) ==> DeliversOrEnds(stream)
    ensures Verdict(reference, stream) == Some(Timeout) ==> StreamEnding(stream).StalledOut?
    ensures Verdict(reference, stream).None? <==>
              && StreamEnding(stream).Eof? && StreamBytes(stream) == reference.digest.content
              && |StreamBytes(stream)| == reference.byteCount
    ensures Verdict(reference, stream).Some? ==> Verdict(reference, stream).value in {Transient, Corrupt, Timeout}
  {
    if stream != [] && stream[0].Data? && stream[0].bytes != [] {
      assert |StreamBytes(stream)| > 0;
    }
  }

  /** If faults alone stand before the whole object within the budget, the read returns it, and stops there. */
  ghost predicate Recovered(script: nat -> Event, reference: ObjectRef, first: nat, requests: nat, sent: nat,
                            r: Result<seq<byte>, ErrorKind>)
  {
    forall k: nat :: Recovers(script, reference, first, k) && first + k < requests ==>
                       r == Ok(reference.digest.content) && sent == first + k + 1
  }

  /** What a read that stopped knows of its requests. */
  ghost predicate Stopped(log: seq<Sent>, reference: ObjectRef, remaining: nat, script: nat -> Event, first: nat,
                          r: Result<seq<byte>, ErrorKind>)
  {
    && first <= |log| && Asked(log, first, script)
    && (forall k :: first <= k < |log| - 1 ==> Fault(log[k].answer))
    && (|log| == first ==> remaining == 0)
    && (|log| > first ==>
          if r.Ok? then Matched(log, reference) && r.value == StreamBytes(log[|log| - 1].answer.value.stream)
          else ReadExplains(log, reference, remaining, script, r.error))
  }

  lemma RecoveryEnds(log: seq<Sent>, reference: ObjectRef, remaining: nat, script: nat -> Event, first: nat,
                     r: Result<seq<byte>, ErrorKind>)
    requires Stopped(log, reference, remaining, script, first, r)
    ensures Recovered(script, reference, first, |log| + remaining, |log|, r)
  {
    forall k: nat | Recovers(script, reference, first, k) && first + k < |log| + remaining
      ensures r == Ok(reference.digest.content) && |log| == first + k + 1
    {
      RecoveryEndsAt(log, reference, remaining, script, first, r, k);
    }
  }

  lemma RecoveryEndsAt(log: seq<Sent>, reference: ObjectRef, remaining: nat, script: nat -> Event, first: nat,
                       r: Result<seq<byte>, ErrorKind>, k: nat)
    requires Stopped(log, reference, remaining, script, first, r)
    requires Recovers(script, reference, first, k) && first + k < |log| + remaining
    ensures r == Ok(reference.digest.content) && |log| == first + k + 1
  {
    var last := |log| - 1;
    VerdictMeans(reference, script(first + k).getReply.value.stream);
    assert forall j :: first <= j < last ==> Fault(script(j).getReply);
    assert !Fault(script(first + k).getReply);
    if first <= last < first + k {
      assert FaultAt(script, reference, last) && log[last].answer == script(last).getReply;
      if log[last].answer.Ok? {
        VerdictMeans(reference, log[last].answer.value.stream);
      }
    }
  }

  ghost predicate WaitedAt(script: nat -> Event, i: nat) {
    script(i).getReply == Err(Transient) && script(i + 1).pause.None?
  }

  /** From this request on, transient refusals that are waited out, then the whole object, within the budget. */
  ghost predicate Confirms(script: nat -> Event, reference: ObjectRef, first: nat, k: nat) {
    (forall i :: first <= i < first + k ==> WaitedAt(script, i)) && WholeAt(script, reference, first + k)
  }

  ghost predicate Confirmable(script: nat -> Event, reference: ObjectRef, first: nat, requests: nat) {
    exists k: nat :: Confirms(script, reference, first, k) && first + k < requests
  }

  /** No PUT so far that was worth reading back could have been confirmed. */
  ghost predicate Unconfirmed(log: seq<Sent>, reference: ObjectRef, requests: nat, script: nat -> Event) {
    forall p: nat :: p < |log| && log[p].Put? && (log[p].reply.None? || log[p].reply.value in {Conflict, Transient}) ==>
                       !Confirmable(script, reference, p + 1, requests)
  }

  lemma UnconfirmedStays(before: seq<Sent>, log: seq<Sent>, reference: ObjectRef, requests: nat, script: nat -> Event)
    requires Unconfirmed(before, reference, requests, script) && |before| < |log| && log[..|before|] == before
    requires forall k :: |before| < k < |log| ==> log[k].Get?
    requires var reply := if log[|before|].Put? then log[|before|].reply else None;
             || (reply.Some? && reply.value !in {Conflict, Transient})
             || !Confirmable(script, reference, |before| + 1, requests)
    ensures Unconfirmed(log, reference, requests, script)
  {
    assert forall k :: 0 <= k < |before| ==> log[k] == before[k];
  }

  /** What a retried GET knows of its requests. */
  ghost predicate Retried(log: seq<Sent>, remaining: nat, script: nat -> Event, first: nat,
                          answer: Result<Download, ErrorKind>)
  {
    && first <= |log| && Asked(log, first, script)
    && (forall k :: first <= k < |log| - 1 ==> log[k].answer == Err(Transient))
    && (|log| == first ==> remaining == 0 && answer == Err(Exhausted))
    && (answer.Err? && |log| > first ==> GetExplains(log, remaining, script, answer.error))
    && (answer.Ok? ==> log[|log| - 1].answer == answer)
  }

  /** A confirmable PUT is confirmed: the retried GET ends with the whole object. */
  lemma ConfirmedByGet(log: seq<Sent>, reference: ObjectRef, remaining: nat, script: nat -> Event, first: nat,
                       answer: Result<Download, ErrorKind>)
    requires Retried(log, remaining, script, first, answer)
    ensures Confirmable(script, reference, first, |log| + remaining) ==>
              answer.Ok? && DownloadVerdict(reference, answer.value, script(|log|).interrupted).None?
  {
    if k: nat :| Confirms(script, reference, first, k) && first + k < |log| + remaining {
      ConfirmedAt(log, reference, remaining, script, first, answer, k);
      VerdictMeans(reference, answer.value.stream);
    }
  }

  lemma ConfirmedAt(log: seq<Sent>, reference: ObjectRef, remaining: nat, script: nat -> Event, first: nat,
                    answer: Result<Download, ErrorKind>, k: nat)
    requires Retried(log, remaining, script, first, answer)
    requires Confirms(script, reference, first, k) && first + k < |log| + remaining
    ensures |log| == first + k + 1 && answer == script(first + k).getReply
  {
    var last := |log| - 1;
    assert forall j :: first <= j < last ==> script(j).getReply == Err(Transient);
    assert script(first + k).getReply != Err(Transient);
    assert first <= last < first + k ==> WaitedAt(script, last);
  }

  /** The last request was a GET whose download matched length, revision and digest. */
  ghost predicate Matched(log: seq<Sent>, reference: ObjectRef) {
    && log != [] && log[|log| - 1].Get? && log[|log| - 1].answer.Ok?
    && var download := log[|log| - 1].answer.value;
       && download.length == reference.byteCount
       && (reference.revision.Some? ==> download.revision == reference.revision)
       && StreamEnding(download.stream).Eof?
       && Blake3(StreamBytes(download.stream)) == reference.digest
       && |StreamBytes(download.stream)| == reference.byteCount
  }

  /** Why a backoff did not happen. */
  function WaitError(remaining: nat, pause: Option<Interruption>): Option<ErrorKind> {
    if remaining == 0 then Some(Exhausted) else if pause.Some? then Some(pause.value.Kind()) else None
  }

  /** Why retrying a GET stopped: a final answer, or a transient one that could not be waited out. */
  ghost predicate GetExplains(log: seq<Sent>, remaining: nat, script: nat -> Event, kind: ErrorKind) {
    && log != [] && log[|log| - 1].Get? && log[|log| - 1].answer.Err?
    && if log[|log| - 1].answer.error == Transient then WaitError(remaining, script(|log|).pause) == Some(kind)
       else kind == log[|log| - 1].answer.error
  }

  /** Why a read failed: its last GET did, or the last download did not verify and could not be tried again. */
  ghost predicate ReadExplains(log: seq<Sent>, reference: ObjectRef, remaining: nat, script: nat -> Event,
                               kind: ErrorKind)
  {
    && log != [] && log[|log| - 1].Get?
    && if log[|log| - 1].answer.Err? then GetExplains(log, remaining, script, kind)
       else
         var verdict := DownloadVerdict(reference, log[|log| - 1].answer.value, script(|log|).interrupted);
         && verdict.Some?
         && if verdict.value == Transient then WaitError(remaining, script(|log|).pause) == Some(kind)
            else kind == verdict.value
  }

  /** How a failure kind follows from the last request and the PUT it belongs to. */
  ghost predicate Explains(log: seq<Sent>, reference: ObjectRef, remaining: nat, script: nat -> Event, p: int,
                           kind: ErrorKind)
    requires 0 <= p < |log| && log[p].Put?
  {
    var last := log[|log| - 1];
    if last.Put? then
      if last.reply.None? || last.reply == Some(Conflict) || last.reply == Some(Transient)
      then remaining == 0 && kind == Exhausted
      else last.reply == Some(kind)
    else if last.answer.Ok? then
      var verdict := DownloadVerdict(reference, last.answer.value, script(|log|).interrupted);
      && verdict.Some?
      && kind == if verdict.value == Corrupt && log[p].reply == Some(Conflict) then Conflict else verdict.value
    else if last.answer.error == Missing && log[p].reply.Some? then
      WaitError(remaining, script(|log|).pause) == Some(kind)
    else GetExplains(log, remaining, script, kind)
  }

  ghost predicate Explained(log: seq<Sent>, reference: ObjectRef, remaining: nat, script: nat -> Event,
                            kind: ErrorKind)
  {
    exists p :: LastPut(log, p) && Explains(log, reference, remaining, script, p, kind)
  }

  ghost predicate PutFailed(log: seq<Sent>) {
    exists p :: LastPut(log, p) && log[p].reply.Some?
  }

  lemma AbsentExplains(log: seq<Sent>, reference: ObjectRef, remaining: nat, script: nat -> Event, kind: ErrorKind)
    requires AbsentLast(log) && PutFailed(log) && WaitError(remaining, script(|log|).pause) == Some(kind)
    ensures Explained(log, reference, remaining, script, kind)
  {
    var p :| LastPut(log, p) && log[p].reply.Some?;
    assert Explains(log, reference, remaining, script, p, kind);
  }

  lemma RefusalExplains(log: seq<Sent>, reference: ObjectRef, remaining: nat, script: nat -> Event, kind: ErrorKind)
    requires log != [] && log[|log| - 1].Put? && log[|log| - 1].reply == Some(kind) && kind !in {Conflict, Transient}
    ensures Explained(log, reference, remaining, script, kind)
    ensures Settled(log) <==> kind == Unauthorized || kind == Unsupported
  {
    assert LastPut(log, |log| - 1);
    OnlyLastPut(log, |log| - 1);
    assert Explains(log, reference, remaining, script, |log| - 1, kind);
  }

  lemma ReadBackExplains(log: seq<Sent>, reference: ObjectRef, remaining: nat, script: nat -> Event, p: int,
                         verdict: ErrorKind, kind: ErrorKind)
    requires LastPut(log, p) && p < |log| - 1 && log[|log| - 1].answer.Ok?
    requires DownloadVerdict(reference, log[|log| - 1].answer.value, script(|log|).interrupted) == Some(verdict)
    requires kind == if verdict == Corrupt && log[p].reply == Some(Conflict) then Conflict else verdict
    ensures Explained(log, reference, remaining, script, kind)
  {
    assert Explains(log, reference, remaining, script, p, kind);
  }

  /** A GET that failed for good leaves its PUT unsettled. */
  lemma RetryExplains(log: seq<Sent>, reference: ObjectRef, remaining: nat, script: nat -> Event, p: int,
                      kind: ErrorKind)
    requires LastPut(log, p) && (log[p].reply.None? || log[p].reply.value in {Conflict, Transient})
    requires Retried(log, remaining, script, p + 1, Err(kind))
    requires |log| > p + 1 && log[|log| - 1].answer == Err(Missing) ==> log[p].reply.None?
    ensures Explained(log, reference, remaining, script, kind)
    ensures !Settled(log)
  {
    assert Explains(log, reference, remaining, script, p, kind);
    OnlyLastPut(log, p);
  }

  /** What a failed creation says of the object it read back: another object under a conflict, or a corrupt one. */
  lemma FailureMeans(log: seq<Sent>, reference: ObjectRef, remaining: nat, script: nat -> Event, p: int,
                     kind: ErrorKind)
    requires LastPut(log, p) && Explains(log, reference, remaining, script, p, kind)
    ensures var last := log[|log| - 1];
            && (last.Get? && last.answer.Ok? && WrongObject(reference, last.answer.value) ==>
                  kind == if log[p].reply == Some(Conflict) then Conflict else Corrupt)
            && (last.Get? && last.answer.Ok? && kind in {Conflict, Corrupt} ==> Corrupted(reference, last.answer))
            && (last.Get? && last.answer.Ok? && kind == Conflict ==> log[p].reply == Some(Conflict))
            && (last.Get? && last.answer == Err(Missing) && kind == Missing ==> log[p].reply.None?)
            && (last.Get? && last.answer == Err(Transient) && kind == Exhausted ==> remaining == 0)
  {
    var last := log[|log| - 1];
    if last.Get? && last.answer.Ok? {
      VerdictMeans(reference, last.answer.value.stream);
    }
  }

  /** A GET that served the stored object, and served all of it if it ended cleanly. */
  ghost predicate HonestGet(s: Sent) {
    s.Get? && (s.answer.Ok? && StreamEnding(s.answer.value.stream).Eof? ==>
                 s.before == Some(StreamBytes(s.answer.value.stream)))
  }

  lemma OnlyLastPut(log: seq<Sent>, p: int)
    requires LastPut(log, p)
    ensures Settled(log) <==> RefusedPut(log[p]) || exists g :: p < g < |log| && Settles(log[p], log[g])
  {
  }

  lemma SettledLast(log: seq<Sent>, p: int)
    requires LastPut(log, p) && p < |log| - 1 && Settles(log[p], log[|log| - 1])
    ensures Settled(log)
  {
    OnlyLastPut(log, p);
  }

  /** Why nothing is sent at all. */
  function LocalRefusal(reference: ObjectRef, input: seq<Read>, preflight: Option<ErrorKind>,
                        requests: nat): Option<ErrorKind>
  {
    if preflight.Some? then preflight
    else if reference.revision.Some? || requests == 0 || requests > MAX_REQUESTS then Some(Invalid)
    else Verdict(reference, input)
  }

  /**
    Creates an immutable object. Success means a GET matched the exact object;
    failure reports uncertainty exactly when the last PUT is unsettled; an
    existing object is never replaced and the request budget is never exceeded.
   */
  method Create(reference: ObjectRef, input: seq<Read>, preflight: Option<ErrorKind>, requests: nat, buffer: nat,
                script: nat -> Event, content: Option<seq<byte>>)
    returns (r: Result<ObjectRef, StorageError>, op: Operation)
    requires buffer > 0
    ensures fresh(op) && op.Valid() && op.requests == requests && |op.log| <= requests
    ensures content.Some? ==> op.content == content
    ensures r.Ok? ==> r.value == reference && Matched(op.log, reference)
    ensures r.Err? ==> (r.error.uncertain <==> !Settled(op.log))
    ensures r.Err? && op.log != [] ==> Explained(op.log, reference, op.remaining, script, r.error.kind)
    ensures r.Err? ==> Unconfirmed(op.log, reference, requests, script)
    ensures reference.revision.Some? || requests > 32 ==> op.log == [] && r.Err?
    ensures r.Ok? && HonestGet(op.log[|op.log| - 1]) ==> op.content == Some(StreamBytes(input))
    ensures op.log == [] <==> LocalRefusal(reference, input, preflight, requests).Some?
    ensures op.log == [] ==> r == Err(StorageError(LocalRefusal(reference, input, preflight, requests).value, false))
    ensures Orderly(op.log, StreamBytes(input))
  {
    op := new Operation(requests, script, content);
    if preflight.Some? {
      return Err(StorageError(preflight.value, false)), op;
    }
    if reference.revision.Some? || requests == 0 || requests > MAX_REQUESTS {
      return Err(StorageError(Invalid, false)), op;
    }
    var staging, staged := CopyVerified(input, reference, buffer);
    if staging.Some? {
      return Err(StorageError(staging.value, false)), op;
    }
    var error := op.PutAndReconcile(reference, staged, buffer);
    if error.Some? {
      return Err(error.value), op;
    }
    return Ok(reference), op;
  }
}
