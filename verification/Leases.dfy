/**
  Storage deadlines under a 300-second ledger lease. Times are readings of one
  steady clock; a task may pause for any length between two readings.
 */
module Leases {
  import opened Base

  const LEASE: real := 300.0
  const OPERATION: real := 120.0
  const RENEW_AFTER: real := 60.0
  const CHECKPOINT_AFTER: real := 30.0
  const ADMISSION: real := CHECKPOINT_AFTER + OPERATION
  const KEEP_ALIVE: real := 30.0

  /** Readings of one budget request, in program order. */
  datatype Request = Request(minted: real, now: real, commit: real)

  ghost predicate Ordered(r: Request) {
    r.minted <= r.now <= r.commit
  }

  datatype Clock = Clock(nextRenewal: real, leaseUntil: Option<real>)

  /** The deadline is minted first; the renewal stamp is taken before the ledger commits. */
  function Renewed(c: Clock, r: Request): Clock {
    if r.now >= c.nextRenewal then Clock(r.now + RENEW_AFTER, Some(r.commit + LEASE)) else c
  }

  /** Verification reads renew by elapsed time. */
  class ReadLease {
    var nextRenewal: real
    ghost var leaseUntil: Option<real>

    ghost function State(): Clock
      reads this
    {
      Clock(nextRenewal, leaseUntil)
    }

    constructor (now: real)
      ensures State() == Clock(now, None)
    {
      nextRenewal := now;
      leaseUntil := None;
    }

    /** A refused renewal hands out no deadline. */
    method Budget(r: Request, authority: bool) returns (deadline: Option<real>)
      requires Ordered(r)
      modifies this
      ensures deadline.None? <==> r.now >= old(nextRenewal) && !authority
      ensures deadline.Some? ==> deadline.value == r.minted + OPERATION && State() == Renewed(old(State()), r)
      ensures deadline.None? ==> State() == old(State())
    {
      var minted := r.minted + OPERATION;
      if r.now >= nextRenewal {
        if !authority {
          return None;
        }
        nextRenewal := r.now + RENEW_AFTER;
        leaseUntil := Some(r.commit + LEASE);
      }
      return Some(minted);
    }
  }

  /** What holds between requests: the first request must renew, later ones lean on a recent renewal. */
  ghost predicate Covered(c: Clock, clock: real) {
    match c.leaseUntil
    case None => c.nextRenewal <= clock
    case Some(until) => c.nextRenewal - RENEW_AFTER + LEASE <= until
  }

  lemma GrantInsideLease(c: Clock, clock: real, r: Request)
    requires Covered(c, clock) && clock <= r.minted && Ordered(r)
    ensures var next := Renewed(c, r);
            && Covered(next, r.commit)
            && next.leaseUntil.Some?
            && r.minted + OPERATION < next.leaseUntil.value
  {
  }

  ghost predicate Timeline(clock: real, requests: seq<Request>) {
    && (forall i :: 0 <= i < |requests| ==> Ordered(requests[i]) && clock <= requests[i].minted)
    && (forall i, j :: 0 <= i < |requests| && 0 <= j < |requests| && i < j ==> requests[i].commit <= requests[j].minted)
  }

  function After(c: Clock, requests: seq<Request>): Clock {
    if requests == [] then c else Renewed(After(c, requests[..|requests| - 1]), requests[|requests| - 1])
  }

  /** Over a whole ingestion, with any pauses, every read deadline lies strictly inside the lease last renewed. */
  lemma {:induction false} ReadDeadlines(start: real, requests: seq<Request>, k: nat)
    requires Timeline(start, requests) && k < |requests|
    ensures var state := After(Clock(start, None), requests[..k + 1]);
            && Covered(state, requests[k].commit)
            && state.leaseUntil.Some?
            && requests[k].minted + OPERATION < state.leaseUntil.value
  {
    var before := requests[..k];
    assert requests[..k + 1][..k] == before;
    if k > 0 {
      ReadDeadlines(start, requests, k - 1);
      assert requests[k - 1].commit <= requests[k].minted;
      GrantInsideLease(After(Clock(start, None), before), requests[k - 1].commit, requests[k]);
    } else {
      GrantInsideLease(Clock(start, None), start, requests[0]);
    }
  }

  /** Each file keeps its ordinary allowance, capped by the window admitted before registration. */
  function TransferDeadline(now: real, admitted: real): real {
    if now + OPERATION <= admitted then now + OPERATION else admitted
  }

  /**
    Group uploads: the window is minted at `started`, registration commits the
    renewal later, and files start at any time after that, however late.
   */
  lemma FlushDeadlines(started: real, commit: real, fileStarts: real)
    requires started <= commit <= fileStarts
    ensures var deadline := TransferDeadline(fileStarts, started + ADMISSION);
            && deadline < commit + LEASE
            && (fileStarts <= started + CHECKPOINT_AFTER ==> deadline == fileStarts + OPERATION)
            && (fileStarts > started + ADMISSION ==> deadline < fileStarts)
  {
  }

  // ----- run planning stamps its renewal after the commit -----

  /** Planning reads: renew when the stamp is 30 seconds old, then stamp again after the commit returned. */
  datatype Session = Session(stamp: real, leaseUntil: real)

  predicate Reuses(s: Session, now: real) {
    now - s.stamp < KEEP_ALIVE
  }

  /** The ledger renews only a lease that is still live at the commit. */
  function KeepAlive(s: Session, now: real, commit: real, stamp: real): Option<Session> {
    if Reuses(s, now) then Some(s)
    else if commit < s.leaseUntil then Some(Session(stamp, commit + LEASE))
    else None
  }

  /** A live lease renewed at 0 and stamped at 200 lets a read start with a deadline past the new lease. */
  lemma KeepAliveCanOutliveLease()
    ensures var s := KeepAlive(Session(-60.0, 240.0), -10.0, 0.0, 200.0);
            s.Some? && Reuses(s.value, 229.0) && 229.0 + OPERATION >= s.value.leaseUntil
  {
  }

  /**
    A due renewal is granted exactly while the lease is live; reads that rely on
    its stamp then stay inside the lease for every later start if and only if
    the stamp was taken at most 150 seconds after the commit.
   */
  lemma KeepAliveExactCondition(s: Session, now: real, commit: real, stamp: real)
    requires now <= commit <= stamp && !Reuses(s, now)
    ensures var next := KeepAlive(s, now, commit, stamp);
            && (next.Some? <==> commit < s.leaseUntil)
            && (next.Some? ==>
                  ((forall minted :: stamp <= minted && Reuses(next.value, minted) ==>
                      minted + OPERATION < next.value.leaseUntil)
                   <==> stamp - commit <= 150.0))
  {
    var next := KeepAlive(s, now, commit, stamp);
    if next.Some? && stamp - commit > 150.0 {
      var late := if stamp - commit >= 180.0 then stamp else commit + 180.0;
      assert stamp <= late && Reuses(next.value, late) && late + OPERATION >= next.value.leaseUntil;
    }
  }
}
