/**
  Who may move the upload ledger: a live lease keeps every other owner out,
  only its holder registers or acknowledges files, and after any run a new
  owner can still bring the upload to its end.
 */
module UploadAuthority {
  import opened Base
  import opened Upload

  /** The owner whose step an action is. */
  function Actor(action: Action): Option<nat> {
    match action
    case Claim => None
    case Expire => None
    case _ => Some(action.g)
  }

  /** A live lease ends only by expiry, which also stands for giving it up; nobody holds one directly afterwards. */
  lemma LeaseLost(files: seq<File>, w: World, g: nat, action: Action)
    requires w.live == Some(g)
    ensures var after := Step(files, w, action);
            && after.live == (if action == Expire then None else Some(g))
            && after.generation == w.generation
  {
  }

  /** A generation is minted only by a claim while nobody holds the lease. */
  lemma ClaimNeedsFreeLease(files: seq<File>, w: World, action: Action)
    ensures var after := Step(files, w, action);
            after.generation != w.generation || (w.live.None? && after.live.Some?) ==>
              && action == Claim && w.live.None?
              && after.generation == w.generation + 1 && after.live == Some(after.generation)
              && after.acked == w.acked && after.registered == w.registered && after.cursor == w.cursor
  {
  }

  /** Over every run without an expiry the lease stays with its owner and no newer generation appears. */
  lemma {:induction false} LeaseExcludes(files: seq<File>, w: World, actions: seq<Action>, g: nat)
    requires w.live == Some(g) && Expire !in actions
    ensures var after := Run(files, w, actions); after.live == Some(g) && after.generation == w.generation
    decreases |actions|
  {
    if actions != [] {
      LeaseLost(files, w, g, actions[0]);
      LeaseExcludes(files, Step(files, w, actions[0]), actions[1..], g);
    }
  }

  /** An owner without the lease changes nothing but remote bytes and its own standing. */
  lemma FencedOut(files: seq<File>, w: World, h: nat, action: Action)
    requires Actor(action) == Some(h) && w.live != Some(h)
    ensures var after := Step(files, w, action);
            && after.registered == w.registered && after.acked == w.acked && after.cursor == w.cursor
            && after.live == w.live && after.generation == w.generation
            && (after.remote != w.remote ==> action.Write?)
            && forall g :: g in w.owners && g != h ==> g in after.owners && after.owners[g] == w.owners[g]
  {
  }

  /** Files are acknowledged only by the holder's checkpoint, and exactly those it went through. */
  lemma AcknowledgedByHolder(files: seq<File>, w: World, action: Action)
    ensures var after := Step(files, w, action);
            after.acked != w.acked || after.cursor != w.cursor ==>
              && action.Checkpoint? && w.live == Some(action.g) && action.g in w.owners
              && var o := w.owners[action.g];
                 && o.Planned? && o.changed && o.first < o.end
                 && (forall i: nat :: i in after.acked <==> i in w.acked || o.first <= i < o.end)
                 && (forall i: nat :: o.first <= i < o.end ==> i in w.registered)
  {
    if action.Checkpoint? && action.g in w.owners && w.owners[action.g].Planned? {
      var o := w.owners[action.g];
      SpanIs(o.first, o.end);
    }
  }

  /** Files are registered only by the holder's plan, and exactly those of its open group. */
  lemma RegisteredByHolder(files: seq<File>, w: World, action: Action)
    ensures var after := Step(files, w, action);
            after.registered != w.registered ==>
              && action.Plan? && w.live == Some(action.g) && action.g in w.owners
              && var o := w.owners[action.g];
                 && o.At? && o.next < o.hi
                 && forall i: nat :: i in after.registered <==> i in w.registered || o.next <= i < o.hi
  {
    if action.Plan? && action.g in w.owners && w.owners[action.g].At? {
      SpanIs(w.owners[action.g].next, w.owners[action.g].hi);
    }
  }

  lemma SpanIs(lo: nat, hi: nat)
    ensures forall i: nat :: i in Span(lo, hi) <==> lo <= i < hi
  {
  }

  // ----- groups and the acknowledgement walk -----

  ghost predicate SmallGroups(w: World) {
    forall g :: g in w.owners ==>
      var o := w.owners[g]; o.hi - (if o.At? then o.next else o.first) <= 64
  }

  lemma StepSmallGroups(files: seq<File>, w: World, action: Action)
    requires ValidFiles(files) && Inv(files, w) && SmallGroups(w)
    ensures SmallGroups(Step(files, w, action))
  {
    if action.Checkpoint? && action.g in w.owners {
      assert OwnerOk(files, w, action.g, w.owners[action.g]);
    }
  }

  /** Over every run no owner works on more than 64 files at once. */
  lemma {:induction false} GroupsStaySmall(files: seq<File>, w: World, actions: seq<Action>)
    requires ValidFiles(files) && Inv(files, w) && SmallGroups(w)
    ensures SmallGroups(Run(files, w, actions))
    decreases |actions|
  {
    if actions != [] {
      StepSmallGroups(files, w, actions[0]);
      StepKeeps(files, w, actions[0]);
      GroupsStaySmall(files, Step(files, w, actions[0]), actions[1..]);
    }
  }

  /** Files acknowledged before, none past the cursor. */
  ghost predicate Replayed(files: seq<File>, w: World, i: nat, m: nat) {
    forall j: nat :: i <= j < m && j < |files| ==> j in w.acked && files[j].end <= w.cursor
  }

  predicate NewAt(files: seq<File>, w: World, m: nat, cursor: int, j: nat) {
    j < |files| && j !in w.acked && files[j].start == if j <= m then cursor else files[j - 1].end
  }

  /** New files, each starting where the one before it ends and the first at the cursor. */
  ghost predicate New(files: seq<File>, w: World, m: nat, end: nat, cursor: int) {
    forall j: nat :: m <= j < end ==> NewAt(files, w, m, cursor, j)
  }

  lemma NewStep(files: seq<File>, w: World, i: nat, end: nat, cursor: int)
    requires i < end <= |files|
    ensures New(files, w, i, end, cursor) <==>
              i !in w.acked && files[i].start == cursor && New(files, w, i + 1, end, files[i].end)
  {
    if New(files, w, i, end, cursor) {
      assert NewAt(files, w, i, cursor, i);
      var next, from := i + 1, files[i].end;
      forall j: nat | next <= j < end
        ensures NewAt(files, w, next, from, j)
      {
        assert NewAt(files, w, i, cursor, j);
      }
    } else if i !in w.acked && files[i].start == cursor {
      var j: nat :| i <= j < end && !NewAt(files, w, i, cursor, j);
      assert !NewAt(files, w, i + 1, files[i].end, j);
    }
  }

  lemma {:induction false} NewWalk(files: seq<File>, w: World, i: nat, end: nat, cursor: int, count: nat)
    requires i <= end <= |files| && count > 0
    ensures Advance(files, w, i, end, cursor, count)
         == if New(files, w, i, end, cursor) then Some(if i == end then cursor else files[end - 1].end) else None
    decreases end - i
  {
    if i < end {
      NewStep(files, w, i, end, cursor);
      if i !in w.acked {
        NewWalk(files, w, i + 1, end, files[i].end, count + 1);
      }
    }
  }

  /** In any ledger, the walk accepts exactly files acknowledged before and then new ones on from the cursor. */
  lemma {:induction false} WalkMeans(files: seq<File>, w: World, i: nat, end: nat)
    requires i <= end <= |files|
    ensures Advance(files, w, i, end, w.cursor, 0).Some? <==>
              exists m: nat :: i <= m <= end && Replayed(files, w, i, m) && New(files, w, m, end, w.cursor)
    decreases end - i
  {
    if i == end {
      assert Replayed(files, w, i, i) && New(files, w, i, end, w.cursor);
    } else if i in w.acked {
      WalkMeans(files, w, i + 1, end);
      if m: nat :| i + 1 <= m <= end && Replayed(files, w, i + 1, m) && New(files, w, m, end, w.cursor) {
        assert files[i].end <= w.cursor ==> Replayed(files, w, i, m);
      }
      forall m: nat | i <= m <= end && Replayed(files, w, i, m) && New(files, w, m, end, w.cursor)
        ensures i + 1 <= m && files[i].end <= w.cursor && Replayed(files, w, i + 1, m)
      {
        if m == i {
          NewStep(files, w, i, end, w.cursor);
        }
      }
    } else {
      NewStep(files, w, i, end, w.cursor);
      NewWalk(files, w, i + 1, end, files[i].end, 1);
      if New(files, w, i, end, w.cursor) {
        assert Replayed(files, w, i, i);
      }
    }
  }

  // ----- completion -----

  /** One file as a group of its own: open, register, write or skip, acknowledge. */
  function FileActions(g: nat, i: nat, acked: bool): seq<Action> {
    [OpenGroup(g, i + 1), Plan(g), if acked then Skip(g) else Write(g), Checkpoint(g)]
  }

  function Drive(files: seq<File>, w: World, g: nat, i: nat): seq<Action>
    decreases |files| - i
  {
    if i >= |files| then []
    else
      var turn := FileActions(g, i, i in w.acked);
      turn + Drive(files, Run(files, w, turn), g, i + 1)
  }

  ghost predicate Driving(files: seq<File>, w: World, g: nat, i: nat) {
    Inv(files, w) && w.live == Some(g) && g in w.owners && w.owners[g] == At(i, i)
  }

  lemma RunCons(files: seq<File>, w: World, action: Action, rest: seq<Action>)
    ensures Run(files, w, [action] + rest) == Run(files, Step(files, w, action), rest)
  {
    assert ([action] + rest)[1..] == rest;
  }

  lemma {:induction false} RunAppend(files: seq<File>, w: World, xs: seq<Action>, ys: seq<Action>)
    ensures Run(files, w, xs + ys) == Run(files, Run(files, w, xs), ys)
    decreases |xs|
  {
    if xs == [] {
      assert xs + ys == ys;
    } else {
      assert (xs + ys)[1..] == xs[1..] + ys;
      RunAppend(files, Step(files, w, xs[0]), xs[1..], ys);
    }
  }

  ghost predicate Holds(files: seq<File>, w: World, g: nat, o: Owner) {
    Inv(files, w) && w.live == Some(g) && g in w.owners && w.owners[g] == o
  }

  lemma Acknowledged(files: seq<File>, w: World, g: nat, o: Owner)
    requires ValidFiles(files) && Holds(files, w, g, o) && o.Planned? && o.first < o.end == o.hi
    ensures Driving(files, Run(files, w, [Checkpoint(g)]), g, o.end)
  {
    CheckpointAccepted(files, w, g);
    CheckpointKeeps(files, w, g);
    LeaseLost(files, w, g, Checkpoint(g));
    RunCons(files, w, Checkpoint(g), []);
    assert [Checkpoint(g)] + [] == [Checkpoint(g)];
  }

  lemma Written(files: seq<File>, w: World, g: nat, o: Owner)
    requires ValidFiles(files) && Holds(files, w, g, o) && o.Planned? && o.end < o.hi && o.end !in o.flags
    ensures Holds(files, Step(files, w, Write(g)), g, o.(end := o.end + 1, changed := true))
  {
    assert OwnerOk(files, w, g, o);
    WriteKeeps(files, w, g);
  }

  lemma Skipped(files: seq<File>, w: World, g: nat, o: Owner)
    requires ValidFiles(files) && Holds(files, w, g, o) && o.Planned? && o.end < o.hi && o.end in o.flags
    ensures Holds(files, Step(files, w, Skip(g)), g, o.(end := o.end + 1))
  {
    SkipKeeps(files, w, g);
  }

  lemma Registered(files: seq<File>, w: World, g: nat, lo: nat, hi: nat)
    requires ValidFiles(files) && Holds(files, w, g, At(lo, hi)) && lo < hi
    ensures Holds(files, Step(files, w, Plan(g)), g, Planned(lo, hi, w.acked * Span(lo, hi), lo, false))
  {
    PlanKeeps(files, w, g);
  }

  /** Any group of up to 64 of the next files can be opened. */
  lemma Opened(files: seq<File>, w: World, g: nat, i: nat, hi: nat)
    requires ValidFiles(files) && Driving(files, w, g, i) && i < hi <= |files| && hi - i <= 64
    ensures var open := Step(files, w, OpenGroup(g, hi));
            Holds(files, open, g, At(i, hi)) && open.acked == w.acked
  {
    assert OwnerOk(files, w, g, w.owners[g]);
    Settle(files, w, Step(files, w, OpenGroup(g, hi)), g);
  }

  /** A registered file is written, or skipped if it was acknowledged before, and then acknowledged. */
  lemma Delivered(files: seq<File>, w: World, g: nat, i: nat, o: Owner)
    requires ValidFiles(files) && Holds(files, w, g, o)
    requires o.Planned? && o.first == o.end == i && o.hi == i + 1
    ensures var action := if i in o.flags then Skip(g) else Write(g);
            Driving(files, Run(files, w, [action] + [Checkpoint(g)]), g, i + 1)
  {
    if i in o.flags {
      Skipped(files, w, g, o);
      Acknowledged(files, Step(files, w, Skip(g)), g, o.(end := i + 1));
      RunCons(files, w, Skip(g), [Checkpoint(g)]);
    } else {
      Written(files, w, g, o);
      Acknowledged(files, Step(files, w, Write(g)), g, o.(end := i + 1, changed := true));
      RunCons(files, w, Write(g), [Checkpoint(g)]);
    }
  }

  lemma OneFile(files: seq<File>, w: World, g: nat, i: nat)
    requires ValidFiles(files) && Driving(files, w, g, i) && i < |files|
    ensures Driving(files, Run(files, w, FileActions(g, i, i in w.acked)), g, i + 1)
  {
    var open := Step(files, w, OpenGroup(g, i + 1));
    var rest := [if i in w.acked then Skip(g) else Write(g)] + [Checkpoint(g)];
    Opened(files, w, g, i, i + 1);
    RunCons(files, w, OpenGroup(g, i + 1), [Plan(g)] + rest);
    OpenedFile(files, open, g, i);
    assert FileActions(g, i, i in w.acked) == [OpenGroup(g, i + 1)] + ([Plan(g)] + rest);
  }

  lemma OpenedFile(files: seq<File>, w: World, g: nat, i: nat)
    requires ValidFiles(files) && Holds(files, w, g, At(i, i + 1))
    ensures var rest := [if i in w.acked then Skip(g) else Write(g)] + [Checkpoint(g)];
            Driving(files, Run(files, w, [Plan(g)] + rest), g, i + 1)
  {
    var flags := w.acked * Span(i, i + 1);
    SpanIs(i, i + 1);
    Registered(files, w, g, i, i + 1);
    Delivered(files, Step(files, w, Plan(g)), g, i, Planned(i, i + 1, flags, i, false));
    RunCons(files, w, Plan(g), [if i in w.acked then Skip(g) else Write(g)] + [Checkpoint(g)]);
  }

  lemma {:induction false} DriveCompletes(files: seq<File>, w: World, g: nat, i: nat)
    requires ValidFiles(files) && Driving(files, w, g, i) && i <= |files|
    ensures Driving(files, Run(files, w, Drive(files, w, g, i)), g, |files|)
    decreases |files| - i
  {
    if i < |files| {
      var turn := FileActions(g, i, i in w.acked);
      OneFile(files, w, g, i);
      DriveCompletes(files, Run(files, w, turn), g, i + 1);
      RunAppend(files, w, turn, Drive(files, Run(files, w, turn), g, i + 1));
    }
  }

  /** What a finished owner's ledger says: every file acknowledged and stored exactly, the cursor at the end. */
  lemma FinishedMeans(files: seq<File>, w: World, g: nat)
    requires ValidFiles(files) && Driving(files, w, g, |files|)
    ensures forall i: nat :: i < |files| ==> i in w.acked && i in w.remote && w.remote[i] == files[i].bytes
    ensures w.cursor == if files == [] then 0 else files[|files| - 1].end
  {
    assert OwnerOk(files, w, g, w.owners[g]);
    SpanIs(0, |files|);
    var k: nat :| PrefixAcked(files, w.acked, w.cursor, k);
    SpanOrder(|files|, k);
  }

  /** After any run whatever, one new owner can acknowledge every file. */
  lemma {:induction false} UploadCompletes(files: seq<File>, actions: seq<Action>)
    requires ValidFiles(files)
    ensures var claimed := Run(files, Initial(), actions + [Expire, Claim]);
            var done := Run(files, claimed, Drive(files, claimed, claimed.generation, 0));
            && (forall i: nat :: i < |files| ==>
                  i in done.acked && i in done.remote && done.remote[i] == files[i].bytes)
            && done.cursor == (if files == [] then 0 else files[|files| - 1].end)
  {
    var before := Run(files, Initial(), actions);
    assert PrefixAcked(files, {}, 0, 0);
    RunKeeps(files, Initial(), actions);
    RunAppend(files, Initial(), actions, [Expire, Claim]);
    StepKeeps(files, before, Expire);
    var freed := Step(files, before, Expire);
    StepKeeps(files, freed, Claim);
    var claimed := Step(files, freed, Claim);
    assert [Expire, Claim][1..] == [Claim] && [Claim][1..] == [];
    assert Run(files, freed, [Claim]) == claimed;
    var g := claimed.generation;
    DriveCompletes(files, claimed, g, 0);
    FinishedMeans(files, Run(files, claimed, Drive(files, claimed, g, 0)), g);
  }
}
