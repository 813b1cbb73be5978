/**
  Admission can always be finished: from every undisturbed state of a run that
  is still being created, a new owner can take over, seed what is missing, read
  every placement back and activate the run.
 */
module AdmissionProgress {
  import opened Base
  import opened ShardPlan
  import opened ChunkManifest
  import opened PlacementCheck
  import opened Admission
  import opened AdmissionRuns

  lemma {:induction false} RunConcat(plan: Plan, w: World, a: seq<Action>, b: seq<Action>)
    requires ValidPlan(plan)
    ensures Run(plan, w, a + b) == Run(plan, Run(plan, w, a), b)
    decreases |b|
  {
    if b == [] {
      assert a + b == a;
    } else {
      assert (a + b)[..|a + b| - 1] == a + b[..|b| - 1];
      RunConcat(plan, w, a, b[..|b| - 1]);
    }
  }

  lemma RunOne(plan: Plan, w: World, action: Action)
    requires ValidPlan(plan)
    ensures Run(plan, w, [action]) == Step(plan, w, action)
  {
    assert [action][..0] == [];
  }

  /** The lease holder at work over undisturbed placements. */
  ghost predicate Working(plan: Plan, w: World, g: nat)
    requires ValidPlan(plan)
  {
    LedgerInv(plan, w) && PlacementInv(plan, w) && Held(w, g) && g in w.owners
  }

  ghost predicate Led(plan: Plan, w: World, g: nat, actions: seq<Action>, after: World)
    requires ValidPlan(plan)
  {
    Undisturbed(actions) && after == Run(plan, w, actions) && Working(plan, after, g)
  }

  lemma OneStep(plan: Plan, w: World, g: nat, action: Action)
    requires ValidPlan(plan) && LedgerInv(plan, w) && PlacementInv(plan, w) && !action.Disturb?
    requires Held(Step(plan, w, action), g) && g in Step(plan, w, action).owners
    ensures Led(plan, w, g, [action], Step(plan, w, action))
  {
    RunOne(plan, w, action);
    LedgerStep(plan, w, action);
    PlacementStep(plan, w, action);
  }

  lemma ThenLed(plan: Plan, w: World, mid: World, after: World, g: nat, a: seq<Action>, b: seq<Action>)
    requires ValidPlan(plan) && Led(plan, w, g, a, mid) && Led(plan, mid, g, b, after)
    ensures Led(plan, w, g, a + b, after)
  {
    RunConcat(plan, w, a, b);
  }

  // ----- one page -----

  /** Seeds every placement a page still needs. */
  lemma {:induction false} SeedAll(plan: Plan, w: World, g: nat) returns (actions: seq<Action>, after: World)
    requires ValidPlan(plan) && Working(plan, w, g) && w.owners[g].Seeding?
    ensures Led(plan, w, g, actions, after)
    ensures after.owners[g] == w.owners[g].(todo := {}) && after.cursor == w.cursor
    decreases |w.owners[g].todo|
  {
    var o := w.owners[g];
    if o.todo == {} {
      actions, after := [], w;
    } else {
      var a :| a in o.todo;
      var mid := SeedOne(plan, w, g, a);
      var rest;
      rest, after := SeedAll(plan, mid, g);
      actions := [Seed(g, a)] + rest;
      ThenLed(plan, w, mid, after, g, [Seed(g, a)], rest);
    }
  }

  lemma SeedOne(plan: Plan, w: World, g: nat, a: Alias) returns (after: World)
    requires ValidPlan(plan) && Working(plan, w, g) && w.owners[g].Seeding? && a in w.owners[g].todo
    ensures Led(plan, w, g, [Seed(g, a)], after)
    ensures after.owners[g] == w.owners[g].(todo := w.owners[g].todo - {a}) && after.cursor == w.cursor
  {
    assert OwnerOk(plan, w, g, w.owners[g]);
    NoConflict(plan, w, w.owners[g], a);
    after := Step(plan, w, Seed(g, a));
    OneStep(plan, w, g, Seed(g, a));
  }

  /** The page that follows a boundary short of the end. */
  lemma {:induction false} FindPage(plan: Plan, next: int, i: int) returns (end: int)
    requires ValidPlan(plan) && 0 <= i < |plan.ends| && next < Total(plan)
    requires forall j :: 0 <= j < i ==> plan.ends[j] <= next
    ensures NextPage(plan, next, end)
    decreases |plan.ends| - i
  {
    if next < plan.ends[i] {
      end := plan.ends[i];
      forall e | e in plan.ends
        ensures next < e ==> end <= e
      {
        var j :| 0 <= j < |plan.ends| && plan.ends[j] == e;
      }
    } else {
      end := FindPage(plan, next, i + 1);
    }
  }

  /** One page started, seeded and acknowledged. */
  lemma PageDone(plan: Plan, w: World, g: nat) returns (actions: seq<Action>, after: World)
    requires ValidPlan(plan) && Working(plan, w, g) && w.owners[g].Between? && w.cursor < Total(plan)
    ensures Led(plan, w, g, actions, after) && after.owners[g].Between? && w.cursor < after.cursor
  {
    assert OwnerOk(plan, w, g, w.owners[g]);
    var end := FindPage(plan, w.cursor, 0);
    var started := PageStarted(plan, w, g, end);
    var seeds, seeded := SeedAll(plan, started, g);
    ThenLed(plan, w, started, seeded, g, [StartPage(g, end)], seeds);
    after := PageAcknowledged(plan, seeded, g);
    actions := ([StartPage(g, end)] + seeds) + [Acknowledge(g)];
    ThenLed(plan, w, seeded, after, g, [StartPage(g, end)] + seeds, [Acknowledge(g)]);
  }

  lemma PageStarted(plan: Plan, w: World, g: nat, end: int) returns (after: World)
    requires ValidPlan(plan) && Working(plan, w, g) && w.owners[g].Between? && NextPage(plan, w.cursor, end)
    ensures Led(plan, w, g, [StartPage(g, end)], after)
    ensures after.owners[g].Seeding? && after.owners[g].end == end && after.cursor == w.cursor
  {
    assert OwnerOk(plan, w, g, w.owners[g]);
    EndsInTotal(plan, end);
    FoldRangeAdvances(plan.n, w.cursor, end);
    after := Step(plan, w, StartPage(g, end));
    OneStep(plan, w, g, StartPage(g, end));
  }

  lemma PageAcknowledged(plan: Plan, w: World, g: nat) returns (after: World)
    requires ValidPlan(plan) && Working(plan, w, g) && w.owners[g].Seeding? && w.owners[g].todo == {}
    ensures Led(plan, w, g, [Acknowledge(g)], after)
    ensures after.owners[g].Between? && after.cursor == w.owners[g].end
  {
    assert OwnerOk(plan, w, g, w.owners[g]);
    after := Step(plan, w, Acknowledge(g));
    OneStep(plan, w, g, Acknowledge(g));
  }

  // ----- all pages, all placements -----

  lemma {:induction false} AllPages(plan: Plan, w: World, g: nat) returns (actions: seq<Action>, after: World)
    requires ValidPlan(plan) && Working(plan, w, g) && w.owners[g].Between?
    ensures Led(plan, w, g, actions, after) && after.owners[g].Between? && after.cursor == Total(plan)
    decreases Total(plan) - w.cursor
  {
    if w.cursor == Total(plan) {
      actions, after := [], w;
    } else {
      var first, mid := PageDone(plan, w, g);
      var rest;
      rest, after := AllPages(plan, mid, g);
      actions := first + rest;
      ThenLed(plan, w, mid, after, g, first, rest);
    }
  }

  /** Reads back every placement still to be checked; each is exact. */
  lemma {:induction false} VerifyAll(plan: Plan, w: World, g: nat) returns (actions: seq<Action>, after: World)
    requires ValidPlan(plan) && Working(plan, w, g) && w.owners[g].Verifying?
    ensures Led(plan, w, g, actions, after) && after.owners[g] == Verifying({})
    decreases |w.owners[g].todo|
  {
    var todo := w.owners[g].todo;
    if todo == {} {
      actions, after := [], w;
    } else {
      var a :| a in todo;
      var mid := VerifyOne(plan, w, g, a);
      var rest;
      rest, after := VerifyAll(plan, mid, g);
      actions := [VerifyPlacement(g, a)] + rest;
      ThenLed(plan, w, mid, after, g, [VerifyPlacement(g, a)], rest);
    }
  }

  lemma VerifyOne(plan: Plan, w: World, g: nat, a: Alias) returns (after: World)
    requires ValidPlan(plan) && Working(plan, w, g) && w.owners[g].Verifying? && a in w.owners[g].todo
    ensures Led(plan, w, g, [VerifyPlacement(g, a)], after)
    ensures after.owners[g] == Verifying(w.owners[g].todo - {a})
  {
    assert OwnerOk(plan, w, g, w.owners[g]);
    CompleteIsExact(plan, w, a);
    after := Step(plan, w, VerifyPlacement(g, a));
    OneStep(plan, w, g, VerifyPlacement(g, a));
  }

  /** From loading the plan to the last placement read back. */
  lemma WorkThrough(plan: Plan, w: World, g: nat) returns (actions: seq<Action>, after: World)
    requires ValidPlan(plan) && Working(plan, w, g) && w.owners[g].Claimed?
    ensures Led(plan, w, g, actions, after) && after.owners[g] == Verifying({})
  {
    var loaded := Step(plan, w, Load(g));
    OneStep(plan, w, g, Load(g));
    var pages, seeded := AllPages(plan, loaded, g);
    var begun := VerifyBegun(plan, seeded, g);
    var checks, checked := VerifyAll(plan, begun, g);
    after := checked;
    actions := (([Load(g)] + pages) + [BeginVerify(g)]) + checks;
    ThenLed(plan, w, loaded, seeded, g, [Load(g)], pages);
    ThenLed(plan, w, seeded, begun, g, [Load(g)] + pages, [BeginVerify(g)]);
    ThenLed(plan, w, begun, after, g, ([Load(g)] + pages) + [BeginVerify(g)], checks);
  }

  lemma VerifyBegun(plan: Plan, w: World, g: nat) returns (after: World)
    requires ValidPlan(plan) && Working(plan, w, g) && w.owners[g].Between? && w.cursor == Total(plan)
    ensures Led(plan, w, g, [BeginVerify(g)], after) && after.owners[g].Verifying?
  {
    assert OwnerOk(plan, w, g, w.owners[g]);
    ExpectedIsWholePlan(plan);
    after := Step(plan, w, BeginVerify(g));
    OneStep(plan, w, g, BeginVerify(g));
  }

  /** The old lease runs out and a new owner claims the run. */
  lemma TakeOver(plan: Plan, w: World) returns (g: nat, after: World)
    requires ValidPlan(plan) && LedgerInv(plan, w) && PlacementInv(plan, w) && w.status == Creating
    ensures Led(plan, w, g, [Expire, Claim], after) && after.owners[g] == Claimed
  {
    var expired := Step(plan, w, Expire);
    LedgerStep(plan, w, Expire);
    PlacementStep(plan, w, Expire);
    g, after := expired.generation + 1, Step(plan, expired, Claim);
    OneStep(plan, expired, g, Claim);
    RunOne(plan, w, Expire);
    RunConcat(plan, w, [Expire], [Claim]);
    assert [Expire] + [Claim] == [Expire, Claim];
  }

  lemma Finish(plan: Plan, w: World, g: nat)
    requires ValidPlan(plan) && Working(plan, w, g) && w.owners[g] == Verifying({})
    ensures Step(plan, w, Activate(g)).status == Active
  {
    assert OwnerOk(plan, w, g, w.owners[g]);
    ExpectedIsWholePlan(plan);
  }

  /**
    Every undisturbed run that is neither active nor cancelled can still be
    activated, whatever its owners have done or left undone.
   */
  lemma CanActivate(plan: Plan, actions: seq<Action>) returns (more: seq<Action>)
    requires ValidPlan(plan) && Undisturbed(actions) && Reached(plan, actions).status == Creating
    ensures Undisturbed(actions + more) && Reached(plan, actions + more).status == Active
  {
    var w := Reached(plan, actions);
    LedgerHolds(plan, actions);
    PlacementsHold(plan, actions);
    var g, claimed := TakeOver(plan, w);
    var work, checked := WorkThrough(plan, claimed, g);
    ThenLed(plan, w, claimed, checked, g, [Expire, Claim], work);
    Finish(plan, checked, g);
    var through := [Expire, Claim] + work;
    more := through + [Activate(g)];
    RunOne(plan, checked, Activate(g));
    RunConcat(plan, w, through, [Activate(g)]);
    RunConcat(plan, Initial(), actions, more);
  }

  /** The smallest run: one case, one chunk, one placement. */
  lemma SmallestRunActivates() returns (actions: seq<Action>)
    ensures var plan := Plan(1, [1], map[0 := "a"]);
            ValidPlan(plan) && Reached(plan, actions).status == Active
  {
    var plan := Plan(1, [1], map[0 := "a"]);
    assert Total(plan) == 1;
    actions := CanActivate(plan, []);
    assert [] + actions == actions;
  }
}
