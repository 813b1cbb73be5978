/**
  Admission over whole runs. The control ledger keeps its invariants whatever
  happens to the placements; activation means that the activating owner found
  every placement exact; a run fails only where a placement differed.
 */
module AdmissionRuns {
  import opened Base
  import opened ShardPlan
  import opened ChunkManifest
  import opened PlacementCheck
  import opened Admission

  ghost function Reached(plan: Plan, actions: seq<Action>): World
    requires ValidPlan(plan)
  {
    Run(plan, Initial(), actions)
  }

  lemma {:induction false} LedgerHolds(plan: Plan, actions: seq<Action>)
    requires ValidPlan(plan)
    ensures LedgerInv(plan, Reached(plan, actions))
  {
    if actions == [] {
      assert StateAt(plan.n, 0) == map[];
    } else {
      LedgerHolds(plan, actions[..|actions| - 1]);
      LedgerStep(plan, Reached(plan, actions[..|actions| - 1]), actions[|actions| - 1]);
    }
  }

  predicate Undisturbed(actions: seq<Action>) {
    forall i :: 0 <= i < |actions| ==> !actions[i].Disturb?
  }

  lemma {:induction false} PlacementsHold(plan: Plan, actions: seq<Action>)
    requires ValidPlan(plan) && Undisturbed(actions)
    ensures PlacementInv(plan, Reached(plan, actions))
  {
    if actions != [] {
      var init := actions[..|actions| - 1];
      PlacementsHold(plan, init);
      LedgerHolds(plan, init);
      PlacementStep(plan, Reached(plan, init), actions[|actions| - 1]);
    }
  }

  // ----- what the read-back decides -----

  /** For a live owner a differing placement, and nothing else, fails the run at its check. */
  lemma DifferenceFails(plan: Plan, w: World, g: nat, a: Alias)
    requires ValidPlan(plan) && Held(w, g) && g in w.owners && w.owners[g].Verifying? && a in w.owners[g].todo
    ensures var after := Step(plan, w, VerifyPlacement(g, a));
            && (after.status == Failed <==> !Exact(plan, w, a))
            && (after.status == Failed ==> after.live.None? && g !in after.owners)
            && (after.status != Failed ==> after.owners[g] == Verifying(w.owners[g].todo - {a}))
  {
  }

  /** At step j owner g read placement a and found exactly the plan. */
  ghost predicate FoundExact(plan: Plan, actions: seq<Action>, j: int, g: nat, a: Alias)
    requires ValidPlan(plan)
  {
    0 <= j < |actions| && actions[j] == VerifyPlacement(g, a) && Exact(plan, Reached(plan, actions[..j]), a)
  }

  lemma FoundEarlier(plan: Plan, actions: seq<Action>, n: nat, j: int, g: nat, a: Alias)
    requires ValidPlan(plan) && n <= |actions| && FoundExact(plan, actions[..n], j, g, a)
    ensures FoundExact(plan, actions, j, g, a)
  {
    assert actions[..n][..j] == actions[..j];
  }

  /** A placement is off an owner's list only because that owner found it exact. */
  lemma {:induction false} CheckedOff(plan: Plan, actions: seq<Action>, g: nat, a: Alias) returns (j: int)
    requires ValidPlan(plan) && a in plan.alias.Values
    requires var w := Reached(plan, actions); g in w.owners && w.owners[g].Verifying? && a !in w.owners[g].todo
    ensures FoundExact(plan, actions, j, g, a)
  {
    var n := |actions| - 1;
    var init, w := actions[..n], Reached(plan, actions[..n]);
    if g in w.owners && w.owners[g].Verifying? && a !in w.owners[g].todo {
      j := CheckedOff(plan, init, g, a);
      FoundEarlier(plan, actions, n, j, g, a);
    } else {
      CheckStep(plan, w, actions[n], g, a);
      j := n;
    }
  }

  /** The only step that takes a placement off an owner's list. */
  lemma CheckStep(plan: Plan, w: World, action: Action, g: nat, a: Alias)
    requires ValidPlan(plan) && a in plan.alias.Values
    requires !(g in w.owners && w.owners[g].Verifying? && a !in w.owners[g].todo)
    requires var after := Step(plan, w, action);
             g in after.owners && after.owners[g].Verifying? && a !in after.owners[g].todo
    ensures action == VerifyPlacement(g, a) && Exact(plan, w, a)
  {
  }

  /** Step k activates the run for owner g, who holds the lease and has found every placement exact. */
  ghost predicate ActivatedAt(plan: Plan, actions: seq<Action>, k: int, g: nat)
    requires ValidPlan(plan)
  {
    && 0 <= k < |actions| && actions[k] == Activate(g)
    && var w := Reached(plan, actions[..k]);
       && Held(w, g) && w.cursor == Total(plan) && w.saved == StateAt(plan.n, Total(plan))
       && forall a | a in plan.alias.Values :: exists j :: j < k && FoundExact(plan, actions, j, g, a)
  }

  lemma {:induction false} ActiveWasVerified(plan: Plan, actions: seq<Action>) returns (k: int, g: nat)
    requires ValidPlan(plan) && Reached(plan, actions).status == Active
    ensures ActivatedAt(plan, actions, k, g)
  {
    var n := |actions| - 1;
    var init, w := actions[..n], Reached(plan, actions[..n]);
    if w.status == Active {
      k, g := ActiveWasVerified(plan, init);
      ActivatedEarlier(plan, actions, n, k, g);
    } else {
      LedgerHolds(plan, init);
      k := n;
      g := ActivateStep(plan, w, actions[n]);
      AllFound(plan, actions, n, g);
    }
  }

  lemma ActivateStep(plan: Plan, w: World, action: Action) returns (g: nat)
    requires ValidPlan(plan) && LedgerInv(plan, w) && w.status != Active && Step(plan, w, action).status == Active
    ensures action == Activate(g) && Held(w, g) && g in w.owners && w.owners[g] == Verifying({})
    ensures w.cursor == Total(plan) && w.saved == StateAt(plan.n, Total(plan))
  {
    g := action.g;
    ActivateKeeps(plan, w, g);
  }

  lemma AllFound(plan: Plan, actions: seq<Action>, n: nat, g: nat)
    requires ValidPlan(plan) && n <= |actions|
    requires var w := Reached(plan, actions[..n]); g in w.owners && w.owners[g] == Verifying({})
    ensures forall a | a in plan.alias.Values :: exists j :: j < n && FoundExact(plan, actions, j, g, a)
  {
    forall a | a in plan.alias.Values
      ensures exists j :: j < n && FoundExact(plan, actions, j, g, a)
    {
      var j := CheckedOff(plan, actions[..n], g, a);
      FoundEarlier(plan, actions, n, j, g, a);
    }
  }

  lemma ActivatedEarlier(plan: Plan, actions: seq<Action>, n: nat, k: int, g: nat)
    requires ValidPlan(plan) && n <= |actions| && ActivatedAt(plan, actions[..n], k, g)
    ensures ActivatedAt(plan, actions, k, g)
  {
    assert actions[..n][..k] == actions[..k];
    forall a | a in plan.alias.Values
      ensures exists j :: j < k && FoundExact(plan, actions, j, g, a)
    {
      var j :| j < k && FoundExact(plan, actions[..n], j, g, a);
      FoundEarlier(plan, actions, n, j, g, a);
    }
  }

  /** At step k a live owner met a placement that differs from the plan, or a row that contradicts a seeded chunk. */
  ghost predicate DifferedAt(plan: Plan, actions: seq<Action>, k: int)
    requires ValidPlan(plan)
  {
    && 0 <= k < |actions|
    && var w := Reached(plan, actions[..k]);
       match actions[k]
       case VerifyPlacement(g, a) => Held(w, g) && !Exact(plan, w, a)
       case Seed(g, a) => Held(w, g) && g in w.owners && w.owners[g].Seeding? && Conflict(plan, w, w.owners[g], a)
       case _ => false
  }

  lemma {:induction false} FailedMeansDifference(plan: Plan, actions: seq<Action>) returns (k: int)
    requires ValidPlan(plan) && Reached(plan, actions).status == Failed
    ensures DifferedAt(plan, actions, k)
  {
    var n := |actions| - 1;
    var init, w := actions[..n], Reached(plan, actions[..n]);
    if w.status == Failed {
      k := FailedMeansDifference(plan, init);
      assert actions[..n][..k] == actions[..k];
    } else {
      k := n;
      LedgerHolds(plan, init);
      FailStep(plan, w, actions[n]);
    }
  }

  lemma FailStep(plan: Plan, w: World, action: Action)
    requires ValidPlan(plan) && LedgerInv(plan, w) && w.status != Failed && Step(plan, w, action).status == Failed
    ensures match action
            case VerifyPlacement(g, a) => Held(w, g) && !Exact(plan, w, a)
            case Seed(g, a) => Held(w, g) && g in w.owners && w.owners[g].Seeding? && Conflict(plan, w, w.owners[g], a)
            case _ => false
  {
    if action.BeginVerify? {
      ExpectedIsWholePlan(plan);
      assert OwnerOk(plan, w, action.g, w.owners[action.g]);
    }
  }

  // ----- what an exact placement keeps -----

  /** Only a disturbance of this placement can make an exact placement differ. */
  lemma ExactStays(plan: Plan, w: World, action: Action, a: Alias)
    requires ValidPlan(plan) && LedgerInv(plan, w) && Exact(plan, w, a)
    requires !(action.Disturb? && action.alias == a)
    ensures Exact(plan, Step(plan, w, action), a)
  {
    if action.Seed? && action.alias == a && Step(plan, w, action).placements != w.placements {
      SeedStaysExact(plan, w, action.g, a);
    } else {
      RowsUntouched(plan, w, action, a);
    }
  }

  lemma RowsUntouched(plan: Plan, w: World, action: Action, a: Alias)
    requires ValidPlan(plan) && !(action.Disturb? && action.alias == a)
    requires action.Seed? && action.alias == a ==> Step(plan, w, action).placements == w.placements
    ensures Rows(Step(plan, w, action), a) == Rows(w, a)
  {
  }

  lemma SeedStaysExact(plan: Plan, w: World, g: nat, a: Alias)
    requires ValidPlan(plan) && LedgerInv(plan, w) && Exact(plan, w, a)
    requires Step(plan, w, Seed(g, a)).placements != w.placements
    ensures Exact(plan, Step(plan, w, Seed(g, a)), a)
  {
    assert OwnerOk(plan, w, g, w.owners[g]);
    SeedExact(plan, w, Step(plan, w, Seed(g, a)), w.owners[g], a);
  }

  /** Seeding an exact placement again adds nothing. */
  lemma SeedExact(plan: Plan, w: World, after: World, o: Owner, a: Alias)
    requires ValidPlan(plan) && Exact(plan, w, a) && o.Seeding? && 0 <= o.next <= o.end <= Total(plan)
    requires after.placements
          == w.placements[a := Rows(w, a) + set c | c in PageRows(plan, o.next, o.end, a) :: Row(c, true)]
    ensures Exact(plan, after, a)
  {
    PageRowsHas(plan, o.next, o.end, a);
    forall r | r in Visible(plan, after, a)
      ensures r in PlannedRows(plan, a)
    {
      if r in Rows(w, a) {
        assert r in Visible(plan, w, a);
      }
    }
    assert Visible(plan, w, a) <= Visible(plan, after, a);
  }

  predicate LeftAlone(actions: seq<Action>, from: int, a: Alias) {
    forall i :: 0 <= i < |actions| && from <= i ==> !(actions[i].Disturb? && actions[i].alias == a)
  }

  /** A placement found exact and left alone since is exact at the end. */
  lemma {:induction false} ExactSince(plan: Plan, actions: seq<Action>, j: int, g: nat, a: Alias)
    requires ValidPlan(plan) && FoundExact(plan, actions, j, g, a) && LeftAlone(actions, j, a)
    ensures Exact(plan, Reached(plan, actions), a)
  {
    var n := |actions| - 1;
    var init := actions[..n];
    if j < n {
      assert init[..j] == actions[..j];
      ExactSince(plan, init, j, g, a);
    } else {
      assert init == actions[..j];
    }
    LedgerHolds(plan, init);
    ExactStays(plan, Reached(plan, init), actions[n], a);
  }

  // ----- the main theorem -----

  /**
    Over every run, with crashes between any two steps, replaced owners still
    seeding and placements disturbed at any time: the cursor lies on a page
    boundary and the saved state is the fold of exactly the chunks before it; an
    active run was activated by a live owner that had found every placement
    exact; a failed run met a difference.
   */
  lemma AdmissionSafety(plan: Plan, actions: seq<Action>)
    requires ValidPlan(plan)
    ensures var w := Reached(plan, actions);
            && Boundary(plan, w.cursor) && 0 <= w.cursor <= Total(plan)
            && w.saved == StateAt(plan.n, w.cursor)
            && (w.status == Active ==> w.cursor == Total(plan) && exists k, g :: ActivatedAt(plan, actions, k, g))
            && (w.status == Failed ==> exists k :: DifferedAt(plan, actions, k))
  {
    LedgerHolds(plan, actions);
    if Reached(plan, actions).status == Active {
      var k, g := ActiveWasVerified(plan, actions);
    } else if Reached(plan, actions).status == Failed {
      var k := FailedMeansDifference(plan, actions);
    }
  }

  /**
    Without disturbance everything before the cursor is in its placement, no
    owner marks the run failed, and an active run's placements hold exactly the
    plan.
   */
  lemma UndisturbedSafety(plan: Plan, actions: seq<Action>)
    requires ValidPlan(plan) && Undisturbed(actions)
    ensures var w := Reached(plan, actions);
            && (forall i :: 0 <= i < w.cursor ==> Stored(plan, i) in Rows(w, AliasOf(plan, i)))
            && w.status != Failed
            && (w.status == Active ==> forall a :: Rows(w, a) == PlannedRows(plan, a))
  {
    LedgerHolds(plan, actions);
    PlacementsHold(plan, actions);
    var w := Reached(plan, actions);
    if w.status == Active {
      forall a
        ensures Rows(w, a) == PlannedRows(plan, a)
      {
        CompleteIsExact(plan, w, a);
      }
    }
  }

  // ----- the paged comparison decides set equality -----

  /** The order of the read-back query, which no two stored rows share. */
  ghost predicate Ascending(chunks: seq<ChunkIdentity>) {
    forall i, j :: 0 <= i < |chunks| && 0 <= j < |chunks| && i < j ==> After(chunks[j], KeyOf(chunks[i]))
  }

  /** Two lists in that order with the same elements are the same list. */
  lemma {:induction false} SameElements(a: seq<ChunkIdentity>, b: seq<ChunkIdentity>)
    requires Ascending(a) && Ascending(b)
    requires forall c :: c in a <==> c in b
    ensures a == b
    decreases |a|
  {
    if a == [] {
      HasElement(b);
    } else {
      var c := a[|a| - 1];
      assert c in b;
      SameLast(a, b);
      var s, t := a[..|a| - 1], b[..|b| - 1];
      forall x
        ensures x in s <==> x in t
      {
        InitElements(a, x);
        InitElements(b, x);
      }
      SameElements(s, t);
      assert a == s + [c] && b == t + [c];
    }
  }

  lemma HasElement(b: seq<ChunkIdentity>)
    ensures b != [] ==> exists c :: c in b
  {
    if b != [] {
      assert b[0] in b;
    }
  }

  lemma SameLast(a: seq<ChunkIdentity>, b: seq<ChunkIdentity>)
    requires Ascending(a) && Ascending(b) && a != [] && b != []
    requires forall c :: c in a <==> c in b
    ensures a[|a| - 1] == b[|b| - 1]
  {
    assert b[|b| - 1] in a && a[|a| - 1] in b;
    var i :| 0 <= i < |a| && a[i] == b[|b| - 1];
    var j :| 0 <= j < |b| && b[j] == a[|a| - 1];
    if i < |a| - 1 && j < |b| - 1 {
      assert After(a[|a| - 1], KeyOf(a[i])) && After(b[|b| - 1], KeyOf(b[j]));
    }
  }

  /** All but the last element, as a set. */
  lemma InitElements(a: seq<ChunkIdentity>, x: ChunkIdentity)
    requires Ascending(a) && a != []
    ensures x in a[..|a| - 1] <==> x in a && x != a[|a| - 1]
  {
    var n := |a| - 1;
    if x in a[..n] {
      var i :| 0 <= i < n && a[i] == x;
      assert After(a[n], KeyOf(a[i]));
    }
  }

  lemma {:induction false} PlannedOfHas(n: int, s: int, k: nat)
    requires 0 < n <= I32_MAX
    ensures forall c :: c in PlannedOf(n, s, k) <==> exists i :: 0 <= i < k && i % SHARDS == s && c == Planned(n, i)
    ensures forall i :: 0 <= i < |PlannedOf(n, s, k)| ==> PlannedOf(n, s, k)[i].start < k * CHUNK_CASES
    ensures Ascending(PlannedOf(n, s, k))
  {
    if k > 0 {
      PlannedOfHas(n, s, k - 1);
      forall c | c in PlannedOf(n, s, k)
        ensures exists i :: 0 <= i < k && i % SHARDS == s && c == Planned(n, i)
      {
        if c !in PlannedOf(n, s, k - 1) {
          assert (k - 1) % SHARDS == s && c == Planned(n, k - 1);
        }
      }
      PlannedShard(n, s, k - 1);
    }
  }

  lemma {:induction false} PlannedShard(n: int, s: int, k: nat)
    ensures forall c | c in PlannedOf(n, s, k) :: c.shard == s
  {
    if k > 0 {
      PlannedShard(n, s, k - 1);
    }
  }

  lemma {:induction false} OfShardHas(rows: seq<Row>, s: int)
    ensures forall c :: c in OfShard(rows, s) <==> c.shard == s && exists i :: 0 <= i < |rows| && rows[i].chunk == c
  {
    if rows != [] {
      var n := |rows| - 1;
      OfShardHas(rows[..n], s);
      forall c | c in OfShard(rows, s)
        ensures c.shard == s && exists i :: 0 <= i < |rows| && rows[i].chunk == c
      {
        if c in OfShard(rows[..n], s) {
          var i :| 0 <= i < n && rows[..n][i].chunk == c;
          assert rows[i].chunk == c;
        } else {
          assert rows[n].chunk == c;
        }
      }
      forall c: ChunkIdentity | c.shard == s && exists i :: 0 <= i < |rows| && rows[i].chunk == c
        ensures c in OfShard(rows, s)
      {
        var i :| 0 <= i < |rows| && rows[i].chunk == c;
        if i < n {
          assert rows[..n][i].chunk == c;
        }
      }
    }
  }

  lemma {:induction false} OfShardAscends(rows: seq<Row>, s: int)
    requires SortedRows(rows)
    ensures Ascending(OfShard(rows, s))
  {
    if rows != [] {
      var n := |rows| - 1;
      OfShardAscends(rows[..n], s);
      OfShardHas(rows[..n], s);
      var init := OfShard(rows[..n], s);
      forall i | 0 <= i < |init|
        ensures After(rows[n].chunk, KeyOf(init[i]))
      {
        assert init[i] in init;
        var k :| 0 <= k < n && rows[..n][k].chunk == init[i];
        assert After(rows[n].chunk, KeyOf(rows[k].chunk));
      }
    }
  }

  ghost predicate AssignedShards(plan: Plan, a: Alias, shards: seq<int>) {
    forall s :: s in shards <==> s in plan.alias && plan.alias[s] == a
  }

  /**
    The paged, per-shard comparison of a placement's rows passes exactly when
    the placement is exact, whatever else its database holds.
   */
  lemma MembershipIsExact(plan: Plan, w: World, a: Alias, rows: seq<Row>, shards: seq<int>)
    requires ValidPlan(plan) && AssignedShards(plan, a, shards) && SortedRows(rows)
    requires forall r :: r in rows <==> r in Visible(plan, w, a)
    ensures ExactMembership(plan.n, rows, shards) <==> Exact(plan, w, a)
  {
    if Exact(plan, w, a) {
      forall k | 0 <= k < |shards|
        ensures OfShard(rows, shards[k]) == PlannedOf(plan.n, shards[k], Total(plan))
      {
        assert shards[k] in shards;
        ExactShard(plan, w, a, rows, shards[k]);
      }
      forall i | 0 <= i < |rows|
        ensures rows[i].valid
      {
        assert rows[i] in rows;
      }
    } else if ExactMembership(plan.n, rows, shards) {
      MembersArePlanned(plan, w, a, rows, shards);
    }
  }

  lemma ExactShard(plan: Plan, w: World, a: Alias, rows: seq<Row>, s: int)
    requires ValidPlan(plan) && Exact(plan, w, a) && SortedRows(rows) && s in plan.alias && plan.alias[s] == a
    requires forall r :: r in rows <==> r in Visible(plan, w, a)
    ensures OfShard(rows, s) == PlannedOf(plan.n, s, Total(plan))
  {
    PlannedOfHas(plan.n, s, Total(plan));
    OfShardHas(rows, s);
    OfShardAscends(rows, s);
    forall c | c in OfShard(rows, s)
      ensures c in PlannedOf(plan.n, s, Total(plan))
    {
      var i :| 0 <= i < |rows| && rows[i].chunk == c;
      assert rows[i] in rows && rows[i] in PlannedRows(plan, a);
    }
    forall c | c in PlannedOf(plan.n, s, Total(plan))
      ensures c in OfShard(rows, s)
    {
      var i :| 0 <= i < Total(plan) && i % SHARDS == s && c == Planned(plan.n, i);
      assert Stored(plan, i) in PlannedRows(plan, a) && Stored(plan, i) in rows;
    }
    SameElements(OfShard(rows, s), PlannedOf(plan.n, s, Total(plan)));
  }

  lemma MembersArePlanned(plan: Plan, w: World, a: Alias, rows: seq<Row>, shards: seq<int>)
    requires ValidPlan(plan) && AssignedShards(plan, a, shards) && ExactMembership(plan.n, rows, shards)
    requires forall r :: r in rows <==> r in Visible(plan, w, a)
    ensures Exact(plan, w, a)
  {
    forall r | r in Visible(plan, w, a)
      ensures r in PlannedRows(plan, a)
    {
      VisibleIsPlanned(plan, w, a, rows, shards, r);
    }
    forall r | r in PlannedRows(plan, a)
      ensures r in Visible(plan, w, a)
    {
      var i :| 0 <= i < Total(plan) && AliasOf(plan, i) == a && r == Stored(plan, i);
      PlannedIsVisible(plan, w, a, rows, shards, i);
    }
  }

  lemma VisibleIsPlanned(plan: Plan, w: World, a: Alias, rows: seq<Row>, shards: seq<int>, r: Row)
    requires ValidPlan(plan) && AssignedShards(plan, a, shards) && ExactMembership(plan.n, rows, shards)
    requires r in rows && r in Visible(plan, w, a)
    ensures r in PlannedRows(plan, a)
  {
    var s := r.chunk.shard;
    var k :| 0 <= k < |shards| && shards[k] == s;
    OfShardHas(rows, s);
    PlannedOfHas(plan.n, s, Total(plan));
    var j :| 0 <= j < |rows| && rows[j] == r;
    assert r.chunk in OfShard(rows, s);
    var i :| 0 <= i < Total(plan) && i % SHARDS == s && r.chunk == Planned(plan.n, i);
    assert r == Stored(plan, i);
  }

  lemma PlannedIsVisible(plan: Plan, w: World, a: Alias, rows: seq<Row>, shards: seq<int>, i: int)
    requires ValidPlan(plan) && AssignedShards(plan, a, shards) && ExactMembership(plan.n, rows, shards)
    requires 0 <= i < Total(plan) && AliasOf(plan, i) == a
    requires forall r :: r in rows <==> r in Visible(plan, w, a)
    ensures Stored(plan, i) in Visible(plan, w, a)
  {
    var s := i % SHARDS;
    assert s in plan.alias && plan.alias[s] == a;
    var k :| 0 <= k < |shards| && shards[k] == s;
    OfShardHas(rows, s);
    PlannedOfHas(plan.n, s, Total(plan));
    assert Planned(plan.n, i) in OfShard(rows, s);
    var j :| 0 <= j < |rows| && rows[j].chunk == Planned(plan.n, i);
    assert rows[j] in rows && rows[j].valid;
  }
}
