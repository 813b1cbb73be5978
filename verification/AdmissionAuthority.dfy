/**
  Who may do what during admission: a live lease keeps every other owner out,
  the ledger moves only for its holder, and an owner without the lease can do
  nothing but add rows to placements.
 */
module AdmissionAuthority {
  import opened Base
  import opened ShardPlan
  import opened ChunkManifest
  import opened PlacementCheck
  import opened Admission
  import opened AdmissionRuns

  /** The owner whose step an action is. */
  function Actor(action: Action): Option<nat> {
    match action
    case Claim => None
    case Expire => None
    case Cancel => None
    case Disturb(_, _) => None
    case _ => Some(action.g)
  }

  /** The only ways a lease ends: time, its holder letting go, or its holder settling the run. */
  ghost predicate EndsLease(plan: Plan, w: World, g: nat, action: Action)
    requires ValidPlan(plan)
  {
    match action
    case Expire => true
    case Release(h) => h == g
    case Activate(h) => h == g && Step(plan, w, action).status == Active
    case Seed(h, _) => h == g && Step(plan, w, action).status == Failed
    case BeginVerify(h) => h == g && Step(plan, w, action).status == Failed
    case VerifyPlacement(h, _) => h == g && Step(plan, w, action).status == Failed
    case _ => false
  }

  /** A live lease is lost only so, and nobody holds one directly afterwards. */
  lemma LeaseLost(plan: Plan, w: World, g: nat, action: Action)
    requires ValidPlan(plan) && w.live == Some(g)
    ensures var after := Step(plan, w, action);
            && (after.live != Some(g) ==> EndsLease(plan, w, g, action) && after.live == None)
            && after.generation == w.generation
  {
  }

  /** A generation is minted only by a claim of a run in creation that nobody holds, and it holds the lease then. */
  lemma ClaimNeedsFreeLease(plan: Plan, w: World, action: Action)
    requires ValidPlan(plan)
    ensures var after := Step(plan, w, action);
            && (after.generation != w.generation || (w.live.None? && after.live.Some?) ==>
                  && action == Claim && w.live.None? && w.status == Creating
                  && after.generation == w.generation + 1 && after.live == Some(after.generation))
            && (action == Claim && w.live.None? && w.status == Creating ==> after.live == Some(w.generation + 1))
  {
  }

  /** From step i to step j nothing ended the lease of g. */
  ghost predicate LeaseUnbroken(plan: Plan, actions: seq<Action>, i: nat, j: nat, g: nat)
    requires ValidPlan(plan) && i <= j <= |actions|
  {
    forall k :: i <= k < j ==> !EndsLease(plan, Reached(plan, actions[..k]), g, actions[k])
  }

  /** Over every run, a lease that is not ended stays with its owner and no newer generation appears. */
  lemma {:induction false} LeaseExcludes(plan: Plan, actions: seq<Action>, i: nat, j: nat, g: nat)
    requires ValidPlan(plan) && i <= j <= |actions|
    requires Reached(plan, actions[..i]).live == Some(g) && LeaseUnbroken(plan, actions, i, j, g)
    ensures Reached(plan, actions[..j]).live == Some(g)
    ensures Reached(plan, actions[..j]).generation == Reached(plan, actions[..i]).generation
    decreases j
  {
    if i < j {
      LeaseExcludes(plan, actions, i, j - 1, g);
      ReachedNext(plan, actions, j - 1);
      LeaseLost(plan, Reached(plan, actions[..j - 1]), g, actions[j - 1]);
    }
  }

  lemma ReachedNext(plan: Plan, actions: seq<Action>, k: nat)
    requires ValidPlan(plan) && k < |actions|
    ensures Reached(plan, actions[..k + 1]) == Step(plan, Reached(plan, actions[..k]), actions[k])
  {
    assert actions[..k + 1][..k] == actions[..k];
  }

  /** Over every run the lease, if there is one, belongs to the newest generation. */
  lemma {:induction false} LeaseIsNewest(plan: Plan, actions: seq<Action>)
    requires ValidPlan(plan)
    ensures var w := Reached(plan, actions); w.live.Some? ==> w.live.value == w.generation
  {
    if actions != [] {
      var n := |actions| - 1;
      LeaseIsNewest(plan, actions[..n]);
      var w := Reached(plan, actions[..n]);
      ClaimNeedsFreeLease(plan, w, actions[n]);
      if w.live.Some? {
        LeaseLost(plan, w, w.live.value, actions[n]);
      }
    }
  }

  /** An owner without the lease changes nothing but placements and its own standing. */
  lemma FencedOut(plan: Plan, w: World, h: nat, action: Action)
    requires ValidPlan(plan) && Actor(action) == Some(h) && w.live != Some(h)
    ensures var after := Step(plan, w, action);
            && after.cursor == w.cursor && after.saved == w.saved && after.status == w.status
            && after.live == w.live && after.generation == w.generation
            && (after.placements != w.placements ==> action.Seed?)
            && forall g :: g in w.owners && g != h ==> g in after.owners && after.owners[g] == w.owners[g]
  {
  }

  /** Cursor and saved state move together, and only for the holder's acknowledgement of its own page. */
  lemma ProgressNeedsLease(plan: Plan, w: World, action: Action)
    requires ValidPlan(plan)
    ensures var after := Step(plan, w, action);
            after.cursor != w.cursor || after.saved != w.saved ==>
              && action.Acknowledge? && Held(w, action.g) && action.g in w.owners
              && var o := w.owners[action.g];
                 && o.Seeding? && o.todo == {} && w.cursor == o.next
                 && after.cursor == o.end && after.saved == o.state
  {
  }

  /** The placements an opened page waits for are exactly those it has rows for. */
  lemma {:induction false} PageToSeed(plan: Plan, lo: int, hi: int, a: Alias)
    ensures a in PageAliases(plan, lo, hi) <==> PageRows(plan, lo, hi, a) != []
    decreases hi - lo
  {
    if lo < hi {
      PageToSeed(plan, lo, hi - 1, a);
      assert PageAliases(plan, lo, hi) == PageAliases(plan, lo, hi - 1) + {AliasOf(plan, hi - 1)};
    }
  }

  /** A run that is active, failed or cancelled stays so, and is never claimed again. */
  lemma SettledRunStays(plan: Plan, w: World, action: Action)
    requires ValidPlan(plan) && w.status != Creating
    ensures var after := Step(plan, w, action);
            after.status == w.status && after.generation == w.generation && after.cursor == w.cursor
            && (w.live.None? ==> after.live.None?)
  {
  }

  /** A holder that meets a contradicting row fails the run and writes nothing. */
  lemma ConflictFails(plan: Plan, w: World, g: nat, a: Alias)
    requires ValidPlan(plan) && Held(w, g) && g in w.owners && w.owners[g].Seeding? && a in w.owners[g].todo
    ensures var after := Step(plan, w, Seed(g, a));
            var clash := exists r, c | r in Rows(w, a) && c in PageRows(plan, w.owners[g].next, w.owners[g].end, a) ::
                           r.chunk.shard == c.shard && r.chunk.id == c.id && !(r.valid && r.chunk == c);
            && (after.status == Failed <==> clash)
            && (clash ==> after.placements == w.placements)
            && (!clash ==> forall c | c in PageRows(plan, w.owners[g].next, w.owners[g].end, a) ::
                             Row(c, true) in Rows(after, a))
  {
    var o := w.owners[g];
    assert forall r: Row, c :: Clashes(r, c) <==>
                               r.chunk.shard == c.shard && r.chunk.id == c.id && !(r.valid && r.chunk == c);
  }
}
