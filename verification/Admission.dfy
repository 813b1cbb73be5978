/**
  Resumable execution admission. Owners come and go: a claim mints a new
  generation, a lease may expire while its owner keeps writing, and any owner
  may crash between two steps. Chunk pages are seeded into several placement
  databases before the control database acknowledges them, and every placement
  is read back before activation. Anything may happen to a placement's rows in
  between.
 */
module Admission {
  import opened Base
  import opened ShardPlan
  import opened ChunkManifest
  import opened PlacementCheck

  type Alias = string

  /** A published plan: case count, chunk-page boundaries and shard placements. */
  datatype Plan = Plan(n: int, ends: seq<int>, alias: map<int, Alias>)

  ghost predicate ValidPlan(plan: Plan) {
    && 0 < plan.n <= I32_MAX
    && plan.ends != []
    && 0 < plan.ends[0]
    && (forall i, j :: 0 <= i < |plan.ends| && 0 <= j < |plan.ends| && i < j ==> plan.ends[i] < plan.ends[j])
    && plan.ends[|plan.ends| - 1] == Total(plan)
    && forall s :: s in plan.alias <==> 0 <= s < Min(SHARDS, Total(plan))
  }

  function Total(plan: Plan): int {
    ChunkTotal(plan.n)
  }

  ghost predicate Boundary(plan: Plan, k: int) {
    k == 0 || k in plan.ends
  }

  function AliasOf(plan: Plan, i: int): Alias {
    if i % SHARDS in plan.alias then plan.alias[i % SHARDS] else ""
  }

  /** The manifests rebuilt from the published shard totals and hashes. */
  ghost function ExpectedState(plan: Plan): ShardState
    requires ValidPlan(plan)
  {
    map s | 0 <= s < Min(SHARDS, Total(plan)) :: Expected(plan.n, Totals(plan.n, s), Chain(plan.n, s, Total(plan)))
  }

  lemma ExpectedIsWholePlan(plan: Plan)
    requires ValidPlan(plan)
    ensures ExpectedState(plan) == StateAt(plan.n, Total(plan))
  {
    forall s | 0 <= s < Min(SHARDS, Total(plan))
      ensures ExpectedState(plan)[s] == StateAt(plan.n, Total(plan))[s]
    {
      ExpectedIsFold(plan.n, s);
    }
  }

  // ----- one page, folded and split by placement -----

  datatype Folded = Folded(state: ShardState, rows: map<Alias, seq<ChunkIdentity>>)

  function RowsOf(rows: map<Alias, seq<ChunkIdentity>>, a: Alias): seq<ChunkIdentity> {
    if a in rows then rows[a] else []
  }

  /** The planned chunks of a range that belong to one placement, in order. */
  ghost function PageRows(plan: Plan, lo: int, hi: int, a: Alias): seq<ChunkIdentity>
    decreases hi - lo
  {
    if hi <= lo then []
    else PageRows(plan, lo, hi - 1, a) + if AliasOf(plan, hi - 1) == a then [Planned(plan.n, hi - 1)] else []
  }

  lemma {:induction false} PageRowsHas(plan: Plan, lo: int, hi: int, a: Alias)
    requires lo <= hi
    ensures forall c :: c in PageRows(plan, lo, hi, a) <==>
                        exists i :: lo <= i < hi && AliasOf(plan, i) == a && c == Planned(plan.n, i)
    decreases hi - lo
  {
    if lo < hi {
      PageRowsHas(plan, lo, hi - 1, a);
      forall c | c in PageRows(plan, lo, hi, a)
        ensures exists i :: lo <= i < hi && AliasOf(plan, i) == a && c == Planned(plan.n, i)
      {
        if c !in PageRows(plan, lo, hi - 1, a) {
          assert AliasOf(plan, hi - 1) == a && c == Planned(plan.n, hi - 1);
        }
      }
    }
  }

  /** The fold an owner carries through a page; None if some push is refused. */
  ghost function FoldRange(n: int, state: ShardState, lo: int, hi: int): Option<ShardState>
    decreases hi - lo
  {
    if hi <= lo then Some(state)
    else
      var before := FoldRange(n, state, lo, hi - 1);
      if before.None? then None else PushShard(before.value, Planned(n, hi - 1))
  }

  lemma {:induction false} FoldRangeAdvances(n: int, lo: nat, hi: int)
    requires 0 < n <= I32_MAX && lo <= hi <= ChunkTotal(n)
    ensures FoldRange(n, StateAt(n, lo), lo, hi) == Some(StateAt(n, hi))
    decreases hi - lo
  {
    if lo < hi {
      FoldRangeAdvances(n, lo, hi - 1);
      PushPlanned(n, hi - 1);
    }
  }

  /** The scheduling policy check on one chunk of a page. */
  predicate FollowsPolicy(n: int, i: int, c: ChunkIdentity)
    ensures FollowsPolicy(n, i, c) <==> c == Planned(n, i)
  {
    c.shard == i % 128 && c.start == i * 100 && c.end == Min((i + 1) * 100, n) && c.id == i
  }

  ghost predicate Frozen(n: int, lo: int, page: seq<ChunkIdentity>) {
    forall k :: 0 <= k < |page| ==> FollowsPolicy(n, lo + k, page[k])
  }

  ghost predicate FrozenTo(n: int, lo: int, page: seq<ChunkIdentity>, k: int)
    requires 0 <= k <= |page|
  {
    k == 0 || (FrozenTo(n, lo, page, k - 1) && FollowsPolicy(n, lo + k - 1, page[k - 1]))
  }

  lemma {:induction false} FrozenAll(n: int, lo: int, page: seq<ChunkIdentity>, k: int)
    requires 0 <= k <= |page| && FrozenTo(n, lo, page, k)
    ensures Frozen(n, lo, page[..k]) && page[..|page|] == page
  {
    if k > 0 {
      FrozenAll(n, lo, page, k - 1);
      assert forall j :: 0 <= j < k - 1 ==> page[..k][j] == page[..k - 1][j];
    }
  }

  lemma FrozenHas(n: int, lo: int, page: seq<ChunkIdentity>, k: int)
    requires 0 <= k < |page|
    ensures Frozen(n, lo, page) ==> FollowsPolicy(n, lo + k, page[k])
  {
  }

  /** Every placement is given its own chunks of a page, in order. */
  ghost predicate Grouped(plan: Plan, lo: int, hi: int, rows: map<Alias, seq<ChunkIdentity>>)
    requires lo <= hi
  {
    forall a :: RowsOf(rows, a) == PageRows(plan, lo, hi, a)
  }

  /** Folds one chunk, if it is the one the policy froze at its index. */
  method FoldChunk(plan: Plan, i: int, current: ShardState, rows: map<Alias, seq<ChunkIdentity>>, chunk: ChunkIdentity,
                   ghost lo: int, ghost state: ShardState)
    returns (r: Result<Folded, string>)
    requires lo <= i && FoldRange(plan.n, state, lo, i) == Some(current) && Grouped(plan, lo, i, rows)
    ensures r.Ok? <==> FollowsPolicy(plan.n, i, chunk) && FoldRange(plan.n, state, lo, i + 1).Some?
    ensures r.Ok? ==>
              FoldRange(plan.n, state, lo, i + 1) == Some(r.value.state) && Grouped(plan, lo, i + 1, r.value.rows)
  {
    if !FollowsPolicy(plan.n, i, chunk) {
      return Err("chunk differs from frozen scheduling policy");
    }
    var next := PushShard(current, chunk);
    if next.None? {
      return Err("overlapping or unordered planned chunks");
    }
    GroupRow(plan, lo, i, rows);
    var a := AliasOf(plan, i);
    return Ok(Folded(next.value, rows[a := RowsOf(rows, a) + [chunk]]));
  }

  /** What one page's loop has established after its first k chunks. */
  ghost predicate PageFolded(plan: Plan, lo: int, state: ShardState, page: seq<ChunkIdentity>, k: int, done: Folded)
    requires 0 <= k <= |page|
  {
    && FrozenTo(plan.n, lo, page, k)
    && FoldRange(plan.n, state, lo, lo + k) == Some(done.state)
    && Grouped(plan, lo, lo + k, done.rows)
  }

  /** Folds one page into the running shard state and groups its rows by placement. */
  method FoldPage(plan: Plan, lo: int, state: ShardState, page: seq<ChunkIdentity>) returns (r: Result<Folded, string>)
    ensures r.Ok? <==> Frozen(plan.n, lo, page) && FoldRange(plan.n, state, lo, lo + |page|).Some?
    ensures r.Ok? ==> && FoldRange(plan.n, state, lo, lo + |page|) == Some(r.value.state)
                      && Grouped(plan, lo, lo + |page|, r.value.rows)
  {
    var done := Folded(state, map[]);
    for k := 0 to |page|
      invariant PageFolded(plan, lo, state, page, k, done)
    {
      var folded := FoldChunk(plan, lo + k, done.state, done.rows, page[k], lo, state);
      if folded.Err? {
        PageRefused(plan.n, state, lo, page, k);
        return folded;
      }
      done := folded.value;
    }
    FrozenAll(plan.n, lo, page, |page|);
    return Ok(done);
  }

  /** A chunk that is refused makes the whole page refused. */
  lemma PageRefused(n: int, state: ShardState, lo: int, page: seq<ChunkIdentity>, k: int)
    requires 0 <= k < |page|
    requires !FollowsPolicy(n, lo + k, page[k]) || FoldRange(n, state, lo, lo + k + 1).None?
    ensures !Frozen(n, lo, page) || FoldRange(n, state, lo, lo + |page|).None?
  {
    FrozenHas(n, lo, page, k);
    if FoldRange(n, state, lo, lo + k + 1).None? {
      FoldRangeStuck(n, state, lo, lo + k + 1, lo + |page|);
    }
  }

  lemma GroupRow(plan: Plan, lo: int, i: int, rows: map<Alias, seq<ChunkIdentity>>)
    requires lo <= i && Grouped(plan, lo, i, rows)
    ensures Grouped(plan, lo, i + 1, rows[AliasOf(plan, i) := RowsOf(rows, AliasOf(plan, i)) + [Planned(plan.n, i)]])
  {
    var next := rows[AliasOf(plan, i) := RowsOf(rows, AliasOf(plan, i)) + [Planned(plan.n, i)]];
    forall a
      ensures RowsOf(next, a) == PageRows(plan, lo, i + 1, a)
    {
      assert RowsOf(rows, a) == PageRows(plan, lo, i, a);
      assert PageRows(plan, lo, i + 1, a)
          == PageRows(plan, lo, i, a) + if AliasOf(plan, i) == a then [Planned(plan.n, i)] else [];
    }
  }

  lemma {:induction false} FoldRangeStuck(n: int, state: ShardState, lo: int, mid: int, hi: int)
    requires lo <= mid <= hi && FoldRange(n, state, lo, mid).None?
    ensures FoldRange(n, state, lo, hi).None?
    decreases hi - mid
  {
    if mid < hi {
      FoldRangeStuck(n, state, lo, mid, hi - 1);
    }
  }

  // ----- the protocol -----

  datatype Status = Creating | Active | Failed | Cancelled

  datatype Owner =
    | Claimed
    | Between(next: int, state: ShardState)
    | Seeding(next: int, end: int, state: ShardState, todo: set<Alias>)
    | Verifying(todo: set<Alias>)

  datatype World = World(live: Option<nat>, generation: nat, cursor: int, saved: ShardState, status: Status,
                         owners: map<nat, Owner>, placements: map<Alias, set<Row>>)

  /** Disturb replaces what a placement holds: rows dropped, inserted or altered from outside. */
  datatype Action =
    | Claim
    | Expire
    | Cancel
    | Release(g: nat)
    | Crash(g: nat)
    | Load(g: nat)
    | StartPage(g: nat, end: int)
    | Seed(g: nat, alias: Alias)
    | Acknowledge(g: nat)
    | BeginVerify(g: nat)
    | VerifyPlacement(g: nat, alias: Alias)
    | Activate(g: nat)
    | Disturb(alias: Alias, rows: set<Row>)

  function Rows(w: World, a: Alias): set<Row> {
    if a in w.placements then w.placements[a] else {}
  }

  /** The row that admission stores for chunk i. */
  function Stored(plan: Plan, i: int): Row {
    Row(Planned(plan.n, i), true)
  }

  /** What a placement must hold once the whole plan is admitted. */
  ghost function PlannedRows(plan: Plan, a: Alias): set<Row>
    requires ValidPlan(plan)
  {
    set i | 0 <= i < Total(plan) && AliasOf(plan, i) == a :: Stored(plan, i)
  }

  /** The rows the read-back query returns: those of the shards assigned to the placement. */
  function Visible(plan: Plan, w: World, a: Alias): set<Row> {
    set r | r in Rows(w, a) && r.chunk.shard in plan.alias && plan.alias[r.chunk.shard] == a
  }

  ghost predicate Exact(plan: Plan, w: World, a: Alias)
    requires ValidPlan(plan)
  {
    Visible(plan, w, a) == PlannedRows(plan, a)
  }

  ghost predicate NextPage(plan: Plan, next: int, end: int) {
    next < end && end in plan.ends && forall e | e in plan.ends :: next < e ==> end <= e
  }

  ghost function PageAliases(plan: Plan, lo: int, hi: int): set<Alias> {
    set i | lo <= i < hi :: AliasOf(plan, i)
  }

  /** A stored row with the key of a seeded chunk but other content. */
  predicate Clashes(r: Row, c: ChunkIdentity) {
    r.chunk.shard == c.shard && r.chunk.id == c.id && r != Row(c, true)
  }

  ghost predicate Conflict(plan: Plan, w: World, o: Owner, a: Alias)
    requires o.Seeding?
  {
    exists r, c | r in Rows(w, a) && c in PageRows(plan, o.next, o.end, a) :: Clashes(r, c)
  }

  ghost predicate Held(w: World, g: nat) {
    w.live == Some(g) && w.status == Creating
  }

  function Drop(w: World, g: nat): World {
    w.(owners := w.owners - {g})
  }

  function Become(w: World, g: nat, o: Owner): World {
    w.(owners := w.owners[g := o])
  }

  /** A seed invariant error marks the run failed, but only under live authority. */
  ghost function FailRun(w: World, g: nat): World {
    Drop(if Held(w, g) then w.(status := Failed, live := None) else w, g)
  }

  /** One step; an action that is not enabled changes nothing. */
  ghost function Step(plan: Plan, w: World, action: Action): World
    requires ValidPlan(plan)
  {
    match action
    case Claim =>
      if w.live.None? && w.status == Creating then
        Become(w.(live := Some(w.generation + 1), generation := w.generation + 1), w.generation + 1, Claimed)
      else w
    case Expire => w.(live := None)
    case Cancel => if w.status == Creating then w.(status := Cancelled) else w
    case Release(g) => Drop(if w.live == Some(g) then w.(live := None) else w, g)
    case Crash(g) => Drop(w, g)
    case Load(g) =>
      if g in w.owners && w.owners[g].Claimed? then Become(w, g, Between(w.cursor, w.saved)) else w
    case StartPage(g, end) =>
      if g in w.owners && w.owners[g].Between? && NextPage(plan, w.owners[g].next, end) then
        var next := w.owners[g].next;
        var folded := FoldRange(plan.n, w.owners[g].state, next, end);
        if folded.None? then Drop(w, g)
        else Become(w, g, Seeding(next, end, folded.value, PageAliases(plan, next, end)))
      else w
    case Seed(g, a) =>
      if g in w.owners && w.owners[g].Seeding? && a in w.owners[g].todo then
        var o := w.owners[g];
        var added := set c | c in PageRows(plan, o.next, o.end, a) :: Row(c, true);
        if Conflict(plan, w, o, a) then FailRun(w, g)
        else Become(w.(placements := w.placements[a := Rows(w, a) + added]), g, o.(todo := o.todo - {a}))
      else w
    case Acknowledge(g) =>
      if g in w.owners && w.owners[g].Seeding? && w.owners[g].todo == {} then
        var o := w.owners[g];
        if Held(w, g) && w.cursor == o.next && o.end <= Total(plan) then
          Become(w.(cursor := o.end, saved := o.state), g, Between(o.end, o.state))
        else Drop(w, g)
      else w
    case BeginVerify(g) =>
      if g in w.owners && w.owners[g].Between? && w.cursor == Total(plan) then
        if w.owners[g].state == ExpectedState(plan) then Become(w, g, Verifying(plan.alias.Values))
        else FailRun(w, g)
      else w
    case VerifyPlacement(g, a) =>
      if g in w.owners && w.owners[g].Verifying? && a in w.owners[g].todo then
        if Exact(plan, w, a) then Become(w, g, Verifying(w.owners[g].todo - {a}))
        else FailRun(w, g)
      else w
    case Activate(g) =>
      if g in w.owners && w.owners[g].Verifying? && w.owners[g].todo == {} && Held(w, g)
         && w.cursor == Total(plan) && w.saved == ExpectedState(plan) then
        Drop(w.(status := Active, live := None), g)
      else w
    case Disturb(a, rows) => w.(placements := w.placements[a := rows])
  }

  ghost function Run(plan: Plan, w: World, actions: seq<Action>): World
    requires ValidPlan(plan)
  {
    if actions == [] then w
    else Step(plan, Run(plan, w, actions[..|actions| - 1]), actions[|actions| - 1])
  }

  function Initial(): World {
    World(None, 0, 0, map[], Creating, map[], map[])
  }

  // ----- what the control ledger keeps, whatever happens to the placements -----

  ghost predicate OwnerOk(plan: Plan, w: World, g: nat, o: Owner)
    requires ValidPlan(plan)
  {
    match o
    case Claimed => true
    case Between(next, state) =>
      && Boundary(plan, next) && 0 <= next <= w.cursor && state == StateAt(plan.n, next)
      && (w.live == Some(g) ==> next == w.cursor)
    case Seeding(next, end, state, todo) =>
      && Boundary(plan, next) && 0 <= next <= w.cursor
      && (w.live == Some(g) ==> next == w.cursor)
      && NextPage(plan, next, end) && end <= Total(plan) && state == StateAt(plan.n, end)
    case Verifying(todo) =>
      w.cursor == Total(plan)
  }

  ghost predicate OwnersOk(plan: Plan, w: World)
    requires ValidPlan(plan)
  {
    forall g :: g in w.owners ==> g <= w.generation && OwnerOk(plan, w, g, w.owners[g])
  }

  ghost predicate LedgerInv(plan: Plan, w: World)
    requires ValidPlan(plan)
  {
    && Boundary(plan, w.cursor) && 0 <= w.cursor <= Total(plan)
    && w.saved == StateAt(plan.n, w.cursor)
    && OwnersOk(plan, w)
    && (w.live.Some? ==> w.live.value <= w.generation)
    && (w.status == Active ==> w.cursor == Total(plan))
  }

  lemma EndsInTotal(plan: Plan, end: int)
    requires ValidPlan(plan) && end in plan.ends
    ensures 0 < end <= Total(plan)
  {
    var i :| 0 <= i < |plan.ends| && plan.ends[i] == end;
  }

  /** A step of owner g that leaves the ledger's progress alone. */
  lemma Settle(plan: Plan, w: World, after: World, g: nat)
    requires ValidPlan(plan) && LedgerInv(plan, w)
    requires after.cursor == w.cursor && after.saved == w.saved && after.generation == w.generation
    requires after.live == w.live || after.live == None
    requires after.status == Active ==> w.cursor == Total(plan)
    requires forall h | h in after.owners :: h in w.owners && (h != g ==> after.owners[h] == w.owners[h])
    requires g in after.owners ==> OwnerOk(plan, after, g, after.owners[g])
    ensures LedgerInv(plan, after)
  {
    forall h | h in after.owners
      ensures h <= after.generation && OwnerOk(plan, after, h, after.owners[h])
    {
      assert OwnerOk(plan, w, h, w.owners[h]);
    }
  }

  lemma LoadKeeps(plan: Plan, w: World, g: nat)
    requires ValidPlan(plan) && LedgerInv(plan, w)
    ensures LedgerInv(plan, Step(plan, w, Load(g)))
  {
    if g in w.owners {
      assert OwnerOk(plan, w, g, w.owners[g]);
      Settle(plan, w, Step(plan, w, Load(g)), g);
    }
  }

  lemma SeedStays(plan: Plan, w: World, g: nat, a: Alias)
    requires ValidPlan(plan) && LedgerInv(plan, w)
    ensures LedgerInv(plan, Step(plan, w, Seed(g, a)))
  {
    if g in w.owners {
      assert OwnerOk(plan, w, g, w.owners[g]);
      Settle(plan, w, Step(plan, w, Seed(g, a)), g);
    }
  }

  lemma BeginVerifyKeeps(plan: Plan, w: World, g: nat)
    requires ValidPlan(plan) && LedgerInv(plan, w)
    ensures LedgerInv(plan, Step(plan, w, BeginVerify(g)))
  {
    if g in w.owners {
      assert OwnerOk(plan, w, g, w.owners[g]);
      Settle(plan, w, Step(plan, w, BeginVerify(g)), g);
    }
  }

  lemma VerifyStays(plan: Plan, w: World, g: nat, a: Alias)
    requires ValidPlan(plan) && LedgerInv(plan, w)
    ensures LedgerInv(plan, Step(plan, w, VerifyPlacement(g, a)))
  {
    if g in w.owners {
      assert OwnerOk(plan, w, g, w.owners[g]);
      Settle(plan, w, Step(plan, w, VerifyPlacement(g, a)), g);
    }
  }

  /** Activation needs the lease, every placement checked, and the saved state of the whole plan. */
  lemma ActivateKeeps(plan: Plan, w: World, g: nat)
    requires ValidPlan(plan) && LedgerInv(plan, w)
    ensures var after := Step(plan, w, Activate(g));
            && LedgerInv(plan, after)
            && (after.status == Active && w.status != Active ==>
                  && w.live == Some(g) && g in w.owners && w.owners[g] == Verifying({})
                  && w.saved == StateAt(plan.n, Total(plan)))
  {
    ExpectedIsWholePlan(plan);
    if g in w.owners {
      assert OwnerOk(plan, w, g, w.owners[g]);
      Settle(plan, w, Step(plan, w, Activate(g)), g);
    }
  }

  lemma StartPageKeeps(plan: Plan, w: World, g: nat, end: int)
    requires ValidPlan(plan) && LedgerInv(plan, w)
    ensures LedgerInv(plan, Step(plan, w, StartPage(g, end)))
  {
    if g in w.owners && w.owners[g].Between? && NextPage(plan, w.owners[g].next, end) {
      assert OwnerOk(plan, w, g, w.owners[g]);
      EndsInTotal(plan, end);
      FoldRangeAdvances(plan.n, w.owners[g].next, end);
      Settle(plan, w, Step(plan, w, StartPage(g, end)), g);
    }
  }

  lemma AcknowledgeKeeps(plan: Plan, w: World, g: nat)
    requires ValidPlan(plan) && LedgerInv(plan, w)
    ensures LedgerInv(plan, Step(plan, w, Acknowledge(g)))
  {
    if g in w.owners && w.owners[g].Seeding? && w.owners[g].todo == {} {
      var o := w.owners[g];
      assert OwnerOk(plan, w, g, o);
      if Held(w, g) && w.cursor == o.next && o.end <= Total(plan) {
        AcceptKeeps(plan, w, g, o);
      } else {
        Settle(plan, w, Drop(w, g), g);
      }
    }
  }

  /** Moving the cursor to the end of the page. */
  lemma AcceptKeeps(plan: Plan, w: World, g: nat, o: Owner)
    requires ValidPlan(plan) && LedgerInv(plan, w) && g in w.owners && w.owners[g] == o && w.live == Some(g)
    requires o.Seeding? && w.cursor == o.next && o.end <= Total(plan)
    ensures LedgerInv(plan, Become(w.(cursor := o.end, saved := o.state), g, Between(o.end, o.state)))
  {
    var after := Become(w.(cursor := o.end, saved := o.state), g, Between(o.end, o.state));
    assert OwnerOk(plan, w, g, o);
    forall h | h in after.owners
      ensures h <= after.generation && OwnerOk(plan, after, h, after.owners[h])
    {
      if h != g {
        OwnerOvertaken(plan, w, after, h, w.owners[h]);
      }
    }
  }

  /** Another owner's progress leaves an owner without the lease consistent. */
  lemma OwnerOvertaken(plan: Plan, w: World, after: World, h: nat, o: Owner)
    requires ValidPlan(plan) && OwnerOk(plan, w, h, o) && w.live != Some(h) && after.live == w.live
    requires w.cursor <= after.cursor && w.cursor < Total(plan)
    ensures OwnerOk(plan, after, h, o)
  {
  }

  lemma ClaimKeeps(plan: Plan, w: World)
    requires ValidPlan(plan) && LedgerInv(plan, w)
    ensures LedgerInv(plan, Step(plan, w, Claim))
  {
  }

  lemma NobodyKeeps(plan: Plan, w: World, action: Action)
    requires ValidPlan(plan) && LedgerInv(plan, w)
    requires action.Expire? || action.Cancel? || action.Disturb?
    ensures LedgerInv(plan, Step(plan, w, action))
  {
    var nobody := w.generation + 1;
    assert nobody !in w.owners;
    Settle(plan, w, Step(plan, w, action), nobody);
  }

  lemma LeaveKeeps(plan: Plan, w: World, action: Action)
    requires ValidPlan(plan) && LedgerInv(plan, w)
    requires action.Release? || action.Crash?
    ensures LedgerInv(plan, Step(plan, w, action))
  {
    Settle(plan, w, Step(plan, w, action), action.g);
  }

  lemma LedgerStep(plan: Plan, w: World, action: Action)
    requires ValidPlan(plan) && LedgerInv(plan, w)
    ensures LedgerInv(plan, Step(plan, w, action))
  {
    match action
    case Claim => ClaimKeeps(plan, w);
    case Expire => NobodyKeeps(plan, w, action);
    case Cancel => NobodyKeeps(plan, w, action);
    case Disturb(a, rows) => NobodyKeeps(plan, w, action);
    case Release(g) => LeaveKeeps(plan, w, action);
    case Crash(g) => LeaveKeeps(plan, w, action);
    case StartPage(g, end) => StartPageKeeps(plan, w, g, end);
    case Acknowledge(g) => AcknowledgeKeeps(plan, w, g);
    case Load(g) => LoadKeeps(plan, w, g);
    case Seed(g, a) => SeedStays(plan, w, g, a);
    case BeginVerify(g) => BeginVerifyKeeps(plan, w, g);
    case VerifyPlacement(g, a) => VerifyStays(plan, w, g, a);
    case Activate(g) => ActivateKeeps(plan, w, g);
  }

  // ----- what the placements hold while nobody disturbs them -----

  ghost predicate SeededUpTo(plan: Plan, w: World, k: int)
    requires ValidPlan(plan)
  {
    forall i :: 0 <= i < k ==> Stored(plan, i) in Rows(w, AliasOf(plan, i))
  }

  ghost predicate OnlyPlanned(plan: Plan, w: World)
    requires ValidPlan(plan)
  {
    forall a :: Rows(w, a) <= PlannedRows(plan, a)
  }

  ghost predicate OwnerSeeded(plan: Plan, w: World, o: Owner)
    requires ValidPlan(plan)
  {
    o.Seeding? ==>
      forall i :: o.next <= i < o.end && AliasOf(plan, i) !in o.todo ==> Stored(plan, i) in Rows(w, AliasOf(plan, i))
  }

  ghost predicate PlacementInv(plan: Plan, w: World)
    requires ValidPlan(plan)
  {
    && SeededUpTo(plan, w, w.cursor)
    && OnlyPlanned(plan, w)
    && (forall g :: g in w.owners ==> OwnerSeeded(plan, w, w.owners[g]))
    && w.status != Failed
  }

  /** A step of owner g that only adds planned rows. */
  lemma PlacementSettle(plan: Plan, w: World, after: World, g: nat)
    requires ValidPlan(plan) && PlacementInv(plan, w)
    requires after.cursor == w.cursor && after.status != Failed
    requires OnlyPlanned(plan, after) && forall a :: Rows(w, a) <= Rows(after, a)
    requires forall h | h in after.owners && h != g :: h in w.owners && after.owners[h] == w.owners[h]
    requires g in after.owners ==> OwnerSeeded(plan, after, after.owners[g])
    ensures PlacementInv(plan, after)
  {
    forall h | h in after.owners
      ensures OwnerSeeded(plan, after, after.owners[h])
    {
      if h != g {
        assert OwnerSeeded(plan, w, w.owners[h]);
      }
    }
  }

  /** Over planned rows alone no seeded chunk meets a row with other content. */
  lemma NoConflict(plan: Plan, w: World, o: Owner, a: Alias)
    requires ValidPlan(plan) && OnlyPlanned(plan, w) && o.Seeding? && o.next <= o.end
    ensures !Conflict(plan, w, o, a)
  {
    PageRowsHas(plan, o.next, o.end, a);
    assert Rows(w, a) <= PlannedRows(plan, a);
    forall r, c | r in Rows(w, a) && c in PageRows(plan, o.next, o.end, a)
      ensures !Clashes(r, c)
    {
      var i :| 0 <= i < Total(plan) && AliasOf(plan, i) == a && r == Stored(plan, i);
      var j :| o.next <= j < o.end && AliasOf(plan, j) == a && c == Planned(plan.n, j);
    }
  }

  lemma SeedKeeps(plan: Plan, w: World, g: nat, a: Alias)
    requires ValidPlan(plan) && LedgerInv(plan, w) && PlacementInv(plan, w)
    ensures PlacementInv(plan, Step(plan, w, Seed(g, a)))
  {
    if g in w.owners && w.owners[g].Seeding? && a in w.owners[g].todo {
      var o, after := w.owners[g], Step(plan, w, Seed(g, a));
      assert OwnerOk(plan, w, g, o) && OwnerSeeded(plan, w, o);
      NoConflict(plan, w, o, a);
      SeedRows(plan, w, after, g, a, o);
      SeedOwner(plan, w, after, a, o);
      PlacementSettle(plan, w, after, g);
    }
  }

  lemma SeedRows(plan: Plan, w: World, after: World, g: nat, a: Alias, o: Owner)
    requires ValidPlan(plan) && OnlyPlanned(plan, w) && o.Seeding? && OwnerOk(plan, w, g, o)
    requires after.placements
          == w.placements[a := Rows(w, a) + set c | c in PageRows(plan, o.next, o.end, a) :: Row(c, true)]
    ensures OnlyPlanned(plan, after) && forall b :: Rows(w, b) <= Rows(after, b)
  {
    PageRowsHas(plan, o.next, o.end, a);
    forall b
      ensures Rows(w, b) <= Rows(after, b) <= PlannedRows(plan, b)
    {
      assert Rows(w, b) <= PlannedRows(plan, b);
      assert b != a ==> Rows(after, b) == Rows(w, b);
    }
  }

  lemma SeedOwner(plan: Plan, w: World, after: World, a: Alias, o: Owner)
    requires ValidPlan(plan) && o.Seeding? && o.next <= o.end && OwnerSeeded(plan, w, o)
    requires after.placements
          == w.placements[a := Rows(w, a) + set c | c in PageRows(plan, o.next, o.end, a) :: Row(c, true)]
    ensures OwnerSeeded(plan, after, o.(todo := o.todo - {a}))
  {
    PageRowsHas(plan, o.next, o.end, a);
  }

  /** A page whose every placement was seeded is wholly stored. */
  lemma PageStored(plan: Plan, w: World, g: nat)
    requires ValidPlan(plan) && LedgerInv(plan, w) && PlacementInv(plan, w)
    ensures PlacementInv(plan, Step(plan, w, Acknowledge(g)))
  {
    if g in w.owners && w.owners[g].Seeding? && w.owners[g].todo == {} {
      var o, after := w.owners[g], Step(plan, w, Acknowledge(g));
      assert OwnerOk(plan, w, g, o) && OwnerSeeded(plan, w, o);
      assert forall a :: Rows(after, a) == Rows(w, a);
      assert forall h | h in after.owners && h != g :: h in w.owners && after.owners[h] == w.owners[h];
      forall h | h in after.owners
        ensures OwnerSeeded(plan, after, after.owners[h])
      {
        if h != g {
          assert OwnerSeeded(plan, w, w.owners[h]);
        }
      }
    }
  }

  lemma StartPageSeeds(plan: Plan, w: World, g: nat, end: int)
    requires ValidPlan(plan) && PlacementInv(plan, w)
    ensures PlacementInv(plan, Step(plan, w, StartPage(g, end)))
  {
    var after := Step(plan, w, StartPage(g, end));
    assert forall a :: Rows(after, a) == Rows(w, a);
    PlacementSettle(plan, w, after, g);
  }

  /** Once the whole plan is seeded, every undisturbed placement holds exactly its planned rows. */
  lemma CompleteIsExact(plan: Plan, w: World, a: Alias)
    requires ValidPlan(plan) && PlacementInv(plan, w) && w.cursor == Total(plan)
    ensures Rows(w, a) == PlannedRows(plan, a) && Exact(plan, w, a)
  {
    assert Rows(w, a) <= PlannedRows(plan, a);
    forall r | r in PlannedRows(plan, a)
      ensures r in Rows(w, a) && r in Visible(plan, w, a)
    {
      var i :| 0 <= i < Total(plan) && AliasOf(plan, i) == a && r == Stored(plan, i);
    }
  }

  lemma VerifyKeeps(plan: Plan, w: World, g: nat, a: Alias)
    requires ValidPlan(plan) && LedgerInv(plan, w) && PlacementInv(plan, w)
    ensures PlacementInv(plan, Step(plan, w, VerifyPlacement(g, a)))
  {
    if g in w.owners && w.owners[g].Verifying? {
      assert OwnerOk(plan, w, g, w.owners[g]);
      CompleteIsExact(plan, w, a);
      var after := Step(plan, w, VerifyPlacement(g, a));
      assert forall b :: Rows(after, b) == Rows(w, b);
      PlacementSettle(plan, w, after, g);
    }
  }

  /** Steps that touch no placement and fail no run. */
  lemma QuietKeeps(plan: Plan, w: World, after: World, g: nat)
    requires ValidPlan(plan) && PlacementInv(plan, w)
    requires after.placements == w.placements && after.cursor == w.cursor && after.status != Failed
    requires forall h | h in after.owners && h != g :: h in w.owners && after.owners[h] == w.owners[h]
    requires g in after.owners ==> !after.owners[g].Seeding? || (g in w.owners && after.owners[g] == w.owners[g])
    ensures PlacementInv(plan, after)
  {
    assert forall a :: Rows(after, a) == Rows(w, a);
    if g in after.owners && after.owners[g].Seeding? {
      assert OwnerSeeded(plan, w, w.owners[g]);
    }
    PlacementSettle(plan, w, after, g);
  }

  lemma BeginVerifyQuiet(plan: Plan, w: World, g: nat)
    requires ValidPlan(plan) && LedgerInv(plan, w) && PlacementInv(plan, w)
    ensures PlacementInv(plan, Step(plan, w, BeginVerify(g)))
  {
    ExpectedIsWholePlan(plan);
    if g in w.owners {
      assert OwnerOk(plan, w, g, w.owners[g]);
    }
    QuietKeeps(plan, w, Step(plan, w, BeginVerify(g)), g);
  }

  lemma PlacementStep(plan: Plan, w: World, action: Action)
    requires ValidPlan(plan) && LedgerInv(plan, w) && PlacementInv(plan, w) && !action.Disturb?
    ensures PlacementInv(plan, Step(plan, w, action))
  {
    match action
    case StartPage(g, end) => StartPageSeeds(plan, w, g, end);
    case Seed(g, a) => SeedKeeps(plan, w, g, a);
    case Acknowledge(g) => PageStored(plan, w, g);
    case VerifyPlacement(g, a) => VerifyKeeps(plan, w, g, a);
    case BeginVerify(g) => BeginVerifyQuiet(plan, w, g);
    case Claim => QuietKeeps(plan, w, Step(plan, w, action), w.generation + 1);
    case Expire => QuietKeeps(plan, w, Step(plan, w, action), 0);
    case Cancel => QuietKeeps(plan, w, Step(plan, w, action), 0);
    case Release(g) => QuietKeeps(plan, w, Step(plan, w, action), g);
    case Crash(g) => QuietKeeps(plan, w, Step(plan, w, action), g);
    case Load(g) => QuietKeeps(plan, w, Step(plan, w, action), g);
    case Activate(g) => QuietKeeps(plan, w, Step(plan, w, action), g);
  }
}
