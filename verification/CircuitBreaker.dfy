/**
  Keyed circuit breakers: closed, open and half-open circuits whose permits carry
  the generation they were granted in. Instants and durations are reals, and the
  hashed jitter is an arbitrary percentage within the configured range.
 */
module CircuitBreaker {
  import opened Base

  const DEFAULT_JITTER_PERCENT: nat := 20

  const COUNTER_MAX: nat := 0xffff_ffff

  type Counter = n: nat | n <= COUNTER_MAX

  datatype Config = Config(enabled: bool, threshold: Counter, initialOpen: real, maxOpen: real, jitterPercent: nat)

  datatype ConfigError = ZeroThreshold | ZeroInitialOpen | MaxBelowInitial

  function NewConfig(enabled: bool, threshold: Counter, initialOpen: real, maxOpen: real)
    : (r: Result<Config, ConfigError>)
    requires initialOpen >= 0.0
    ensures r.Ok? <==> threshold > 0 && initialOpen > 0.0 && maxOpen >= initialOpen
    ensures r.Ok? ==> Usable(r.value) && r.value.enabled == enabled && r.value.threshold == threshold
                      && r.value.initialOpen == initialOpen && r.value.maxOpen == maxOpen
  {
    if threshold == 0 then Err(ZeroThreshold)
    else if initialOpen == 0.0 then Err(ZeroInitialOpen)
    else if maxOpen < initialOpen then Err(MaxBelowInitial)
    else Ok(Config(enabled, threshold, initialOpen, maxOpen, DEFAULT_JITTER_PERCENT))
  }

  predicate Usable(cfg: Config) {
    cfg.threshold > 0 && 0.0 < cfg.initialOpen <= cfg.maxOpen && cfg.jitterPercent <= DEFAULT_JITTER_PERCENT
  }

  datatype State = Closed | Open(retryAt: real) | HalfOpen(probeUntil: real)

  datatype Entry = Entry(state: State, generation: nat, failures: nat, openFor: real)

  datatype Permit = Permit(key: string, generation: nat, probe: bool)

  datatype Transition = Opened(retryAfter: real) | ClosedAgain

  datatype Impact = Available | Unavailable

  function FreshEntry(cfg: Config): Entry {
    Entry(Closed, 0, 0, cfg.initialOpen)
  }

  function NextGeneration(g: nat): nat {
    (g + 1) % U64_LIMIT
  }

  /** The open time less the hashed reduction. */
  function Jittered(cfg: Config, openFor: real, reduction: nat): real
    requires reduction <= cfg.jitterPercent <= 100
  {
    if cfg.jitterPercent == 0 then openFor else openFor * ((100 - reduction) as real / 100.0)
  }

  function Larger(x: nat): nat { if x < COUNTER_MAX then x + 1 else x }

  /** Whether an acquire in this state is a fresh probe. */
  predicate ProbeDue(e: Entry, now: real) {
    (e.state.Open? && now >= e.state.retryAt) || (e.state.HalfOpen? && now >= e.state.probeUntil)
  }

  function AfterAcquire(cfg: Config, e: Entry, now: real, reduction: nat): Entry
    requires reduction <= cfg.jitterPercent <= 100
  {
    if ProbeDue(e, now)
    then e.(generation := NextGeneration(e.generation), state := HalfOpen(now + Jittered(cfg, e.openFor, reduction)))
    else e
  }

  function AfterSuccess(cfg: Config, e: Entry, permit: Permit): Entry {
    if e.generation != permit.generation then e
    else if permit.probe then Entry(Closed, NextGeneration(e.generation), 0, cfg.initialOpen)
    else e.(failures := 0, openFor := cfg.initialOpen)
  }

  /** One more failure of the dependency opens the circuit: a failed probe, or the last failure allowed. */
  predicate Opens(cfg: Config, e: Entry) {
    e.state.HalfOpen? || (e.state.Closed? && Larger(e.failures) >= cfg.threshold)
  }

  function AfterFailure(cfg: Config, e: Entry, permit: Permit, now: real, reduction: nat): Entry
    requires reduction <= cfg.jitterPercent <= 100
  {
    if e.generation != permit.generation || e.state.Open? then e
    else if e.state.Closed? && Larger(e.failures) < cfg.threshold then e.(failures := Larger(e.failures))
    else
      var failures := if e.state.Closed? then Larger(e.failures) else e.failures;
      var openFor := if e.state.Closed? then e.openFor
                     else if 2.0 * e.openFor <= cfg.maxOpen then 2.0 * e.openFor else cfg.maxOpen;
      Entry(Open(now + Jittered(cfg, openFor, reduction)), NextGeneration(e.generation), failures, openFor)
  }

  /** The mutex-guarded table; each method is one critical section. */
  class CircuitBreakers {
    const config: Config
    var entries: map<string, Entry>

    constructor (config: Config)
      ensures this.config == config && entries == map[]
    {
      this.config := config;
      entries := map[];
    }

    function EntryOf(key: string): Entry
      reads this
    {
      if key in entries then entries[key] else FreshEntry(config)
    }

    /** Admits, or says how long to wait. A disabled breaker always admits. */
    method Acquire(key: string, now: real, reduction: nat) returns (r: Result<Permit, real>)
      requires reduction <= config.jitterPercent <= 100
      modifies this
      ensures !config.enabled ==> r == Ok(Permit(key, 0, false)) && entries == old(entries)
      ensures config.enabled ==>
                entries == old(entries)[key := AfterAcquire(config, old(EntryOf(key)), now, reduction)]
      ensures config.enabled && r.Ok? ==> r.value == Permit(key, entries[key].generation, entries[key].state.HalfOpen?)
      ensures config.enabled && r.Err? ==> r.error > 0.0 && !old(EntryOf(key)).state.Closed?
      ensures config.enabled ==> match old(EntryOf(key)).state
                                 case Closed => r.Ok? && !r.value.probe
                                 case Open(at) => if now < at then r == Err(at - now) else r.Ok? && r.value.probe
                                 case HalfOpen(at) => if now < at then r == Err(at - now) else r.Ok? && r.value.probe
      ensures config.enabled ==> (r.Ok? <==> old(EntryOf(key)).state.Closed? || ProbeDue(old(EntryOf(key)), now))
    {
      if !config.enabled {
        return Ok(Permit(key, 0, false));
      }
      var entry := EntryOf(key);
      entries := entries[key := entry];
      match entry.state {
        case Closed =>
          return Ok(Permit(key, entry.generation, false));
        case Open(retryAt) =>
          if now < retryAt {
            return Err(retryAt - now);
          }
        case HalfOpen(probeUntil) =>
          if now < probeUntil {
            return Err(probeUntil - now);
          }
      }
      var generation := NextGeneration(entry.generation);
      var probeFor := Jittered(config, entry.openFor, reduction);
      entries := entries[key := entry.(generation := generation, state := HalfOpen(now + probeFor))];
      return Ok(Permit(key, generation, true));
    }

    method RecordSuccess(permit: Permit) returns (t: Option<Transition>)
      modifies this
      ensures !config.enabled || permit.key !in old(entries) ==> entries == old(entries) && t == None
      ensures config.enabled && permit.key in old(entries) ==>
                entries == old(entries)[permit.key := AfterSuccess(config, old(entries)[permit.key], permit)]
      ensures t.Some? <==> entries != old(entries) && permit.probe
      ensures t.Some? ==> t.value == ClosedAgain && entries[permit.key].state == Closed
    {
      if !config.enabled || permit.key !in entries {
        return None;
      }
      var entry := entries[permit.key];
      if entry.generation != permit.generation {
        return None;
      }
      entry := entry.(failures := 0, openFor := config.initialOpen);
      if permit.probe {
        entry := entry.(generation := NextGeneration(entry.generation), state := Closed);
        entries := entries[permit.key := entry];
        return Some(ClosedAgain);
      }
      entries := entries[permit.key := entry];
      return None;
    }

    method RecordFailure(permit: Permit, now: real, impact: Impact, reduction: nat) returns (t: Option<Transition>)
      requires reduction <= config.jitterPercent <= 100
      modifies this
      ensures !config.enabled || permit.key !in old(entries) ==> entries == old(entries) && t == None
      ensures config.enabled && permit.key in old(entries) ==>
                entries == old(entries)[permit.key :=
                  if impact.Available? then AfterSuccess(config, old(entries)[permit.key], permit)
                  else AfterFailure(config, old(entries)[permit.key], permit, now, reduction)]
      ensures t.Some? <==>
                && config.enabled && permit.key in old(entries)
                && old(entries)[permit.key].generation == permit.generation
                && if impact.Available? then permit.probe else Opens(config, old(entries)[permit.key])
      ensures t.Some? ==> (t.value.Opened? <==> impact.Unavailable?)
      ensures t.Some? ==> entries[permit.key].state
                          == if t.value.Opened? then Open(now + t.value.retryAfter) else Closed
    {
      if !config.enabled {
        return None;
      }
      if impact.Available? {
        t := RecordSuccess(permit);
        return;
      }
      if permit.key !in entries {
        return None;
      }
      var entry := entries[permit.key];
      if entry.generation != permit.generation {
        return None;
      }
      match entry.state {
        case Closed =>
          entry := entry.(failures := Larger(entry.failures));
          if entry.failures < config.threshold {
            entries := entries[permit.key := entry];
            return None;
          }
        case HalfOpen(_) =>
          var doubled := 2.0 * entry.openFor;
          entry := entry.(openFor := if doubled <= config.maxOpen then doubled else config.maxOpen);
        case Open(_) =>
          return None;
      }
      var openFor := Jittered(config, entry.openFor, reduction);
      entry := entry.(generation := NextGeneration(entry.generation), state := Open(now + openFor));
      entries := entries[permit.key := entry];
      return Some(Opened(openFor));
    }
  }

  // ----- every interleaving -----

  /** What happened to one circuit, oldest first. */
  datatype Event = Grant(generation: nat, probe: bool, time: real) | Missed | Worked | ProbeFailed | Reclosed

  datatype Circuit = Circuit(entry: Entry, log: seq<Event>)

  datatype World = World(circuits: map<string, Circuit>, clock: real)

  datatype Call =
    | Acquire(key: string, now: real, reduction: nat)
    | Success(permit: Permit)
    | Failure(permit: Permit, now: real, impact: Impact, reduction: nat)

  ghost predicate Granted(log: seq<Event>, generation: nat, probe: bool) {
    exists i :: 0 <= i < |log| && log[i].Grant? && log[i].generation == generation && log[i].probe == probe
  }

  ghost predicate Issued(w: World, p: Permit) {
    p.key in w.circuits && Granted(w.circuits[p.key].log, p.generation, p.probe)
  }

  /** Permits are unforgeable, times never go back, and jitter stays in its range. */
  ghost predicate Allowed(cfg: Config, w: World, call: Call) {
    match call
    case Acquire(_, now, reduction) => now >= w.clock && reduction <= cfg.jitterPercent
    case Success(p) => Issued(w, p)
    case Failure(p, now, _, reduction) => Issued(w, p) && now >= w.clock && reduction <= cfg.jitterPercent
  }

  ghost function Acquired(cfg: Config, c: Circuit, now: real, reduction: nat): Circuit
    requires reduction <= cfg.jitterPercent <= 100
  {
    var next := AfterAcquire(cfg, c.entry, now, reduction);
    if c.entry.state.Closed? || ProbeDue(c.entry, now)
    then Circuit(next, c.log + [Grant(next.generation, next.state.HalfOpen?, now)])
    else c
  }

  ghost function Succeeded(cfg: Config, c: Circuit, p: Permit): Circuit {
    Circuit(AfterSuccess(cfg, c.entry, p),
            if c.entry.generation != p.generation then c.log
            else c.log + [if p.probe then Reclosed else Worked])
  }

  ghost function Failed(cfg: Config, c: Circuit, p: Permit, now: real, reduction: nat): Circuit
    requires reduction <= cfg.jitterPercent <= 100
  {
    Circuit(AfterFailure(cfg, c.entry, p, now, reduction),
            if c.entry.generation != p.generation || c.entry.state.Open? then c.log
            else c.log + [if c.entry.state.HalfOpen? then ProbeFailed else Missed])
  }

  ghost function Step(cfg: Config, w: World, call: Call): World
    requires Usable(cfg) && Allowed(cfg, w, call)
  {
    match call
    case Acquire(key, now, reduction) =>
      var c := if key in w.circuits then w.circuits[key] else Circuit(FreshEntry(cfg), []);
      World(w.circuits[key := Acquired(cfg, c, now, reduction)], now)
    case Success(p) =>
      World(w.circuits[p.key := Succeeded(cfg, w.circuits[p.key], p)], w.clock)
    case Failure(p, now, impact, reduction) =>
      var c := w.circuits[p.key];
      var after := if impact.Available? then Succeeded(cfg, c, p) else Failed(cfg, c, p, now, reduction);
      World(w.circuits[p.key := after], now)
  }

  /** The world after a sequence of calls, if every one of them was allowed. */
  ghost function Run(cfg: Config, start: real, calls: seq<Call>): Option<World>
    requires Usable(cfg)
  {
    if calls == [] then Some(World(map[], start))
    else
      var last := |calls| - 1;
      var prior := Run(cfg, start, calls[..last]);
      if prior.Some? && Allowed(cfg, prior.value, calls[last]) then Some(Step(cfg, prior.value, calls[last])) else None
  }

  // ----- generations -----

  ghost predicate GrantAt(log: seq<Event>, i: int, generation: nat) {
    0 <= i < |log| && log[i].Grant? && log[i].generation == generation
  }

  /** Which permits may carry the current generation. */
  ghost predicate Generations(c: Circuit) {
    var g := c.entry.generation;
    && (forall i :: 0 <= i < |c.log| && c.log[i].Grant? ==> c.log[i].generation <= g)
    && (c.entry.state.Open? ==> forall i :: !GrantAt(c.log, i, g))
    && (c.entry.state.Closed? ==> forall i :: GrantAt(c.log, i, g) ==> !c.log[i].probe)
    && (c.entry.state.HalfOpen? ==>
        && (exists i :: GrantAt(c.log, i, g))
        && (forall i :: GrantAt(c.log, i, g) ==> c.log[i].probe)
        && (forall i, j :: GrantAt(c.log, i, g) && GrantAt(c.log, j, g) ==> i == j))
  }

  lemma AcquireGenerations(cfg: Config, c: Circuit, now: real, reduction: nat)
    requires Usable(cfg) && reduction <= cfg.jitterPercent && Generations(c) && c.entry.generation + 1 < U64_LIMIT
    ensures Generations(Acquired(cfg, c, now, reduction))
  {
    var d := Acquired(cfg, c, now, reduction);
    if c.entry.state.Closed? || ProbeDue(c.entry, now) {
      var last := |c.log|;
      assert forall i :: 0 <= i < last ==> d.log[i] == c.log[i];
      assert forall i, g :: i != last ==> (GrantAt(d.log, i, g) <==> GrantAt(c.log, i, g));
      assert GrantAt(d.log, last, d.entry.generation);
      var unused := c.entry.generation + 1;
      assert forall i :: !GrantAt(c.log, i, unused);
    }
  }

  /** Moving on to an unused generation, with no grant, leaves nothing in flight. */
  lemma MoveOn(c: Circuit, d: Circuit, e: Event)
    requires Generations(c) && d.entry.generation == c.entry.generation + 1 && !d.entry.state.HalfOpen?
    requires d.log == c.log || (d.log == c.log + [e] && !e.Grant?)
    ensures Generations(d)
  {
  }

  /** A completion that stays in its generation is just noted. */
  lemma StayOn(c: Circuit, d: Circuit, e: Event)
    requires Generations(c) && d.entry.generation == c.entry.generation && d.entry.state == c.entry.state
    requires d.log == c.log + [e] && !e.Grant?
    ensures Generations(d)
  {
    assert forall i, g :: GrantAt(d.log, i, g) <==> GrantAt(c.log, i, g);
    assert forall i :: 0 <= i < |c.log| ==> d.log[i] == c.log[i];
  }

  lemma CompletionGenerations(cfg: Config, c: Circuit, p: Permit, now: real, reduction: nat)
    requires Usable(cfg) && reduction <= cfg.jitterPercent && Generations(c) && c.entry.generation + 1 < U64_LIMIT
    ensures Generations(Succeeded(cfg, c, p)) && Generations(Failed(cfg, c, p, now, reduction))
  {
    SuccessGenerations(cfg, c, p);
    FailureGenerations(cfg, c, p, now, reduction);
  }

  lemma SuccessGenerations(cfg: Config, c: Circuit, p: Permit)
    requires Usable(cfg) && Generations(c) && c.entry.generation + 1 < U64_LIMIT
    ensures Generations(Succeeded(cfg, c, p))
  {
    if c.entry.generation == p.generation {
      if p.probe {
        MoveOn(c, Succeeded(cfg, c, p), Reclosed);
      } else {
        StayOn(c, Succeeded(cfg, c, p), Worked);
      }
    }
  }

  lemma FailureGenerations(cfg: Config, c: Circuit, p: Permit, now: real, reduction: nat)
    requires Usable(cfg) && reduction <= cfg.jitterPercent && Generations(c) && c.entry.generation + 1 < U64_LIMIT
    ensures Generations(Failed(cfg, c, p, now, reduction))
  {
    var d := Failed(cfg, c, p, now, reduction);
    if c.entry.generation == p.generation && !c.entry.state.Open? {
      if d.entry.generation == c.entry.generation {
        StayOn(c, d, Missed);
      } else {
        MoveOn(c, d, if c.entry.state.HalfOpen? then ProbeFailed else Missed);
      }
    }
  }

  // ----- back-off and thresholds -----

  ghost function Doubled(x: real, k: nat): real {
    if k == 0 then x else 2.0 * Doubled(x, k - 1)
  }

  /** The documented back-off: doubling from the initial open time, up to the maximum. */
  ghost function Backoff(cfg: Config, k: nat): real {
    if Doubled(cfg.initialOpen, k) <= cfg.maxOpen then Doubled(cfg.initialOpen, k) else cfg.maxOpen
  }

  /** Failed probes since the circuit last closed. */
  ghost function FailedProbes(log: seq<Event>): nat {
    if log == [] then 0
    else match log[|log| - 1]
      case Reclosed => 0
      case ProbeFailed => FailedProbes(log[..|log| - 1]) + 1
      case _ => FailedProbes(log[..|log| - 1])
  }

  /** Matching failures of the dependency since the last matching success or close. */
  ghost function Streak(log: seq<Event>): nat {
    if log == [] then 0
    else match log[|log| - 1]
      case Missed => Streak(log[..|log| - 1]) + 1
      case Worked => 0
      case Reclosed => 0
      case _ => Streak(log[..|log| - 1])
  }

  lemma LoggedStreak(log: seq<Event>, e: Event)
    ensures Streak(log + [e])
         == if e.Missed? then Streak(log) + 1 else if e.Worked? || e.Reclosed? then 0 else Streak(log)
  {
    assert (log + [e])[..|log|] == log;
  }

  /** A closed circuit counts exactly its streak, up to the counter's largest value. */
  ghost predicate Counted(cfg: Config, c: Circuit) {
    c.entry.state.Closed? ==>
      && c.entry.failures == (if Streak(c.log) <= COUNTER_MAX then Streak(c.log) else COUNTER_MAX)
      && Streak(c.log) < cfg.threshold
  }

  lemma AcquireCounted(cfg: Config, c: Circuit, now: real, reduction: nat)
    requires Usable(cfg) && reduction <= cfg.jitterPercent && Counted(cfg, c)
    ensures Counted(cfg, Acquired(cfg, c, now, reduction))
  {
    var next := AfterAcquire(cfg, c.entry, now, reduction);
    LoggedStreak(c.log, Grant(next.generation, next.state.HalfOpen?, now));
  }

  lemma SuccessCounted(cfg: Config, c: Circuit, p: Permit)
    requires Usable(cfg) && Counted(cfg, c)
    ensures Counted(cfg, Succeeded(cfg, c, p))
  {
    LoggedStreak(c.log, Worked);
    LoggedStreak(c.log, Reclosed);
  }

  lemma FailureCounted(cfg: Config, c: Circuit, p: Permit, now: real, reduction: nat)
    requires Usable(cfg) && reduction <= cfg.jitterPercent && Counted(cfg, c)
    ensures Counted(cfg, Failed(cfg, c, p, now, reduction))
  {
    LoggedStreak(c.log, Missed);
    LoggedStreak(c.log, ProbeFailed);
  }

  lemma {:induction false} DoubledGrows(x: real, k: nat)
    requires x > 0.0
    ensures Doubled(x, k) >= x
  {
    if k > 0 {
      DoubledGrows(x, k - 1);
    }
  }

  lemma LoggedProbes(log: seq<Event>, e: Event)
    ensures FailedProbes(log + [e]) ==
            (match e
             case Reclosed => 0
             case ProbeFailed => FailedProbes(log) + 1
             case _ => FailedProbes(log))
  {
    assert (log + [e])[..|log|] == log;
  }

  ghost predicate Paced(cfg: Config, c: Circuit) {
    && c.entry.openFor == Backoff(cfg, FailedProbes(c.log))
    && (c.entry.state.Closed? ==> c.entry.failures < cfg.threshold && FailedProbes(c.log) == 0)
  }

  lemma AcquirePaced(cfg: Config, c: Circuit, now: real, reduction: nat)
    requires Usable(cfg) && reduction <= cfg.jitterPercent && Paced(cfg, c)
    ensures Paced(cfg, Acquired(cfg, c, now, reduction))
  {
  }

  /** A success resets the open time; only a half-open circuit can have anything to reset. */
  lemma SuccessPaced(cfg: Config, c: Circuit, p: Permit)
    requires Usable(cfg) && Paced(cfg, c) && Generations(c) && Granted(c.log, p.generation, p.probe)
    ensures Paced(cfg, Succeeded(cfg, c, p))
  {
    LoggedProbes(c.log, Reclosed);
    LoggedProbes(c.log, Worked);
    if c.entry.generation == p.generation {
      var i :| 0 <= i < |c.log| && c.log[i].Grant? && c.log[i].generation == p.generation && c.log[i].probe == p.probe;
      assert GrantAt(c.log, i, c.entry.generation);
    }
  }

  lemma FailurePaced(cfg: Config, c: Circuit, p: Permit, now: real, reduction: nat)
    requires Usable(cfg) && reduction <= cfg.jitterPercent && Paced(cfg, c)
    ensures Paced(cfg, Failed(cfg, c, p, now, reduction))
  {
    LoggedProbes(c.log, ProbeFailed);
    LoggedProbes(c.log, Missed);
    DoubledGrows(cfg.initialOpen, FailedProbes(c.log));
  }

  // ----- spacing of probes -----

  /** Four fifths of the initial open time. */
  ghost function Gap(cfg: Config): real {
    0.8 * cfg.initialOpen
  }

  ghost predicate ProbeAt(log: seq<Event>, i: int) {
    0 <= i < |log| && log[i].Grant? && log[i].probe
  }

  ghost predicate Spaced(cfg: Config, c: Circuit, clock: real) {
    && (forall i :: ProbeAt(c.log, i) ==> c.log[i].time <= clock)
    && (forall i :: ProbeAt(c.log, i) && c.entry.state.Open? ==> c.entry.state.retryAt >= c.log[i].time + Gap(cfg))
    && (forall i :: ProbeAt(c.log, i) && c.entry.state.HalfOpen? ==>
          c.entry.state.probeUntil >= c.log[i].time + Gap(cfg))
    && (forall i, j :: ProbeAt(c.log, i) && ProbeAt(c.log, j) && i < j ==> c.log[j].time >= c.log[i].time + Gap(cfg))
  }

  lemma JitterBound(cfg: Config, openFor: real, reduction: nat)
    requires Usable(cfg) && reduction <= cfg.jitterPercent && openFor >= cfg.initialOpen
    ensures Jittered(cfg, openFor, reduction) >= Gap(cfg)
  {
    var kept := (100 - reduction) as real / 100.0;
    assert 100 - reduction >= 80;
    Scaled(openFor, kept);
    assert Jittered(cfg, openFor, reduction) == openFor || Jittered(cfg, openFor, reduction) == openFor * kept;
    assert 0.8 * openFor >= 0.8 * cfg.initialOpen;
  }

  lemma Scaled(x: real, k: real)
    requires x > 0.0 && k >= 0.8
    ensures x * k >= 0.8 * x
  {
    assert x * (k - 0.8) >= 0.0;
  }

  lemma OpenAtLeastInitial(cfg: Config, c: Circuit)
    requires Usable(cfg) && Paced(cfg, c)
    ensures c.entry.openFor >= cfg.initialOpen
  {
    DoubledGrows(cfg.initialOpen, FailedProbes(c.log));
  }

  lemma AcquireSpaced(cfg: Config, c: Circuit, clock: real, now: real, reduction: nat)
    requires Usable(cfg) && reduction <= cfg.jitterPercent && clock <= now && Paced(cfg, c) && Spaced(cfg, c, clock)
    ensures Spaced(cfg, Acquired(cfg, c, now, reduction), now)
  {
    var d := Acquired(cfg, c, now, reduction);
    OpenAtLeastInitial(cfg, c);
    JitterBound(cfg, c.entry.openFor, reduction);
    if c.entry.state.Closed? || ProbeDue(c.entry, now) {
      assert forall i :: 0 <= i < |c.log| ==> d.log[i] == c.log[i];
      assert forall i :: i != |c.log| ==> (ProbeAt(d.log, i) <==> ProbeAt(c.log, i));
    }
  }

  /** Completions grant nothing, and reopening waits at least the gap from now. */
  lemma CompletionSpaced(cfg: Config, c: Circuit, d: Circuit, clock: real, now: real)
    requires Spaced(cfg, c, clock) && clock <= now
    requires d.log == c.log || exists e :: d.log == c.log + [e] && !e.Grant?
    requires d.entry.state == c.entry.state || d.entry.state.Closed?
             || (d.entry.state.Open? && d.entry.state.retryAt >= now + Gap(cfg))
    ensures Spaced(cfg, d, now)
  {
  }

  lemma FailureSpaced(cfg: Config, c: Circuit, p: Permit, clock: real, now: real, reduction: nat)
    requires Usable(cfg) && reduction <= cfg.jitterPercent && clock <= now && Paced(cfg, c) && Spaced(cfg, c, clock)
    ensures Spaced(cfg, Failed(cfg, c, p, now, reduction), now)
  {
    var d := Failed(cfg, c, p, now, reduction);
    FailurePaced(cfg, c, p, now, reduction);
    OpenAtLeastInitial(cfg, d);
    JitterBound(cfg, d.entry.openFor, reduction);
    assert d.log == c.log || d.log == c.log + [ProbeFailed] || d.log == c.log + [Missed];
    CompletionSpaced(cfg, c, d, clock, now);
  }

  // ----- the invariant over whole runs -----

  ghost predicate Sound(cfg: Config, c: Circuit, clock: real, calls: nat) {
    && c.entry.generation <= calls
    && Generations(c)
    && Paced(cfg, c)
    && Spaced(cfg, c, clock)
    && Counted(cfg, c)
  }

  ghost predicate Inv(cfg: Config, w: World, calls: nat) {
    forall key :: key in w.circuits ==> Sound(cfg, w.circuits[key], w.clock, calls)
  }

  /** Time passing and calls on other keys keep a circuit sound. */
  lemma SoundLater(cfg: Config, c: Circuit, clock: real, calls: nat, now: real)
    requires Sound(cfg, c, clock, calls) && clock <= now
    ensures Sound(cfg, c, now, calls + 1)
  {
    CompletionSpaced(cfg, c, c, clock, now);
  }

  lemma AcquireSound(cfg: Config, c: Circuit, clock: real, calls: nat, now: real, reduction: nat)
    requires Usable(cfg) && reduction <= cfg.jitterPercent && clock <= now && calls + 1 < U64_LIMIT
    requires Sound(cfg, c, clock, calls)
    ensures Sound(cfg, Acquired(cfg, c, now, reduction), now, calls + 1)
  {
    AcquireGenerations(cfg, c, now, reduction);
    AcquirePaced(cfg, c, now, reduction);
    AcquireSpaced(cfg, c, clock, now, reduction);
    AcquireCounted(cfg, c, now, reduction);
  }

  lemma SuccessSound(cfg: Config, c: Circuit, clock: real, calls: nat, p: Permit, now: real)
    requires Usable(cfg) && calls + 1 < U64_LIMIT && clock <= now
    requires Sound(cfg, c, clock, calls) && Granted(c.log, p.generation, p.probe)
    ensures Sound(cfg, Succeeded(cfg, c, p), now, calls + 1)
  {
    CompletionGenerations(cfg, c, p, now, 0);
    SuccessPaced(cfg, c, p);
    SuccessCounted(cfg, c, p);
    var d := Succeeded(cfg, c, p);
    assert d.log == c.log || d.log == c.log + [Reclosed] || d.log == c.log + [Worked];
    CompletionSpaced(cfg, c, d, clock, now);
  }

  lemma FailureSound(cfg: Config, c: Circuit, clock: real, calls: nat, p: Permit, now: real, reduction: nat)
    requires Usable(cfg) && reduction <= cfg.jitterPercent && clock <= now && calls + 1 < U64_LIMIT
    requires Sound(cfg, c, clock, calls)
    ensures Sound(cfg, Failed(cfg, c, p, now, reduction), now, calls + 1)
  {
    CompletionGenerations(cfg, c, p, now, reduction);
    FailurePaced(cfg, c, p, now, reduction);
    FailureSpaced(cfg, c, p, clock, now, reduction);
    FailureCounted(cfg, c, p, now, reduction);
  }

  lemma FreshSound(cfg: Config, clock: real, calls: nat)
    requires Usable(cfg)
    ensures Sound(cfg, Circuit(FreshEntry(cfg), []), clock, calls)
  {
    assert FailedProbes([]) == 0 && Streak([]) == 0;
  }

  ghost function KeyOf(call: Call): string {
    if call.Acquire? then call.key else call.permit.key
  }

  /** A call changes at most the circuit of its own key. */
  lemma OtherKeys(cfg: Config, w: World, call: Call, key: string)
    requires Usable(cfg) && Allowed(cfg, w, call) && key != KeyOf(call)
    ensures key in Step(cfg, w, call).circuits <==> key in w.circuits
    ensures key in w.circuits ==> Step(cfg, w, call).circuits[key] == w.circuits[key]
  {
  }

  lemma StepKeeps(cfg: Config, w: World, call: Call, calls: nat)
    requires Usable(cfg) && Allowed(cfg, w, call) && Inv(cfg, w, calls) && calls + 1 < U64_LIMIT
    ensures Inv(cfg, Step(cfg, w, call), calls + 1)
  {
    var next := Step(cfg, w, call);
    forall key | key in next.circuits
      ensures Sound(cfg, next.circuits[key], next.clock, calls + 1)
    {
      if key != KeyOf(call) {
        OtherKeys(cfg, w, call, key);
        SoundLater(cfg, w.circuits[key], w.clock, calls, next.clock);
      } else {
        match call
        case Acquire(_, now, reduction) =>
          FreshSound(cfg, w.clock, calls);
          var c := if key in w.circuits then w.circuits[key] else Circuit(FreshEntry(cfg), []);
          AcquireSound(cfg, c, w.clock, calls, now, reduction);
        case Success(p) =>
          SuccessSound(cfg, w.circuits[key], w.clock, calls, p, w.clock);
        case Failure(p, now, impact, reduction) =>
          if impact.Available? {
            SuccessSound(cfg, w.circuits[key], w.clock, calls, p, now);
          } else {
            FailureSound(cfg, w.circuits[key], w.clock, calls, p, now, reduction);
          }
      }
    }
  }

  lemma {:induction false} RunKeeps(cfg: Config, start: real, calls: seq<Call>, w: World)
    requires Usable(cfg) && Run(cfg, start, calls) == Some(w) && |calls| < U64_LIMIT
    ensures Inv(cfg, w, |calls|)
  {
    if calls != [] {
      var last := |calls| - 1;
      var prior := Run(cfg, start, calls[..last]).value;
      RunKeeps(cfg, start, calls[..last], prior);
      StepKeeps(cfg, prior, calls[last], last);
    }
  }

  /**
    In every interleaving on any keys: nothing granted can touch an open circuit,
    a half-open circuit listens to exactly one permit, its probe, and a closed one
    to no probe. So a matching probe success always finds its circuit half open.
   */
  lemma BreakerSafety(cfg: Config, start: real, calls: seq<Call>, w: World, p: Permit)
    requires Usable(cfg) && Run(cfg, start, calls) == Some(w) && |calls| < U64_LIMIT && Issued(w, p)
    ensures var e := w.circuits[p.key].entry;
            && (e.state.Open? ==> p.generation != e.generation)
            && (p.generation == e.generation ==> (p.probe <==> e.state.HalfOpen?))
            && (e.state.Closed? ==> e.failures == Streak(w.circuits[p.key].log) < cfg.threshold)
  {
    RunKeeps(cfg, start, calls, w);
    var c := w.circuits[p.key];
    var i :| 0 <= i < |c.log| && c.log[i].Grant? && c.log[i].generation == p.generation && c.log[i].probe == p.probe;
    if p.generation == c.entry.generation {
      assert GrantAt(c.log, i, c.entry.generation);
    }
  }

  /** A permit that does not match, and every permit of an open circuit, completes without effect. */
  lemma StaleCompletion(cfg: Config, start: real, calls: seq<Call>, w: World, p: Permit, now: real, reduction: nat)
    requires Usable(cfg) && Run(cfg, start, calls) == Some(w) && |calls| < U64_LIMIT && Issued(w, p)
    requires now >= w.clock && reduction <= cfg.jitterPercent
    requires w.circuits[p.key].entry.state.Open? || p.generation != w.circuits[p.key].entry.generation
    ensures Step(cfg, w, Success(p)).circuits == w.circuits
    ensures Step(cfg, w, Failure(p, now, Unavailable, reduction)).circuits == w.circuits
  {
    BreakerSafety(cfg, start, calls, w, p);
  }

  /** A half-open circuit waits for exactly one grant, its probe. */
  lemma OneProbe(cfg: Config, start: real, calls: seq<Call>, w: World, key: string)
    requires Usable(cfg) && Run(cfg, start, calls) == Some(w) && |calls| < U64_LIMIT
    requires key in w.circuits && w.circuits[key].entry.state.HalfOpen?
    ensures var c := w.circuits[key];
            exists i ::
              && GrantAt(c.log, i, c.entry.generation)
              && c.log[i].probe
              && forall j :: GrantAt(c.log, j, c.entry.generation) ==> j == i
  {
    RunKeeps(cfg, start, calls, w);
    var c := w.circuits[key];
    var i :| GrantAt(c.log, i, c.entry.generation);
    assert c.log[i].probe && forall j :: GrantAt(c.log, j, c.entry.generation) ==> j == i;
  }

  /** Back-off counts failed probes since the last close; probes of one key are never closer than the gap. */
  lemma ProbePacing(cfg: Config, start: real, calls: seq<Call>, w: World, key: string, i: int, j: int)
    requires Usable(cfg) && Run(cfg, start, calls) == Some(w) && |calls| < U64_LIMIT && key in w.circuits
    ensures w.circuits[key].entry.openFor == Backoff(cfg, FailedProbes(w.circuits[key].log))
    ensures ProbeAt(w.circuits[key].log, i) && ProbeAt(w.circuits[key].log, j) && i < j ==>
              w.circuits[key].log[j].time - w.circuits[key].log[i].time >= Gap(cfg)
  {
    RunKeeps(cfg, start, calls, w);
  }

  /**
    A closed circuit opens on exactly the matching failure that brings its
    streak to the threshold, and on no earlier one; a failed probe opens a
    half-open circuit again.
   */
  lemma ThresholdOpens(cfg: Config, start: real, calls: seq<Call>, w: World, p: Permit, now: real, reduction: nat)
    requires Usable(cfg) && Run(cfg, start, calls) == Some(w) && |calls| < U64_LIMIT
    requires Allowed(cfg, w, Failure(p, now, Unavailable, reduction))
    requires p.generation == w.circuits[p.key].entry.generation
    ensures var before := w.circuits[p.key];
            var after := Step(cfg, w, Failure(p, now, Unavailable, reduction)).circuits[p.key];
            && !before.entry.state.Open?
            && (before.entry.state.Closed? ==>
                  && Streak(after.log) == Streak(before.log) + 1 <= cfg.threshold
                  && (after.entry.state.Open? <==> Streak(after.log) == cfg.threshold)
                  && (after.entry.state.Closed? <==> Streak(after.log) < cfg.threshold))
            && (before.entry.state.HalfOpen? ==> after.entry.state.Open?)
            && (after.entry.state.Open? ==> after.entry.state.retryAt >= now + Gap(cfg))
  {
    RunKeeps(cfg, start, calls, w);
    BreakerSafety(cfg, start, calls, w, p);
    LoggedStreak(w.circuits[p.key].log, Missed);
    FailureSpaced(cfg, w.circuits[p.key], p, w.clock, now, reduction);
    OpenTime(cfg, w.circuits[p.key], p, now, reduction);
  }

  lemma OpenTime(cfg: Config, c: Circuit, p: Permit, now: real, reduction: nat)
    requires Usable(cfg) && reduction <= cfg.jitterPercent && Paced(cfg, c) && !c.entry.state.Open?
    ensures var after := AfterFailure(cfg, c.entry, p, now, reduction);
            after.state.Open? ==> now + Gap(cfg) <= after.state.retryAt <= now + after.openFor
  {
    FailurePaced(cfg, c, p, now, reduction);
    OpenAtLeastInitial(cfg, Failed(cfg, c, p, now, reduction));
    var after := AfterFailure(cfg, c.entry, p, now, reduction);
    JitterBound(cfg, after.openFor, reduction);
    JitterShortens(cfg, after.openFor, reduction);
  }

  /** Jitter only ever shortens an open time. */
  lemma JitterShortens(cfg: Config, openFor: real, reduction: nat)
    requires reduction <= cfg.jitterPercent <= 100 && openFor >= 0.0
    ensures Jittered(cfg, openFor, reduction) <= openFor
    ensures reduction == 0 ==> Jittered(cfg, openFor, reduction) == openFor
  {
    var kept := (100 - reduction) as real / 100.0;
    ProductSign(openFor, 1.0 - kept);
    assert openFor * kept == openFor - openFor * (1.0 - kept);
  }

  /** Three failures in a row open a circuit whose threshold is three, and two do not. */
  lemma ThirdFailureOpens(cfg: Config, key: string, start: real)
    requires Usable(cfg) && cfg.threshold == 3
    ensures var p := Permit(key, 0, false);
            var two := [Acquire(key, start, 0), Failure(p, start, Unavailable, 0), Failure(p, start, Unavailable, 0)];
            var three := two + [Failure(p, start, Unavailable, 0)];
            && Run(cfg, start, two).Some? && Run(cfg, start, two).value.circuits[key].entry.state.Closed?
            && Run(cfg, start, three).Some? && Run(cfg, start, three).value.circuits[key].entry.state.Open?
  {
    var p := Permit(key, 0, false);
    var fail := Failure(p, start, Unavailable, 0);
    var one := [Acquire(key, start, 0)];
    var c := Circuit(FreshEntry(cfg), [Grant(0, false, start)]);
    assert one[..0] == [] && [] + [Grant(0, false, start)] == [Grant(0, false, start)];
    assert Run(cfg, start, one) == Some(World(map[key := c], start));
    FailsOnce(cfg, key, start, one, c);
    var c1 := Failed(cfg, c, p, start, 0);
    FailsOnce(cfg, key, start, one + [fail], c1);
    var c2 := Failed(cfg, c1, p, start, 0);
    assert one + [fail] + [fail] == [Acquire(key, start, 0), fail, fail];
    FailsOnce(cfg, key, start, [Acquire(key, start, 0), fail, fail], c2);
  }

  lemma FailsOnce(cfg: Config, key: string, start: real, calls: seq<Call>, c: Circuit)
    requires Usable(cfg) && Run(cfg, start, calls) == Some(World(map[key := c], start))
    requires c.log != [] && c.log[0] == Grant(0, false, start)
    ensures var p := Permit(key, 0, false);
            var after := Failed(cfg, c, p, start, 0);
            && Run(cfg, start, calls + [Failure(p, start, Unavailable, 0)]) == Some(World(map[key := after], start))
            && after.log != [] && after.log[0] == c.log[0]
  {
    var p := Permit(key, 0, false);
    var fail := Failure(p, start, Unavailable, 0);
    var w := World(map[key := c], start);
    assert (calls + [fail])[..|calls|] == calls;
    assert Granted(c.log, 0, false) && Allowed(cfg, w, fail);
    assert Step(cfg, w, fail).circuits == map[key := Failed(cfg, c, p, start, 0)];
  }
}
