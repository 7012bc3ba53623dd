/** Risk scores and isolation of clients (pkg/security/detector/client_risk.go).

    Instants and durations are seconds; the zero time is 0.  The time of the last violation is
    kept as the code keeps it: it is read by the decay loop and never assigned. */
module ClientRisk {
  import opened Arithmetic

  datatype Status = Clean | Suspicious | Compromised

  datatype Config = Config(compromiseAt: int, suspiciousAt: int, quarantine: int, decayInterval: int,
                           decayAmount: int) {
    predicate Valid() { quarantine >= 0 && decayInterval > 0 && decayAmount >= 0 }
  }

  const DEFAULT := Config(100, 40, 300, 60, 10)
  const STALE_SECONDS := 1800
  const MAX_INCIDENTS := 100

  datatype Incident = Incident(at: int, scoreDelta: int)

  datatype Profile = Profile(score: int, status: Status, incidents: seq<Incident>, firstSeen: int,
                             lastViolation: int, quarantinedUntil: int)

  type Profiles = map<string, Profile>

  // ---------------------------------------------------------------------------------------
  // Steps
  // ---------------------------------------------------------------------------------------

  function StatusOf(c: Config, score: int): Status {
    if score >= c.compromiseAt then Compromised else if score >= c.suspiciousAt then Suspicious else Clean
  }

  function Fresh(now: int): Profile { Profile(0, Clean, [], now, 0, 0) }

  function LastFew(incidents: seq<Incident>): seq<Incident> {
    if |incidents| > MAX_INCIDENTS then incidents[|incidents| - MAX_INCIDENTS..] else incidents
  }

  function Blamed(c: Config, p: Profile, delta: int, now: int): Profile {
    var score := p.score + delta;
    var q := p.(score := score, status := StatusOf(c, score),
                incidents := LastFew(p.incidents + [Incident(now, delta)]));
    if q.status == Compromised then q.(quarantinedUntil := now + c.quarantine) else q
  }

  function RecordStep(c: Config, ps: Profiles, whitelist: set<string>, id: string, delta: int, now: int): Profiles {
    if id == "" || id in whitelist then ps
    else ps[id := Blamed(c, if id in ps then ps[id] else Fresh(now), delta, now)]
  }

  function Decayed(c: Config, p: Profile, now: int): Profile {
    if now - p.lastViolation < c.decayInterval then p
    else
      var score := if p.score - c.decayAmount < 0 then 0 else p.score - c.decayAmount;
      p.(score := score, status := if now > p.quarantinedUntil then StatusOf(c, score) else p.status)
  }

  predicate Forgotten(p: Profile, now: int) {
    && p.score == 0 && p.status == Clean
    && now - p.lastViolation > STALE_SECONDS && now - p.firstSeen > STALE_SECONDS
  }

  function DecayStep(c: Config, ps: Profiles, now: int): Profiles {
    map id | id in ps && !Forgotten(Decayed(c, ps[id], now), now) :: Decayed(c, ps[id], now)
  }

  function ResetStep(ps: Profiles, id: string): Profiles {
    if id in ps then ps[id := ps[id].(score := 0, status := Clean, quarantinedUntil := 0)] else ps
  }

  predicate Isolated(ps: Profiles, id: string, now: int) {
    id in ps && (ps[id].status == Compromised || now < ps[id].quarantinedUntil)
  }

  datatype Event =
    | Violation(id: string, delta: int, at: int)
    | Decay(at: int)
    | Reset(id: string, at: int)

  function Step(c: Config, wl: set<string>, ps: Profiles, e: Event): Profiles {
    match e
    case Violation(id, delta, now) => RecordStep(c, ps, wl, id, delta, now)
    case Decay(now) => DecayStep(c, ps, now)
    case Reset(id, _) => ResetStep(ps, id)
  }

  function Run(c: Config, wl: set<string>, ps: Profiles, es: seq<Event>): Profiles {
    if es == [] then ps else Step(c, wl, Run(c, wl, ps, es[..|es| - 1]), es[|es| - 1])
  }

  // ---------------------------------------------------------------------------------------
  // Isolation
  // ---------------------------------------------------------------------------------------

  function Ticks(es: seq<Event>): nat {
    if es == [] then 0 else Ticks(es[..|es| - 1]) + if es[|es| - 1].Decay? then 1 else 0
  }

  // Events after `start`, without a reset of the client, in which its violations weigh at least `least`.
  ghost predicate Undisturbed(es: seq<Event>, id: string, start: int, least: nat) {
    forall e | e in es :: e.at >= start &&
      (e.Violation? && e.id == id ==> e.delta >= least) && (e.Reset? ==> e.id != id)
  }

  // The client is known, its score has lost no more than the ticks took, and its quarantine
  // lasts until `deadline`.
  ghost predicate Held(c: Config, ps: Profiles, id: string, ticks: nat, deadline: int) {
    id in ps && ps[id].score >= c.compromiseAt - ticks * c.decayAmount && ps[id].quarantinedUntil >= deadline
  }

  lemma FewerTicksTakeLess(c: Config, k: nat, n: nat)
    requires c.Valid() && k <= n && n * c.decayAmount < c.compromiseAt
    ensures k * c.decayAmount < c.compromiseAt
  {
    assert (n - k) * c.decayAmount >= 0;
    assert n * c.decayAmount == k * c.decayAmount + (n - k) * c.decayAmount;
  }

  lemma HeldOneMore(c: Config, wl: set<string>, ps: Profiles, e: Event, id: string, start: int, ticks: nat)
    requires c.Valid() && Held(c, ps, id, ticks, start + c.quarantine) && ticks * c.decayAmount < c.compromiseAt
    requires e.at >= start && (e.Violation? && e.id == id ==> e.delta >= 0) && (e.Reset? ==> e.id != id)
    requires e.Decay? ==> (ticks + 1) * c.decayAmount < c.compromiseAt
    ensures Held(c, Step(c, wl, ps, e), id, if e.Decay? then ticks + 1 else ticks, start + c.quarantine)
  {
    assert (ticks + 1) * c.decayAmount == ticks * c.decayAmount + c.decayAmount;
  }

  lemma {:induction false} HeldUndisturbed(c: Config, wl: set<string>, ps: Profiles, es: seq<Event>, id: string,
                                           start: int)
    requires c.Valid() && Held(c, ps, id, 0, start + c.quarantine) && Undisturbed(es, id, start, 0)
    requires Ticks(es) * c.decayAmount < c.compromiseAt
    ensures Held(c, Run(c, wl, ps, es), id, Ticks(es), start + c.quarantine)
  {
    if es != [] {
      var init, e := es[..|es| - 1], es[|es| - 1];
      FewerTicksTakeLess(c, Ticks(init), Ticks(es));
      HeldUndisturbed(c, wl, ps, init, id, start);
      assert e in es;
      HeldOneMore(c, wl, Run(c, wl, ps, init), e, id, start, Ticks(init));
    }
  }

  /** A client compromised at `start` stays isolated until its quarantine ends, under every
      interleaving of violations, decay ticks and deletions, as long as nobody resets it and
      the decay ticks in between take less than the compromise threshold. */
  lemma QuarantineHolds(c: Config, wl: set<string>, ps: Profiles, id: string, delta: int, start: int,
                        es: seq<Event>, now: int)
    requires c.Valid() && id != "" && id !in wl
    requires RecordStep(c, ps, wl, id, delta, start)[id].status == Compromised
    requires Undisturbed(es, id, start, 0) && Ticks(es) * c.decayAmount < c.compromiseAt
    requires now < start + c.quarantine
    ensures Isolated(Run(c, wl, RecordStep(c, ps, wl, id, delta, start), es), id, now)
  {
    HeldUndisturbed(c, wl, RecordStep(c, ps, wl, id, delta, start), es, id, start);
  }

  function LastTick(es: seq<Event>): int {
    if es == [] then 0
    else if es[|es| - 1].Decay? then es[|es| - 1].at
    else LastTick(es[..|es| - 1])
  }

  // The decay loop ticks no faster than its interval.
  ghost predicate Paced(c: Config, es: seq<Event>) {
    es == [] ||
    var init, e := es[..|es| - 1], es[|es| - 1];
    Paced(c, init) && (e.Decay? && Ticks(init) > 0 ==> e.at - LastTick(init) >= c.decayInterval)
  }

  // Ticks an interval apart take up as much time as they are many.
  lemma {:induction false} TicksTakeTime(c: Config, es: seq<Event>, start: int, end: int)
    requires c.Valid() && Paced(c, es) && Ticks(es) > 0 && forall e | e in es :: start <= e.at < end
    ensures LastTick(es) - start >= (Ticks(es) - 1) * c.decayInterval && LastTick(es) < end
  {
    var init, e := es[..|es| - 1], es[|es| - 1];
    assert e in es;
    if Ticks(init) > 0 {
      TicksTakeTime(c, init, start, end);
      assert Ticks(init) * c.decayInterval == (Ticks(init) - 1) * c.decayInterval + c.decayInterval;
    }
  }

  // How many ticks an interval apart fit into one quarantine.
  function MostTicks(c: Config): nat
    requires c.Valid()
  {
    if c.quarantine > 0 then (c.quarantine - 1) / c.decayInterval + 1 else 0
  }

  function Max(a: int, b: int): int { if a >= b then a else b }

  function Min(a: int, b: int): int { if a <= b then a else b }

  // The least score `k` ticks leave a client that was compromised.
  function Floor(c: Config, k: nat): int {
    if c.compromiseAt <= 0 then c.compromiseAt else Max(0, c.compromiseAt - k * c.decayAmount)
  }

  // A score below this makes a client look clean.
  function CleanBelow(c: Config): int { Min(c.suspiciousAt, c.compromiseAt) }

  // Within one quarantine a violation of weight `least` cannot leave a score that looks clean and that
  // the remaining ticks take to zero.
  predicate Sustains(c: Config, least: nat)
    requires c.Valid()
  {
    forall k | 0 <= k < MostTicks(c) :: !LooksCleanAfter(c, least, k) || !RunsOut(c, least, k, MostTicks(c))
  }

  // A violation after `k` ticks leaves a score that looks clean.
  predicate LooksCleanAfter(c: Config, least: nat, k: nat) { Floor(c, k) + least < CleanBelow(c) }

  // By the n-th tick that score has run out.
  predicate RunsOut(c: Config, least: nat, k: nat, n: nat) { Floor(c, k) + least <= (n - k) * c.decayAmount }

  lemma FloorFalls(c: Config, k: nat, n: nat)
    requires c.Valid() && k <= n
    ensures Floor(c, n) <= Floor(c, k) && k * c.decayAmount <= n * c.decayAmount
    ensures c.compromiseAt > 0 ==> Floor(c, 0) == c.compromiseAt
    ensures Floor(c, k + 1) >= (if c.compromiseAt <= 0 then c.compromiseAt else 0)
    ensures Floor(c, k + 1) <= Max(0, Floor(c, k) - c.decayAmount)
  {
    Monotone(c.decayAmount, k, n);
    assert (k + 1) * c.decayAmount == k * c.decayAmount + c.decayAmount;
    assert 0 * c.decayAmount == 0;
  }

  /** Without a least weight the condition is one on the last tick: some threshold is not positive, or
      all ticks together take less than the compromise, or there are fewer than two, or all but one leave
      a score that does not look clean. */
  lemma SustainsWithoutWeight(c: Config)
    requires c.Valid()
    ensures Sustains(c, 0) <==>
            || c.compromiseAt <= 0 || c.suspiciousAt <= 0 || MostTicks(c) * c.decayAmount < c.compromiseAt
            || MostTicks(c) < 2 || Floor(c, MostTicks(c) - 1) >= CleanBelow(c)
  {
    var n := MostTicks(c);
    if c.compromiseAt > 0 && c.suspiciousAt > 0 && n * c.decayAmount >= c.compromiseAt && n >= 2 &&
       Floor(c, n - 1) < CleanBelow(c)
    {
      assert (n - (n - 1)) * c.decayAmount == c.decayAmount;
      assert n * c.decayAmount == (n - 1) * c.decayAmount + c.decayAmount;
      assert LooksCleanAfter(c, 0, n - 1) && RunsOut(c, 0, n - 1, n);
    }
    forall k | 0 <= k < n && LooksCleanAfter(c, 0, k) && RunsOut(c, 0, k, n)
      ensures c.compromiseAt > 0 && c.suspiciousAt > 0 && n * c.decayAmount >= c.compromiseAt && n >= 2
      ensures Floor(c, n - 1) < CleanBelow(c)
    {
      RunningOutTakesAll(c, k, n);
    }
  }

  lemma RunningOutTakesAll(c: Config, k: nat, n: nat)
    requires c.Valid() && k < n && LooksCleanAfter(c, 0, k) && RunsOut(c, 0, k, n)
    ensures c.compromiseAt > 0 && c.suspiciousAt > 0 && n * c.decayAmount >= c.compromiseAt && n >= 2
    ensures Floor(c, n - 1) < CleanBelow(c)
  {
    FloorFalls(c, 0, k);
    FloorFalls(c, k, n - 1);
    FloorFalls(c, k, n);
    assert n * c.decayAmount == k * c.decayAmount + (n - k) * c.decayAmount;
    assert Floor(c, 0) >= CleanBelow(c);
  }

  // A violation after `j` ticks explains why the client looks clean after `k`.
  ghost predicate Explains(c: Config, least: nat, p: Profile, j: nat, k: nat) {
    j <= k && LooksCleanAfter(c, least, j) && p.score >= Floor(c, j) + least - (k - j) * c.decayAmount
  }

  // The client is known and quarantined until `deadline`; if it looks clean, a violation explains it.
  ghost predicate Guarded(c: Config, least: nat, ps: Profiles, id: string, k: nat, deadline: int) {
    && id in ps && ps[id].quarantinedUntil >= deadline && ps[id].score >= Floor(c, k)
    && (ps[id].status == Clean ==> exists j :: Explains(c, least, ps[id], j, k))
  }

  lemma ExplainsOneMore(c: Config, least: nat, p: Profile, j: nat, k: nat, at: int)
    requires c.Valid() && Explains(c, least, p, j, k) && at <= p.quarantinedUntil
    ensures Explains(c, least, Decayed(c, p, at), j, k + 1)
  {
    assert (k + 1 - j) * c.decayAmount == (k - j) * c.decayAmount + c.decayAmount;
    if p.score - c.decayAmount < 0 { LooksCleanMeansPositive(c, least, j); }
  }

  lemma LooksCleanMeansPositive(c: Config, least: nat, j: nat)
    requires LooksCleanAfter(c, least, j)
    ensures c.compromiseAt > 0
  {}

  lemma TickKeepsGuard(c: Config, least: nat, ps: Profiles, id: string, k: nat, deadline: int, at: int)
    requires c.Valid() && Sustains(c, least) && Guarded(c, least, ps, id, k, deadline)
    requires at < deadline && k + 1 <= MostTicks(c)
    ensures Guarded(c, least, DecayStep(c, ps, at), id, k + 1, deadline)
  {
    var p, q := ps[id], Decayed(c, ps[id], at);
    FloorFalls(c, k, k + 1);
    if p.status == Clean {
      var j :| Explains(c, least, p, j, k);
      ExplainsOneMore(c, least, p, j, k, at);
      assert Explains(c, least, q, j, k + 1);
      if q.score <= 0 { ExplainedAtZero(c, least, q, j, k + 1); }
    }
  }

  // A client that looks clean and is at zero shows that the configuration is not a sustaining one.
  lemma ExplainedAtZero(c: Config, least: nat, p: Profile, j: nat, k: nat)
    requires c.Valid() && Explains(c, least, p, j, k) && p.score <= 0 && j < k <= MostTicks(c)
    ensures !Sustains(c, least)
  {
    Monotone(c.decayAmount, k - j, MostTicks(c) - j);
    assert RunsOut(c, least, j, MostTicks(c));
  }

  lemma ViolationIsExplained(c: Config, least: nat, p: Profile, delta: int, at: int, k: nat)
    requires p.score >= Floor(c, k) && delta >= least && Blamed(c, p, delta, at).status == Clean
    ensures Explains(c, least, Blamed(c, p, delta, at), k, k)
  {
    assert (k - k) * c.decayAmount == 0;
  }

  lemma StepKeepsGuard(c: Config, least: nat, wl: set<string>, ps: Profiles, e: Event, id: string, start: int, k: nat)
    requires c.Valid() && Guarded(c, least, ps, id, k, start + c.quarantine) && !e.Decay?
    requires e.at >= start && (e.Violation? && e.id == id ==> e.delta >= least) && (e.Reset? ==> e.id != id)
    ensures Guarded(c, least, Step(c, wl, ps, e), id, k, start + c.quarantine)
  {
    if e.Violation? && e.id == id && id != "" && id !in wl {
      var q := Blamed(c, ps[id], e.delta, e.at);
      if q.status == Clean { ViolationIsExplained(c, least, ps[id], e.delta, e.at, k); }
    }
  }

  lemma {:induction false} GuardedThroughout(c: Config, least: nat, wl: set<string>, ps: Profiles, es: seq<Event>,
                                             id: string, start: int)
    requires c.Valid() && Sustains(c, least) && Guarded(c, least, ps, id, 0, start + c.quarantine)
    requires Undisturbed(es, id, start, least) && forall e | e in es :: e.at < start + c.quarantine
    requires Ticks(es) <= MostTicks(c)
    ensures Guarded(c, least, Run(c, wl, ps, es), id, Ticks(es), start + c.quarantine)
  {
    if es != [] {
      var init, e := es[..|es| - 1], es[|es| - 1];
      GuardedThroughout(c, least, wl, ps, init, id, start);
      assert e in es;
      if e.Decay? {
        TickKeepsGuard(c, least, Run(c, wl, ps, init), id, Ticks(init), start + c.quarantine, e.at);
      } else {
        StepKeepsGuard(c, least, wl, Run(c, wl, ps, init), e, id, start, Ticks(init));
      }
    }
  }

  lemma TicksInQuarantine(c: Config, es: seq<Event>, start: int)
    requires c.Valid() && Paced(c, es)
    requires forall e | e in es :: start <= e.at < start + c.quarantine
    ensures Ticks(es) <= MostTicks(c)
  {
    if Ticks(es) > 0 {
      TicksTakeTime(c, es, start, start + c.quarantine);
      FitsQuotient(c.quarantine - 1, c.decayInterval, Ticks(es) - 1);
    }
  }

  /** With a sustaining configuration any compromise, whatever came before it, isolates the client
      for the whole quarantine. */
  lemma SustainsKeepsIsolation(c: Config, least: nat, wl: set<string>, ps: Profiles, id: string, delta: int,
                               start: int, es: seq<Event>, now: int)
    requires c.Valid() && Sustains(c, least) && id != "" && id !in wl
    requires RecordStep(c, ps, wl, id, delta, start)[id].status == Compromised
    requires Undisturbed(es, id, start, least) && Paced(c, es)
    requires forall e | e in es :: e.at <= now
    requires now < start + c.quarantine
    ensures Isolated(Run(c, wl, RecordStep(c, ps, wl, id, delta, start), es), id, now)
  {
    TicksInQuarantine(c, es, start);
    FloorFalls(c, 0, 0);
    GuardedThroughout(c, least, wl, RecordStep(c, ps, wl, id, delta, start), es, id, start);
  }

  lemma DefaultsSustain(least: nat)
    ensures DEFAULT.Valid() && Sustains(DEFAULT, least)
  {
    forall k | 0 <= k < MostTicks(DEFAULT) ensures !RunsOut(DEFAULT, least, k, MostTicks(DEFAULT)) {}
  }

  // ---------------------------------------------------------------------------------------
  // Exactly the sustaining configurations keep the guarantee
  // ---------------------------------------------------------------------------------------

  // A run on a clock that never goes back.
  ghost predicate Timed(es: seq<Event>) {
    es == [] ||
    var init := es[..|es| - 1];
    Timed(init) && es[|es| - 1].at > 0 && (init != [] ==> init[|init| - 1].at <= es[|es| - 1].at)
  }

  // A run from the start of the tracker in which `id` is compromised at `start` by the event after
  // `prior`, and `es` follows undisturbed until `now`, within the quarantine.
  ghost predicate QuarantineRun(c: Config, least: nat, wl: set<string>, prior: seq<Event>, id: string, delta: int,
                                start: int, es: seq<Event>, now: int) {
    var compromised := prior + [Violation(id, delta, start)];
    && id != "" && id !in wl && Timed(compromised + es) && Paced(c, compromised + es)
    && id in Run(c, wl, map[], compromised) && Run(c, wl, map[], compromised)[id].status == Compromised
    && Undisturbed(es, id, start, least) && (forall e | e in es :: e.at <= now) && start <= now < start + c.quarantine
  }

  ghost predicate Guaranteed(c: Config, least: nat) {
    forall wl, prior, id, delta, start, es, now | QuarantineRun(c, least, wl, prior, id, delta, start, es, now) ::
      Isolated(Run(c, wl, map[], prior + [Violation(id, delta, start)] + es), id, now)
  }

  lemma {:induction false} RunOfConcat(c: Config, wl: set<string>, ps: Profiles, a: seq<Event>, b: seq<Event>)
    ensures Run(c, wl, ps, a + b) == Run(c, wl, Run(c, wl, ps, a), b)
  {
    if b == [] {
      assert a + b == a;
    } else {
      RunOfConcat(c, wl, ps, a, b[..|b| - 1]);
      assert (a + b)[..|a + b| - 1] == a + b[..|b| - 1];
    }
  }

  lemma {:induction false} PacedSuffix(c: Config, a: seq<Event>, b: seq<Event>)
    requires Paced(c, a + b)
    ensures Paced(c, b) && Ticks(a + b) == Ticks(a) + Ticks(b)
    ensures Ticks(b) > 0 ==> LastTick(b) == LastTick(a + b)
  {
    if b == [] {
      assert a + b == a;
    } else {
      assert (a + b)[..|a + b| - 1] == a + b[..|b| - 1];
      PacedSuffix(c, a, b[..|b| - 1]);
    }
  }

  lemma SustainsGuarantees(c: Config, least: nat, wl: set<string>, prior: seq<Event>, id: string, delta: int,
                           start: int, es: seq<Event>, now: int)
    requires c.Valid() && Sustains(c, least) && QuarantineRun(c, least, wl, prior, id, delta, start, es, now)
    ensures Isolated(Run(c, wl, map[], prior + [Violation(id, delta, start)] + es), id, now)
  {
    var v := Violation(id, delta, start);
    var before := Run(c, wl, map[], prior);
    assert (prior + [v])[..|prior|] == prior;
    assert Run(c, wl, map[], prior + [v]) == RecordStep(c, before, wl, id, delta, start);
    PacedSuffix(c, prior + [v], es);
    RunOfConcat(c, wl, map[], prior + [v], es);
    SustainsKeepsIsolation(c, least, wl, before, id, delta, start, es, now);
  }

  // ---------------------------------------------------------------------------------------
  // A run on which fast decay releases a client
  // ---------------------------------------------------------------------------------------

  const VICTIM := "x"

  // Late enough for the profile to count as old and for every tick to decay.
  function LossStart(c: Config): int { c.decayInterval + STALE_SECONDS + 2 }

  // The client is seen once, long before, and then brought to just the threshold.
  function LossPrior(least: nat): seq<Event> { [Violation(VICTIM, least, 1)] }

  function LossBlow(c: Config, least: nat): Event { Violation(VICTIM, c.compromiseAt - least, LossStart(c)) }

  function LossTick(c: Config, k: nat): Event { Decay(LossStart(c) + k * c.decayInterval) }

  // The ticks from the k-th up to, without, the n-th.
  function LossTicks(c: Config, k: nat, n: nat): seq<Event>
    requires k <= n
  {
    if n == k then [] else LossTicks(c, k, n - 1) + [LossTick(c, n - 1)]
  }

  // A run that ends in time, on which the table becomes `ps`.
  ghost predicate Reaches(c: Config, run: seq<Event>, ps: Profiles, at: int, ticks: nat) {
    && Run(c, {}, map[], run) == ps
    && Timed(run) && Paced(c, run) && run != [] && run[|run| - 1].at <= at
    && Ticks(run) == ticks && (ticks > 0 ==> at - LastTick(run) >= c.decayInterval)
  }

  lemma Reached(c: Config, run: seq<Event>, ps: Profiles, at: int, ticks: nat, e: Event, more: seq<Event>)
    requires Reaches(c, run, ps, at, ticks) && e.at == at > 0 && more == run + [e]
    ensures Run(c, {}, map[], more) == Step(c, {}, ps, e) && Timed(more) && Paced(c, more) && more != []
    ensures more[|more| - 1].at == at && Ticks(more) == ticks + (if e.Decay? then 1 else 0)
    ensures LastTick(more) == if e.Decay? then at else LastTick(run)
  {
    assert more[..|run|] == run;
  }

  // A tick moves on to the next.
  lemma Ticked(c: Config, run: seq<Event>, ps: Profiles, n: nat, more: seq<Event>)
    requires c.Valid() && Reaches(c, run, ps, LossTick(c, n).at, n) && more == run + [LossTick(c, n)]
    ensures Reaches(c, more, DecayStep(c, ps, LossTick(c, n).at), LossTick(c, n + 1).at, n + 1)
  {
    assert (n + 1) * c.decayInterval == n * c.decayInterval + c.decayInterval;
    Monotone(c.decayInterval, 0, n);
    Reached(c, run, ps, LossTick(c, n).at, n, LossTick(c, n), more);
  }

  // The victim's profile after `k` ticks of its quarantine.
  function Worn(c: Config, least: nat, k: nat): Profile {
    Profile(Floor(c, k), Compromised, [Incident(1, least), Incident(LossStart(c), c.compromiseAt - least)], 1, 0,
            LossStart(c) + c.quarantine)
  }

  lemma TickWears(c: Config, least: nat, k: nat, at: int)
    requires c.Valid() && c.compromiseAt > 0 && c.decayInterval <= at <= LossStart(c) + c.quarantine
    ensures DecayStep(c, map[VICTIM := Worn(c, least, k)], at) == map[VICTIM := Worn(c, least, k + 1)]
  {
    assert (k + 1) * c.decayAmount == k * c.decayAmount + c.decayAmount;
    var p := Worn(c, least, k);
    assert Floor(c, k + 1) == if p.score - c.decayAmount < 0 then 0 else p.score - c.decayAmount by {
      Monotone(c.decayAmount, 0, k);
    }
    assert Decayed(c, p, at) == Worn(c, least, k + 1);
  }

  // Quarantine starts.
  lemma LossBegins(c: Config, least: nat, begun: seq<Event>)
    requires c.Valid() && c.compromiseAt > 0 && begun == LossPrior(least) + [LossBlow(c, least)]
    ensures Reaches(c, begun, map[VICTIM := Worn(c, least, 0)], LossTick(c, 0).at, 0)
  {
    var first := LossPrior(least);
    var p := Blamed(c, Fresh(1), least, 1);
    assert first[..0] == [];
    assert Run(c, {}, map[], first) == map[VICTIM := p];
    assert begun[..|begun| - 1] == first && Ticks(first) == 0 && Timed(first) && Paced(c, first);
    assert 0 * c.decayAmount == 0 && 0 * c.decayInterval == 0;
    assert Blamed(c, p, c.compromiseAt - least, LossStart(c)) == Worn(c, least, 0);
  }

  lemma {:induction false} LossWears(c: Config, least: nat, begun: seq<Event>, n: nat)
    requires c.Valid() && c.compromiseAt > 0 && n <= MostTicks(c)
    requires begun == LossPrior(least) + [LossBlow(c, least)]
    ensures Reaches(c, begun + LossTicks(c, 0, n), map[VICTIM := Worn(c, least, n)], LossTick(c, n).at, n)
  {
    if n == 0 {
      LossBegins(c, least, begun);
      assert begun + LossTicks(c, 0, 0) == begun;
    } else {
      LossWears(c, least, begun, n - 1);
      assert begun + LossTicks(c, 0, n) == (begun + LossTicks(c, 0, n - 1)) + [LossTick(c, n - 1)];
      WearsOnce(c, least, begun + LossTicks(c, 0, n - 1), n - 1, begun + LossTicks(c, 0, n));
    }
  }

  lemma WearsOnce(c: Config, least: nat, run: seq<Event>, k: nat, more: seq<Event>)
    requires c.Valid() && c.compromiseAt > 0 && k < MostTicks(c) && more == run + [LossTick(c, k)]
    requires Reaches(c, run, map[VICTIM := Worn(c, least, k)], LossTick(c, k).at, k)
    ensures Reaches(c, more, map[VICTIM := Worn(c, least, k + 1)], LossTick(c, k + 1).at, k + 1)
  {
    TickFits(c, k);
    TickWears(c, least, k, LossTick(c, k).at);
    Ticked(c, run, map[VICTIM := Worn(c, least, k)], k, more);
  }

  // The k-th tick still falls into the quarantine.
  lemma TickFits(c: Config, k: nat)
    requires c.Valid() && k < MostTicks(c)
    ensures LossStart(c) <= LossTick(c, k).at < LossStart(c) + c.quarantine
  {
    Monotone(c.decayInterval, 0, k);
    Monotone(c.decayInterval, k, (c.quarantine - 1) / c.decayInterval);
  }

  // The victim after a violation that makes it look clean, with this score.
  function CleanLooking(c: Config, least: nat, k: nat, score: int): Profile {
    Blamed(c, Worn(c, least, k), least, LossTick(c, k).at).(score := score)
  }

  // The table after `i` ticks more: the victim is gone once its score has run out.
  function AfterViolation(c: Config, least: nat, k: nat, i: nat): Profiles {
    var score := Floor(c, k) + least - i * c.decayAmount;
    if i > 0 && score <= 0 then map[] else map[VICTIM := CleanLooking(c, least, k, score)]
  }

  lemma TickOnCleanLooking(c: Config, least: nat, k: nat, i: nat, at: int)
    requires c.Valid() && LooksCleanAfter(c, least, k) && k + i < MostTicks(c) && at == LossTick(c, k + i).at
    ensures DecayStep(c, AfterViolation(c, least, k, i), at) == AfterViolation(c, least, k, i + 1)
  {
    TickFits(c, k + i);
    LooksCleanMeansPositive(c, least, k);
    assert (i + 1) * c.decayAmount == i * c.decayAmount + c.decayAmount;
    var score := Floor(c, k) + least - i * c.decayAmount;
    if i == 0 || score > 0 {
      assert 0 * c.decayAmount == 0;
      var p := CleanLooking(c, least, k, score);
      assert p.status == Clean && p.firstSeen == 1 && p.lastViolation == 0;
      assert Decayed(c, p, at).score == if score - c.decayAmount < 0 then 0 else score - c.decayAmount;
    }
  }

  lemma OneTickMore(c: Config, least: nat, run: seq<Event>, k: nat, n: nat)
    requires c.Valid() && LooksCleanAfter(c, least, k) && k < n <= MostTicks(c)
    requires Reaches(c, run + LossTicks(c, k, n - 1), AfterViolation(c, least, k, n - 1 - k), LossTick(c, n - 1).at,
                     n - 1)
    ensures Reaches(c, run + LossTicks(c, k, n), AfterViolation(c, least, k, n - k), LossTick(c, n).at, n)
  {
    TickOnCleanLooking(c, least, k, n - 1 - k, LossTick(c, n - 1).at);
    assert run + LossTicks(c, k, n) == (run + LossTicks(c, k, n - 1)) + [LossTick(c, n - 1)];
    Ticked(c, run + LossTicks(c, k, n - 1), AfterViolation(c, least, k, n - 1 - k), n - 1, run + LossTicks(c, k, n));
  }

  lemma {:induction false} CleanLookingRunsOut(c: Config, least: nat, run: seq<Event>, k: nat, n: nat)
    requires c.Valid() && LooksCleanAfter(c, least, k) && k <= n <= MostTicks(c)
    requires Reaches(c, run, AfterViolation(c, least, k, 0), LossTick(c, k).at, k)
    ensures Reaches(c, run + LossTicks(c, k, n), AfterViolation(c, least, k, n - k), LossTick(c, n).at, n)
  {
    if n == k {
      assert run + LossTicks(c, k, n) == run;
    } else {
      CleanLookingRunsOut(c, least, run, k, n - 1);
      OneTickMore(c, least, run, k, n);
    }
  }

  // Some ticks, a violation of least weight, and the other ticks of the quarantine.
  function LossEvents(c: Config, least: nat, k: nat): seq<Event>
    requires c.Valid() && k < MostTicks(c)
  {
    LossTicks(c, 0, k) + [Violation(VICTIM, least, LossTick(c, k).at)] + LossTicks(c, k, MostTicks(c))
  }

  lemma LightViolation(c: Config, least: nat, run: seq<Event>, k: nat, more: seq<Event>)
    requires c.Valid() && Reaches(c, run, map[VICTIM := Worn(c, least, k)], LossTick(c, k).at, k)
    requires more == run + [Violation(VICTIM, least, LossTick(c, k).at)]
    ensures Reaches(c, more, AfterViolation(c, least, k, 0), LossTick(c, k).at, k)
  {
    Monotone(c.decayInterval, 0, k);
    assert 0 * c.decayAmount == 0;
    Reached(c, run, map[VICTIM := Worn(c, least, k)], LossTick(c, k).at, k,
            Violation(VICTIM, least, LossTick(c, k).at), more);
    assert Blamed(c, Worn(c, least, k), least, LossTick(c, k).at) ==
           CleanLooking(c, least, k, Floor(c, k) + least);
  }

  // After some ticks a violation makes the client look clean, and the other ticks take it to zero.
  lemma LossHappens(c: Config, least: nat, k: nat)
    requires c.Valid() && k < MostTicks(c) && LooksCleanAfter(c, least, k) && RunsOut(c, least, k, MostTicks(c))
    ensures var run := LossPrior(least) + [LossBlow(c, least)] + LossEvents(c, least, k);
            Timed(run) && Paced(c, run) && Run(c, {}, map[], run) == map[]
  {
    var n, begun := MostTicks(c), LossPrior(least) + [LossBlow(c, least)];
    var worn := begun + LossTicks(c, 0, k);
    var hit := worn + [Violation(VICTIM, least, LossTick(c, k).at)];
    LooksCleanMeansPositive(c, least, k);
    LossWears(c, least, begun, k);
    LightViolation(c, least, worn, k, hit);
    CleanLookingRunsOut(c, least, hit, k, n);
    assert begun + LossEvents(c, least, k) == hit + LossTicks(c, k, n);
  }

  lemma {:induction false} LossTicksAreUndisturbed(c: Config, least: nat, k: nat, n: nat)
    requires c.Valid() && k <= n <= MostTicks(c)
    ensures Undisturbed(LossTicks(c, k, n), VICTIM, LossStart(c), least)
    ensures forall e | e in LossTicks(c, k, n) :: e.at < LossStart(c) + c.quarantine
  {
    if n > k {
      LossTicksAreUndisturbed(c, least, k, n - 1);
      TickFits(c, n - 1);
    }
  }

  lemma LossIsUndisturbed(c: Config, least: nat, k: nat)
    requires c.Valid() && k < MostTicks(c) && LooksCleanAfter(c, least, k) && RunsOut(c, least, k, MostTicks(c))
    ensures QuarantineRun(c, least, {}, LossPrior(least), VICTIM, c.compromiseAt - least, LossStart(c),
                          LossEvents(c, least, k), LossStart(c) + c.quarantine - 1)
  {
    LooksCleanMeansPositive(c, least, k);
    LossHappens(c, least, k);
    LossBegins(c, least, LossPrior(least) + [LossBlow(c, least)]);
    LossTicksAreUndisturbed(c, least, 0, k);
    LossTicksAreUndisturbed(c, least, k, MostTicks(c));
    TickFits(c, k);
  }

  /** A compromise isolates the client for the whole quarantine, on every paced run from the start of the
      tracker in which nobody resets it and its violations meanwhile weigh at least `least`, iff the
      configuration sustains that weight.  Otherwise a violation of that weight lets a tick delete the
      client's profile. */
  lemma QuarantineIsGuaranteedIffSustained(c: Config, least: nat)
    requires c.Valid()
    ensures Guaranteed(c, least) <==> Sustains(c, least)
  {
    if Sustains(c, least) {
      forall wl, prior, id, delta, start, es, now | QuarantineRun(c, least, wl, prior, id, delta, start, es, now)
        ensures Isolated(Run(c, wl, map[], prior + [Violation(id, delta, start)] + es), id, now)
      {
        SustainsGuarantees(c, least, wl, prior, id, delta, start, es, now);
      }
    } else {
      var k :| 0 <= k < MostTicks(c) && LooksCleanAfter(c, least, k) && RunsOut(c, least, k, MostTicks(c));
      LossHappens(c, least, k);
      LossIsUndisturbed(c, least, k);
      assert !Isolated(Run(c, {}, map[], LossPrior(least) + [LossBlow(c, least)] + LossEvents(c, least, k)), VICTIM,
                       LossStart(c) + c.quarantine - 1);
    }
  }

  // ---------------------------------------------------------------------------------------
  // Release
  // ---------------------------------------------------------------------------------------

  /** At a decay tick after the quarantine the client is isolated iff what is left of its score
      still reaches the threshold. */
  lemma ReleaseIsDecidedByScore(c: Config, ps: Profiles, id: string, now: int, later: int)
    requires c.Valid() && c.compromiseAt > 0 && id in ps && ps[id].quarantinedUntil < now <= later
    requires now - ps[id].lastViolation >= c.decayInterval
    ensures Isolated(DecayStep(c, ps, now), id, later) <==> ps[id].score - c.decayAmount >= c.compromiseAt
  {}

  // ---------------------------------------------------------------------------------------
  // Resets, exempt clients and what is kept of a client
  // ---------------------------------------------------------------------------------------

  /** A whitelisted client is never isolated, whatever it is blamed for. */
  lemma {:induction false} ExemptAreNeverIsolated(c: Config, wl: set<string>, es: seq<Event>, id: string, now: int)
    requires id in wl || id == ""
    ensures id !in Run(c, wl, map[], es) && !Isolated(Run(c, wl, map[], es), id, now)
  {
    if es != [] { ExemptAreNeverIsolated(c, wl, es[..|es| - 1], id, now); }
  }

  // The score, told from the steps: incidents add to it, ticks take from it, never below zero.
  function ScoreOf(c: Config, wl: set<string>, es: seq<Event>, id: string): int {
    if es == [] then 0
    else
      var before := ScoreOf(c, wl, es[..|es| - 1], id);
      match es[|es| - 1]
      case Violation(other, delta, _) => if other == id && id != "" && id !in wl then before + delta else before
      case Decay(at) => if at < c.decayInterval then before else Max(0, before - c.decayAmount)
      case Reset(other, _) => if other == id then 0 else before
  }

  /** Every profile has the score that the steps say; clients without one have none. */
  lemma {:induction false} ScoresFollowSteps(c: Config, wl: set<string>, es: seq<Event>, id: string)
    requires c.Valid()
    ensures var ps := Run(c, wl, map[], es);
            if id in ps then ps[id].score == ScoreOf(c, wl, es, id) && ps[id].lastViolation == 0
            else ScoreOf(c, wl, es, id) == 0
  {
    if es != [] { ScoresFollowSteps(c, wl, es[..|es| - 1], id); }
  }

  /** An incident leaves the status of the score it makes. */
  lemma StatusFollowsScore(c: Config, wl: set<string>, es: seq<Event>, id: string, delta: int, at: int)
    requires c.Valid() && id != "" && id !in wl
    ensures var fs := es + [Violation(id, delta, at)];
            var score := ScoreOf(c, wl, fs, id);
            id in Run(c, wl, map[], fs) &&
            Run(c, wl, map[], fs)[id].status ==
            if score >= c.compromiseAt then Compromised else if score >= c.suspiciousAt then Suspicious else Clean
  {
    var fs := es + [Violation(id, delta, at)];
    assert fs[..|es|] == es;
    ScoresFollowSteps(c, wl, fs, id);
  }

  ghost predicate NeverCompromised(c: Config, wl: set<string>, es: seq<Event>, id: string) {
    forall n | 0 <= n <= |es| :: ScoreOf(c, wl, es[..n], id) < c.compromiseAt
  }

  /** A client whose score never reached the threshold is not isolated. */
  lemma {:induction false} OnlyCompromisedAreIsolated(c: Config, wl: set<string>, es: seq<Event>, id: string, now: int)
    requires c.Valid() && NeverCompromised(c, wl, es, id) && now >= 0
    ensures var ps := Run(c, wl, map[], es);
            id in ps ==> ps[id].status != Compromised && ps[id].quarantinedUntil == 0
    ensures !Isolated(Run(c, wl, map[], es), id, now)
  {
    if es != [] {
      var before := es[..|es| - 1];
      forall n | 0 <= n <= |before| ensures ScoreOf(c, wl, before[..n], id) < c.compromiseAt {
        assert before[..n] == es[..n];
      }
      OnlyCompromisedAreIsolated(c, wl, before, id, now);
      ScoresFollowSteps(c, wl, es, id);
      ScoresFollowSteps(c, wl, before, id);
      assert es[..|es|] == es;
    }
  }

  // Nothing is held against the client.
  ghost predicate Cleared(ps: Profiles, id: string) {
    id in ps ==> ps[id].score == 0 && ps[id].status == Clean && ps[id].quarantinedUntil == 0
  }

  ghost predicate NotBlamed(es: seq<Event>, id: string) { forall e | e in es :: e.Violation? ==> e.id != id }

  lemma {:induction false} StaysCleared(c: Config, wl: set<string>, ps: Profiles, es: seq<Event>, id: string)
    requires c.Valid() && Cleared(ps, id) && NotBlamed(es, id) && 0 < c.compromiseAt && 0 < c.suspiciousAt
    ensures Cleared(Run(c, wl, ps, es), id)
  {
    if es != [] {
      assert es[|es| - 1] in es;
      StaysCleared(c, wl, ps, es[..|es| - 1], id);
    }
  }

  /** A reset releases the client at once and until it is blamed again, if the thresholds are positive; a
      tick isolates it again otherwise. */
  lemma ResetReleases(c: Config, wl: set<string>, ps: Profiles, id: string, at: int, es: seq<Event>, now: int)
    requires c.Valid() && 0 < c.compromiseAt && 0 < c.suspiciousAt && NotBlamed(es, id) && now >= 0
    ensures !Isolated(ResetStep(ps, id), id, now)
    ensures !Isolated(Run(c, wl, Step(c, wl, ps, Reset(id, at)), es), id, now)
  {
    StaysCleared(c, wl, ResetStep(ps, id), es, id);
  }

  lemma ResetDoesNotLast(c: Config, ps: Profiles, id: string, now: int)
    requires c.Valid() && c.compromiseAt <= 0 && id in ps && now > 0 && now - ps[id].lastViolation >= c.decayInterval
    ensures Isolated(DecayStep(c, ResetStep(ps, id), now), id, now)
  {}

  // When the client was first blamed since its profile began, and what for.
  ghost function FirstBlame(c: Config, wl: set<string>, es: seq<Event>, id: string): int {
    if es == [] then 0
    else
      var before, e := es[..|es| - 1], es[|es| - 1];
      if e.Violation? && e.id == id && id !in Run(c, wl, map[], before) then e.at else FirstBlame(c, wl, before, id)
  }

  ghost function Blames(c: Config, wl: set<string>, es: seq<Event>, id: string): seq<Incident> {
    if es == [] then []
    else
      var before, e := es[..|es| - 1], es[|es| - 1];
      if e.Violation? && e.id == id then
        (if id in Run(c, wl, map[], before) then Blames(c, wl, before, id) else []) + [Incident(e.at, e.delta)]
      else Blames(c, wl, before, id)
  }

  function LastHundred(h: seq<Incident>): seq<Incident> { if |h| <= 100 then h else h[|h| - 100..] }

  lemma StepRecords(c: Config, wl: set<string>, ps: Profiles, e: Event, id: string, h: seq<Incident>)
    requires id != "" && id !in wl && id in ps && ps[id].incidents == LastHundred(h) && id in Step(c, wl, ps, e)
    ensures var p := Step(c, wl, ps, e)[id];
            && p.incidents == LastHundred(if e.Violation? && e.id == id then h + [Incident(e.at, e.delta)] else h)
            && p.firstSeen == ps[id].firstSeen && p.lastViolation == ps[id].lastViolation
  {
    if e.Violation? && e.id == id { LastFewOfMore(h, Incident(e.at, e.delta)); }
  }

  /** A profile keeps the last hundred incidents since it began, and knows when that was. */
  lemma {:induction false} ProfilesKeepTheLastIncidents(c: Config, wl: set<string>, es: seq<Event>, id: string)
    requires id in Run(c, wl, map[], es)
    ensures var p := Run(c, wl, map[], es)[id];
            && p.incidents == LastHundred(Blames(c, wl, es, id))
            && p.firstSeen == FirstBlame(c, wl, es, id) && p.lastViolation == 0
  {
    var before, e := es[..|es| - 1], es[|es| - 1];
    if id in wl || id == "" { ExemptAreNeverIsolated(c, wl, es, id, 0); }
    if id in Run(c, wl, map[], before) {
      ProfilesKeepTheLastIncidents(c, wl, before, id);
      StepRecords(c, wl, Run(c, wl, map[], before), e, id, Blames(c, wl, before, id));
    }
  }

  lemma LastFewOfMore(h: seq<Incident>, x: Incident)
    ensures LastFew(LastHundred(h) + [x]) == LastHundred(h + [x])
  {}

  /** A tick drops a profile iff the score it leaves is zero and looks clean, and the profile began, and the
      clock did, more than half an hour ago. */
  lemma TicksDropOldCleanProfiles(c: Config, wl: set<string>, es: seq<Event>, id: string, now: int)
    requires c.Valid() && id in Run(c, wl, map[], es)
    ensures var ps := Run(c, wl, map[], es);
            id !in Run(c, wl, map[], es + [Decay(now)]) <==>
            Decayed(c, ps[id], now).score == 0 && Decayed(c, ps[id], now).status == Clean &&
            now > 1800 && now - FirstBlame(c, wl, es, id) > 1800
  {
    assert (es + [Decay(now)])[..|es|] == es;
    ProfilesKeepTheLastIncidents(c, wl, es, id);
  }

  // ---------------------------------------------------------------------------------------
  // The tracker itself
  // ---------------------------------------------------------------------------------------

  class RiskProfile {
    var score: int
    var status: Status
    var incidents: seq<Incident>
    var firstSeen: int
    var lastViolation: int
    var quarantinedUntil: int

    constructor (now: int)
      ensures View() == Fresh(now)
    {
      score, status, incidents, firstSeen, lastViolation, quarantinedUntil := 0, Clean, [], now, 0, 0;
    }

    ghost function View(): Profile
      reads this
    {
      Profile(score, status, incidents, firstSeen, lastViolation, quarantinedUntil)
    }

    method Blame(c: Config, delta: int, now: int)
      modifies this
      ensures View() == Blamed(c, old(View()), delta, now)
    {
      score := score + delta;
      incidents := incidents + [Incident(now, delta)];
      if |incidents| > MAX_INCIDENTS {
        incidents := incidents[|incidents| - MAX_INCIDENTS..];
      }
      if score >= c.compromiseAt {
        status := Compromised;
        quarantinedUntil := now + c.quarantine;
      } else if score >= c.suspiciousAt {
        status := Suspicious;
      } else {
        status := Clean;
      }
    }

    method Decay(c: Config, now: int)
      modifies this
      ensures View() == Decayed(c, old(View()), now)
    {
      if now - lastViolation >= c.decayInterval {
        score := score - c.decayAmount;
        if score < 0 {
          score := 0;
        }
        if now > quarantinedUntil {
          if score >= c.compromiseAt {
            status := Compromised;
          } else if score >= c.suspiciousAt {
            status := Suspicious;
          } else {
            status := Clean;
          }
        }
      }
    }
  }

  class RiskTracker {
    const cfg: Config
    const whitelist: set<string>
    var profiles: map<string, RiskProfile>

    ghost predicate Valid()
      reads this
    {
      forall k, l | k in profiles && l in profiles && profiles[k] == profiles[l] :: k == l
    }

    ghost function Contents(): Profiles
      reads this, profiles.Values
    {
      map id | id in profiles :: profiles[id].View()
    }

    constructor (cfg: Config, whitelist: set<string>)
      ensures Valid() && Contents() == map[] && this.cfg == cfg
      ensures this.whitelist == whitelist + {"127.0.0.1", "::1"}
    {
      this.cfg := cfg;
      this.whitelist := whitelist + {"127.0.0.1", "::1"};
      profiles := map[];
    }

    // `alert` says that the callbacks for a compromised client are due.
    method RecordIncident(id: string, delta: int, now: int) returns (alert: bool)
      requires Valid()
      modifies this`profiles, profiles.Values
      ensures Valid() && fresh(profiles.Values - old(profiles.Values))
      ensures Contents() == RecordStep(cfg, old(Contents()), whitelist, id, delta, now)
      ensures alert <==> id != "" && id !in whitelist && Contents()[id].status == Compromised &&
                         !(id in old(Contents()) && old(Contents())[id].status == Compromised)
    {
      if id == "" || id in whitelist {
        return false;
      }
      ghost var was := Contents();
      var profile;
      if id in profiles {
        profile := profiles[id];
      } else {
        profile := new RiskProfile(now);
        profiles := profiles[id := profile];
      }
      var oldStatus := profile.status;
      profile.Blame(cfg, delta, now);
      assert Contents() == was[id := profile.View()];
      alert := oldStatus != Compromised && profile.status == Compromised;
    }

    method IsCompromisedOrQuarantined(id: string, now: int) returns (isolated: bool)
      requires Valid()
      ensures isolated == Isolated(Contents(), id, now)
    {
      if id !in profiles {
        return false;
      }
      if profiles[id].status == Compromised {
        return true;
      }
      isolated := now < profiles[id].quarantinedUntil;
    }

    method ResetClientScore(id: string)
      requires Valid()
      modifies profiles.Values
      ensures Valid() && profiles == old(profiles)
      ensures Contents() == ResetStep(old(Contents()), id)
    {
      if id in profiles {
        var p := profiles[id];
        p.score, p.status, p.quarantinedUntil := 0, Clean, 0;
      }
    }

    // One tick of the decay loop.
    method Tick(now: int)
      requires Valid()
      modifies this`profiles, profiles.Values
      ensures Valid() && profiles.Values <= old(profiles.Values)
      ensures Contents() == DecayStep(cfg, old(Contents()), now)
    {
      TickEach(now);
    }

    method TickEach(now: int)
      requires Valid()
      modifies this`profiles, profiles.Values
      ensures forall id | id in profiles :: id in old(profiles) && profiles[id] == old(profiles)[id]
      ensures forall id | id in old(profiles) ::
        old(profiles)[id].View() == Decayed(cfg, old(profiles[id].View()), now) &&
        (id in profiles <==> !Forgotten(old(profiles)[id].View(), now))
    {
      var pending := profiles.Keys;
      ghost var was := profiles;
      while pending != {}
        invariant pending <= profiles.Keys <= was.Keys
        invariant forall id | id in profiles :: profiles[id] == was[id]
        invariant forall id | id in pending :: unchanged(was[id])
        invariant forall id | id in was && id !in pending ::
          was[id].View() == Decayed(cfg, old(was[id].View()), now) &&
          (id in profiles <==> !Forgotten(was[id].View(), now))
        decreases pending
      {
        var id :| id in pending;
        TickOne(id, now);
        pending := pending - {id};
      }
    }

    // Decays one profile and drops it when it is clean and old.
    method TickOne(id: string, now: int)
      requires id in profiles
      modifies this`profiles, profiles[id]
      ensures old(profiles)[id].View() == Decayed(cfg, old(profiles[id].View()), now)
      ensures profiles == if Forgotten(old(profiles)[id].View(), now) then old(profiles) - {id} else old(profiles)
    {
      var p := profiles[id];
      p.Decay(cfg, now);
      if p.score == 0 && p.status == Clean && now - p.lastViolation > STALE_SECONDS &&
         now - p.firstSeen > STALE_SECONDS {
        profiles := profiles - {id};
      }
    }
  }
}
