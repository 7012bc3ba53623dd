/** The sensitive-port monitor (pkg/security/guard/sensitive_ports.go): fixed probe windows, bans
    and the pruning of both maps.

    Times are nanoseconds of a clock that never goes back.  Whether the whitelist protects an
    address, and which entries an eviction happens to meet first, are parameters. */
module PortMonitor {
  import opened Common

  type Instant = int

  const SECOND := 1_000_000_000
  const BAN_DURATION := 600 * SECOND
  const PRUNE_ABOVE := 1000
  const EVICT_ABOVE := 10000
  const EVICT_COUNT := 2000

  datatype Config = Config(enabled: bool, blocking: bool, threshold: int, window: Instant, autoBan: bool)

  datatype Probe = Probe(ports: map<int, Instant>, first: Instant)

  datatype State = State(sensitive: set<int>, probes: map<string, Probe>, bans: map<string, Instant>)

  datatype Reason = NoReason | BannedUntil(until: Instant) | SensitiveAccess(port: int) | ScanOf(ports: nat)

  datatype Verdict = Verdict(blocked: bool, scan: bool, reason: Reason)

  const PASS := Verdict(false, false, NoReason)

  // `now` is when the event happens; only an access reads the clock.
  datatype Event =
    | Access(ip: string, port: int, now: Instant, whitelisted: bool, probeVictims: set<string>, banVictims: set<string>)
    | Unban(ip: string, now: Instant)
    | AddPort(port: int, now: Instant)

  // ---------------------------------------------------------------------------------------
  // One access
  // ---------------------------------------------------------------------------------------

  function Note(c: Config, record: Option<Probe>, port: int, now: Instant): Probe {
    if record.None? || now - record.value.first > c.window then Probe(map[port := now], now)
    else record.value.(ports := record.value.ports[port := now])
  }

  // The decision on given maps.
  function Decide(c: Config, s: State, ip: string, port: int, now: Instant): (State, Verdict) {
    if ip in s.bans && now < s.bans[ip] then (s, Verdict(true, false, BannedUntil(s.bans[ip])))
    else
      var unbanned := s.(bans := s.bans - {ip});
      if port !in s.sensitive then (unbanned, PASS)
      else
        var p := Note(c, Lookup(s.probes, ip), port, now);
        var scan := |p.ports| >= c.threshold;
        (unbanned.(probes := s.probes[ip := p],
                   bans := if scan && c.autoBan then unbanned.bans[ip := now + BAN_DURATION] else unbanned.bans),
         Verdict(c.blocking || scan, scan, if scan then ScanOf(|p.ports|) else SensitiveAccess(port)))
  }

  function FreshProbes(c: Config, probes: map<string, Probe>, now: Instant): map<string, Probe> {
    if |probes| > PRUNE_ABOVE then map ip | ip in probes && now - probes[ip].first <= c.window * 2 :: probes[ip]
    else probes
  }

  function FreshBans(bans: map<string, Instant>, now: Instant): map<string, Instant> {
    if |bans| > PRUNE_ABOVE then map ip | ip in bans && now <= bans[ip] :: bans[ip] else bans
  }

  function Evict<V>(m: map<string, V>, victims: set<string>): map<string, V> {
    if |m| > EVICT_ABOVE then m - victims else m
  }

  function Prune(c: Config, s: State, now: Instant, probeVictims: set<string>, banVictims: set<string>): State {
    s.(probes := Evict(FreshProbes(c, s.probes, now), probeVictims), bans := Evict(FreshBans(s.bans, now), banVictims))
  }

  function Check(c: Config, s: State, e: Event, pruning: bool): (State, Verdict)
    requires e.Access?
  {
    if !c.enabled || e.whitelisted then (s, PASS)
    else Decide(c, if pruning then Prune(c, s, e.now, e.probeVictims, e.banVictims) else s, e.ip, e.port, e.now)
  }

  function Next(c: Config, s: State, e: Event, pruning: bool): State {
    match e
    case Access(_, _, _, _, _, _) => Check(c, s, e, pruning).0
    case Unban(ip, _) => s.(probes := s.probes - {ip}, bans := s.bans - {ip})
    case AddPort(port, _) => s.(sensitive := s.sensitive + {port})
  }

  function Run(c: Config, s: State, events: seq<Event>, pruning: bool): State {
    if events == [] then s
    else Next(c, Run(c, s, events[..|events| - 1], pruning), events[|events| - 1], pruning)
  }

  function Initial(sensitive: set<int>): State { State(sensitive, map[], map[]) }

  ghost predicate Clocked(events: seq<Event>) {
    forall i, j | 0 <= i <= j < |events| :: events[i].now <= events[j].now
  }

  // ---------------------------------------------------------------------------------------
  // Pruning cannot be seen
  // ---------------------------------------------------------------------------------------

  ghost predicate SameProbes(c: Config, kept: map<string, Probe>, all: map<string, Probe>, now: Instant) {
    && (forall ip | ip in kept :: ip in all && all[ip] == kept[ip])
    && (forall ip | ip in all && ip !in kept :: now - all[ip].first > c.window)
  }

  ghost predicate SameBans(kept: map<string, Instant>, all: map<string, Instant>, now: Instant) {
    && (forall ip | ip in kept :: ip in all && all[ip] == kept[ip])
    && (forall ip | ip in all && ip !in kept :: all[ip] <= now)
  }

  // What the monitor forgot had expired.
  ghost predicate Simulates(c: Config, kept: State, all: State, now: Instant) {
    kept.sensitive == all.sensitive && SameProbes(c, kept.probes, all.probes, now) && SameBans(kept.bans, all.bans, now)
  }

  // Neither map stays above the hard bound once expired entries are gone.
  predicate Bounded(c: Config, s: State, now: Instant) {
    |FreshProbes(c, s.probes, now)| <= 10_000 && |FreshBans(s.bans, now)| <= 10_000
  }

  lemma PruneSimulates(c: Config, kept: State, all: State, now: Instant, pv: set<string>, bv: set<string>)
    requires c.window >= 0 && Simulates(c, kept, all, now) && Bounded(c, kept, now)
    ensures Simulates(c, Prune(c, kept, now, pv, bv), all, now)
  {}

  lemma DecideSimulates(c: Config, kept: State, all: State, ip: string, port: int, now: Instant)
    requires Simulates(c, kept, all, now)
    ensures var k, a := Decide(c, kept, ip, port, now), Decide(c, all, ip, port, now);
            k.1 == a.1 && Simulates(c, k.0, a.0, now)
  {
    BansAgree(kept.bans, all.bans, ip, now);
    if !(ip in all.bans && now < all.bans[ip]) {
      BansWithout(kept.bans, all.bans, ip, now);
      if port in all.sensitive {
        NotesAgree(c, kept.probes, all.probes, ip, port, now);
        var p := Note(c, Lookup(all.probes, ip), port, now);
        ProbesWith(c, kept.probes, all.probes, ip, p, now);
        BansWith(kept.bans - {ip}, all.bans - {ip}, ip, now + BAN_DURATION, now);
      }
    }
  }

  lemma NotesAgree(c: Config, kept: map<string, Probe>, all: map<string, Probe>, ip: string, port: int, now: Instant)
    requires SameProbes(c, kept, all, now)
    ensures Note(c, Lookup(kept, ip), port, now) == Note(c, Lookup(all, ip), port, now)
  {}

  lemma BansAgree(kept: map<string, Instant>, all: map<string, Instant>, ip: string, now: Instant)
    requires SameBans(kept, all, now)
    ensures ip in kept && now < kept[ip] <==> ip in all && now < all[ip]
    ensures ip in kept ==> all[ip] == kept[ip]
  {}

  lemma BansWithout(kept: map<string, Instant>, all: map<string, Instant>, ip: string, now: Instant)
    requires SameBans(kept, all, now)
    ensures SameBans(kept - {ip}, all - {ip}, now)
  {}

  lemma BansWith(kept: map<string, Instant>, all: map<string, Instant>, ip: string, until: Instant, now: Instant)
    requires SameBans(kept, all, now)
    ensures SameBans(kept[ip := until], all[ip := until], now)
  {}

  lemma ProbesWith(c: Config, kept: map<string, Probe>, all: map<string, Probe>, ip: string, p: Probe, now: Instant)
    requires SameProbes(c, kept, all, now)
    ensures SameProbes(c, kept[ip := p], all[ip := p], now)
  {}

  lemma LaterSimulates(c: Config, kept: State, all: State, now: Instant, later: Instant)
    requires Simulates(c, kept, all, now) && now <= later
    ensures Simulates(c, kept, all, later)
  {}

  /** Pruning starts above a thousand entries and takes exactly those that have expired: records older than
      two windows and bans that have passed. */
  lemma OnlyExpiredArePruned(c: Config, s: State, now: Instant, ip: string)
    ensures ip in FreshProbes(c, s.probes, now) <==>
            ip in s.probes && (|s.probes| <= 1000 || now - s.probes[ip].first <= 2 * c.window)
    ensures ip in FreshBans(s.bans, now) <==> ip in s.bans && (|s.bans| <= 1000 || now <= s.bans[ip])
  {}

  // An eviction meets two thousand entries of a map of more than ten thousand.
  predicate Meets<V>(m: map<string, V>, victims: set<string>) {
    if |m| > 10_000 then victims <= m.Keys && |victims| == 2000 else victims == {}
  }

  predicate MeetsVictims(c: Config, s: State, e: Event) {
    e.Access? && c.enabled && !e.whitelisted ==>
      Meets(FreshProbes(c, s.probes, e.now), e.probeVictims) && Meets(FreshBans(s.bans, e.now), e.banVictims)
  }

  lemma EvictionShrinks<V>(m: map<string, V>, victims: set<string>)
    requires Meets(m, victims)
    ensures |Evict(m, victims)| <= if |m| > 10_000 then |m| - 2000 else |m|
  {
    if |m| > 10_000 {
      assert (m - victims).Keys == m.Keys - victims && m.Keys == (m.Keys - victims) + victims;
      assert |m - victims| == |(m - victims).Keys| && |m| == |m.Keys|;
    }
  }

  lemma PartIsNoLarger<V>(part: map<string, V>, m: map<string, V>)
    requires part.Keys <= m.Keys
    ensures |part| <= |m|
  {
    assert m.Keys == part.Keys + (m.Keys - part.Keys);
    assert |part| == |part.Keys| && |m| == |m.Keys|;
  }

  lemma OneMoreEntry<V>(m: map<string, V>, k: string, v: V)
    ensures |m[k := v]| <= |m| + 1
  {
    assert m[k := v].Keys == m.Keys + {k};
    assert |m[k := v]| == |m[k := v].Keys| && |m| == |m.Keys|;
  }

  // The maps that a decision can leave.
  lemma DecisionTouches(c: Config, s: State, ip: string, port: int, now: Instant)
    ensures var t, p := Decide(c, s, ip, port, now).0, Note(c, Lookup(s.probes, ip), port, now);
            && (t.probes == s.probes || t.probes == s.probes[ip := p])
            && (t.bans == s.bans || t.bans == s.bans - {ip} || t.bans == (s.bans - {ip})[ip := now + BAN_DURATION])
  {}

  lemma DecisionAddsOne(c: Config, s: State, ip: string, port: int, now: Instant)
    ensures var t := Decide(c, s, ip, port, now).0;
            |t.probes| <= |s.probes| + 1 && |t.bans| <= |s.bans| + 1
  {
    DecisionTouches(c, s, ip, port, now);
    PartIsNoLarger(s.bans - {ip}, s.bans);
    OneMoreEntry(s.bans - {ip}, ip, now + BAN_DURATION);
    OneMoreEntry(s.probes, ip, Note(c, Lookup(s.probes, ip), port, now));
  }

  lemma PruningBounds(c: Config, s: State, e: Event)
    requires e.Access? && c.enabled && !e.whitelisted && MeetsVictims(c, s, e)
    requires |s.probes| <= 10_001 && |s.bans| <= 10_001
    ensures var t := Prune(c, s, e.now, e.probeVictims, e.banVictims);
            |t.probes| <= 10_000 && |t.bans| <= 10_000
  {
    PartIsNoLarger(FreshProbes(c, s.probes, e.now), s.probes);
    PartIsNoLarger(FreshBans(s.bans, e.now), s.bans);
    EvictionShrinks(FreshProbes(c, s.probes, e.now), e.probeVictims);
    EvictionShrinks(FreshBans(s.bans, e.now), e.banVictims);
  }

  /** On every run neither map ever holds more than 10001 entries. */
  lemma {:induction false} MapsStayBounded(c: Config, sensitive: set<int>, events: seq<Event>)
    requires forall i | 0 <= i < |events| :: MeetsVictims(c, Run(c, Initial(sensitive), events[..i], true), events[i])
    ensures var s := Run(c, Initial(sensitive), events, true);
            |s.probes| <= 10_001 && |s.bans| <= 10_001
  {
    if events != [] {
      var front, e := events[..|events| - 1], events[|events| - 1];
      var s := Run(c, Initial(sensitive), front, true);
      forall i | 0 <= i < |front| ensures MeetsVictims(c, Run(c, Initial(sensitive), front[..i], true), front[i]) {
        assert front[..i] == events[..i] && events[i] == front[i];
      }
      MapsStayBounded(c, sensitive, front);
      assert MeetsVictims(c, Run(c, Initial(sensitive), events[..|front|], true), events[|front|]);
      StepStaysBounded(c, s, e);
    }
  }

  lemma StepStaysBounded(c: Config, s: State, e: Event)
    requires MeetsVictims(c, s, e) && |s.probes| <= 10_001 && |s.bans| <= 10_001
    ensures |Next(c, s, e, true).probes| <= 10_001 && |Next(c, s, e, true).bans| <= 10_001
  {
    if e.Access? && c.enabled && !e.whitelisted {
      PruningBounds(c, s, e);
      DecisionAddsOne(c, Prune(c, s, e.now, e.probeVictims, e.banVictims), e.ip, e.port, e.now);
    }
    if e.Unban? {
      PartIsNoLarger(s.probes - {e.ip}, s.probes);
      PartIsNoLarger(s.bans - {e.ip}, s.bans);
    }
  }

  ghost predicate NeverEvicts(c: Config, s: State, events: seq<Event>) {
    forall i | 0 <= i < |events| && events[i].Access? :: Bounded(c, Run(c, s, events[..i], true), events[i].now)
  }

  lemma FrontNeverEvicts(c: Config, s: State, events: seq<Event>)
    requires events != [] && NeverEvicts(c, s, events)
    ensures var n := |events| - 1;
            && NeverEvicts(c, s, events[..n])
            && (events[n].Access? ==> Bounded(c, Run(c, s, events[..n], true), events[n].now))
  {
    var front := events[..|events| - 1];
    forall i | 0 <= i < |front| && front[i].Access? ensures Bounded(c, Run(c, s, front[..i], true), front[i].now) {
      assert front[..i] == events[..i] && events[i] == front[i];
    }
  }

  lemma FrontIsEarlier(events: seq<Event>)
    requires events != [] && Clocked(events)
    ensures var n := |events| - 1;
            Clocked(events[..n]) && forall e | e in events[..n] :: e.now <= events[n].now
  {
    var n := |events| - 1;
    forall e | e in events[..n] ensures e.now <= events[n].now {
      var i :| 0 <= i < n && events[..n][i] == e;
      assert events[i].now <= events[n].now;
    }
  }

  lemma {:induction false} RunSimulates(c: Config, s: State, events: seq<Event>, now: Instant)
    requires c.window >= 0 && Clocked(events) && NeverEvicts(c, s, events)
    requires forall e | e in events :: e.now <= now
    ensures Simulates(c, Run(c, s, events, true), Run(c, s, events, false), now)
    decreases |events|
  {
    if events != [] {
      var n := |events| - 1;
      var front, e := events[..n], events[n];
      FrontNeverEvicts(c, s, events);
      FrontIsEarlier(events);
      RunSimulates(c, s, front, e.now);
      var kept, all := Run(c, s, front, true), Run(c, s, front, false);
      if e.Access? {
        AccessSimulates(c, kept, all, e);
      }
      LaterSimulates(c, Next(c, kept, e, true), Next(c, all, e, false), e.now, now);
    }
  }

  lemma AccessSimulates(c: Config, kept: State, all: State, e: Event)
    requires c.window >= 0 && e.Access? && Simulates(c, kept, all, e.now) && Bounded(c, kept, e.now)
    ensures var k, a := Check(c, kept, e, true), Check(c, all, e, false);
            k.1 == a.1 && Simulates(c, k.0, a.0, e.now)
  {
    PruneSimulates(c, kept, all, e.now, e.probeVictims, e.banVictims);
    DecideSimulates(c, Prune(c, kept, e.now, e.probeVictims, e.banVictims), all, e.ip, e.port, e.now);
  }

  /** On every run in which the maps never stay above the hard bound, each access gets the verdict
      that a monitor without pruning gives. */
  lemma PruningIsInvisible(c: Config, s: State, events: seq<Event>, e: Event)
    requires c.window >= 0 && Clocked(events + [e]) && e.Access?
    requires NeverEvicts(c, s, events + [e])
    ensures Check(c, Run(c, s, events, true), e, true).1 == Check(c, Run(c, s, events, false), e, false).1
  {
    var more := events + [e];
    assert more[..|events|] == events;
    FrontNeverEvicts(c, s, more);
    FrontIsEarlier(more);
    RunSimulates(c, s, events, e.now);
    AccessSimulates(c, Run(c, s, events, true), Run(c, s, events, false), e);
  }

  // A ban of the address that still holds is evicted.
  predicate LosesBan(s: State, e: Event)
    requires e.Access?
  {
    e.ip in s.bans && e.now < s.bans[e.ip] && |FreshBans(s.bans, e.now)| > 10_000 && e.ip in e.banVictims
  }

  // The access reaches the probe records, and a current record of the address is evicted whose
  // ports, with this one, are a scan of more than this one port.
  predicate LosesScan(c: Config, s: State, e: Event)
    requires e.Access?
  {
    && !(e.ip in s.bans && e.now < s.bans[e.ip]) && e.port in s.sensitive
    && e.ip in s.probes && e.now - s.probes[e.ip].first <= c.window
    && |FreshProbes(c, s.probes, e.now)| > 10_000 && e.ip in e.probeVictims
    && |s.probes[e.ip].ports[e.port := e.now]| >= Larger(2, c.threshold)
  }

  function Larger(a: int, b: int): int { if a >= b then a else b }

  // What the decision looks up after pruning.
  lemma PrunedBan(c: Config, s: State, e: Event)
    requires e.Access?
    ensures var kept := Prune(c, s, e.now, e.probeVictims, e.banVictims).bans;
            e.ip in kept && e.now < kept[e.ip] <==> e.ip in s.bans && e.now < s.bans[e.ip] && !LosesBan(s, e)
    ensures var kept := Prune(c, s, e.now, e.probeVictims, e.banVictims).bans;
            e.ip in kept ==> e.ip in s.bans && kept[e.ip] == s.bans[e.ip]
  {}

  lemma PrunedNote(c: Config, s: State, e: Event)
    requires e.Access? && c.window >= 0
    ensures var kept := Prune(c, s, e.now, e.probeVictims, e.banVictims).probes;
            var evicted := e.ip in e.probeVictims && |FreshProbes(c, s.probes, e.now)| > EVICT_ABOVE;
            Note(c, Lookup(kept, e.ip), e.port, e.now) ==
            if evicted then Probe(map[e.port := e.now], e.now) else Note(c, Lookup(s.probes, e.ip), e.port, e.now)
  {}

  lemma DecisionAfterBans(c: Config, s: State, ip: string, port: int, now: Instant)
    ensures Decide(c, s, ip, port, now).1 ==
            if ip in s.bans && now < s.bans[ip] then Verdict(true, false, BannedUntil(s.bans[ip]))
            else if port !in s.sensitive then PASS
            else ByCount(c, |Note(c, Lookup(s.probes, ip), port, now).ports|, port)
  {}

  function ByCount(c: Config, n: nat, port: int): Verdict {
    Verdict(c.blocking || n >= c.threshold, n >= c.threshold,
            if n >= c.threshold then ScanOf(n) else SensitiveAccess(port))
  }

  lemma NotedPorts(c: Config, s: State, e: Event)
    requires e.Access?
    ensures var p := Note(c, Lookup(s.probes, e.ip), e.port, e.now);
            && |map[e.port := e.now]| == 1 && |p.ports| >= 1
            && (!(e.ip in s.probes && e.now - s.probes[e.ip].first <= c.window) ==> |p.ports| == 1)
  {
    var p := Note(c, Lookup(s.probes, e.ip), e.port, e.now);
    assert e.port in p.ports;
  }

  // Pruning and evicting on one state.
  lemma EvictionShowsIff(c: Config, s: State, e: Event)
    requires e.Access? && c.window >= 0 && c.enabled && !e.whitelisted
    ensures Check(c, s, e, true).1 == Check(c, s, e, false).1 <==> !LosesBan(s, e) && !LosesScan(c, s, e)
  {
    var kept := Prune(c, s, e.now, e.probeVictims, e.banVictims);
    PrunedBan(c, s, e);
    DecisionAfterBans(c, kept, e.ip, e.port, e.now);
    DecisionAfterBans(c, s, e.ip, e.port, e.now);
    PrunedNote(c, s, e);
    NotedPorts(c, s, e);
  }

  /** On any state that has lost nothing lasting so far, an access gets the verdict of the monitor
      without pruning iff no lasting ban and no current record that makes it a scan is evicted. */
  lemma VerdictSurvivesIffNothingLastingIsEvicted(c: Config, kept: State, all: State, e: Event)
    requires c.window >= 0 && e.Access? && Simulates(c, kept, all, e.now)
    ensures Check(c, kept, e, true).1 == Check(c, all, e, false).1 <==>
            !c.enabled || e.whitelisted || (!LosesBan(kept, e) && !LosesScan(c, kept, e))
  {
    if c.enabled && !e.whitelisted {
      EvictionShowsIff(c, kept, e);
      DecideSimulates(c, kept, all, e.ip, e.port, e.now);
    }
  }

  /** So an eviction that meets a lasting ban lets the banned address through. */
  lemma EvictionLiftsABan(c: Config, s: State, e: Event)
    requires e.Access? && c.enabled && !e.whitelisted && LosesBan(s, e)
    ensures Check(c, s, e, false).1.blocked && !Check(c, s, e, true).1.reason.BannedUntil?
    ensures e.port !in s.sensitive ==> !Check(c, s, e, true).1.blocked
  {
    assert e.ip !in Prune(c, s, e.now, e.probeVictims, e.banVictims).bans;
  }

  /** And one that meets the record of a scan leaves the scan unflagged. */
  lemma EvictionHidesAScan(c: Config, s: State, e: Event)
    requires e.Access? && c.enabled && !e.whitelisted && c.window >= 0 && c.threshold > 1
    requires LosesScan(c, s, e) && !LosesBan(s, e)
    ensures Check(c, s, e, false).1.scan && !Check(c, s, e, true).1.scan
  {
    PrunedBan(c, s, e);
    PrunedNote(c, s, e);
    NotedPorts(c, s, e);
    DecisionAfterBans(c, Prune(c, s, e.now, e.probeVictims, e.banVictims), e.ip, e.port, e.now);
    DecisionAfterBans(c, s, e.ip, e.port, e.now);
  }

  // ---------------------------------------------------------------------------------------
  // Verdicts from the history
  // ---------------------------------------------------------------------------------------

  datatype Attempt = Attempt(port: int, at: Instant)

  function Ports(a: seq<Attempt>): set<int> { set i | 0 <= i < |a| :: a[i].port }

  // Where the current window begins: at the first attempt that is too late for the one before.
  function WindowStart(window: Instant, a: seq<Attempt>): (k: nat)
    requires a != []
    ensures k < |a|
  {
    var n := |a| - 1;
    if n == 0 then 0
    else
      var k := WindowStart(window, a[..n]);
      if a[n].at - a[k].at > window then n else k
  }

  function Current(window: Instant, a: seq<Attempt>): seq<Attempt>
    requires a != []
  {
    a[WindowStart(window, a)..]
  }

  predicate IsScan(c: Config, a: seq<Attempt>)
    requires a != []
  {
    |Ports(Current(c.window, a))| >= c.threshold
  }

  predicate FlaggedAt(c: Config, a: seq<Attempt>, k: nat)
    requires k < |a|
  {
    IsScan(c, a[..k + 1])
  }

  // What happened to one address since it was last unbanned.
  datatype History = History(attempts: seq<Attempt>, bannedUntil: Option<Instant>)

  predicate Banned(h: History, now: Instant) { h.bannedUntil.Some? && now < h.bannedUntil.value }

  function Judge(c: Config, sensitive: set<int>, h: History, e: Event): Verdict
    requires e.Access?
  {
    if !c.enabled || e.whitelisted then PASS
    else if Banned(h, e.now) then Verdict(true, false, BannedUntil(h.bannedUntil.value))
    else if e.port !in sensitive then PASS
    else
      var a := h.attempts + [Attempt(e.port, e.now)];
      Verdict(c.blocking || IsScan(c, a), IsScan(c, a),
              if IsScan(c, a) then ScanOf(|Ports(Current(c.window, a))|) else SensitiveAccess(e.port))
  }

  function Remember(c: Config, sensitive: set<int>, h: History, ip: string, e: Event): History {
    match e
    case Unban(other, _) => if other == ip then History([], None) else h
    case AddPort(_, _) => h
    case Access(other, port, now, whitelisted, _, _) =>
      if other != ip || !c.enabled || whitelisted || Banned(h, now) || port !in sensitive then h
      else
        var a := h.attempts + [Attempt(port, now)];
        History(a, if IsScan(c, a) && c.autoBan then Some(now + 600 * 1_000_000_000) else h.bannedUntil)
  }

  function Sensitive(initial: set<int>, events: seq<Event>): set<int> {
    initial + set i | 0 <= i < |events| && events[i].AddPort? :: events[i].port
  }

  function HistoryOf(c: Config, initial: set<int>, events: seq<Event>, ip: string): History {
    if events == [] then History([], None)
    else
      var front := events[..|events| - 1];
      Remember(c, Sensitive(initial, front), HistoryOf(c, initial, front, ip), ip, events[|events| - 1])
  }

  ghost predicate ProbeIsWindow(c: Config, record: Option<Probe>, a: seq<Attempt>) {
    if a == [] then record.None?
    else record.Some? && record.value.first == Current(c.window, a)[0].at &&
         record.value.ports.Keys == Ports(Current(c.window, a))
  }

  ghost predicate BanIsRemembered(ban: Option<Instant>, h: History, now: Instant) {
    && (ban.Some? ==> h.bannedUntil == ban)
    && (ban.None? && h.bannedUntil.Some? ==> h.bannedUntil.value <= now)
  }

  ghost predicate Reflects(c: Config, s: State, h: History, ip: string, now: Instant) {
    ProbeIsWindow(c, Lookup(s.probes, ip), h.attempts) && BanIsRemembered(Lookup(s.bans, ip), h, now)
  }

  lemma NoteIsWindow(c: Config, record: Option<Probe>, a: seq<Attempt>, port: int, now: Instant)
    requires ProbeIsWindow(c, record, a)
    ensures ProbeIsWindow(c, Some(Note(c, record, port, now)), a + [Attempt(port, now)])
  {
    var more := a + [Attempt(port, now)];
    var n := |a|;
    if n == 0 {
      assert Current(c.window, more) == [Attempt(port, now)];
      assert Ports([Attempt(port, now)]) == {port};
    } else {
      assert more[..n] == a;
      var k := WindowStart(c.window, a);
      assert a[k..][0] == a[k] == more[k];
      if now - a[k].at > c.window {
        assert Current(c.window, more) == [Attempt(port, now)];
        assert Ports([Attempt(port, now)]) == {port};
      } else {
        assert Current(c.window, more) == a[k..] + [Attempt(port, now)];
        PortsOfOneMore(a[k..], Attempt(port, now));
      }
    }
  }

  lemma PortsOfOneMore(a: seq<Attempt>, x: Attempt)
    ensures Ports(a + [x]) == Ports(a) + {x.port}
  {
    var more := a + [x];
    forall p ensures p in Ports(more) <==> p in Ports(a) || p == x.port {
      if p in Ports(a) {
        var i :| 0 <= i < |a| && a[i].port == p;
        assert more[i].port == p;
      }
      if p == x.port {
        assert more[|a|].port == p;
      }
    }
  }

  lemma BanDecides(s: State, h: History, ip: string, now: Instant)
    requires BanIsRemembered(Lookup(s.bans, ip), h, now)
    ensures ip in s.bans && now < s.bans[ip] <==> Banned(h, now)
    ensures Banned(h, now) ==> s.bans[ip] == h.bannedUntil.value
  {}

  lemma OthersAreKept(c: Config, s: State, e: Event, ip: string)
    requires e.Access? && e.ip != ip
    ensures var t := Next(c, s, e, false);
            Lookup(t.probes, ip) == Lookup(s.probes, ip) && Lookup(t.bans, ip) == Lookup(s.bans, ip)
  {}

  lemma LookupAfter(c: Config, s: State, e: Event, p: Probe)
    requires e.Access? && c.enabled && !e.whitelisted && !(e.ip in s.bans && e.now < s.bans[e.ip])
    requires e.port in s.sensitive && p == Note(c, Lookup(s.probes, e.ip), e.port, e.now)
    ensures var scan, r := |p.ports| >= c.threshold, Check(c, s, e, false);
            && r.1 == Verdict(c.blocking || scan, scan, if scan then ScanOf(|p.ports|) else SensitiveAccess(e.port))
            && Lookup(r.0.probes, e.ip) == Some(p)
            && Lookup(r.0.bans, e.ip) == if scan && c.autoBan then Some(e.now + BAN_DURATION) else None
  {}

  lemma HistoryAfter(c: Config, sensitive: set<int>, h: History, e: Event)
    requires e.Access? && c.enabled && !e.whitelisted && !Banned(h, e.now) && e.port in sensitive
    ensures var a := h.attempts + [Attempt(e.port, e.now)];
            var scan, count := IsScan(c, a), |Ports(Current(c.window, a))|;
            && Judge(c, sensitive, h, e) ==
               Verdict(c.blocking || scan, scan, if scan then ScanOf(count) else SensitiveAccess(e.port))
            && Remember(c, sensitive, h, e.ip, e) ==
               History(a, if scan && c.autoBan then Some(e.now + BAN_DURATION) else h.bannedUntil)
            && (scan <==> count >= c.threshold)
  {}

  lemma CountIsWindow(c: Config, p: Probe, a: seq<Attempt>)
    requires a != [] && ProbeIsWindow(c, Some(p), a)
    ensures |p.ports| == |Ports(Current(c.window, a))|
  {
    assert |p.ports| == |p.ports.Keys|;
  }

  // An access that reaches the probe records.
  lemma RecordReflects(c: Config, s: State, h: History, e: Event)
    requires e.Access? && Reflects(c, s, h, e.ip, e.now)
    requires c.enabled && !e.whitelisted && !Banned(h, e.now) && e.port in s.sensitive
    ensures Check(c, s, e, false).1 == Judge(c, s.sensitive, h, e)
    ensures Reflects(c, Check(c, s, e, false).0, Remember(c, s.sensitive, h, e.ip, e), e.ip, e.now)
  {
    var p := Note(c, Lookup(s.probes, e.ip), e.port, e.now);
    var a := h.attempts + [Attempt(e.port, e.now)];
    BanDecides(s, h, e.ip, e.now);
    NoteIsWindow(c, Lookup(s.probes, e.ip), h.attempts, e.port, e.now);
    CountIsWindow(c, p, a);
    LookupAfter(c, s, e, p);
    HistoryAfter(c, s.sensitive, h, e);
    BanAfter(c, h, Lookup(Check(c, s, e, false).0.bans, e.ip), Remember(c, s.sensitive, h, e.ip, e), IsScan(c, a),
             e.now);
  }

  lemma BanAfter(c: Config, h: History, ban: Option<Instant>, after: History, scan: bool, now: Instant)
    requires !Banned(h, now)
    requires ban == if scan && c.autoBan then Some(now + BAN_DURATION) else None
    requires after.bannedUntil == if scan && c.autoBan then Some(now + BAN_DURATION) else h.bannedUntil
    ensures BanIsRemembered(ban, after, now)
  {}

  lemma DecideReflects(c: Config, s: State, h: History, ip: string, e: Event)
    requires e.Access? && Reflects(c, s, h, ip, e.now)
    ensures e.ip == ip ==> Check(c, s, e, false).1 == Judge(c, s.sensitive, h, e)
    ensures Reflects(c, Next(c, s, e, false), Remember(c, s.sensitive, h, ip, e), ip, e.now)
  {
    if e.ip != ip {
      OthersAreKept(c, s, e, ip);
    } else {
      BanDecides(s, h, ip, e.now);
      if c.enabled && !e.whitelisted && !Banned(h, e.now) && e.port in s.sensitive {
        RecordReflects(c, s, h, e);
      }
    }
  }

  lemma LaterReflects(c: Config, s: State, h: History, ip: string, now: Instant, later: Instant)
    requires Reflects(c, s, h, ip, now) && now <= later
    ensures Reflects(c, s, h, ip, later)
  {}

  lemma {:induction false} RunSensitive(c: Config, initial: set<int>, events: seq<Event>)
    ensures Run(c, Initial(initial), events, false).sensitive == Sensitive(initial, events)
  {
    if events != [] {
      var front, e := events[..|events| - 1], events[|events| - 1];
      RunSensitive(c, initial, front);
      SensitiveOfOneMore(initial, front, e);
      assert events == front + [e];
    }
  }

  lemma {:induction false} RunReflects(c: Config, initial: set<int>, events: seq<Event>, ip: string, now: Instant)
    requires Clocked(events) && forall e | e in events :: e.now <= now
    ensures Reflects(c, Run(c, Initial(initial), events, false), HistoryOf(c, initial, events, ip), ip, now)
    decreases |events|
  {
    if events != [] {
      var n := |events| - 1;
      var front, e := events[..n], events[n];
      FrontIsEarlier(events);
      RunReflects(c, initial, front, ip, e.now);
      RunSensitive(c, initial, front);
      var s, h := Run(c, Initial(initial), front, false), HistoryOf(c, initial, front, ip);
      if e.Access? {
        DecideReflects(c, s, h, ip, e);
      }
      LaterReflects(c, Next(c, s, e, false), Remember(c, s.sensitive, h, ip, e), ip, e.now, now);
    }
  }

  lemma SensitiveOfOneMore(initial: set<int>, events: seq<Event>, e: Event)
    ensures Sensitive(initial, events + [e]) ==
            if e.AddPort? then Sensitive(initial, events) + {e.port} else Sensitive(initial, events)
  {
    var more := events + [e];
    forall p ensures p in Sensitive(initial, more) <==>
                     p in Sensitive(initial, events) || (e.AddPort? && p == e.port) {
      if p in Sensitive(initial, events) && p !in initial {
        var i :| 0 <= i < |events| && events[i].AddPort? && events[i].port == p;
        assert more[i].port == p;
      }
      if e.AddPort? && p == e.port {
        assert more[|events|].port == p;
      }
    }
  }

  /** Every verdict follows from the history alone: an access is refused while a ban from the last
      flagged access lasts, and a sensitive one is flagged iff the distinct sensitive ports of the
      current window reach the threshold. */
  lemma VerdictsFollowHistory(c: Config, initial: set<int>, events: seq<Event>, e: Event)
    requires Clocked(events + [e]) && e.Access?
    ensures Check(c, Run(c, Initial(initial), events, false), e, false).1 ==
            Judge(c, Sensitive(initial, events), HistoryOf(c, initial, events, e.ip), e)
  {
    var more := events + [e];
    assert more[..|events|] == events;
    FrontIsEarlier(more);
    RunReflects(c, initial, events, e.ip, e.now);
    RunSensitive(c, initial, events);
    DecideReflects(c, Run(c, Initial(initial), events, false), HistoryOf(c, initial, events, e.ip), e.ip, e);
  }

  // ---------------------------------------------------------------------------------------
  // What the windows catch
  // ---------------------------------------------------------------------------------------

  ghost predicate Ordered(a: seq<Attempt>) { forall i, j | 0 <= i <= j < |a| :: a[i].at <= a[j].at }

  ghost predicate UpTo(a: seq<Attempt>, now: Instant) { Ordered(a) && forall x | x in a :: x.at <= now }

  /** The attempts remembered of any address on a run are in time order. */
  lemma {:induction false} AttemptsAreOrdered(c: Config, initial: set<int>, events: seq<Event>, ip: string,
                                              now: Instant)
    requires Clocked(events) && forall e | e in events :: e.now <= now
    ensures UpTo(HistoryOf(c, initial, events, ip).attempts, now)
    decreases |events|
  {
    if events != [] {
      var n := |events| - 1;
      FrontIsEarlier(events);
      AttemptsAreOrdered(c, initial, events[..n], ip, events[n].now);
      var h := HistoryOf(c, initial, events[..n], ip);
      StaysOrdered(c, Sensitive(initial, events[..n]), h, ip, events[n]);
    }
  }

  lemma StaysOrdered(c: Config, sensitive: set<int>, h: History, ip: string, e: Event)
    requires UpTo(h.attempts, e.now)
    ensures UpTo(Remember(c, sensitive, h, ip, e).attempts, e.now)
  {}

  // A window that does not start at the beginning starts too late for the window before it.
  lemma {:induction false} WindowsFollow(window: Instant, a: seq<Attempt>)
    requires a != [] && window >= 0
    ensures var k := WindowStart(window, a);
            k > 0 ==> a[k].at - a[WindowStart(window, a[..k])].at > window
    ensures a[|a| - 1].at - a[WindowStart(window, a)].at <= window
  {
    var n := |a| - 1;
    if n > 0 {
      WindowsFollow(window, a[..n]);
      var k := WindowStart(window, a[..n]);
      if a[n].at - a[k].at <= window && k > 0 {
        assert a[..n][..k] == a[..k];
      }
    }
  }

  lemma PortsWithin(part: seq<Attempt>, left: seq<Attempt>, right: seq<Attempt>)
    requires forall x | x in part :: x in left || x in right
    ensures |Ports(part)| <= |Ports(left)| + |Ports(right)|
  {
    forall p | p in Ports(part) ensures p in Ports(left) + Ports(right) {
      var i :| 0 <= i < |part| && part[i].port == p;
      assert part[i] in part;
    }
    SubsetIsSmaller(Ports(part), Ports(left) + Ports(right));
  }

  lemma SubsetIsSmaller(a: set<int>, b: set<int>)
    requires a <= b
    ensures |a| <= |b|
  {
    assert b == a + (b - a);
  }

  /** A flag is never older than its window: the threshold was reached by attempts no further
      apart than the window length, ending with the flagged one. */
  lemma FlagsAreRecent(c: Config, a: seq<Attempt>)
    requires a != [] && c.window >= 0 && Ordered(a) && IsScan(c, a)
    ensures exists k | 0 <= k < |a| ::
              |Ports(a[k..])| >= c.threshold && forall i | k <= i < |a| :: a[|a| - 1].at - a[i].at <= c.window
  {
    var k := WindowStart(c.window, a);
    WindowsFollow(c.window, a);
    forall i | k <= i < |a| ensures a[|a| - 1].at - a[i].at <= c.window {
      assert a[k].at <= a[i].at;
    }
  }

  lemma InOrder(a: seq<Attempt>, i: nat, j: nat)
    requires Ordered(a) && i < |a| && j < |a|
    ensures i <= j ==> a[i].at <= a[j].at
  {}

  /** A scan cannot slip between two windows: twice the threshold less one distinct ports within
      one window length are flagged at some attempt among them, wherever the windows begin. */
  lemma WideScansAreFlagged(c: Config, a: seq<Attempt>, i: nat, j: nat)
    requires i <= j < |a| && c.window >= 0 && Ordered(a) && a[j].at - a[i].at <= c.window
    requires |Ports(a[i..j + 1])| >= 2 * c.threshold - 1
    ensures exists k | i <= k <= j :: FlaggedAt(c, a, k)
  {
    var upTo := a[..j + 1];
    var s := WindowStart(c.window, upTo);
    WindowsFollow(c.window, upTo);
    if s <= i {
      PortsWithin(a[i..j + 1], upTo[s..], []);
      AtLeastThreshold(c, |Ports(a[i..j + 1])|, |Ports(upTo[s..])|, 0);
      if |Ports(upTo[s..])| >= c.threshold {
        assert FlaggedAt(c, a, j);
      }
    } else {
      var before := a[..s];
      assert upTo[..s] == before;
      var r := WindowStart(c.window, before);
      assert a[s].at <= a[j].at;
      InOrder(a, i, r);
      assert r <= i;
      PortsWithin(a[i..j + 1], before[r..], upTo[s..]);
      if |Ports(upTo[s..])| >= c.threshold {
        assert FlaggedAt(c, a, j);
      } else {
        assert before == a[..s - 1 + 1];
        assert FlaggedAt(c, a, s - 1);
      }
    }
  }

  lemma AtLeastThreshold(c: Config, total: nat, left: nat, right: nat)
    requires total >= 2 * c.threshold - 1 && total <= left + right
    ensures left >= c.threshold || right >= c.threshold
  {}

  // ---------------------------------------------------------------------------------------
  // The monitor
  // ---------------------------------------------------------------------------------------

  class SensitivePortMonitor {
    const config: Config
    var sensitivePorts: set<int>
    var ipProbes: map<string, Probe>
    var bannedIPs: map<string, Instant>

    ghost function View(): State
      reads this
    {
      State(sensitivePorts, ipProbes, bannedIPs)
    }

    constructor (enabled: bool, ports: set<int>, action: string, scanThreshold: int, scanWindowSec: int, autoBan: bool)
      ensures View() == Initial(ports)
      ensures config == Config(enabled, action in {"", "block", "kill"},
                               if scanThreshold <= 0 then 5 else scanThreshold,
                               (if scanWindowSec <= 0 then 10 else scanWindowSec) * 1_000_000_000, autoBan)
      ensures config.window > 0 && config.threshold > 0
    {
      var threshold, seconds, act := scanThreshold, scanWindowSec, action;
      if threshold <= 0 {
        threshold := 5;
      }
      if seconds <= 0 {
        seconds := 10;
      }
      if act == "" {
        act := "block";
      }
      config := Config(enabled, act == "block" || act == "kill", threshold, seconds * SECOND, autoBan);
      sensitivePorts, ipProbes, bannedIPs := ports, map[], map[];
    }

    method PruneProbes(now: Instant)
      modifies this`ipProbes
      ensures ipProbes ==
              map ip | ip in old(ipProbes) && now - old(ipProbes)[ip].first <= config.window * 2 :: old(ipProbes)[ip]
    {
      var rest := ipProbes.Keys;
      while rest != {}
        invariant rest <= old(ipProbes).Keys
        invariant forall ip | ip in ipProbes :: ip in old(ipProbes) && ipProbes[ip] == old(ipProbes)[ip]
        invariant forall ip | ip in old(ipProbes) ::
                    ip in ipProbes <==> ip in rest || now - old(ipProbes)[ip].first <= config.window * 2
        decreases rest
      {
        var ip :| ip in rest;
        if now - ipProbes[ip].first > config.window * 2 {
          ipProbes := ipProbes - {ip};
        }
        rest := rest - {ip};
      }
    }

    method PruneBans(now: Instant)
      modifies this`bannedIPs
      ensures bannedIPs == map ip | ip in old(bannedIPs) && now <= old(bannedIPs)[ip] :: old(bannedIPs)[ip]
    {
      var rest := bannedIPs.Keys;
      while rest != {}
        invariant rest <= old(bannedIPs).Keys
        invariant forall ip | ip in bannedIPs :: ip in old(bannedIPs) && bannedIPs[ip] == old(bannedIPs)[ip]
        invariant forall ip | ip in old(bannedIPs) :: ip in bannedIPs <==> ip in rest || now <= old(bannedIPs)[ip]
        decreases rest
      {
        var ip :| ip in rest;
        if now > bannedIPs[ip] {
          bannedIPs := bannedIPs - {ip};
        }
        rest := rest - {ip};
      }
    }

    // Deletes entries in whatever order the map yields them, up to the fixed number.
    static method Shrink<V>(m: map<string, V>) returns (kept: map<string, V>)
      requires |m| > EVICT_ABOVE
      ensures |kept| == |m| - EVICT_COUNT && kept.Keys <= m.Keys && forall ip | ip in kept :: kept[ip] == m[ip]
    {
      kept := m;
      var evicted := 0;
      while evicted < EVICT_COUNT
        invariant 0 <= evicted <= EVICT_COUNT && |kept| == |m| - evicted
        invariant kept.Keys <= m.Keys && forall ip | ip in kept :: kept[ip] == m[ip]
      {
        assert kept.Keys != {};
        var ip :| ip in kept.Keys;
        ghost var before := kept;
        kept := kept - {ip};
        assert kept.Keys == before.Keys - {ip};
        evicted := evicted + 1;
      }
    }

    // What a shrunk map lost is what an eviction took.
    lemma ShrinkEvicts<V>(m: map<string, V>, kept: map<string, V>)
      requires |m| > EVICT_ABOVE && |kept| == |m| - EVICT_COUNT && kept.Keys <= m.Keys
      requires forall ip | ip in kept :: kept[ip] == m[ip]
      ensures kept == Evict(m, m.Keys - kept.Keys) && |m.Keys - kept.Keys| == EVICT_COUNT
    {
      assert m.Keys == kept.Keys + (m.Keys - kept.Keys);
      assert |m| == |m.Keys| && |kept| == |kept.Keys|;
    }

    method PruneProbeMap(now: Instant) returns (ghost victims: set<string>)
      modifies this`ipProbes
      ensures ipProbes == Evict(FreshProbes(config, old(ipProbes), now), victims)
      ensures Meets(FreshProbes(config, old(ipProbes), now), victims)
    {
      victims := {};
      if |ipProbes| > PRUNE_ABOVE {
        PruneProbes(now);
        if |ipProbes| > EVICT_ABOVE {
          var kept := Shrink(ipProbes);
          victims := ipProbes.Keys - kept.Keys;
          ShrinkEvicts(ipProbes, kept);
          ipProbes := kept;
        }
      }
    }

    method PruneBanMap(now: Instant) returns (ghost victims: set<string>)
      modifies this`bannedIPs
      ensures bannedIPs == Evict(FreshBans(old(bannedIPs), now), victims)
      ensures Meets(FreshBans(old(bannedIPs), now), victims)
    {
      victims := {};
      if |bannedIPs| > PRUNE_ABOVE {
        PruneBans(now);
        if |bannedIPs| > EVICT_ABOVE {
          var kept := Shrink(bannedIPs);
          victims := bannedIPs.Keys - kept.Keys;
          ShrinkEvicts(bannedIPs, kept);
          bannedIPs := kept;
        }
      }
    }

    method PruneAll(now: Instant) returns (ghost probeVictims: set<string>, ghost banVictims: set<string>)
      modifies this`ipProbes, this`bannedIPs
      ensures View() == Prune(config, old(View()), now, probeVictims, banVictims)
      ensures Meets(FreshProbes(config, old(ipProbes), now), probeVictims)
      ensures Meets(FreshBans(old(bannedIPs), now), banVictims)
    {
      probeVictims := PruneProbeMap(now);
      banVictims := PruneBanMap(now);
    }

    method CheckPortAccess(ip: string, port: int, now: Instant, whitelisted: bool)
      returns (v: Verdict, ghost probeVictims: set<string>, ghost banVictims: set<string>)
      modifies this`ipProbes, this`bannedIPs
      ensures (View(), v) ==
              Check(config, old(View()), Access(ip, port, now, whitelisted, probeVictims, banVictims), true)
      ensures MeetsVictims(config, old(View()), Access(ip, port, now, whitelisted, probeVictims, banVictims))
    {
      probeVictims, banVictims := {}, {};
      if !config.enabled {
        return PASS, probeVictims, banVictims;
      }
      if whitelisted {
        return PASS, probeVictims, banVictims;
      }
      probeVictims, banVictims := PruneAll(now);
      v := Decision(ip, port, now);
    }

    method Decision(ip: string, port: int, now: Instant) returns (v: Verdict)
      modifies this`ipProbes, this`bannedIPs
      ensures (View(), v) == Decide(config, old(View()), ip, port, now)
    {
      if ip in bannedIPs {
        if now < bannedIPs[ip] {
          return Verdict(true, false, BannedUntil(bannedIPs[ip]));
        }
        bannedIPs := bannedIPs - {ip};
      }
      assert bannedIPs == old(bannedIPs) - {ip};
      if port !in sensitivePorts {
        return PASS;
      }
      var record := Probe(map[], now);
      if ip in ipProbes && now - ipProbes[ip].first <= config.window {
        record := ipProbes[ip];
      }
      record := record.(ports := record.ports[port := now]);
      ipProbes := ipProbes[ip := record];
      var scan := |record.ports| >= config.threshold;
      if scan && config.autoBan {
        bannedIPs := bannedIPs[ip := now + BAN_DURATION];
      }
      var reason := SensitiveAccess(port);
      if scan {
        reason := ScanOf(|record.ports|);
      }
      return Verdict(config.blocking || scan, scan, reason);
    }

    method AddSensitivePort(port: int, ghost now: Instant)
      modifies this`sensitivePorts
      ensures View() == Next(config, old(View()), AddPort(port, now), true)
    {
      sensitivePorts := sensitivePorts + {port};
    }

    method Unban(ip: string, ghost now: Instant)
      modifies this`ipProbes, this`bannedIPs
      ensures View() == Next(config, old(View()), Event.Unban(ip, now), true)
    {
      bannedIPs := bannedIPs - {ip};
      ipProbes := ipProbes - {ip};
    }
  }
}
