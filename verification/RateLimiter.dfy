/** Per-client token bucket with temporary bans and idle clean-up
    (pkg/security/guard/rate_limiter.go).

    The stored `tokens` of a bucket are compared with an independent account of what the
    client was granted: the list of instants at which it was admitted.  All instants are
    seconds since Go's zero time, so the zero `time.Time` is 0.0 and every clock reading is
    positive. */
module RateLimiting {
  import opened Common

  type Instant = real

  // Buckets idle for longer than this (10 minutes) are dropped by the clean-up loop.
  const IDLE_SECONDS := 600.0

  datatype Config = Config(rps: real, burst: int, banThreshold: int, banDuration: real) {
    ghost predicate Valid() {
      rps > 0.0 && burst >= 1 && banThreshold >= 1 && banDuration > 0.0
    }

    function Cap(): real { burst as real }

    // A drained bucket is full again before the clean-up loop may forget it.
    predicate RefillsWhileIdle() { rps * 600.0 >= Cap() }
  }

  datatype Bucket = Bucket(tokens: real, lastUpdate: Instant, violations: int, bannedUntil: Instant)

  type Table = map<string, Bucket>

  function Min(x: real, y: real): real { if x <= y then x else y }

  // ---------------------------------------------------------------------------------------
  // One step of the limiter, as a function of the table
  // ---------------------------------------------------------------------------------------

  predicate Banned(t: Table, key: string, now: Instant) {
    key in t && now < t[key].bannedUntil
  }

  // The tokens earned over a stretch of time.
  function Gain(c: Config, elapsed: real): real { elapsed * c.rps }

  function Refilled(c: Config, b: Bucket, now: Instant): real {
    Min(c.Cap(), b.tokens + Gain(c, now - b.lastUpdate))
  }

  // The bucket a request leaves behind, and whether the request is admitted.
  function Charge(c: Config, slot: Option<Bucket>, now: Instant): (Bucket, bool) {
    if slot.None? then
      (Bucket(c.Cap() - 1.0, now, 0, 0.0), true)
    else if now < slot.value.bannedUntil then
      (slot.value, false)
    else
      var b := slot.value.(tokens := Refilled(c, slot.value, now), lastUpdate := now);
      if b.tokens >= 1.0 then
        (b.(tokens := b.tokens - 1.0), true)
      else if b.violations + 1 >= c.banThreshold then
        (b.(violations := 0, bannedUntil := now + c.banDuration), false)
      else
        (b.(violations := b.violations + 1), false)
  }

  function AllowStep(c: Config, t: Table, key: string, now: Instant): (Table, bool) {
    var (b, ok) := Charge(c, Lookup(t, key), now);
    (t[key := b], ok)
  }

  function UnbanStep(c: Config, t: Table, key: string): Table {
    if key in t then t[key := t[key].(bannedUntil := 0.0, violations := 0, tokens := c.Cap())] else t
  }

  predicate Stale(b: Bucket, now: Instant) {
    now > b.bannedUntil && now - b.lastUpdate > IDLE_SECONDS
  }

  function CleanupStep(t: Table, now: Instant): Table {
    map k | k in t && !Stale(t[k], now) :: t[k]
  }

  // ---------------------------------------------------------------------------------------
  // Runs and the admission history
  // ---------------------------------------------------------------------------------------

  datatype Event =
    | Request(key: string, at: Instant)
    | Unban(key: string, at: Instant)
    | Cleanup(at: Instant)

  function Step(c: Config, t: Table, e: Event): Table {
    match e
    case Request(k, now) => AllowStep(c, t, k, now).0
    case Unban(k, _) => UnbanStep(c, t, k)
    case Cleanup(now) => CleanupStep(t, now)
  }

  function Run(c: Config, es: seq<Event>): Table {
    if es == [] then map[] else Step(c, Run(c, es[..|es| - 1]), es[|es| - 1])
  }

  function Clock(es: seq<Event>): Instant {
    if es == [] then 0.0 else es[|es| - 1].at
  }

  // A run observed on a monotone clock.
  predicate Timed(es: seq<Event>) {
    es == [] || (Timed(es[..|es| - 1]) && es[|es| - 1].at >= Clock(es[..|es| - 1]) && es[|es| - 1].at > 0.0)
  }

  // What a window of the given length may admit.
  function Budget(c: Config, length: real): real { c.Cap() + c.rps * length }

  // The allowance over [h[i], now] covers `extra` requests on top of those admitted in it.
  predicate Room(c: Config, h: seq<Instant>, i: nat, now: Instant, extra: real)
    requires i < |h|
  {
    (|h| - i) as real + extra <= Budget(c, now - h[i])
  }

  ghost predicate HasRoom(c: Config, h: seq<Instant>, now: Instant, extra: real) {
    forall i | 0 <= i < |h| :: Room(c, h, i, now, extra)
  }

  // What the requests tell of a client: when the last one was charged to its bucket, if it has one; the
  // denials since the bucket began, it was unbanned or it was last banned; and when its last ban began, if
  // it was not lifted since.
  datatype Standing = Standing(charged: Option<Instant>, denials: seq<Instant>, ban: Option<Instant>)

  const NEW_CLIENT := Standing(None, [], None)

  predicate BanLasts(c: Config, s: Standing, now: Instant) { s.ban.Some? && now < s.ban.value + c.banDuration }

  // Its ban is over and its bucket was not charged for ten minutes.
  predicate Forgotten(c: Config, s: Standing, now: Instant) {
    && (s.ban.Some? ==> now > s.ban.value + c.banDuration)
    && s.charged.Some? && now - s.charged.value > 600.0
  }

  function Denied(c: Config, s: Standing, now: Instant): Standing {
    if |s.denials| + 1 >= c.banThreshold then Standing(Some(now), [], Some(now))
    else s.(charged := Some(now), denials := s.denials + [now])
  }

  // A request is charged when no ban lasts, and denied then when the admissions leave no room.
  ghost function StandingOf(c: Config, es: seq<Event>, key: string): Standing {
    if es == [] then NEW_CLIENT
    else
      var before := es[..|es| - 1];
      var s := StandingOf(c, before, key);
      match es[|es| - 1]
      case Request(k, now) =>
        if k != key || BanLasts(c, s, now) then s
        else if HasRoom(c, Admitted(c, before, key, true), now, 1.0) then s.(charged := Some(now))
        else Denied(c, s, now)
      case Unban(k, _) => if k == key then Standing(s.charged, [], None) else s
      case Cleanup(now) => if Forgotten(c, s, now) then NEW_CLIENT else s
  }

  // The instants at which `key` was admitted since its last Unban; with `forget`, also since it was last
  // forgotten.
  ghost function Admitted(c: Config, es: seq<Event>, key: string, forget: bool): seq<Instant> {
    if es == [] then []
    else
      var before := es[..|es| - 1];
      var h := Admitted(c, before, key, forget);
      match es[|es| - 1]
      case Request(k, now) =>
        if k == key && AllowStep(c, Run(c, before), k, now).1 then h + [now] else h
      case Unban(k, _) => if k == key then [] else h
      case Cleanup(now) => if forget && Forgotten(c, StandingOf(c, before, key), now) then [] else h
  }

  // ---------------------------------------------------------------------------------------
  // The level of a bucket.  `earn` is any account of the tokens earned up to an instant; only
  // its differences matter, and `Gap` marks the pairs whose difference is spelled out.
  // ---------------------------------------------------------------------------------------

  ghost predicate Gap(a: Instant, b: Instant) { true }

  ghost predicate Earns(c: Config, earn: Instant -> real) {
    forall a, b {:trigger Gap(a, b)} :: Gap(a, b) ==> earn(b) - earn(a) == c.rps * (b - a)
  }

  lemma Elapsed(c: Config, earn: Instant -> real, a: Instant, b: Instant)
    requires Earns(c, earn)
    ensures Gain(c, b - a) == c.rps * (b - a) == earn(b) - earn(a)
    ensures c.rps > 0.0 && a <= b ==> earn(a) <= earn(b)
  {
    assert Gap(a, b);
    if c.rps > 0.0 && a <= b { assert c.rps * (b - a) >= 0.0; }
  }

  // What is left of the allowance that the requests admitted from the i-th one on draw on.
  ghost function Slack(c: Config, earn: Instant -> real, h: seq<Instant>, i: nat, now: Instant): real
    requires i < |h|
  {
    c.Cap() + (earn(now) - earn(h[i])) - (|h| - i) as real
  }

  // `v` is the least slack over the history `h`, capped at the burst size.
  ghost predicate IsLevel(c: Config, earn: Instant -> real, v: real, h: seq<Instant>, now: Instant) {
    && v <= c.Cap()
    && (forall i | 0 <= i < |h| :: v <= Slack(c, earn, h, i, now))
    && (v == c.Cap() || exists i | 0 <= i < |h| :: v == Slack(c, earn, h, i, now))
  }

  // The bucket, or its absence, accounts exactly for the history `h`.
  ghost predicate Accounts(c: Config, earn: Instant -> real, slot: Option<Bucket>, h: seq<Instant>, clock: Instant) {
    match slot
    case None => IsLevel(c, earn, c.Cap(), h, clock)
    case Some(b) => b.lastUpdate <= clock && 0.0 <= b.tokens && IsLevel(c, earn, b.tokens, h, b.lastUpdate)
  }

  // Refilling over an idle stretch keeps the level exact.
  lemma LevelAdvances(c: Config, earn: Instant -> real, v: real, h: seq<Instant>, start: Instant, now: Instant)
    requires earn(start) <= earn(now) && IsLevel(c, earn, v, h, start)
    ensures IsLevel(c, earn, Min(c.Cap(), v + (earn(now) - earn(start))), h, now)
  {
    var gain := earn(now) - earn(start);
    forall i | 0 <= i < |h| ensures Slack(c, earn, h, i, now) == Slack(c, earn, h, i, start) + gain {}
    if v != c.Cap() {
      var i :| 0 <= i < |h| && v == Slack(c, earn, h, i, start);
      assert v + gain == Slack(c, earn, h, i, now);
    }
  }

  // Admitting one more request takes one unit off every slack.
  lemma LevelAdmits(c: Config, earn: Instant -> real, v: real, h: seq<Instant>, now: Instant)
    requires IsLevel(c, earn, v, h, now)
    ensures IsLevel(c, earn, v - 1.0, h + [now], now)
  {
    var h' := h + [now];
    forall i | 0 <= i < |h'|
      ensures Slack(c, earn, h', i, now) == (if i < |h| then Slack(c, earn, h, i, now) - 1.0 else c.Cap() - 1.0)
    {
    }
    if v == c.Cap() {
      assert v - 1.0 == Slack(c, earn, h', |h|, now);
    } else {
      var i :| 0 <= i < |h| && v == Slack(c, earn, h, i, now);
      assert v - 1.0 == Slack(c, earn, h', i, now);
    }
  }

  // The level just before a request is charged.
  function LevelNow(c: Config, slot: Option<Bucket>, now: Instant): real {
    match slot
    case None => c.Cap()
    case Some(b) => Refilled(c, b, now)
  }

  lemma LevelNowIsExact(c: Config, earn: Instant -> real, slot: Option<Bucket>, h: seq<Instant>,
                        clock: Instant, now: Instant)
    requires c.Valid() && Earns(c, earn) && clock <= now && Accounts(c, earn, slot, h, clock)
    ensures IsLevel(c, earn, LevelNow(c, slot, now), h, now) && 0.0 <= LevelNow(c, slot, now)
  {
    match slot
    case None =>
      Elapsed(c, earn, clock, now);
      LevelAdvances(c, earn, c.Cap(), h, clock, now);
    case Some(b) =>
      Elapsed(c, earn, b.lastUpdate, now);
      LevelAdvances(c, earn, b.tokens, h, b.lastUpdate, now);
      assert Refilled(c, b, now) == Min(c.Cap(), b.tokens + (earn(now) - earn(b.lastUpdate)));
  }

  lemma ChargeAccounts(c: Config, earn: Instant -> real, slot: Option<Bucket>, h: seq<Instant>,
                       clock: Instant, now: Instant)
    requires c.Valid() && Earns(c, earn) && clock <= now && Accounts(c, earn, slot, h, clock)
    ensures var (b, ok) := Charge(c, slot, now);
            Accounts(c, earn, Some(b), if ok then h + [now] else h, now)
  {
    LevelNowIsExact(c, earn, slot, h, clock, now);
    if LevelNow(c, slot, now) >= 1.0 {
      LevelAdmits(c, earn, LevelNow(c, slot, now), h, now);
    }
  }

  // A bucket that sat idle for ten minutes is full, if it refills that fast.
  lemma IdleMeansFull(c: Config, b: Bucket, now: Instant)
    requires c.Valid() && c.RefillsWhileIdle() && 0.0 <= b.tokens && now - b.lastUpdate > 600.0
    ensures Refilled(c, b, now) == c.Cap()
  {
    EarnsWhileIdle(c, now - b.lastUpdate);
  }

  lemma EarnsWhileIdle(c: Config, elapsed: real)
    requires c.rps > 0.0 && elapsed > 600.0
    ensures Gain(c, elapsed) >= c.rps * 600.0
  {
    ProductMonotone(c.rps, elapsed, 600.0);
  }

  lemma ProductMonotone(r: real, a: real, b: real)
    requires r > 0.0 && a > b
    ensures r * a > r * b && a * r > b * r
  {}

  lemma StepAccounts(c: Config, earn: Instant -> real, t: Table, e: Event, key: string, h: seq<Instant>,
                     clock: Instant, forget: bool, dropped: bool)
    requires c.Valid() && Earns(c, earn) && clock <= e.at && (forget || c.RefillsWhileIdle())
    requires Accounts(c, earn, Lookup(t, key), h, clock)
    requires e.Cleanup? ==> (dropped <==> key in t && Stale(t[key], e.at))
    ensures var h' := match e
              case Request(k, now) => if k == key && AllowStep(c, t, k, now).1 then h + [now] else h
              case Unban(k, _) => if k == key then [] else h
              case Cleanup(now) => if forget && dropped then [] else h;
            Accounts(c, earn, Lookup(Step(c, t, e), key), h', e.at)
  {
    if key !in t || e.Cleanup? { LevelNowIsExact(c, earn, Lookup(t, key), h, clock, e.at); }
    match e
    case Request(k, now) =>
      if k == key { ChargeAccounts(c, earn, Lookup(t, key), h, clock, now); }
    case Unban(k, _) =>
    case Cleanup(now) =>
      if key in t && Stale(t[key], now) && !forget { IdleMeansFull(c, t[key], now); }
  }

  // The bucket knows when it was charged, counts the denials and knows the ban.
  ghost predicate Stands(c: Config, slot: Option<Bucket>, s: Standing) {
    match slot
    case None => s == NEW_CLIENT
    case Some(b) =>
      && s.charged == Some(b.lastUpdate)
      && b.violations == |s.denials|
      && b.bannedUntil == if s.ban.Some? then s.ban.value + c.banDuration else 0.0
  }

  lemma ChargeStands(c: Config, slot: Option<Bucket>, s: Standing, now: Instant)
    requires c.Valid() && now > 0.0 && Stands(c, slot, s)
    ensures var (b, ok) := Charge(c, slot, now);
            Stands(c, Some(b), if BanLasts(c, s, now) then s
                               else if ok then s.(charged := Some(now))
                               else Denied(c, s, now))
  {}

  lemma StaleIsForgotten(c: Config, slot: Option<Bucket>, s: Standing, now: Instant)
    requires Stands(c, slot, s) && now > 0.0
    ensures slot.Some? && Stale(slot.value, now) <==> Forgotten(c, s, now)
  {}

  lemma {:induction false} RunStands(c: Config, es: seq<Event>, key: string)
    requires c.Valid() && Timed(es)
    ensures Stands(c, Lookup(Run(c, es), key), StandingOf(c, es, key))
    decreases |es|, 0
  {
    if es != [] {
      var before, e := es[..|es| - 1], es[|es| - 1];
      RunStands(c, before, key);
      if e.Request? && e.key == key {
        var s, t := StandingOf(c, before, key), Run(c, before);
        ChargeStands(c, Lookup(t, key), s, e.at);
        if !Banned(t, key, e.at) { TokenBucketIsExact(c, before, key, e.at, true); }
      }
      if e.Cleanup? { StaleIsForgotten(c, Lookup(Run(c, before), key), StandingOf(c, before, key), e.at); }
    }
  }

  lemma {:induction false} RunAccounts(c: Config, earn: Instant -> real, es: seq<Event>, key: string, forget: bool)
    requires c.Valid() && Earns(c, earn) && Timed(es) && (forget || c.RefillsWhileIdle())
    ensures Accounts(c, earn, Lookup(Run(c, es), key), Admitted(c, es, key, forget), Clock(es))
    decreases |es|, 0
  {
    if es != [] {
      var before := es[..|es| - 1];
      var e, s := es[|es| - 1], StandingOf(c, before, key);
      RunAccounts(c, earn, before, key, forget);
      RunStands(c, before, key);
      StaleIsForgotten(c, Lookup(Run(c, before), key), s, e.at);
      StepAccounts(c, earn, Run(c, before), e, key, Admitted(c, before, key, forget), Clock(before), forget,
                   Forgotten(c, s, e.at));
    }
  }

  ghost function Earnings(c: Config): (earn: Instant -> real)
    ensures Earns(c, earn)
  {
    var earn := (t: Instant) => c.rps * t;
    assert forall a, b | Gap(a, b) :: earn(b) - earn(a) == c.rps * (b - a);
    earn
  }

  lemma SlackIsRoom(c: Config, earn: Instant -> real, h: seq<Instant>, now: Instant, extra: real)
    requires Earns(c, earn)
    ensures forall i | 0 <= i < |h| :: Slack(c, earn, h, i, now) >= extra <==> Room(c, h, i, now, extra)
  {
    forall i | 0 <= i < |h| ensures Slack(c, earn, h, i, now) >= extra <==> Room(c, h, i, now, extra) {
      SlackIsRoomAt(c, earn, h, i, now, extra);
    }
  }

  lemma SlackIsRoomAt(c: Config, earn: Instant -> real, h: seq<Instant>, i: nat, now: Instant, extra: real)
    requires Earns(c, earn) && i < |h|
    ensures Slack(c, earn, h, i, now) >= extra <==> Room(c, h, i, now, extra)
  {
    Elapsed(c, earn, h[i], now);
    var earned := c.rps * (now - h[i]);
    assert Slack(c, earn, h, i, now) == c.Cap() + earned - (|h| - i) as real;
  }

  /** The bucket is an exact sliding account: a request of a client that is not banned is
      admitted iff, for every earlier admission, the admissions from it on plus this one fit
      into burst + rps * elapsed.  The history starts at the last Unban and, unless buckets
      refill while idle, at the last time the clean-up loop dropped the bucket. */
  lemma TokenBucketIsExact(c: Config, es: seq<Event>, key: string, now: Instant, forget: bool)
    requires c.Valid() && Timed(es) && now >= Clock(es) && (forget || c.RefillsWhileIdle())
    requires !Banned(Run(c, es), key, now)
    ensures var h := Admitted(c, es, key, forget);
            AllowStep(c, Run(c, es), key, now).1 <==> HasRoom(c, h, now, 1.0)
    decreases |es|, 1
  {
    var earn, h := Earnings(c), Admitted(c, es, key, forget);
    RunAccounts(c, earn, es, key, forget);
    LevelNowIsExact(c, earn, Lookup(Run(c, es), key), h, Clock(es), now);
    SlackIsRoom(c, earn, h, now, 1.0);
  }

  /** The stored token count is the largest number, capped at the burst, for which every
      earlier admission still leaves room. */
  lemma StoredTokensAreTheLevel(c: Config, es: seq<Event>, key: string, v: real)
    requires c.Valid() && Timed(es) && key in Run(c, es)
    ensures var b, h := Run(c, es)[key], Admitted(c, es, key, true);
            && 0.0 <= b.tokens
            && (v <= b.tokens <==> v <= c.Cap() && HasRoom(c, h, b.lastUpdate, v))
  {
    var earn, h := Earnings(c), Admitted(c, es, key, true);
    RunAccounts(c, earn, es, key, true);
    SlackIsRoom(c, earn, h, Run(c, es)[key].lastUpdate, v);
  }

  // ---------------------------------------------------------------------------------------
  // When a ban begins
  // ---------------------------------------------------------------------------------------

  /** A client is banned at an instant iff a denial that brought its denials, since its bucket began, it
      was unbanned or it was last banned, to the threshold lies less than the ban duration back. */
  lemma BansFollowDenials(c: Config, es: seq<Event>, key: string, now: Instant)
    requires c.Valid() && Timed(es) && now >= Clock(es)
    ensures Banned(Run(c, es), key, now) <==> BanLasts(c, StandingOf(c, es, key), now)
  {
    RunStands(c, es, key);
    ClockIsPositive(es);
  }

  // Neither unbans this client.
  predicate NoUnban(es: seq<Event>, key: string) { forall e | e in es :: !(e.Unban? && e.key == key) }

  // A run that goes on, a step at a time.
  lemma {:induction false} BanStays(c: Config, es: seq<Event>, gs: seq<Event>, key: string, began: Instant)
    requires c.Valid() && Timed(es + gs) && NoUnban(gs, key)
    requires StandingOf(c, es, key).ban == Some(began)
    requires Clock(es + gs) < began + c.banDuration
    ensures StandingOf(c, es + gs, key).ban == Some(began)
  {
    if gs == [] {
      assert es + gs == es;
    } else {
      var before, e := gs[..|gs| - 1], gs[|gs| - 1];
      assert (es + gs)[..|es + gs| - 1] == es + before && e in gs;
      BanStays(c, es, before, key, began);
    }
  }

  lemma BanBegins(c: Config, es: seq<Event>, key: string, began: Instant)
    requires c.Valid() && Timed(es + [Request(key, began)])
    requires !Banned(Run(c, es), key, began) && Banned(Run(c, es + [Request(key, began)]), key, began)
    ensures StandingOf(c, es + [Request(key, began)], key).ban == Some(began)
  {
    var fs := es + [Request(key, began)];
    assert fs[..|fs| - 1] == es;
    BansFollowDenials(c, es, key, began);
    BansFollowDenials(c, fs, key, began);
  }

  /** A client that a request gets banned is banned until the ban duration has passed, whatever requests,
      clean-up ticks and other clients' unbans come in between, unless it is unbanned itself. */
  lemma BansOutliveCleanup(c: Config, es: seq<Event>, key: string, began: Instant, gs: seq<Event>, now: Instant)
    requires c.Valid() && Timed(es + [Request(key, began)] + gs) && NoUnban(gs, key)
    requires !Banned(Run(c, es), key, began) && Banned(Run(c, es + [Request(key, began)]), key, began)
    requires Clock(es + [Request(key, began)] + gs) <= now < began + c.banDuration
    ensures Banned(Run(c, es + [Request(key, began)] + gs), key, now)
  {
    TimedFront(es + [Request(key, began)], gs);
    BanBegins(c, es, key, began);
    BanStays(c, es + [Request(key, began)], gs, key, began);
    BansFollowDenials(c, es + [Request(key, began)] + gs, key, now);
  }

  lemma {:induction false} TimedFront(es: seq<Event>, gs: seq<Event>)
    requires Timed(es + gs)
    ensures Timed(es)
  {
    if gs == [] {
      assert es + gs == es;
    } else {
      assert (es + gs)[..|es + gs| - 1] == es + gs[..|gs| - 1];
      TimedFront(es, gs[..|gs| - 1]);
    }
  }

  /** A clean-up tick drops a client's bucket iff its ban is over and its last charged request is more than
      ten minutes old. */
  lemma TicksForgetIdleClients(c: Config, es: seq<Event>, key: string, now: Instant)
    requires c.Valid() && Timed(es) && now >= Clock(es) && now > 0.0 && key in Run(c, es)
    ensures key !in Run(c, es + [Cleanup(now)]) <==> Forgotten(c, StandingOf(c, es, key), now)
  {
    assert (es + [Cleanup(now)])[..|es|] == es;
    RunStands(c, es, key);
    StaleIsForgotten(c, Lookup(Run(c, es), key), StandingOf(c, es, key), now);
  }

  lemma {:induction false} ClockIsPositive(es: seq<Event>)
    requires Timed(es)
    ensures Clock(es) >= 0.0
  {}

  // ---------------------------------------------------------------------------------------
  // The rate bound, and exactly when it survives the clean-up loop
  // ---------------------------------------------------------------------------------------

  predicate FitsWindow(c: Config, h: seq<Instant>, i: nat, j: nat)
    requires i <= j < |h|
  {
    (j - i + 1) as real <= Budget(c, h[j] - h[i])
  }

  // Every window [h[i], h[j]] holds at most burst + rps * length admissions.
  ghost predicate RateBounded(c: Config, h: seq<Instant>) {
    forall i, j | 0 <= i <= j < |h| :: FitsWindow(c, h, i, j)
  }

  lemma OneMoreFits(c: Config, h: seq<Instant>, now: Instant)
    requires c.Valid() && RateBounded(c, h)
    requires HasRoom(c, h, now, 1.0)
    ensures RateBounded(c, h + [now])
  {
    var h' := h + [now];
    forall i, j | 0 <= i <= j < |h'| ensures FitsWindow(c, h', i, j) {
      if j < |h| {
        assert FitsWindow(c, h, i, j);
      } else if i < |h| {
        assert Room(c, h, i, now, 1.0);
      }
    }
  }

  lemma AdmittedHasRoom(c: Config, es: seq<Event>, key: string, now: Instant)
    requires c.Valid() && Timed(es) && now >= Clock(es) && c.RefillsWhileIdle()
    requires AllowStep(c, Run(c, es), key, now).1
    ensures HasRoom(c, Admitted(c, es, key, false), now, 1.0)
  {
    TokenBucketIsExact(c, es, key, now, false);
  }

  lemma {:induction false} AdmissionsAreRateBounded(c: Config, es: seq<Event>, key: string)
    requires c.Valid() && Timed(es) && c.RefillsWhileIdle()
    ensures RateBounded(c, Admitted(c, es, key, false))
  {
    if es != [] {
      var before, e := es[..|es| - 1], es[|es| - 1];
      AdmissionsAreRateBounded(c, before, key);
      if e.Request? && e.key == key && AllowStep(c, Run(c, before), key, e.at).1 {
        var h := Admitted(c, before, key, false);
        AdmittedHasRoom(c, before, key, e.at);
        OneMoreFits(c, h, e.at);
      }
    }
  }

  function Repeat<T>(x: T, n: nat): (r: seq<T>)
    ensures |r| == n && forall i | 0 <= i < n :: r[i] == x
  {
    seq(n, _ => x)
  }

  // The bucket of a new client after `n` simultaneous requests.
  function Drained(c: Config, now: Instant, n: nat): Option<Bucket> {
    if n == 0 then None else Some(Bucket(c.Cap() - n as real, now, 0, 0.0))
  }

  lemma DrainOne(c: Config, now: Instant, n: nat)
    requires c.Valid() && n < c.burst && now > 0.0
    ensures Charge(c, Drained(c, now, n), now) == (Drained(c, now, n + 1).value, true)
  {
    if n > 0 {
      var b := Drained(c, now, n).value;
      Scale(now - b.lastUpdate, c.rps);
      assert Refilled(c, b, now) == c.Cap() - n as real;
    }
  }

  lemma Scale(x: real, r: real)
    requires x == 0.0
    ensures x * r == 0.0
  {}

  // A run after which `key` has made `n` requests at `now`, its first ones.
  ghost predicate Bursting(c: Config, fs: seq<Event>, key: string, now: Instant, n: nat, h: seq<Instant>) {
    && Timed(fs) && now >= Clock(fs)
    && Admitted(c, fs, key, false) == h + Repeat(now, n)
    && Lookup(Run(c, fs), key) == Drained(c, now, n)
  }

  lemma BurstOneMore(c: Config, fs: seq<Event>, gs: seq<Event>, key: string, now: Instant, n: nat, h: seq<Instant>)
    requires c.Valid() && now > 0.0 && n < c.burst && Bursting(c, fs, key, now, n, h)
    requires gs == fs + [Request(key, now)]
    ensures Bursting(c, gs, key, now, n + 1, h)
  {
    DrainOne(c, now, n);
    RequestAppended(c, fs, key, now);
    assert (h + Repeat(now, n)) + [now] == h + Repeat(now, n + 1);
  }

  lemma NoBurst(c: Config, es: seq<Event>, fs: seq<Event>, key: string, now: Instant, h: seq<Instant>)
    requires fs == es && Timed(es) && now >= Clock(es) && key !in Run(c, es) && h == Admitted(c, es, key, false)
    ensures Bursting(c, fs, key, now, 0, h)
  {
    assert h + Repeat(now, 0) == h;
  }

  lemma RepeatOneMore<T>(s: seq<T>, x: T, n: nat)
    ensures s + Repeat(x, n + 1) == s + Repeat(x, n) + [x]
  {}

  // Requests of a new client, all at one instant.
  lemma {:induction false} BurstPasses(c: Config, es: seq<Event>, key: string, now: Instant, n: nat)
    requires c.Valid() && Timed(es) && now >= Clock(es) && now > 0.0
    requires key !in Run(c, es) && n <= c.burst
    ensures Bursting(c, es + Repeat(Request(key, now), n), key, now, n, Admitted(c, es, key, false))
  {
    var h := Admitted(c, es, key, false);
    if n == 0 {
      NoBurst(c, es, es + Repeat(Request(key, now), 0), key, now, h);
    } else {
      BurstPasses(c, es, key, now, n - 1);
      RepeatOneMore(es, Request(key, now), n - 1);
      BurstOneMore(c, es + Repeat(Request(key, now), n - 1), es + Repeat(Request(key, now), n), key, now, n - 1, h);
    }
  }

  lemma RequestAppended(c: Config, es: seq<Event>, key: string, now: Instant)
    requires Timed(es) && now >= Clock(es) && now > 0.0
    ensures var fs, h := es + [Request(key, now)], Admitted(c, es, key, false);
            && Timed(fs) && Clock(fs) == now
            && Run(c, fs) == AllowStep(c, Run(c, es), key, now).0
            && Admitted(c, fs, key, false) == if AllowStep(c, Run(c, es), key, now).1 then h + [now] else h
  {
    var fs := es + [Request(key, now)];
    assert fs[..|fs| - 1] == es;
  }

  lemma TwoBurstsBreakTheBound(c: Config, start: Instant, later: Instant)
    requires c.Valid() && c.rps * (later - start) < c.Cap()
    ensures !RateBounded(c, Repeat(start, c.burst) + Repeat(later, c.burst))
  {
    var h := Repeat(start, c.burst) + Repeat(later, c.burst);
    assert h[0] == start && h[2 * c.burst - 1] == later;
    assert !FitsWindow(c, h, 0, 2 * c.burst - 1);
  }

  // One full burst at instant 1, then a clean-up tick.
  function BurstThenCleanup(c: Config, key: string, later: Instant): seq<Event>
    requires c.burst >= 0
  {
    Repeat(Request(key, 1.0), c.burst) + [Cleanup(later)]
  }

  lemma CleanupDropsTheBucket(c: Config, key: string, later: Instant)
    requires c.Valid() && later - 1.0 > IDLE_SECONDS
    ensures var es := BurstThenCleanup(c, key, later);
            Timed(es) && Clock(es) == later && key !in Run(c, es) &&
            Admitted(c, es, key, false) == Repeat(1.0, c.burst)
  {
    var first, es := Repeat(Request(key, 1.0), c.burst), BurstThenCleanup(c, key, later);
    BurstPasses(c, [], key, 1.0, c.burst);
    assert [] + first == first && es[..|es| - 1] == first;
    assert [] + Repeat(1.0, c.burst) == Repeat(1.0, c.burst);
  }

  // Clean-up hands a client a second burst `wait` seconds after the first.
  lemma CleanupForgivesAfter(c: Config, key: string, wait: real) returns (es: seq<Event>)
    requires c.Valid() && wait > IDLE_SECONDS && c.rps * wait < c.Cap()
    ensures Timed(es) && !RateBounded(c, Admitted(c, es, key, false))
  {
    var later := 1.0 + wait;
    TwoBurstsBreakTheBound(c, 1.0, later);
    var first := BurstThenCleanup(c, key, later);
    CleanupDropsTheBucket(c, key, later);
    es := first + Repeat(Request(key, later), c.burst);
    BurstPasses(c, first, key, later, c.burst);
  }

  lemma TimesQuotient(r: real, x: real)
    requires r > 0.0
    ensures r * (x / r) == x
  {}

  lemma LongerThanIdle(c: Config, full: real)
    requires c.rps > 0.0 && c.rps * full == c.Cap() && c.rps * 600.0 < c.Cap()
    ensures full > 600.0
  {
    if full < 600.0 { ProductMonotone(c.rps, 600.0, full); }
  }

  lemma CleanupForgives(c: Config, key: string)
    requires c.Valid() && !c.RefillsWhileIdle()
    ensures exists es :: Timed(es) && !RateBounded(c, Admitted(c, es, key, false))
  {
    var full := c.Cap() / c.rps;
    TimesQuotient(c.rps, c.Cap());
    LongerThanIdle(c, full);
    var wait := (600.0 + full) / 2.0;
    ProductMonotone(c.rps, full, wait);
    var es := CleanupForgivesAfter(c, key, wait);
  }

  /** Admissions counted since the last Unban obey the rate bound on every run, across bans and
      idle clean-up, exactly for the configurations whose buckets refill within ten minutes. */
  lemma RateBoundHoldsIffBucketsRefillWhileIdle(c: Config)
    requires c.Valid()
    ensures c.RefillsWhileIdle() <==>
            forall es, key :: Timed(es) ==> RateBounded(c, Admitted(c, es, key, false))
  {
    if c.RefillsWhileIdle() {
      forall es, key | Timed(es) ensures RateBounded(c, Admitted(c, es, key, false)) {
        AdmissionsAreRateBounded(c, es, key);
      }
    } else {
      CleanupForgives(c, "");
    }
  }

  // ---------------------------------------------------------------------------------------
  // A client that keeps its pace
  // ---------------------------------------------------------------------------------------

  // The instant of the last request of `key`, if any.
  function LastRequest(es: seq<Event>, key: string): seq<Instant> {
    if es == [] then []
    else match es[|es| - 1]
      case Request(k, now) => if k == key then [now] else LastRequest(es[..|es| - 1], key)
      case _ => LastRequest(es[..|es| - 1], key)
  }

  // Any two consecutive requests of `key` are at least 1/rps apart.
  ghost predicate Paced(c: Config, es: seq<Event>, key: string) {
    es == [] ||
    var before, e := es[..|es| - 1], es[|es| - 1];
    && Paced(c, before, key)
    && (e.Request? && e.key == key && LastRequest(before, key) != [] ==>
          Gain(c, e.at - LastRequest(before, key)[0]) >= 1.0)
  }

  ghost predicate InGoodStanding(t: Table, es: seq<Event>, key: string) {
    key in t ==>
      && t[key].tokens >= 0.0 && t[key].violations == 0 && t[key].bannedUntil == 0.0
      && LastRequest(es, key) == [t[key].lastUpdate]
  }

  lemma {:induction false} PacedStaysInGoodStanding(c: Config, es: seq<Event>, key: string)
    requires c.Valid() && Timed(es) && Paced(c, es, key)
    ensures InGoodStanding(Run(c, es), es, key)
  {
    if es != [] {
      PacedStaysInGoodStanding(c, es[..|es| - 1], key);
    }
  }

  lemma PacedRequestPasses(c: Config, b: Bucket, now: Instant)
    requires c.Valid() && now > 0.0 && b.tokens >= 0.0 && b.bannedUntil == 0.0 && Gain(c, now - b.lastUpdate) >= 1.0
    ensures Charge(c, Some(b), now).1
  {}

  lemma PaceOfTheLast(c: Config, es: seq<Event>, key: string, now: Instant)
    requires Timed(es + [Request(key, now)]) && Paced(c, es + [Request(key, now)], key)
    ensures Timed(es) && Paced(c, es, key) && now > 0.0
    ensures LastRequest(es, key) != [] ==> Gain(c, now - LastRequest(es, key)[0]) >= 1.0
  {
    assert (es + [Request(key, now)])[..|es|] == es;
  }

  /** A client whose requests are at least 1/rps apart is admitted every time and never banned,
      whatever other clients, operators and the clean-up loop do in between. */
  lemma PacedClientIsNeverDenied(c: Config, es: seq<Event>, key: string, now: Instant)
    requires c.Valid() && Timed(es + [Request(key, now)]) && Paced(c, es + [Request(key, now)], key)
    ensures AllowStep(c, Run(c, es), key, now).1
    ensures !Banned(Run(c, es), key, now)
  {
    PaceOfTheLast(c, es, key, now);
    PacedStaysInGoodStanding(c, es, key);
    var t := Run(c, es);
    if key in t {
      PacedRequestPasses(c, t[key], now);
    }
  }

  // ---------------------------------------------------------------------------------------
  // The limiter itself
  // ---------------------------------------------------------------------------------------

  class ClientBucket {
    var tokens: real
    var lastUpdate: Instant
    var violations: int
    var bannedUntil: Instant

    constructor (tokens: real, lastUpdate: Instant)
      ensures View() == Bucket(tokens, lastUpdate, 0, 0.0)
    {
      this.tokens, this.lastUpdate, violations, bannedUntil := tokens, lastUpdate, 0, 0.0;
    }

    ghost function View(): Bucket
      reads this
    {
      Bucket(tokens, lastUpdate, violations, bannedUntil)
    }

    method Refill(cfg: Config, now: Instant)
      requires cfg.Valid()
      modifies this`tokens, this`lastUpdate
      ensures View() == old(View()).(tokens := Refilled(cfg, old(View()), now), lastUpdate := now)
    {
      var elapsed := now - lastUpdate;
      lastUpdate := now;
      tokens := tokens + Gain(cfg, elapsed);
      if tokens > cfg.Cap() {
        tokens := cfg.Cap();
      }
    }

    // The request of a known client.
    method Take(cfg: Config, now: Instant) returns (ok: bool)
      requires cfg.Valid()
      modifies this
      ensures (View(), ok) == Charge(cfg, Some(old(View())), now)
    {
      if now < bannedUntil {
        return false;
      }
      Refill(cfg, now);
      if tokens >= 1.0 {
        tokens := tokens - 1.0;
        return true;
      }
      violations := violations + 1;
      if violations >= cfg.banThreshold {
        bannedUntil := now + cfg.banDuration;
        violations := 0;
      }
      return false;
    }
  }

  class RateLimiter {
    const enabled: bool
    const cfg: Config
    var buckets: map<string, ClientBucket>

    ghost predicate Valid()
      reads this
    {
      cfg.Valid() && forall k, l | k in buckets && l in buckets && buckets[k] == buckets[l] :: k == l
    }

    ghost function Contents(): Table
      reads this, buckets.Values
    {
      map k | k in buckets :: buckets[k].View()
    }

    constructor (enabled: bool, rps: real, burst: int, banThreshold: int, banSeconds: int)
      ensures Valid() && Contents() == map[] && this.enabled == enabled
      ensures cfg == Config(if rps <= 0.0 then 50.0 else rps, if burst <= 0 then 100 else burst,
                            if banThreshold <= 0 then 20 else banThreshold,
                            (if banSeconds <= 0 then 300 else banSeconds) as real)
    {
      this.enabled := enabled;
      cfg := Config(if rps <= 0.0 then 50.0 else rps, if burst <= 0 then 100 else burst,
                    if banThreshold <= 0 then 20 else banThreshold,
                    (if banSeconds <= 0 then 300 else banSeconds) as real);
      buckets := map[];
    }

    // `isProtected` is the answer of the process whitelist for this client.
    method Allow(clientKey: string, isProtected: bool, now: Instant) returns (ok: bool)
      requires Valid()
      modifies this`buckets, buckets.Values
      ensures Valid() && fresh(buckets.Values - old(buckets.Values))
      ensures !enabled || isProtected ==> ok && Contents() == old(Contents())
      ensures enabled && !isProtected ==>
                (Contents(), ok) == AllowStep(cfg, old(Contents()), clientKey, now)
    {
      if !enabled || isProtected {
        return true;
      }
      if clientKey !in buckets {
        var created := new ClientBucket(cfg.Cap() - 1.0, now);
        buckets := buckets[clientKey := created];
        assert Contents() == old(Contents())[clientKey := created.View()];
        return true;
      }
      var bucket := buckets[clientKey];
      ok := bucket.Take(cfg, now);
      assert Contents() == old(Contents())[clientKey := bucket.View()];
    }

    method IsBanned(clientKey: string, now: Instant) returns (banned: bool)
      requires Valid()
      ensures banned == Banned(Contents(), clientKey, now)
    {
      banned := clientKey in buckets && now < buckets[clientKey].bannedUntil;
    }

    method Unban(clientKey: string)
      requires Valid()
      modifies buckets.Values
      ensures Valid() && buckets == old(buckets)
      ensures Contents() == UnbanStep(cfg, old(Contents()), clientKey)
    {
      if clientKey in buckets {
        var bucket := buckets[clientKey];
        bucket.bannedUntil := 0.0;
        bucket.violations := 0;
        bucket.tokens := cfg.Cap();
      }
    }

    // One tick of the clean-up loop.
    method Cleanup(now: Instant)
      requires Valid()
      modifies this`buckets
      ensures Valid() && buckets.Values <= old(buckets.Values)
      ensures Contents() == CleanupStep(old(Contents()), now)
    {
      var pending := buckets.Keys;
      while pending != {}
        invariant buckets.Keys <= old(buckets).Keys && pending <= old(buckets).Keys
        invariant forall k | k in buckets :: buckets[k] == old(buckets)[k]
        invariant forall k | k in pending :: k in buckets
        invariant forall k | k in old(buckets).Keys - pending ::
                    k in buckets <==> !Stale(old(buckets)[k].View(), now)
        decreases pending
      {
        var key :| key in pending;
        pending := pending - {key};
        var bucket := buckets[key];
        if now > bucket.bannedUntil && now - bucket.lastUpdate > IDLE_SECONDS {
          buckets := buckets - {key};
        }
      }
      assert forall k | k in old(buckets).Keys - {} :: k in buckets <==> !Stale(old(buckets)[k].View(), now);
    }
  }
}
