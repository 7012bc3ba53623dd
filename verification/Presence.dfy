/** Who has a session, told from the steps alone (pkg/supervisor/session_tracker.go). */
module Presence {
  import opened Common
  import opened Text
  import opened SessionTracking

  // Under which address a user is connected, since when, and when traffic of it was last seen.
  datatype Presence = Presence(ip: string, since: int, seen: int)

  // The user is identified without regard to the case of the email.
  predicate Concerns(core: string, email: string, u: User) { core == u.0 && ToLower(email) == u.1 }

  // The name under which traffic of the session is reported.
  function NameOf(u: User, ip: string): string { u.0 + ":" + u.1 + ":" + ip }

  function Next(p: Option<Presence>, op: Op, u: User): Option<Presence> {
    match op
    case Connected(core, email, ip, now, _, _) =>
      if !Concerns(core, email, u) then p
      else if p.Some? && p.value.ip == ip then Some(p.value.(seen := now))
      else Some(Presence(ip, now, now))
    case Disconnected(core, email, _, _, _, _) => if Concerns(core, email, u) then None else p
    case Touched(core, email, ip, now) =>
      if p.Some? && NameOf(u, p.value.ip) == NameOf((core, ToLower(email)), ip) then Some(p.value.(seen := now))
      else p
    case Cleaned(now, _, alive, _) =>
      if p.None? then None
      else if NameOf(u, p.value.ip) in alive then Some(p.value.(seen := now))
      else if now - p.value.seen > 180 then None
      else p
    case Cleared => None
  }

  // A disconnect from any address ends the user's session, a connect under another address replaces it,
  // and a tick ends it after three minutes without traffic.
  function PresenceOf(ops: seq<Op>, u: User): Option<Presence> {
    if ops == [] then None else Next(PresenceOf(ops[..|ops| - 1], u), ops[|ops| - 1], u)
  }

  predicate IsPresence(s: Session, u: User, p: Presence) {
    Owner(s) == u && s.ip == p.ip && s.startedAt == p.since && s.lastSeenAt == p.seen
  }

  ghost predicate Shows(t: Tracker, u: User, p: Option<Presence>) {
    match p
    case None => forall k | k in t.sessions :: Owner(t.sessions[k]) != u
    case Some(x) => exists k :: k in t.sessions && IsPresence(t.sessions[k], u, x)
  }

  lemma KnownConnectShows(t: Tracker, op: Op, u: User, p: Option<Presence>)
    requires Inv(t) && op.Connected? && Plain(op) && Shows(t, u, p) && Key(op.core, op.email, op.ip) in t.sessions
    ensures Shows(Step(t, op), u, Next(p, op, u))
  {
    var key := Key(op.core, op.email, op.ip);
    var s := t.sessions[key];
    KeyIsInjective(op.core, op.email, op.ip, s.core, s.email, s.ip);
    RefreshShows(t, {key}, op.now, u, p);
    SeenIsRefresh(t, key, op.now);
    if p.Some? {
      var k :| k in t.sessions && IsPresence(t.sessions[k], u, p.value);
    }
  }

  lemma NewConnectShows(t: Tracker, op: Op, u: User, p: Option<Presence>)
    requires Inv(t) && op.Connected? && Possible(t, op) && Shows(t, u, p)
    requires Key(op.core, op.email, op.ip) !in t.sessions
    ensures Shows(Step(t, op), u, Next(p, op, u))
  {
    var key, t' := Key(op.core, op.email, op.ip), Step(t, op);
    CloseKeepsInv(t, op.roamed, op.now, op.nowStr);
    assert key in t'.sessions;
    if p.Some? {
      var k :| k in t.sessions && IsPresence(t.sessions[k], u, p.value);
      if !Concerns(op.core, op.email, u) { assert k in t'.sessions && t'.sessions[k] == t.sessions[k]; }
    }
  }

  lemma ConnectShows(t: Tracker, op: Op, u: User, p: Option<Presence>)
    requires Inv(t) && op.Connected? && Plain(op) && Possible(t, op) && Shows(t, u, p)
    ensures Shows(Step(t, op), u, Next(p, op, u))
  {
    if Key(op.core, op.email, op.ip) in t.sessions {
      KnownConnectShows(t, op, u, p);
    } else {
      NewConnectShows(t, op, u, p);
    }
  }

  // What traffic on some sessions does to one of them.
  function Refreshed(p: Option<Presence>, alive: set<string>, now: int, u: User): Option<Presence> {
    if p.Some? && NameOf(u, p.value.ip) in alive then Some(p.value.(seen := now)) else p
  }

  lemma RefreshShows(t: Tracker, alive: set<string>, now: int, u: User, p: Option<Presence>)
    requires Inv(t) && Shows(t, u, p)
    ensures Shows(Refresh(t, alive, now), u, Refreshed(p, alive, now, u))
  {
    if p.Some? {
      var k :| k in t.sessions && IsPresence(t.sessions[k], u, p.value);
      assert k == NameOf(u, p.value.ip);
      assert k in Refresh(t, alive, now).sessions;
    }
  }

  lemma DisconnectShows(t: Tracker, op: Op, u: User, p: Option<Presence>)
    requires Inv(t) && op.Disconnected? && Plain(op) && Possible(t, op) && Shows(t, u, p)
    ensures Shows(Step(t, op), u, Next(p, op, u))
  {
    var key := Key(op.core, op.email, op.ip);
    if key in t.sessions {
      var s := t.sessions[key];
      KeyIsInjective(op.core, op.email, op.ip, s.core, s.email, s.ip);
    }
    if p.Some? {
      var k :| k in t.sessions && IsPresence(t.sessions[k], u, p.value);
      if !Concerns(op.core, op.email, u) { assert k in Step(t, op).sessions; }
    }
  }

  // Closing the idle sessions.
  lemma ExpiryShows(r: Tracker, keys: seq<string>, now: int, nowStr: string, u: User, p: Option<Presence>)
    requires Inv(r) && Shows(r, u, p) && IsOrderOf(keys, Idle(r, now))
    ensures Shows(Close(r, keys, now, nowStr), u, if p.Some? && now - p.value.seen > 180 then None else p)
  {
    CloseKeepsInv(r, keys, now, nowStr);
    if p.Some? {
      var k :| k in r.sessions && IsPresence(r.sessions[k], u, p.value);
      assert k in Close(r, keys, now, nowStr).sessions <==> now - p.value.seen <= 180;
    }
  }

  lemma CleanShows(t: Tracker, op: Op, u: User, p: Option<Presence>)
    requires Inv(t) && op.Cleaned? && Possible(t, op) && Shows(t, u, p)
    ensures Shows(Step(t, op), u, Next(p, op, u))
  {
    var r := Refresh(t, op.alive, op.now);
    RefreshShows(t, op.alive, op.now, u, p);
    RefreshKeepsInv(t, op.alive, op.now);
    ExpiryShows(r, op.expired, op.now, op.nowStr, u, Refreshed(p, op.alive, op.now, u));
  }

  lemma StepShows(t: Tracker, op: Op, u: User, p: Option<Presence>)
    requires Inv(t) && Plain(op) && Possible(t, op) && Shows(t, u, p)
    ensures Shows(Step(t, op), u, Next(p, op, u))
  {
    match op
    case Connected(_, _, _, _, _, _) => ConnectShows(t, op, u, p);
    case Disconnected(_, _, _, _, _, _) => DisconnectShows(t, op, u, p);
    case Touched(core, email, ip, now) => TouchShows(t, op, u, p);
    case Cleaned(_, _, _, _) => CleanShows(t, op, u, p);
    case Cleared =>
  }

  lemma TouchShows(t: Tracker, op: Op, u: User, p: Option<Presence>)
    requires Inv(t) && op.Touched? && Shows(t, u, p)
    ensures Shows(Step(t, op), u, Next(p, op, u))
  {
    var key := Key(op.core, op.email, op.ip);
    SeenIsRefresh(t, key, op.now);
    RefreshShows(t, {key}, op.now, u, p);
  }

  /** In every reachable state a user has a session iff the steps say so, and it is under the address, from
      the instant and last seen when they say. */
  lemma {:induction false} SessionsFollowSteps(ops: seq<Op>, u: User)
    requires Run(ops)
    ensures Shows(After(ops), u, PresenceOf(ops, u))
  {
    if ops != [] {
      var before := ops[..|ops| - 1];
      EveryRunKeepsInv(before);
      SessionsFollowSteps(before, u);
      StepShows(After(before), ops[|ops| - 1], u, PresenceOf(before, u));
    }
  }
}
