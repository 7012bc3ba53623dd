/** Client sessions and their connect/disconnect history (pkg/supervisor/session_tracker.go).

    The tracker keeps a map of active sessions and a bounded list of recent events.  The model
    adds the full event history since the last Clear and relates all three.  Durations are
    kept in seconds; their localized text is not modelled. */
module SessionTracking {
  import opened Text

  datatype Session = Session(email: string, ip: string, core: string, startedAt: int, lastSeenAt: int,
                             connectedAt: string)

  datatype Action = Connect | Disconnect

  datatype Event = Event(action: Action, core: string, email: string, ip: string, timestamp: int,
                         timeStr: string, duration: int)

  datatype Tracker = Tracker(sessions: map<string, Session>, history: seq<Event>)

  const EMPTY := Tracker(map[], [])
  const IDLE_LIMIT := 180

  // The user a session or an event is about: its core and its email in lower case.
  type User = (string, string)

  function UserOf(core: string, email: string): User { (core, ToLower(email)) }

  function Owner(s: Session): User { UserOf(s.core, s.email) }

  function Subject(e: Event): User { UserOf(e.core, e.email) }

  function Key(core: string, email: string, ip: string): string {
    core + ":" + ToLower(email) + ":" + ip
  }

  // ---------------------------------------------------------------------------------------
  // Steps.  Where the code walks a map, the order it met the entries in is a parameter.
  // ---------------------------------------------------------------------------------------

  function Closing(s: Session, core: string, now: int, nowStr: string): Event {
    Event(Disconnect, core, s.email, s.ip, now, nowStr, now - s.startedAt)
  }

  // Ends the sessions with these keys, in order.
  function Close(t: Tracker, keys: seq<string>, now: int, nowStr: string): Tracker {
    if keys == [] then t
    else
      var t', k := Close(t, keys[..|keys| - 1], now, nowStr), keys[|keys| - 1];
      if k !in t'.sessions then t'
      else
        var s := t'.sessions[k];
        Tracker(t'.sessions - {k}, t'.history + [Closing(s, s.core, now, nowStr)])
  }

  function Seen(t: Tracker, key: string, now: int): Tracker {
    if key in t.sessions then t.(sessions := t.sessions[key := t.sessions[key].(lastSeenAt := now)]) else t
  }

  // Sessions of the same user under another address.
  function Elsewhere(t: Tracker, core: string, email: string, ip: string): set<string> {
    set k | k in t.sessions && Owner(t.sessions[k]) == UserOf(core, email) && t.sessions[k].ip != ip
  }

  function ConnectStep(t: Tracker, core: string, email: string, ip: string, now: int, nowStr: string,
                       roamed: seq<string>): Tracker {
    var key := Key(core, email, ip);
    if key in t.sessions then Seen(t, key, now)
    else
      var t' := Close(t, roamed, now, nowStr);
      Tracker(t'.sessions[key := Session(email, ip, core, now, now, nowStr)],
              t'.history + [Event(Connect, core, email, ip, now, nowStr, 0)])
  }

  function Candidates(t: Tracker, core: string, email: string, ip: string): set<string> {
    if Key(core, email, ip) in t.sessions then {Key(core, email, ip)}
    else set k | k in t.sessions && Owner(t.sessions[k]) == UserOf(core, email)
  }

  function DisconnectStep(t: Tracker, core: string, now: int, nowStr: string, key: string): Tracker {
    if key !in t.sessions then t
    else Tracker(t.sessions - {key}, t.history + [Closing(t.sessions[key], core, now, nowStr)])
  }

  // The sessions in `alive` carried traffic.
  function Refresh(t: Tracker, alive: set<string>, now: int): Tracker {
    t.(sessions := map k | k in t.sessions ::
         if k in alive then t.sessions[k].(lastSeenAt := now) else t.sessions[k])
  }

  function Idle(t: Tracker, now: int): set<string> {
    set k | k in t.sessions && now - t.sessions[k].lastSeenAt > IDLE_LIMIT
  }

  datatype Op =
    | Connected(core: string, email: string, ip: string, now: int, nowStr: string, roamed: seq<string>)
    | Disconnected(core: string, email: string, ip: string, now: int, nowStr: string, key: string)
    | Touched(core: string, email: string, ip: string, now: int)
    | Cleaned(now: int, nowStr: string, alive: set<string>, expired: seq<string>)
    | Cleared

  function Step(t: Tracker, op: Op): Tracker {
    match op
    case Connected(core, email, ip, now, nowStr, roamed) => ConnectStep(t, core, email, ip, now, nowStr, roamed)
    case Disconnected(core, _, _, now, nowStr, key) => DisconnectStep(t, core, now, nowStr, key)
    case Touched(core, email, ip, now) => Seen(t, Key(core, email, ip), now)
    case Cleaned(now, nowStr, alive, expired) => Close(Refresh(t, alive, now), expired, now, nowStr)
    case Cleared => EMPTY
  }

  ghost predicate IsOrderOf(keys: seq<string>, s: set<string>) {
    && (forall k :: k in keys <==> k in s)
    && (forall i, j | 0 <= i < j < |keys| :: keys[i] != keys[j])
  }

  // The choices recorded in the step are ones the map walks allow.
  ghost predicate Possible(t: Tracker, op: Op) {
    match op
    case Connected(core, email, ip, _, _, roamed) =>
      Key(core, email, ip) in t.sessions || IsOrderOf(roamed, Elsewhere(t, core, email, ip))
    case Disconnected(core, email, ip, _, _, key) =>
      key in Candidates(t, core, email, ip) || (Candidates(t, core, email, ip) == {} && key !in t.sessions)
    case Touched(_, _, _, _) => true
    case Cleaned(now, _, alive, expired) => IsOrderOf(expired, Idle(Refresh(t, alive, now), now))
    case Cleared => true
  }

  // Cores and emails contain no colon, so that keys are unambiguous.
  predicate Plain(op: Op) {
    match op
    case Connected(core, email, _, _, _, _) => ':' !in core && ':' !in email
    case Disconnected(core, email, _, _, _, _) => ':' !in core && ':' !in email
    case _ => true
  }

  // ---------------------------------------------------------------------------------------
  // Replaying the history
  // ---------------------------------------------------------------------------------------

  datatype Active = Active(email: string, ip: string, startedAt: int)

  function Apply(m: map<User, Active>, e: Event): map<User, Active> {
    match e.action
    case Connect => m[Subject(e) := Active(e.email, e.ip, e.timestamp)]
    case Disconnect => m - {Subject(e)}
  }

  function Replay(h: seq<Event>): map<User, Active> {
    if h == [] then map[] else Apply(Replay(h[..|h| - 1]), h[|h| - 1])
  }

  ghost function Owners(sessions: map<string, Session>): set<User> {
    set k | k in sessions :: Owner(sessions[k])
  }

  function View(s: Session): Active { Active(s.email, s.ip, s.startedAt) }

  // `m` lists exactly the active sessions.
  ghost predicate Lists(m: map<User, Active>, sessions: map<string, Session>) {
    && m.Keys == Owners(sessions)
    && (forall k | k in sessions :: Owner(sessions[k]) in m && m[Owner(sessions[k])] == View(sessions[k]))
  }

  // Each event fits the state the earlier ones leave behind.
  ghost predicate Fits(m: map<User, Active>, e: Event) {
    match e.action
    case Connect => Subject(e) !in m && e.duration == 0
    case Disconnect =>
      Subject(e) in m && m[Subject(e)] == Active(e.email, e.ip, e.timestamp - e.duration)
  }

  ghost predicate Coherent(h: seq<Event>) {
    h == [] || (Coherent(h[..|h| - 1]) && Fits(Replay(h[..|h| - 1]), h[|h| - 1]))
  }

  // ---------------------------------------------------------------------------------------
  // The invariant
  // ---------------------------------------------------------------------------------------

  ghost predicate KeysMatch(sessions: map<string, Session>) {
    forall k | k in sessions :: k == Key(sessions[k].core, sessions[k].email, sessions[k].ip)
  }

  // A user has at most one session per core.
  ghost predicate OnePerUser(sessions: map<string, Session>) {
    forall k, l | k in sessions && l in sessions && Owner(sessions[k]) == Owner(sessions[l]) :: k == l
  }

  ghost predicate AllPlain(sessions: map<string, Session>) {
    forall k | k in sessions :: ':' !in sessions[k].core && ':' !in sessions[k].email
  }

  ghost predicate Inv(t: Tracker) {
    && KeysMatch(t.sessions) && OnePerUser(t.sessions) && AllPlain(t.sessions)
    && Lists(Replay(t.history), t.sessions) && Coherent(t.history)
  }

  lemma PrefixBeforeColon(a: string, x: string, b: string, y: string)
    requires ':' !in a && ':' !in b && a + ":" + x == b + ":" + y
    ensures a == b && x == y
  {
    var s := a + ":" + x;
    assert s[|a|] == ':' && s[|b|] == ':';
    assert forall i | 0 <= i < |a| :: s[i] == a[i] && s[i] in a;
    assert forall i | 0 <= i < |b| :: s[i] == b[i] && s[i] in b;
    assert |a| == |b|;
    assert a == s[..|a|] == b && x == s[|a| + 1..] == y;
  }

  lemma LowerKeepsColonsOut(s: string)
    requires ':' !in s
    ensures ':' !in ToLower(s)
  {}

  // Two keys agree only for the same user and address.
  lemma KeyIsInjective(core: string, email: string, ip: string, core': string, email': string, ip': string)
    requires ':' !in core && ':' !in core' && ':' !in email && ':' !in email'
    requires Key(core, email, ip) == Key(core', email', ip')
    ensures UserOf(core, email) == UserOf(core', email') && ip == ip'
  {
    LowerKeepsColonsOut(email);
    LowerKeepsColonsOut(email');
    var rest, rest' := ToLower(email) + ":" + ip, ToLower(email') + ":" + ip';
    assert Key(core, email, ip) == core + ":" + rest && Key(core', email', ip') == core' + ":" + rest';
    PrefixBeforeColon(core, rest, core', rest');
    PrefixBeforeColon(ToLower(email), ip, ToLower(email'), ip');
  }

  lemma ReplayOneMore(h: seq<Event>, e: Event)
    ensures Replay(h + [e]) == Apply(Replay(h), e)
    ensures Coherent(h + [e]) <==> Coherent(h) && Fits(Replay(h), e)
  {
    assert (h + [e])[..|h|] == h;
  }

  // Ending one session and recording it.
  lemma CloseOne(t: Tracker, k: string, e: Event)
    requires Inv(t) && k in t.sessions
    requires e.action.Disconnect? && e == Closing(t.sessions[k], e.core, e.timestamp, e.timeStr)
    requires e.core == t.sessions[k].core
    ensures Inv(Tracker(t.sessions - {k}, t.history + [e]))
    ensures Owners(t.sessions - {k}) == Owners(t.sessions) - {Owner(t.sessions[k])}
  {
    ReplayOneMore(t.history, e);
    var s, rest := t.sessions, t.sessions - {k};
    forall u | u in Owners(s) - {Owner(s[k])} ensures u in Owners(rest) {
      var l :| l in s && Owner(s[l]) == u;
      assert l in rest && Owner(rest[l]) == u;
    }
  }

  lemma CloseKeyed(t: Tracker, k: string, now: int, nowStr: string)
    requires Inv(t) && k in t.sessions
    ensures Inv(Tracker(t.sessions - {k}, t.history + [Closing(t.sessions[k], t.sessions[k].core, now, nowStr)]))
  {
    CloseOne(t, k, Closing(t.sessions[k], t.sessions[k].core, now, nowStr));
  }

  lemma WithoutOneMore(sessions: map<string, Session>, before: seq<string>, k: string, keys: seq<string>)
    requires keys == before + [k]
    ensures sessions - (set x | x in keys) == (sessions - (set x | x in before)) - {k}
  {
    assert (set x | x in keys) == (set x | x in before) + {k};
  }

  ghost predicate ClosedDownTo(t: Tracker, keys: seq<string>, t': Tracker) {
    Inv(t') && t'.sessions == t.sessions - (set k | k in keys)
  }

  lemma CloseOneMore(t: Tracker, before: seq<string>, k: string, keys: seq<string>, now: int, nowStr: string)
    requires keys == before + [k] && ClosedDownTo(t, before, Close(t, before, now, nowStr))
    ensures ClosedDownTo(t, keys, Close(t, keys, now, nowStr))
  {
    assert keys[..|keys| - 1] == before;
    var t' := Close(t, before, now, nowStr);
    if k in t'.sessions {
      CloseKeyed(t', k, now, nowStr);
    }
    WithoutOneMore(t.sessions, before, k, keys);
  }

  lemma {:induction false} CloseKeepsInv(t: Tracker, keys: seq<string>, now: int, nowStr: string)
    requires Inv(t)
    ensures ClosedDownTo(t, keys, Close(t, keys, now, nowStr))
  {
    if keys != [] {
      CloseKeepsInv(t, keys[..|keys| - 1], now, nowStr);
      CloseOneMore(t, keys[..|keys| - 1], keys[|keys| - 1], keys, now, nowStr);
    }
  }

  lemma OwnersOfOneMore(sessions: map<string, Session>, key: string, s: Session)
    requires key !in sessions
    ensures Owners(sessions[key := s]) == Owners(sessions) + {Owner(s)}
  {
    var sessions' := sessions[key := s];
    assert key in sessions' && Owner(sessions'[key]) == Owner(s);
    forall u | u in Owners(sessions) ensures u in Owners(sessions') {
      var k :| k in sessions && Owner(sessions[k]) == u;
      assert k in sessions' && sessions'[k] == sessions[k];
    }
  }

  lemma KeyOfNewUserIsFree(t: Tracker, core: string, email: string, ip: string)
    requires Inv(t) && ':' !in core && ':' !in email && UserOf(core, email) !in Owners(t.sessions)
    ensures Key(core, email, ip) !in t.sessions
  {
    var key := Key(core, email, ip);
    if key in t.sessions {
      var o := t.sessions[key];
      KeyIsInjective(core, email, ip, o.core, o.email, o.ip);
    }
  }

  // A user without a session starts one.
  lemma OpenOne(t: Tracker, core: string, email: string, ip: string, now: int, nowStr: string)
    requires Inv(t) && ':' !in core && ':' !in email && UserOf(core, email) !in Owners(t.sessions)
    ensures Inv(Tracker(t.sessions[Key(core, email, ip) := Session(email, ip, core, now, now, nowStr)],
                        t.history + [Event(Connect, core, email, ip, now, nowStr, 0)]))
  {
    var key, s := Key(core, email, ip), Session(email, ip, core, now, now, nowStr);
    var e := Event(Connect, core, email, ip, now, nowStr, 0);
    KeyOfNewUserIsFree(t, core, email, ip);
    OwnersOfOneMore(t.sessions, key, s);
    ReplayOneMore(t.history, e);
    var sessions, m := t.sessions[key := s], Replay(t.history + [e]);
    assert Lists(m, sessions) by {
      forall k | k in sessions ensures Owner(sessions[k]) in m && m[Owner(sessions[k])] == View(sessions[k]) {
        if k != key { assert Owner(sessions[k]) in Owners(t.sessions); }
      }
    }
    assert OnePerUser(sessions) by {
      forall k | k in t.sessions ensures Owner(t.sessions[k]) != Owner(s) {
        assert Owner(t.sessions[k]) in Owners(t.sessions);
      }
    }
  }

  lemma SeenIsRefresh(t: Tracker, key: string, now: int)
    ensures Seen(t, key, now) == Refresh(t, {key}, now)
  {
    assert Seen(t, key, now).sessions == Refresh(t, {key}, now).sessions;
  }

  lemma SeenKeepsInv(t: Tracker, key: string, now: int)
    requires Inv(t)
    ensures Inv(Seen(t, key, now))
  {
    SeenIsRefresh(t, key, now);
    RefreshKeepsInv(t, {key}, now);
  }

  lemma RefreshKeepsInv(t: Tracker, alive: set<string>, now: int)
    requires Inv(t)
    ensures Inv(Refresh(t, alive, now))
  {
    var s, s' := t.sessions, Refresh(t, alive, now).sessions;
    assert s.Keys == s'.Keys && forall k | k in s :: Owner(s[k]) == Owner(s'[k]) && View(s[k]) == View(s'[k]);
    assert Owners(s') == Owners(s) by {
      forall u | u in Owners(s) ensures u in Owners(s') {
        var k :| k in s && Owner(s[k]) == u;
        assert k in s' && Owner(s'[k]) == u;
      }
    }
  }

  lemma ConnectKeepsInv(t: Tracker, core: string, email: string, ip: string, now: int, nowStr: string,
                        roamed: seq<string>)
    requires Inv(t) && ':' !in core && ':' !in email
    requires Key(core, email, ip) in t.sessions || IsOrderOf(roamed, Elsewhere(t, core, email, ip))
    ensures Inv(ConnectStep(t, core, email, ip, now, nowStr, roamed))
  {
    if Key(core, email, ip) in t.sessions {
      SeenKeepsInv(t, Key(core, email, ip), now);
    } else {
      CloseKeepsInv(t, roamed, now, nowStr);
      var t' := Close(t, roamed, now, nowStr);
      forall k | k in t'.sessions ensures Owner(t'.sessions[k]) != UserOf(core, email) {}
      OpenOne(t', core, email, ip, now, nowStr);
    }
  }

  lemma DisconnectKeepsInv(t: Tracker, core: string, email: string, ip: string, now: int, nowStr: string, key: string)
    requires Inv(t) && Plain(Disconnected(core, email, ip, now, nowStr, key))
    requires Possible(t, Disconnected(core, email, ip, now, nowStr, key))
    ensures Inv(DisconnectStep(t, core, now, nowStr, key))
  {
    if key in t.sessions {
      var s := t.sessions[key];
      if key == Key(core, email, ip) {
        KeyIsInjective(core, email, ip, s.core, s.email, s.ip);
      }
      CloseOne(t, key, Closing(s, core, now, nowStr));
    }
  }

  lemma StepKeepsInv(t: Tracker, op: Op)
    requires Inv(t) && Plain(op) && Possible(t, op)
    ensures Inv(Step(t, op))
  {
    match op
    case Connected(core, email, ip, now, nowStr, roamed) => ConnectKeepsInv(t, core, email, ip, now, nowStr, roamed);
    case Disconnected(core, email, ip, now, nowStr, key) => DisconnectKeepsInv(t, core, email, ip, now, nowStr, key);
    case Touched(core, email, ip, now) => SeenKeepsInv(t, Key(core, email, ip), now);
    case Cleaned(now, nowStr, alive, expired) =>
      RefreshKeepsInv(t, alive, now);
      CloseKeepsInv(Refresh(t, alive, now), expired, now, nowStr);
    case Cleared =>
  }

  // ---------------------------------------------------------------------------------------
  // Runs
  // ---------------------------------------------------------------------------------------

  function After(ops: seq<Op>): Tracker {
    if ops == [] then EMPTY else Step(After(ops[..|ops| - 1]), ops[|ops| - 1])
  }

  ghost predicate Run(ops: seq<Op>) {
    ops == [] ||
    (Run(ops[..|ops| - 1]) && Plain(ops[|ops| - 1]) && Possible(After(ops[..|ops| - 1]), ops[|ops| - 1]))
  }

  /** In every reachable state a user has one session per core at most, each session sits under
      its own key, and replaying the history rebuilds exactly the active sessions. */
  lemma {:induction false} EveryRunKeepsInv(ops: seq<Op>)
    requires Run(ops)
    ensures Inv(After(ops))
  {
    if ops != [] {
      EveryRunKeepsInv(ops[..|ops| - 1]);
      StepKeepsInv(After(ops[..|ops| - 1]), ops[|ops| - 1]);
    }
  }

  /** The map walks are deterministic in reachable states: at most one session roams, and the
      fallback of a disconnect has at most one candidate. */
  lemma WalksAreDeterministic(ops: seq<Op>, core: string, email: string, ip: string)
    requires Run(ops)
    ensures |Elsewhere(After(ops), core, email, ip)| <= 1
    ensures |Candidates(After(ops), core, email, ip)| <= 1
  {
    EveryRunKeepsInv(ops);
    AtMostOne(Elsewhere(After(ops), core, email, ip));
    AtMostOne(Candidates(After(ops), core, email, ip));
  }

  lemma AtMostOne(s: set<string>)
    requires forall k, l | k in s && l in s :: k == l
    ensures |s| <= 1
  {
    if k :| k in s { assert s == {k}; }
  }

  // What the last event about a user says of it.
  lemma {:induction false} LastEventDecides(h: seq<Event>, u: User, i: nat)
    requires i < |h| && Subject(h[i]) == u && forall k | i < k < |h| :: Subject(h[k]) != u
    ensures u in Replay(h) <==> h[i].action.Connect?
    ensures h[i].action.Connect? ==> Replay(h)[u] == Active(h[i].email, h[i].ip, h[i].timestamp)
  {
    if i < |h| - 1 {
      LastEventDecides(h[..|h| - 1], u, i);
    }
  }

  lemma {:induction false} NoEventNoSession(h: seq<Event>, u: User)
    requires forall k | 0 <= k < |h| :: Subject(h[k]) != u
    ensures u !in Replay(h)
  {
    if h != [] { NoEventNoSession(h[..|h| - 1], u); }
  }

  lemma {:induction false} EveryEventFits(h: seq<Event>, j: nat)
    requires Coherent(h) && j < |h|
    ensures Fits(Replay(h[..j]), h[j])
  {
    if j < |h| - 1 {
      EveryEventFits(h[..|h| - 1], j);
      assert h[..|h| - 1][..j] == h[..j];
    }
  }

  /** Per user the history alternates: the first event is a connect, neighbouring events have
      different actions, and a disconnect repeats the email and address of its connect and lasts
      from it. */
  lemma HistoryAlternates(ops: seq<Op>, j: nat)
    requires Run(ops) && j < |After(ops).history|
    ensures var h := After(ops).history;
            && ((forall k | 0 <= k < j :: Subject(h[k]) != Subject(h[j])) ==> h[j].action.Connect?)
            && (h[j].action.Connect? ==> h[j].duration == 0)
            && (forall i | 0 <= i < j && Subject(h[i]) == Subject(h[j]) &&
                           (forall k | i < k < j :: Subject(h[k]) != Subject(h[j])) ::
                  && h[i].action != h[j].action
                  && (h[j].action.Disconnect? ==>
                        h[j].email == h[i].email && h[j].ip == h[i].ip &&
                        h[j].duration == h[j].timestamp - h[i].timestamp))
  {
    EveryRunKeepsInv(ops);
    var h := After(ops).history;
    EveryEventFits(h, j);
    var before, u := h[..j], Subject(h[j]);
    if forall k | 0 <= k < j :: Subject(h[k]) != u { NoEventNoSession(before, u); }
    forall i | 0 <= i < j && Subject(h[i]) == u && (forall k | i < k < j :: Subject(h[k]) != u)
      ensures h[i].action != h[j].action
      ensures h[j].action.Disconnect? ==>
                h[j].email == h[i].email && h[j].ip == h[i].ip && h[j].duration == h[j].timestamp - h[i].timestamp
    {
      LastEventDecides(before, u, i);
    }
  }

  // ---------------------------------------------------------------------------------------
  // The bounded list of recent events
  // ---------------------------------------------------------------------------------------

  // The last `n` events.
  function Tail(h: seq<Event>, n: nat): seq<Event> {
    if |h| <= n then h else h[|h| - n..]
  }

  /** Truncating after every few events keeps the same window as truncating the full history. */
  lemma TailOfTail(h: seq<Event>, more: seq<Event>, n: nat)
    ensures Tail(Tail(h, n) + more, n) == Tail(h + more, n)
    ensures |Tail(h, n)| == (if |h| < n then |h| else n) && Tail(h, n) == h[|h| - |Tail(h, n)|..]
  {}

  function Since(h: seq<Event>, since: int): seq<Event> {
    if h == [] then []
    else
      var rest := Since(h[..|h| - 1], since);
      if since <= 0 || h[|h| - 1].timestamp >= since then rest + [h[|h| - 1]] else rest
  }

  ghost predicate Chronological(h: seq<Event>) {
    forall i, j | 0 <= i <= j < |h| :: h[i].timestamp <= h[j].timestamp
  }

  // From `k` on the events are no older than `since`; before it they are.
  ghost predicate Cuts(h: seq<Event>, k: nat, since: int) {
    && k <= |h| && (k > 0 ==> since > 0)
    && (forall i | 0 <= i < k :: h[i].timestamp < since)
    && (forall i | k <= i < |h| :: since <= 0 || h[i].timestamp >= since)
  }

  lemma LastIsKept(h: seq<Event>, k: nat, since: int)
    requires Cuts(h, k, since)
    ensures k < |h| && since > 0 ==> h[|h| - 1].timestamp >= since
  {}

  lemma LastTwo(h: seq<Event>)
    requires Chronological(h)
    ensures |h| > 1 ==> h[..|h| - 1][|h| - 2].timestamp <= h[|h| - 1].timestamp
  {}

  lemma SinceUnfolds(h: seq<Event>, since: int)
    requires h != []
    ensures var last := h[|h| - 1];
            Since(h, since) ==
            Since(h[..|h| - 1], since) + (if since <= 0 || last.timestamp >= since then [last] else [])
  {}

  // The cut of the front is that of the whole list, or everything is cut.
  lemma CutMoves(h: seq<Event>, k: nat, since: int) returns (m: nat)
    requires h != [] && Chronological(h) && Cuts(h[..|h| - 1], k, since)
    requires Since(h[..|h| - 1], since) == h[..|h| - 1][k..]
    ensures Cuts(h, m, since) && Since(h, since) == h[m..]
  {
    var n := |h| - 1;
    SinceUnfolds(h, since);
    LastIsKept(h[..n], k, since);
    LastTwo(h);
    if since <= 0 || h[n].timestamp >= since {
      m := k;
      assert h[k..] == h[..n][k..] + [h[n]];
      CutsOneMore(h, k, since);
    } else {
      m := |h|;
      NothingIsCut(h, since);
    }
  }

  lemma {:induction false} SinceCuts(h: seq<Event>, since: int) returns (k: nat)
    requires Chronological(h)
    ensures Cuts(h, k, since) && Since(h, since) == h[k..]
  {
    k := 0;
    if h != [] {
      k := SinceCuts(h[..|h| - 1], since);
      k := CutMoves(h, k, since);
    }
  }

  lemma CutsOneMore(h: seq<Event>, k: nat, since: int)
    requires h != [] && Cuts(h[..|h| - 1], k, since) && (since <= 0 || h[|h| - 1].timestamp >= since)
    ensures Cuts(h, k, since)
  {
    var before := h[..|h| - 1];
    forall i | 0 <= i < k ensures h[i].timestamp < since { assert h[i] == before[i]; }
    forall i | k <= i < |h| ensures since <= 0 || h[i].timestamp >= since {
      if i < |h| - 1 { assert h[i] == before[i]; }
    }
  }

  lemma NothingIsCut(h: seq<Event>, since: int)
    requires h != [] && Cuts(h[..|h| - 1], |h| - 1, since) && since > 0 && h[|h| - 1].timestamp < since
    ensures Cuts(h, |h|, since)
  {
    forall i | 0 <= i < |h| - 1 ensures h[i].timestamp < since { assert h[i] == h[..|h| - 1][i]; }
  }

  /** On a history in time order, the events since an instant are its end, without gaps. */
  lemma SinceIsASuffix(h: seq<Event>, since: int)
    requires Chronological(h)
    ensures |Since(h, since)| <= |h| && Since(h, since) == h[|h| - |Since(h, since)|..]
    ensures Cuts(h, |h| - |Since(h, since)|, since)
  {
    var k := SinceCuts(h, since);
  }

  function Latest(ops: seq<Op>): int {
    if ops == [] then 0
    else match ops[|ops| - 1]
      case Connected(_, _, _, now, _, _) => now
      case Disconnected(_, _, _, now, _, _) => now
      case Touched(_, _, _, now) => now
      case Cleaned(now, _, _, _) => now
      case Cleared => Latest(ops[..|ops| - 1])
  }

  // The clock readings of the steps never go back.
  ghost predicate Timed(ops: seq<Op>) {
    ops == [] || (Timed(ops[..|ops| - 1]) && Latest(ops) >= Latest(ops[..|ops| - 1]))
  }

  ghost predicate UpTo(h: seq<Event>, now: int) {
    Chronological(h) && forall e | e in h :: e.timestamp <= now
  }

  lemma {:induction false} CloseIsChronological(t: Tracker, keys: seq<string>, now: int, nowStr: string)
    requires UpTo(t.history, now)
    ensures UpTo(Close(t, keys, now, nowStr).history, now)
  {
    if keys != [] { CloseIsChronological(t, keys[..|keys| - 1], now, nowStr); }
  }

  lemma {:induction false} HistoryIsChronological(ops: seq<Op>)
    requires Timed(ops)
    ensures UpTo(After(ops).history, Latest(ops))
  {
    if ops != [] {
      var before := ops[..|ops| - 1];
      HistoryIsChronological(before);
      var t := After(before);
      match ops[|ops| - 1]
      case Connected(_, _, _, now, nowStr, roamed) => CloseIsChronological(t, roamed, now, nowStr);
      case Cleaned(now, nowStr, alive, expired) => CloseIsChronological(Refresh(t, alive, now), expired, now, nowStr);
      case _ =>
    }
  }

  // ---------------------------------------------------------------------------------------
  // The tracker itself
  // ---------------------------------------------------------------------------------------

  // An entry of the unified traffic report keeps sessions with this email alive.
  predicate ReportedAs(traffic: map<string, bool>, email: string, online: bool) {
    exists em | em in traffic :: ToLower(em) == ToLower(email) && traffic[em] == online
  }

  class SessionTracker {
    var sessions: map<string, Session>
    var events: seq<Event>
    const maxEvents: nat
    ghost var history: seq<Event>

    ghost predicate Valid()
      reads this
    {
      events == Tail(history, maxEvents)
    }

    ghost function Contents(): Tracker
      reads this
    {
      Tracker(sessions, history)
    }

    constructor (maxEvents: nat)
      ensures Valid() && Contents() == EMPTY && this.maxEvents == maxEvents
    {
      this.maxEvents := maxEvents;
      sessions, events, history := map[], [], [];
    }

    method Truncate()
      modifies this`events
      ensures events == Tail(old(events), maxEvents)
    {
      if |events| > maxEvents {
        events := events[|events| - maxEvents..];
      }
    }

    method RegisterConnect(core: string, email: string, ip: string, now: int, nowStr: string)
      returns (roamed: seq<string>)
      requires Valid()
      modifies this
      ensures Valid()
      ensures Key(core, email, ip) in old(sessions) || IsOrderOf(roamed, Elsewhere(old(Contents()), core, email, ip))
      ensures Contents() == ConnectStep(old(Contents()), core, email, ip, now, nowStr, roamed)
    {
      var key := Key(core, email, ip);
      roamed := [];
      if key in sessions {
        sessions := sessions[key := sessions[key].(lastSeenAt := now)];
        return;
      }
      // Close previous sessions of the same user under other addresses.
      var pending := sessions.Keys;
      ghost var was := Contents();
      while pending != {}
        invariant pending <= sessions.Keys
        invariant forall k | k in pending :: k in was.sessions && sessions[k] == was.sessions[k] && k !in roamed
        invariant forall k :: k in roamed <==> k in Elsewhere(was, core, email, ip) && k !in pending
        invariant forall i, j | 0 <= i < j < |roamed| :: roamed[i] != roamed[j]
        invariant Contents() == Close(was, roamed, now, nowStr)
        invariant Tail(events, maxEvents) == Tail(history, maxEvents)
        decreases pending
      {
        var k :| k in pending;
        pending := pending - {k};
        var s := sessions[k];
        if s.core == core && ToLower(s.email) == ToLower(email) && s.ip != ip {
          var event := Closing(s, s.core, now, nowStr);
          Record(event);
          assert (roamed + [k])[..|roamed|] == roamed;
          sessions := sessions - {k};
          roamed := roamed + [k];
        }
      }
      sessions := sessions[key := Session(email, ip, core, now, now, nowStr)];
      Record(Event(Connect, core, email, ip, now, nowStr, 0));
      Truncate();
    }

    // Appends an event; the caller truncates the list afterwards.
    method Record(event: Event)
      requires Tail(events, maxEvents) == Tail(history, maxEvents)
      modifies this`events, this`history
      ensures events == old(events) + [event] && history == old(history) + [event]
      ensures Tail(events, maxEvents) == Tail(history, maxEvents)
    {
      TailOfTail(events, [event], maxEvents);
      TailOfTail(history, [event], maxEvents);
      events, history := events + [event], history + [event];
    }

    // `key` is the session that was ended; when none was, it is not a key of the map.
    method RegisterDisconnect(core: string, email: string, ip: string, now: int, nowStr: string)
      returns (key: string)
      requires Valid()
      modifies this
      ensures Valid() && Possible(old(Contents()), Disconnected(core, email, ip, now, nowStr, key))
      ensures Contents() == DisconnectStep(old(Contents()), core, now, nowStr, key)
    {
      key := Key(core, email, ip);
      var found := key in sessions;
      if !found {
        var pending := sessions.Keys;
        while pending != {} && !found
          invariant pending <= sessions.Keys
          invariant !found ==> key == Key(core, email, ip)
          invariant !found ==> forall k | k in sessions && k !in pending :: Owner(sessions[k]) != UserOf(core, email)
          invariant found ==> key in sessions && Owner(sessions[key]) == UserOf(core, email)
          decreases pending
        {
          var k :| k in pending;
          pending := pending - {k};
          if sessions[k].core == core && ToLower(sessions[k].email) == ToLower(email) {
            key := k;
            found := true;
          }
        }
      }
      if found {
        var event := Closing(sessions[key], core, now, nowStr);
        Record(event);
        Truncate();
        sessions := sessions - {key};
      }
    }

    method TouchSession(core: string, email: string, ip: string, now: int)
      requires Valid()
      modifies this`sessions
      ensures Valid() && Contents() == Seen(old(Contents()), Key(core, email, ip), now)
    {
      var key := Key(core, email, ip);
      if key in sessions {
        sessions := sessions[key := sessions[key].(lastSeenAt := now)];
      }
    }

    // One tick of the inactivity cleaner.  `traffic` says of each reported email whether it is
    // online; emails that differ in case only may disagree, and then either answer may win.
    method CleanInactive(traffic: map<string, bool>, now: int, nowStr: string)
      returns (alive: set<string>, expired: seq<string>)
      requires Valid()
      modifies this
      ensures Valid()
      ensures forall k | k in old(sessions) ::
                (k in alive ==> ReportedAs(traffic, old(sessions)[k].email, true)) &&
                (k !in alive && ReportedAs(traffic, old(sessions)[k].email, true) ==>
                   ReportedAs(traffic, old(sessions)[k].email, false))
      ensures IsOrderOf(expired, Idle(Refresh(old(Contents()), alive, now), now))
      ensures Contents() == Close(Refresh(old(Contents()), alive, now), expired, now, nowStr)
    {
      alive := RefreshReported(traffic, now);
      expired := ExpireIdle(now, nowStr);
    }

    method RefreshReported(traffic: map<string, bool>, now: int) returns (alive: set<string>)
      modifies this`sessions
      ensures forall k | k in old(sessions) ::
                (k in alive ==> ReportedAs(traffic, old(sessions)[k].email, true)) &&
                (k !in alive && ReportedAs(traffic, old(sessions)[k].email, true) ==>
                   ReportedAs(traffic, old(sessions)[k].email, false))
      ensures sessions == Refresh(old(Contents()), alive, now).sessions
    {
      alive := {};
      var pending := sessions.Keys;
      ghost var was := sessions;
      while pending != {}
        invariant pending <= was.Keys && alive <= was.Keys && alive !! pending
        invariant sessions.Keys == was.Keys
        invariant forall k | k in was ::
                    sessions[k] == if k in alive then was[k].(lastSeenAt := now) else was[k]
        invariant forall k | k in alive :: ReportedAs(traffic, was[k].email, true)
        invariant forall k | k in was && k !in pending && k !in alive ::
                    ReportedAs(traffic, was[k].email, true) ==> ReportedAs(traffic, was[k].email, false)
        decreases pending
      {
        var k :| k in pending;
        pending := pending - {k};
        var online := FindReported(traffic, sessions[k].email);
        if online {
          sessions := sessions[k := sessions[k].(lastSeenAt := now)];
          alive := alive + {k};
        }
      }
    }

    // Looks the email up in the report, ignoring case.
    method FindReported(traffic: map<string, bool>, email: string) returns (online: bool)
      ensures online ==> ReportedAs(traffic, email, true)
      ensures !online && ReportedAs(traffic, email, true) ==> ReportedAs(traffic, email, false)
    {
      var pending := traffic.Keys;
      while pending != {}
        invariant pending <= traffic.Keys
        invariant forall em | em in traffic && em !in pending :: ToLower(em) != ToLower(email)
        decreases pending
      {
        var em :| em in pending;
        pending := pending - {em};
        if ToLower(em) == ToLower(email) {
          return traffic[em];
        }
      }
      return false;
    }

    method ExpireIdle(now: int, nowStr: string) returns (expired: seq<string>)
      requires Valid()
      modifies this
      ensures Valid() && IsOrderOf(expired, Idle(old(Contents()), now))
      ensures Contents() == Close(old(Contents()), expired, now, nowStr)
    {
      expired := [];
      var pending := sessions.Keys;
      ghost var was := Contents();
      while pending != {}
        invariant Valid() && pending <= sessions.Keys
        invariant forall k | k in pending :: sessions[k] == was.sessions[k] && k in was.sessions && k !in expired
        invariant forall k :: k in expired <==> k in Idle(was, now) && k !in pending
        invariant forall i, j | 0 <= i < j < |expired| :: expired[i] != expired[j]
        invariant Contents() == Close(was, expired, now, nowStr)
        decreases pending
      {
        var k :| k in pending;
        pending := pending - {k};
        var s := sessions[k];
        if now - s.lastSeenAt > IDLE_LIMIT {
          var event := Closing(s, s.core, now, nowStr);
          assert (expired + [k])[..|expired|] == expired;
          Record(event);
          Truncate();
          sessions := sessions - {k};
          expired := expired + [k];
        }
      }
    }

    method GetRecentEvents(since: int, limit: int) returns (res: seq<Event>)
      requires Valid()
      ensures res == Since(if 0 < limit <= |events| then Tail(events, limit) else events, since)
    {
      var n := if limit <= 0 || limit > |events| then |events| else limit;
      res := [];
      var start := |events| - n;
      var i := start;
      ghost var recent := events[start..];
      assert recent == if 0 < limit <= |events| then Tail(events, limit) else events;
      while i < |events|
        invariant start <= i <= |events|
        invariant res == Since(events[start..i], since)
      {
        assert events[start..i + 1][..i - start] == events[start..i];
        if since <= 0 || events[i].timestamp >= since {
          res := res + [events[i]];
        }
        i := i + 1;
      }
      assert events[start..i] == recent;
    }

    method Clear()
      modifies this
      ensures Valid() && Contents() == EMPTY
    {
      sessions, events, history := map[], [], [];
    }
  }
}
