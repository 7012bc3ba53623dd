/** Who is credited with the traffic of the source (pkg/supervisor/singbox.go:137-329).

    The ledger is compared with the reports themselves: which user each reported connection was opened
    by, through which outbound it went, and who takes the bytes of connections that are gone. */
module TrafficOwners {
  import opened Text
  import opened TrafficLedger

  // ---------------------------------------------------------------------------------------
  // What the reports say
  // ---------------------------------------------------------------------------------------

  predicate NoneGiven(claims: seq<string>) { forall j | 0 <= j < |claims| :: claims[j] == "" }

  // The first name that is given.
  predicate FirstAt(claims: seq<string>, i: int) {
    0 <= i < |claims| && claims[i] != "" && forall j | 0 <= j < i :: claims[j] == ""
  }

  // The first name that is given counts; without one, the session tracker's answer does.
  ghost predicate SaysUser(c: Conn, text: string) {
    if NoneGiven(c.claims) then text == c.resolved else exists i :: FirstAt(c.claims, i) && text == c.claims[i]
  }

  // Of the connection's own name only the white space around it is dropped.
  ghost function OwnName(c: Conn): string {
    SomethingIsSaid(c);
    var text :| SaysUser(c, text);
    TrimSpace(text)
  }

  predicate IsLocal(c: Conn) { c.sourceIP == "" || c.sourceIP == "127.0.0.1" }

  // The last connection with a name of its own.
  ghost function LastNamed(heard: seq<Conn>): string {
    if heard == [] then ""
    else if OwnName(heard[|heard| - 1]) != "" then OwnName(heard[|heard| - 1])
    else LastNamed(heard[..|heard| - 1])
  }

  // Whose connection this is, after `heard` was reported: a nameless local one belongs to the last name.
  ghost function Owner(heard: seq<Conn>, c: Conn): string {
    if OwnName(c) == "" && IsLocal(c) then LastNamed(heard) else OwnName(c)
  }

  // The owner that was last reported of a connection, or none.
  ghost function OwnerOf(heard: seq<Conn>, id: string): string {
    if heard == [] then ""
    else
      var before, c := heard[..|heard| - 1], heard[|heard| - 1];
      if c.id == id && Owner(before, c) != "" then Owner(before, c) else OwnerOf(before, id)
  }

  predicate EndsWith(chain: seq<string>, tag: string) { chain != [] && chain[|chain| - 1] == tag }

  // The outbound is named by the report, by the end of the chain or by the end of the other chain.
  predicate GoesThrough(c: Conn, tag: string) {
    || c.outbound == tag != ""
    || (c.outbound == "" && EndsWith(c.chains, tag) && tag != "")
    || (c.outbound == "" && (c.chains == [] || EndsWith(c.chains, "")) && EndsWith(c.metaChains, tag) && tag != "")
  }

  // The connection's bytes go to this counter.
  ghost predicate Feeds(key: string, heard: seq<Conn>, c: Conn) {
    if "outbound:" <= key then
      var tag := key[|"outbound:"|..];
      Owner(heard, c) != "" && tag !in ["direct", "block", "blocked"] && GoesThrough(c, tag)
    else
      Owner(heard, c) == key
  }

  // What the source carried on this connection since it was last seen.
  function Growth(seen: map<string, Bytes>, c: Conn): Bytes { c.bytes.Minus(Get(seen, c.id)) }

  ghost function CarriedIn(heard: seq<Conn>, seen: map<string, Bytes>, cs: seq<Conn>, key: string): Bytes {
    if cs == [] then NOTHING
    else
      var before, c := cs[..|cs| - 1], cs[|cs| - 1];
      CarriedIn(heard, seen, before, key).Plus(if Feeds(key, heard + before, c) then Growth(seen, c) else NOTHING)
  }

  // ---------------------------------------------------------------------------------------
  // The same over a run, since its last reset
  // ---------------------------------------------------------------------------------------

  predicate Fresh(steps: seq<Step>) { steps == [] || steps[|steps| - 1].Reset? }

  function Heard(steps: seq<Step>): seq<Conn> {
    if Fresh(steps) then [] else Heard(steps[..|steps| - 1]) + steps[|steps| - 1].report.conns
  }

  function SeenSince(steps: seq<Step>): map<string, Bytes> {
    if Fresh(steps) then map[] else steps[|steps| - 1].source
  }

  function OpenSince(steps: seq<Step>): set<string> {
    if Fresh(steps) then {} else ReportedIds(steps[|steps| - 1].report)
  }

  function ReportedIds(r: Report): set<string> { set c | c in r.conns :: c.id }

  // What the key's connections carried.
  ghost function Carried(steps: seq<Step>, key: string): Bytes {
    if Fresh(steps) then NOTHING
    else
      var before, p := steps[..|steps| - 1], steps[|steps| - 1];
      Carried(before, key).Plus(CarriedIn(Heard(before), SeenSince(before), p.report.conns, key))
  }

  // What connections that are gone carried since they were last seen.
  ghost function Leftover(before: seq<Step>, p: Step): Bytes
    requires p.Polled?
  {
    var open := ReportedIds(p.report);
    Sum(p.source - open).Minus(Sum(SeenSince(before) - open))
  }

  // The users of connections that are gone since the last poll.
  ghost function Departed(before: seq<Step>, p: Step): set<string>
    requires p.Polled?
  {
    set id | id in OpenSince(before) && id !in ReportedIds(p.report) && OwnerOf(Heard(before), id) != ""
      :: OwnerOf(Heard(before), id)
  }

  // The fallback that was asked for first when something was left over.
  ghost function Host(steps: seq<Step>): string {
    if Fresh(steps) then ""
    else
      var before, p := steps[..|steps| - 1], steps[|steps| - 1];
      if Host(before) == "" && Leftover(before, p) != NOTHING then p.report.fallback else Host(before)
  }

  // Who takes what is left over: the departed users, or else the last name, or else who took it before
  // there was any name, or else the fallback.
  ghost function Receivers(before: seq<Step>, p: Step): seq<string>
    requires p.Polled?
  {
    var last := LastNamed(Heard(before) + p.report.conns);
    if Departed(before, p) != {} then p.closed
    else if last != "" then [last]
    else if Host(before) != "" then [Host(before)]
    else if p.report.fallback != "" then [p.report.fallback]
    else []
  }

  // Each receiver gets `each`, and the first one the rest.
  function Portion<T(==)>(to: seq<T>, each: Bytes, rest: Bytes, key: T): Bytes {
    if key !in to then NOTHING else if to[0] == key then each.Plus(rest) else each
  }

  // In equal parts; what does not divide goes to the first.
  function Portions(to: seq<string>, left: Bytes, key: string): Bytes {
    if to == [] then NOTHING
    else Portion(to, Bytes(left.up / |to|, left.down / |to|), Bytes(left.up % |to|, left.down % |to|), key)
  }

  ghost function Received(steps: seq<Step>, key: string): Bytes {
    if Fresh(steps) then NOTHING
    else
      var before, p := steps[..|steps| - 1], steps[|steps| - 1];
      Received(before, key).Plus(Portions(Receivers(before, p), Leftover(before, p), key))
  }

  // ---------------------------------------------------------------------------------------
  // One connection
  // ---------------------------------------------------------------------------------------

  lemma {:induction false} FirstIsFound(claims: seq<string>) returns (i: int)
    ensures NoneGiven(claims) ==> FirstNonEmpty(claims) == ""
    ensures !NoneGiven(claims) ==> FirstAt(claims, i) && claims[i] == FirstNonEmpty(claims)
  {
    i := 0;
    if claims != [] && claims[0] == "" {
      var k := FirstIsFound(claims[1..]);
      i := k + 1;
      assert forall j | 0 < j < |claims| :: claims[j] == claims[1..][j - 1];
    }
  }

  lemma SomethingIsSaid(c: Conn)
    ensures exists text :: SaysUser(c, text)
  {
    var i := FirstIsFound(c.claims);
    assert SaysUser(c, if NoneGiven(c.claims) then c.resolved else c.claims[i]);
  }

  lemma OwnNameIs(c: Conn)
    ensures OwnName(c) == TrimSpace(if FirstNonEmpty(c.claims) == "" then c.resolved else FirstNonEmpty(c.claims))
  {
    SomethingIsSaid(c);
    var i := FirstIsFound(c.claims);
    var said :| SaysUser(c, said) && OwnName(c) == TrimSpace(said);
    if !NoneGiven(c.claims) {
      var j :| FirstAt(c.claims, j) && said == c.claims[j];
      assert i == j;
    }
  }

  lemma UserIsOwner(heard: seq<Conn>, c: Conn)
    ensures UserOf(c, LastNamed(heard)) == Owner(heard, c)
  {
    OwnNameIs(c);
  }

  lemma TagIsTheWay(c: Conn, key: string)
    requires "outbound:" <= key
    ensures var tag := key[|"outbound:"|..];
            tag !in ["direct", "block", "blocked"] && GoesThrough(c, tag) <==>
            Attributed(OutboundTag(c)) && OutboundKey(OutboundTag(c)) == key
  {
    assert key == "outbound:" + key[|"outbound:"|..];
    assert OutboundKey(OutboundTag(c)) == key <==> OutboundTag(c) == key[|"outbound:"|..];
  }

  // ---------------------------------------------------------------------------------------
  // The connections of one report
  // ---------------------------------------------------------------------------------------

  lemma CreditFeeds(m: map<string, Bytes>, k: string, d: Bytes, key: string)
    ensures Get(Credit(m, k, d), key) == Get(m, key).Plus(if k == key then d else NOTHING)
  {}

  // The bytes of this user's connection through this outbound go to the counter.
  predicate Credits(user: string, tag: string, key: string) {
    if IsOutbound(key) then user != "" && Attributed(tag) && OutboundKey(tag) == key else user == key
  }

  lemma NothingMore(a: Bytes)
    ensures a.Plus(NOTHING) == a
  {}

  lemma CreditsFeed(m: map<string, Bytes>, user: string, tag: string, d: Bytes, key: string)
    requires user != "" && !IsOutbound(user)
    ensures var users := Credit(m, user, d);
            Get(if Attributed(tag) then Credit(users, OutboundKey(tag), d) else users, key) ==
            Get(m, key).Plus(if Credits(user, tag, key) then d else NOTHING)
  {
    OutboundKeyIsOutbound(tag);
    CreditFeeds(m, user, d, key);
    CreditFeeds(Credit(m, user, d), OutboundKey(tag), d, key);
    NothingMore(Get(m, key));
    NothingMore(Get(m, key).Plus(d));
  }

  lemma AttributeFeeds(l: Ledger, id: string, bytes: Bytes, user: string, tag: string, key: string)
    requires key != "" && !IsOutbound(user)
    ensures Get(Attribute(l, id, bytes, user, tag).users, key) ==
            Get(l.users, key).Plus(if Credits(user, tag, key) then Delta(Get(l.lastConn, id), bytes) else NOTHING)
  {
    if user == "" {
      NothingMore(Get(l.users, key));
    } else {
      CreditsFeed(l.users, user, tag, Delta(Get(l.lastConn, id), bytes), key);
    }
  }

  lemma FeedsIsCredited(heard: seq<Conn>, c: Conn, key: string)
    ensures var user, tag := UserOf(c, LastNamed(heard)), OutboundTag(c);
            Feeds(key, heard, c) <==> Credits(user, tag, key)
  {
    UserIsOwner(heard, c);
    if "outbound:" <= key { TagIsTheWay(c, key); }
  }

  // The ledger has the last name.
  ghost predicate Knows(l: Ledger, heard: seq<Conn>) { l.lastSeen == LastNamed(heard) }

  lemma DeltaIsGrowth(s: Ledger, seen: map<string, Bytes>, c: Conn)
    requires Get(s.lastConn, c.id) == Get(seen, c.id) && Get(seen, c.id).AtMost(c.bytes)
    ensures Delta(Get(s.lastConn, c.id), c.bytes) == Growth(seen, c)
  {}

  lemma ConnFeeds(s: Ledger, c: Conn, user: string, tag: string, key: string, d: Bytes)
    requires user == UserOf(c, s.lastSeen) && tag == OutboundTag(c) && key != "" && !IsOutbound(user)
    requires Delta(Get(s.lastConn, c.id), c.bytes) == d
    ensures Get(ConnStep(s, c).users, key) == Get(s.users, key).Plus(if Credits(user, tag, key) then d else NOTHING)
  {
    AttributeFeeds(s, c.id, c.bytes, user, tag, key);
  }

  lemma ConnIsKnown(s: Ledger, heard: seq<Conn>, c: Conn, more: seq<Conn>)
    requires Knows(s, heard) && more == heard + [c]
    ensures Knows(ConnStep(s, c), more)
  {
    UserIsOwner(heard, c);
    assert more[..|more| - 1] == heard;
  }

  lemma Regroup<T>(a: seq<T>, b: seq<T>)
    requires b != []
    ensures a + b == a + b[..|b| - 1] + [b[|b| - 1]]
  {}

  lemma {:induction false} ScanKnows(l: Ledger, heard: seq<Conn>, cs: seq<Conn>)
    requires Knows(l, heard)
    ensures Knows(Scan(l, cs), heard + cs)
  {
    if cs == [] {
      assert heard + cs == heard;
    } else {
      var before, c := cs[..|cs| - 1], cs[|cs| - 1];
      ScanKnows(l, heard, before);
      Regroup(heard, cs);
      ConnIsKnown(Scan(l, before), heard + before, c, heard + cs);
    }
  }

  lemma NextGrows(l: Ledger, heard: seq<Conn>, seen: map<string, Bytes>, before: seq<Conn>, c: Conn)
    requires Named(Scan(l, before)) && Proper(l, seen, c) && Unscanned(before, c.id)
    ensures var s := Scan(l, before);
            && !IsOutbound(UserOf(c, s.lastSeen))
            && Get(s.lastConn, c.id) == Get(seen, c.id) && Get(seen, c.id).AtMost(c.bytes)
  {
    ScanLeaves(l, seen, before, c.id);
    UserIsWellNamed(c, Scan(l, before).lastSeen);
  }

  lemma {:induction false} ScanKeepsNames(l: Ledger, seen: map<string, Bytes>, cs: seq<Conn>)
    requires Named(l) && Scannable(l, seen, cs)
    ensures Named(Scan(l, cs))
  {
    if cs != [] {
      var before, c := cs[..|cs| - 1], cs[|cs| - 1];
      ScannableFront(l, seen, cs);
      ScanKeepsNames(l, seen, before);
      UserIsWellNamed(c, Scan(l, before).lastSeen);
      AttributeKeepsNames(Scan(l, before), c.id, c.bytes, UserOf(c, Scan(l, before).lastSeen), OutboundTag(c));
    }
  }

  lemma CarriedOneMore(heard: seq<Conn>, seen: map<string, Bytes>, cs: seq<Conn>, key: string, at: Bytes, d: Bytes)
    requires cs != []
    requires var before, c := cs[..|cs| - 1], cs[|cs| - 1];
             d == if Feeds(key, heard + before, c) then Growth(seen, c) else NOTHING
    ensures at.Plus(CarriedIn(heard, seen, cs[..|cs| - 1], key)).Plus(d) == at.Plus(CarriedIn(heard, seen, cs, key))
  {}

  ghost predicate ScanFed(l: Ledger, heard: seq<Conn>, seen: map<string, Bytes>, cs: seq<Conn>, key: string) {
    Get(Scan(l, cs).users, key) == Get(l.users, key).Plus(CarriedIn(heard, seen, cs, key))
  }

  lemma ScanFeedsOneMore(l: Ledger, heard: seq<Conn>, seen: map<string, Bytes>, cs: seq<Conn>, key: string)
    requires cs != [] && ScanFed(l, heard, seen, cs[..|cs| - 1], key) && key != ""
    requires Named(Scan(l, cs[..|cs| - 1])) && Knows(Scan(l, cs[..|cs| - 1]), heard + cs[..|cs| - 1])
    requires Proper(l, seen, cs[|cs| - 1]) && Unscanned(cs[..|cs| - 1], cs[|cs| - 1].id)
    ensures ScanFed(l, heard, seen, cs, key)
  {
    var before, c := cs[..|cs| - 1], cs[|cs| - 1];
    var s := Scan(l, before);
    NextGrows(l, heard, seen, before, c);
    DeltaIsGrowth(s, seen, c);
    FeedsIsCredited(heard + before, c, key);
    ConnFeeds(s, c, UserOf(c, s.lastSeen), OutboundTag(c), key, Growth(seen, c));
    CarriedOneMore(heard, seen, cs, key, Get(l.users, key),
                   if Feeds(key, heard + before, c) then Growth(seen, c) else NOTHING);
  }

  lemma {:induction false} ScanFeeds(l: Ledger, heard: seq<Conn>, seen: map<string, Bytes>, cs: seq<Conn>, key: string)
    requires Named(l) && Knows(l, heard) && Scannable(l, seen, cs) && key != ""
    ensures ScanFed(l, heard, seen, cs, key)
  {
    if cs == [] {
      NothingMore(Get(l.users, key));
    } else {
      var before := cs[..|cs| - 1];
      ScannableFront(l, seen, cs);
      ScanFeeds(l, heard, seen, before, key);
      ScanKnows(l, heard, before);
      ScanKeepsNames(l, seen, before);
      ScanFeedsOneMore(l, heard, seen, cs, key);
    }
  }

  // ---------------------------------------------------------------------------------------
  // The owners of open connections
  // ---------------------------------------------------------------------------------------

  function UserAt(m: map<string, string>, id: string): string { if id in m then m[id] else "" }

  // The ledger knows the owner of this connection.
  ghost predicate KnowsOwner(l: Ledger, heard: seq<Conn>, id: string) {
    UserAt(l.connUser, id) == OwnerOf(heard, id)
  }

  lemma ConnOwner(s: Ledger, heard: seq<Conn>, c: Conn, more: seq<Conn>, id: string)
    requires Knows(s, heard) && KnowsOwner(s, heard, id) && more == heard + [c] && id != ""
    ensures KnowsOwner(ConnStep(s, c), more, id)
  {
    UserIsOwner(heard, c);
    assert more[..|more| - 1] == heard;
  }

  lemma {:induction false} ScanOwner(l: Ledger, heard: seq<Conn>, cs: seq<Conn>, id: string)
    requires Knows(l, heard) && KnowsOwner(l, heard, id) && id != ""
    ensures KnowsOwner(Scan(l, cs), heard + cs, id)
  {
    if cs == [] {
      assert heard + cs == heard;
    } else {
      var before, c := cs[..|cs| - 1], cs[|cs| - 1];
      ScanKnows(l, heard, before);
      ScanOwner(l, heard, before, id);
      Regroup(heard, cs);
      ConnOwner(Scan(l, before), heard + before, c, heard + cs, id);
    }
  }

  lemma {:induction false} OwnerIsLeft(heard: seq<Conn>, cs: seq<Conn>, id: string)
    requires Unscanned(cs, id)
    ensures OwnerOf(heard + cs, id) == OwnerOf(heard, id)
  {
    if cs == [] {
      assert heard + cs == heard;
    } else {
      OwnerIsLeft(heard, cs[..|cs| - 1], id);
      assert (heard + cs)[..|heard + cs| - 1] == heard + cs[..|cs| - 1];
    }
  }

  // ---------------------------------------------------------------------------------------
  // What is left over
  // ---------------------------------------------------------------------------------------

  lemma {:induction false} SumsDifferOutside(m: map<string, Bytes>, m': map<string, Bytes>, same: set<string>)
    requires forall k | k in same :: k in m && k in m' && m[k] == m'[k]
    ensures Sum(m).Minus(Sum(m')) == Sum(m - same).Minus(Sum(m' - same))
  {
    if same == {} {
      assert m - same == m && m' - same == m';
    } else {
      var k :| k in same;
      SumWithout(m, k);
      SumWithout(m', k);
      SumsDifferOutside(m - {k}, m' - {k}, same - {k});
      assert (m - {k}) - (same - {k}) == m - same && (m' - {k}) - (same - {k}) == m' - same;
    }
  }

  // The ledger has settled what was seen, and the next report is an honest one.
  ghost predicate Polls(l: Ledger, dropped: Bytes, seen: map<string, Bytes>, open: set<string>, p: Step) {
    && p.Polled? && Settled(l, dropped, seen, open) && Honest(seen, open, p.source, p.report) && WellNamed(p.report)
    && IsOrderOf(p.closed, ClosedUsers(Scan(l, p.report.conns), OpenIds(p.report.conns)))
  }

  lemma OpenIsReported(l: Ledger, dropped: Bytes, seen: map<string, Bytes>, open: set<string>, p: Step)
    requires Polls(l, dropped, seen, open, p)
    ensures OpenIds(p.report.conns) == ReportedIds(p.report) == Ids(p.report.conns)
    ensures Scannable(l, seen, p.report.conns)
  {
    HonestReportIsScannable(l, dropped, seen, open, p.source, p.report);
  }

  lemma UpdatedAgrees(seen: map<string, Bytes>, now: map<string, Bytes>, open: set<string>, r: Report, id: string)
    requires Honest(seen, open, now, r) && id in ReportedIds(r)
    ensures id in Updated(seen, r.conns) && Updated(seen, r.conns)[id] == now[id]
  {
    var c :| c in r.conns && c.id == id;
    var i :| 0 <= i < |r.conns| && r.conns[i] == c;
    ScanRecordsCounters(EMPTY, seen, r.conns, i);
    ScanKeys(EMPTY, seen, r.conns);
  }

  lemma UpdatedElsewhere(seen: map<string, Bytes>, r: Report)
    ensures Updated(seen, r.conns) - ReportedIds(r) == seen - ReportedIds(r)
  {
    ScanKeys(EMPTY, seen, r.conns);
    forall id | id in seen && id !in ReportedIds(r) ensures Updated(seen, r.conns)[id] == seen[id] {
      ScanLeaves(EMPTY, seen, r.conns, id);
    }
  }

  lemma ScanSums(l: Ledger, dropped: Bytes, seen: map<string, Bytes>, cs: seq<Conn>)
    requires Named(l) && Conserves(l.users, dropped, Sum(seen)) && Scannable(l, seen, cs)
    ensures Sum(Updated(seen, cs)) == Sum(seen).Plus(Active(l, cs))
  {
    ScanConserves(l, seen, cs, dropped, Sum(seen));
  }

  lemma WhatIsLeft(seen: Bytes, now: Bytes, active: Bytes, updated: Bytes)
    requires seen.AtMost(now) && updated == seen.Plus(active)
    ensures Delta(seen, now).Minus(active) == now.Minus(updated)
  {}

  // What no open connection accounts for was carried by connections that are gone.
  lemma LeftIsLeftover(l: Ledger, dropped: Bytes, seen: map<string, Bytes>, open: set<string>, p: Step)
    requires Polls(l, dropped, seen, open, p)
    ensures var gone := ReportedIds(p.report);
            Unaccounted(l, p.report.totals, Active(l, p.report.conns)) ==
            Sum(p.source - gone).Minus(Sum(seen - gone))
    ensures NOTHING.AtMost(Unaccounted(l, p.report.totals, Active(l, p.report.conns)))
  {
    var cs, gone := p.report.conns, ReportedIds(p.report);
    OpenIsReported(l, dropped, seen, open, p);
    ScanSums(l, dropped, seen, cs);
    forall id | id in gone
      ensures id in p.source && id in Updated(seen, cs) && p.source[id] == Updated(seen, cs)[id]
    {
      UpdatedAgrees(seen, p.source, open, p.report, id);
    }
    SumsDifferOutside(p.source, Updated(seen, cs), gone);
    UpdatedElsewhere(seen, p.report);
    SumIsMonotone(seen, p.source);
    WhatIsLeft(Sum(seen), Sum(p.source), Active(l, cs), Sum(Updated(seen, cs)));
    PollSettles(l, dropped, seen, open, p.source, p.report, p.closed);
  }

  ghost predicate AllDistinct<T>(to: seq<T>) { forall i, j | 0 <= i < j < |to| :: to[i] != to[j] }

  function Pay(each: Bytes, rest: Bytes, i: nat): Bytes { if i == 0 then each.Plus(rest) else each }

  // The counters after the first `k` receivers were paid.
  ghost function Paid(users: map<string, Bytes>, to: seq<string>, each: Bytes, rest: Bytes, k: nat): map<string, Bytes>
    requires k <= |to|
  {
    if k == 0 then users else Credit(Paid(users, to, each, rest, k - 1), to[k - 1], Pay(each, rest, k - 1))
  }

  // What one of them received by then.
  ghost function Got<T>(to: seq<T>, each: Bytes, rest: Bytes, k: nat, key: T): Bytes
    requires k <= |to|
  {
    if k == 0 then NOTHING
    else Got(to, each, rest, k - 1, key).Plus(if to[k - 1] == key then Pay(each, rest, k - 1) else NOTHING)
  }

  lemma {:induction false} GotNothing<T>(to: seq<T>, each: Bytes, rest: Bytes, k: nat, key: T)
    requires k <= |to| && forall i | 0 <= i < k :: to[i] != key
    ensures Got(to, each, rest, k, key) == NOTHING
  {
    if k > 0 { GotNothing(to, each, rest, k - 1, key); }
  }

  lemma {:induction false} GotOnce<T>(to: seq<T>, each: Bytes, rest: Bytes, k: nat, key: T, i: nat)
    requires AllDistinct(to) && i < k <= |to| && to[i] == key
    ensures Got(to, each, rest, k, key) == Pay(each, rest, i)
  {
    GotOneMore(to, each, rest, k, key);
    if i == k - 1 {
      NoneBefore(to, i);
      GotNothing(to, each, rest, k - 1, key);
    } else {
      assert to[i] != to[k - 1];
      GotOnce(to, each, rest, k - 1, key, i);
      NothingMore(Pay(each, rest, i));
    }
  }

  lemma NoneBefore<T>(to: seq<T>, i: nat)
    requires AllDistinct(to) && i < |to|
    ensures forall j | 0 <= j < i :: to[j] != to[i]
  {}

  lemma GotOneMore<T>(to: seq<T>, each: Bytes, rest: Bytes, k: nat, key: T)
    requires 0 < k <= |to|
    ensures Got(to, each, rest, k, key) ==
            Got(to, each, rest, k - 1, key).Plus(if to[k - 1] == key then Pay(each, rest, k - 1) else NOTHING)
  {}

  lemma GotPortion<T>(to: seq<T>, each: Bytes, rest: Bytes, key: T)
    requires AllDistinct(to)
    ensures Got(to, each, rest, |to|, key) == Portion(to, each, rest, key)
  {
    if i :| 0 <= i < |to| && to[i] == key {
      GotOnce(to, each, rest, |to|, key, i);
      assert to[0] == key <==> i == 0;
    } else {
      GotNothing(to, each, rest, |to|, key);
    }
  }

  lemma CreditedThen(m: map<string, Bytes>, k: string, d: Bytes, key: string, was: Bytes, got: Bytes)
    requires Get(m, key) == was.Plus(got)
    ensures Get(Credit(m, k, d), key) == was.Plus(got.Plus(if k == key then d else NOTHING))
  {}

  ghost predicate PaidSoFar(users: map<string, Bytes>, to: seq<string>, each: Bytes, rest: Bytes, k: nat, key: string)
    requires k <= |to|
  {
    Get(Paid(users, to, each, rest, k), key) == Get(users, key).Plus(Got(to, each, rest, k, key))
  }

  lemma PaidNext(users: map<string, Bytes>, to: seq<string>, each: Bytes, rest: Bytes, k: nat, key: string)
    requires 0 < k <= |to| && PaidSoFar(users, to, each, rest, k - 1, key)
    ensures PaidSoFar(users, to, each, rest, k, key)
  {
    CreditedThen(Paid(users, to, each, rest, k - 1), to[k - 1], Pay(each, rest, k - 1), key, Get(users, key),
                 Got(to, each, rest, k - 1, key));
  }

  lemma {:induction false} PaidGives(users: map<string, Bytes>, to: seq<string>, each: Bytes, rest: Bytes, k: nat,
                                     key: string)
    requires k <= |to|
    ensures PaidSoFar(users, to, each, rest, k, key)
  {
    if k == 0 {
      NothingMore(Get(users, key));
    } else {
      PaidGives(users, to, each, rest, k - 1, key);
      PaidNext(users, to, each, rest, k, key);
    }
  }

  lemma ShareIs(left: Bytes, n: nat, i: nat)
    requires n > 0 && NOTHING.AtMost(left)
    ensures var each, rest := Bytes(left.up / n, left.down / n), Bytes(left.up % n, left.down % n);
            Share(left, n, i) == Pay(each, rest, i)
  {}

  lemma {:induction false} SpreadIsPaid(users: map<string, Bytes>, to: seq<string>, left: Bytes, each: Bytes,
                                        rest: Bytes, k: nat)
    requires 0 < |to| && k <= |to|
    requires forall i: nat :: Share(left, |to|, i) == Pay(each, rest, i)
    ensures Spread(users, to, left, k) == Paid(users, to, each, rest, k)
  {
    if k > 0 { SpreadIsPaid(users, to, left, each, rest, k - 1); }
  }

  lemma AllArePaid(users: map<string, Bytes>, to: seq<string>, left: Bytes, key: string)
    requires AllDistinct(to) && NOTHING.AtMost(left)
    ensures Get(Spread(users, to, left, |to|), key) == Get(users, key).Plus(Portions(to, left, key))
  {
    if to == [] {
      NothingMore(Get(users, key));
    } else {
      var each := Bytes(left.up / |to|, left.down / |to|);
      var rest := Bytes(left.up % |to|, left.down % |to|);
      forall i: nat ensures Share(left, |to|, i) == Pay(each, rest, i) {
        ShareIs(left, |to|, i);
      }
      SpreadIsPaid(users, to, left, each, rest, |to|);
      PaidGives(users, to, each, rest, |to|, key);
      GotPortion(to, each, rest, key);
    }
  }

  lemma NothingToShare(to: seq<string>, left: Bytes, key: string)
    requires left == NOTHING
    ensures Portions(to, left, key) == NOTHING
  {}

  lemma SettlePays(s: Ledger, r: Report, active: Bytes, closed: seq<string>, left: Bytes)
    requires left == Unaccounted(s, r.totals, active) && NOTHING.AtMost(left)
    requires !Reports(r.totals) ==> left == NOTHING
    ensures var to := Targets(s, closed, r.fallback);
            Settle(s, r, active, closed).users == if left == NOTHING then s.users else Spread(s.users, to, left, |to|)
  {}

  lemma SettleGives(s: Ledger, r: Report, active: Bytes, closed: seq<string>, to: seq<string>, left: Bytes, key: string)
    requires to == Targets(s, closed, r.fallback) && AllDistinct(to)
    requires left == Unaccounted(s, r.totals, active) && NOTHING.AtMost(left)
    requires !Reports(r.totals) ==> left == NOTHING
    ensures Get(Settle(s, r, active, closed).users, key) == Get(s.users, key).Plus(Portions(to, left, key))
  {
    SettlePays(s, r, active, closed, left);
    if left == NOTHING {
      NothingToShare(to, left, key);
      NothingMore(Get(s.users, key));
    } else {
      AllArePaid(s.users, to, left, key);
    }
  }

  // ---------------------------------------------------------------------------------------
  // Runs
  // ---------------------------------------------------------------------------------------

  // Every connection that was reported is one of those seen.
  ghost predicate HeardIsSeen(steps: seq<Step>) { forall c | c in Heard(steps) :: c.id in SeenSince(steps) }

  // While no connection was named, the only counter is that of the first fallback.
  ghost predicate HostIsAlone(l: Ledger, steps: seq<Step>) {
    LastNamed(Heard(steps)) == "" ==>
      l.connUser == map[] && l.users.Keys == if Host(steps) == "" then {} else {Host(steps)}
  }

  ghost predicate Tracks(l: Ledger, steps: seq<Step>) {
    && Knows(l, Heard(steps)) && HeardIsSeen(steps) && l.connUser.Keys <= OpenSince(steps)
    && (forall id | id in OpenSince(steps) :: KnowsOwner(l, Heard(steps), id))
    && HostIsAlone(l, steps)
  }

  ghost predicate Counts(l: Ledger, steps: seq<Step>, key: string) {
    Get(l.users, key) == Carried(steps, key).Plus(Received(steps, key))
  }

  lemma {:induction false} NeverHeard(heard: seq<Conn>, id: string)
    requires forall c | c in heard :: c.id != id
    ensures OwnerOf(heard, id) == ""
  {
    if heard != [] {
      assert heard[|heard| - 1] in heard;
      NeverHeard(heard[..|heard| - 1], id);
    }
  }

  // A ledger that tracks the steps before a poll.
  ghost predicate AtPoll(l: Ledger, dropped: Bytes, before: seq<Step>, p: Step) {
    Tracks(l, before) && Polls(l, dropped, SeenSince(before), OpenSince(before), p)
  }

  lemma ReportedIsKnown(l: Ledger, dropped: Bytes, before: seq<Step>, p: Step, id: string)
    requires AtPoll(l, dropped, before, p) && id in OpenSince(before) + ReportedIds(p.report)
    ensures KnowsOwner(Scan(l, p.report.conns), Heard(before) + p.report.conns, id)
  {
    if id !in OpenSince(before) {
      assert id !in SeenSince(before);
      NeverHeard(Heard(before), id);
    }
    assert id != "";
    ScanOwner(l, Heard(before), p.report.conns, id);
  }

  lemma GoneIsKnown(l: Ledger, dropped: Bytes, before: seq<Step>, p: Step, id: string)
    requires AtPoll(l, dropped, before, p) && id in OpenSince(before) && id !in ReportedIds(p.report)
    ensures UserAt(Scan(l, p.report.conns).connUser, id) == OwnerOf(Heard(before), id)
  {
    ReportedIsKnown(l, dropped, before, p, id);
    forall i | 0 <= i < |p.report.conns| ensures p.report.conns[i].id != id {
      assert p.report.conns[i] in p.report.conns;
    }
    OwnerIsLeft(Heard(before), p.report.conns, id);
  }

  /** The users of closed connections are the owners of those that are no longer reported. */
  lemma ClosedAreDeparted(l: Ledger, dropped: Bytes, before: seq<Step>, p: Step)
    requires AtPoll(l, dropped, before, p)
    ensures ClosedUsers(Scan(l, p.report.conns), OpenIds(p.report.conns)) == Departed(before, p)
  {
    var s, cs := Scan(l, p.report.conns), p.report.conns;
    OpenIsReported(l, dropped, SeenSince(before), OpenSince(before), p);
    ScanKeys(l, SeenSince(before), cs);
    forall id | id in OpenSince(before) && id !in ReportedIds(p.report)
      ensures UserAt(s.connUser, id) == OwnerOf(Heard(before), id)
    {
      GoneIsKnown(l, dropped, before, p, id);
    }
    SameUsers(s, OpenSince(before), ReportedIds(p.report), Heard(before));
  }

  lemma SameUsers(s: Ledger, known: set<string>, open: set<string>, heard: seq<Conn>)
    requires s.connUser.Keys <= known + open
    requires forall id | id in known && id !in open :: UserAt(s.connUser, id) == OwnerOf(heard, id)
    ensures ClosedUsers(s, open) ==
            set id | id in known && id !in open && OwnerOf(heard, id) != "" :: OwnerOf(heard, id)
  {}

  lemma {:induction false} NamelessFront(heard: seq<Conn>, cs: seq<Conn>)
    requires LastNamed(heard + cs) == ""
    ensures LastNamed(heard) == ""
  {
    if cs == [] {
      assert heard + cs == heard;
    } else {
      assert (heard + cs)[..|heard + cs| - 1] == heard + cs[..|cs| - 1];
      NamelessFront(heard, cs[..|cs| - 1]);
    }
  }

  lemma {:induction false} NamelessScan(l: Ledger, heard: seq<Conn>, cs: seq<Conn>)
    requires Knows(l, heard) && LastNamed(heard + cs) == ""
    ensures Scan(l, cs).users == l.users && Scan(l, cs).connUser == l.connUser
  {
    if cs != [] {
      var before, c := cs[..|cs| - 1], cs[|cs| - 1];
      assert heard + cs == heard + before + [c] && (heard + before + [c])[..|heard + before|] == heard + before;
      NamelessScan(l, heard, before);
      ScanKnows(l, heard, before);
      UserIsOwner(heard + before, c);
    }
  }

  lemma OnlyUser(l: Ledger, closed: seq<string>, fallback: string, host: string)
    requires closed == [] && l.lastSeen == "" && host != "" && l.users.Keys == {host}
    ensures Targets(l, closed, fallback) == [host]
  {
    assert |l.users| == |l.users.Keys| == 1;
    assert host in l.users;
    forall u | u in l.users ensures u == host {}
  }

  lemma NoUser(l: Ledger, closed: seq<string>, fallback: string)
    requires closed == [] && l.lastSeen == "" && l.users.Keys == {}
    ensures Targets(l, closed, fallback) == if fallback == "" then [] else [fallback]
  {
    assert |l.users| == |l.users.Keys| == 0;
  }

  /** What is left over goes to the departed users, or else to the last name, or else to who took it
      before, or else to the fallback. */
  lemma TargetsAreReceivers(l: Ledger, dropped: Bytes, before: seq<Step>, p: Step)
    requires AtPoll(l, dropped, before, p)
    ensures var cs := p.report.conns;
            Targets(Forget(Scan(l, cs), OpenIds(cs)), p.closed, p.report.fallback) == Receivers(before, p)
  {
    var cs, fallback := p.report.conns, p.report.fallback;
    var f := Forget(Scan(l, cs), OpenIds(cs));
    ClosedAreDeparted(l, dropped, before, p);
    assert p.closed == [] <==> Departed(before, p) == {} by {
      if p.closed != [] { assert p.closed[0] in p.closed; }
    }
    ScanKnows(l, Heard(before), cs);
    if p.closed == [] && f.lastSeen == "" {
      NamelessFront(Heard(before), cs);
      NamelessScan(l, Heard(before), cs);
      if Host(before) == "" { NoUser(f, p.closed, fallback); } else { OnlyUser(f, p.closed, fallback, Host(before)); }
    }
  }

  // ---------------------------------------------------------------------------------------
  // One poll more
  // ---------------------------------------------------------------------------------------

  // The run ends in a poll after these steps.
  predicate EndsInPoll(steps: seq<Step>, before: seq<Step>, p: Step) {
    steps != [] && before == steps[..|steps| - 1] && p == steps[|steps| - 1] && p.Polled?
  }

  lemma PollUnfolds(steps: seq<Step>, before: seq<Step>, p: Step, key: string)
    requires EndsInPoll(steps, before, p)
    ensures Heard(steps) == Heard(before) + p.report.conns
    ensures SeenSince(steps) == p.source && OpenSince(steps) == ReportedIds(p.report)
    ensures Carried(steps, key) ==
            Carried(before, key).Plus(CarriedIn(Heard(before), SeenSince(before), p.report.conns, key))
    ensures Received(steps, key) ==
            Received(before, key).Plus(Portions(Receivers(before, p), Leftover(before, p), key))
    ensures Host(steps) ==
            if Host(before) == "" && Leftover(before, p) != NOTHING then p.report.fallback else Host(before)
  {}

  lemma SumsOfFour(a: Bytes, b: Bytes, c: Bytes, d: Bytes)
    ensures a.Plus(b).Plus(c).Plus(d) == a.Plus(c).Plus(b.Plus(d))
  {}

  lemma ReceiversAreDistinct(l: Ledger, dropped: Bytes, before: seq<Step>, p: Step)
    requires AtPoll(l, dropped, before, p)
    ensures AllDistinct(Receivers(before, p))
  {}

  lemma SumsAreBounded(m: map<string, Bytes>, gone: set<string>)
    requires NonNegative(m)
    ensures NOTHING.AtMost(Sum(m - gone)) && Sum(m - gone).AtMost(Sum(m))
  {
    SumIsMonotone(m - gone, m);
    SumIsMonotone(map[], m - gone);
  }

  lemma NothingBetween(left: Bytes, all: Bytes, now: Bytes, seen: Bytes)
    requires all.up <= 0 && all.down <= 0 && now.AtMost(all) && NOTHING.AtMost(seen)
    requires left == now.Minus(seen) && NOTHING.AtMost(left)
    ensures left == NOTHING
  {}

  // Without totals there is nothing to hand out.
  lemma NothingLeft(l: Ledger, dropped: Bytes, seen: map<string, Bytes>, open: set<string>, p: Step, left: Bytes)
    requires Polls(l, dropped, seen, open, p) && !Reports(p.report.totals)
    requires left == Unaccounted(l, p.report.totals, Active(l, p.report.conns))
    ensures left == NOTHING
  {
    var gone := ReportedIds(p.report);
    LeftIsLeftover(l, dropped, seen, open, p);
    SumsAreBounded(p.source, gone);
    SumsAreBounded(seen, gone);
    NothingBetween(left, p.report.totals, Sum(p.source - gone), Sum(seen - gone));
  }

  lemma PollUsers(l: Ledger, r: Report, closed: seq<string>, f: Ledger)
    requires f == Forget(Scan(l, r.conns), OpenIds(r.conns)) && Scan(l, r.conns).lastTotals == l.lastTotals
    ensures Poll(l, r, closed).users == Settle(f, r, Active(l, r.conns), closed).users
    ensures f.users == Scan(l, r.conns).users
    ensures Unaccounted(f, r.totals, Active(l, r.conns)) == Unaccounted(l, r.totals, Active(l, r.conns))
  {}

  lemma PollGives(l: Ledger, dropped: Bytes, before: seq<Step>, p: Step, key: string, to: seq<string>, left: Bytes)
    requires AtPoll(l, dropped, before, p) && to == Receivers(before, p) && left == Leftover(before, p)
    ensures Get(Poll(l, p.report, p.closed).users, key) ==
            Get(Scan(l, p.report.conns).users, key).Plus(Portions(to, left, key))
  {
    var cs, seen, open := p.report.conns, SeenSince(before), OpenSince(before);
    var f, active := Forget(Scan(l, cs), OpenIds(cs)), Active(l, cs);
    TargetsAreReceivers(l, dropped, before, p);
    ReceiversAreDistinct(l, dropped, before, p);
    LeftIsLeftover(l, dropped, seen, open, p);
    if !Reports(p.report.totals) { NothingLeft(l, dropped, seen, open, p, left); }
    ScanKeys(l, seen, cs);
    PollUsers(l, p.report, p.closed, f);
    SettleGives(f, p.report, active, p.closed, to, left, key);
  }

  lemma PollCounts(l: Ledger, dropped: Bytes, before: seq<Step>, p: Step, steps: seq<Step>, key: string)
    requires AtPoll(l, dropped, before, p) && Counts(l, before, key) && EndsInPoll(steps, before, p) && key != ""
    ensures Counts(Poll(l, p.report, p.closed), steps, key)
  {
    OpenIsReported(l, dropped, SeenSince(before), OpenSince(before), p);
    ScanFeeds(l, Heard(before), SeenSince(before), p.report.conns, key);
    PollGives(l, dropped, before, p, key, Receivers(before, p), Leftover(before, p));
    PollUnfolds(steps, before, p, key);
    SumsOfFour(Carried(before, key), Received(before, key),
               CarriedIn(Heard(before), SeenSince(before), p.report.conns, key),
               Portions(Receivers(before, p), Leftover(before, p), key));
  }

  lemma PollHears(l: Ledger, dropped: Bytes, before: seq<Step>, p: Step, steps: seq<Step>)
    requires AtPoll(l, dropped, before, p) && EndsInPoll(steps, before, p)
    ensures HeardIsSeen(steps)
  {
    PollUnfolds(steps, before, p, "");
  }

  lemma PollKnowsOwners(l: Ledger, dropped: Bytes, before: seq<Step>, p: Step, steps: seq<Step>)
    requires AtPoll(l, dropped, before, p) && EndsInPoll(steps, before, p)
    ensures var l' := Poll(l, p.report, p.closed);
            && Knows(l', Heard(steps)) && l'.connUser.Keys <= OpenSince(steps)
            && forall id | id in OpenSince(steps) :: KnowsOwner(l', Heard(steps), id)
  {
    var cs := p.report.conns;
    OpenIsReported(l, dropped, SeenSince(before), OpenSince(before), p);
    PollUnfolds(steps, before, p, "");
    ScanKnows(l, Heard(before), cs);
    forall id | id in ReportedIds(p.report) ensures KnowsOwner(Scan(l, cs), Heard(before) + cs, id) {
      ReportedIsKnown(l, dropped, before, p, id);
    }
  }

  lemma SpreadToOne(users: map<string, Bytes>, to: seq<string>, left: Bytes)
    requires |to| <= 1
    ensures Spread(users, to, left, |to|).Keys == users.Keys + if to == [] then {} else {to[0]}
  {
    if |to| == 1 { assert Spread(users, to, left, 0) == users; }
  }

  lemma SettleKeys(f: Ledger, r: Report, active: Bytes, closed: seq<string>, to: seq<string>, left: Bytes)
    requires to == Targets(f, closed, r.fallback) && |to| <= 1
    requires left == Unaccounted(f, r.totals, active) && NOTHING.AtMost(left)
    requires !Reports(r.totals) ==> left == NOTHING
    ensures Settle(f, r, active, closed).users.Keys ==
            f.users.Keys + if left == NOTHING || to == [] then {} else {to[0]}
  {
    SettlePays(f, r, active, closed, left);
    SpreadToOne(f.users, to, left);
  }

  lemma PollKeys(l: Ledger, dropped: Bytes, before: seq<Step>, p: Step, to: seq<string>, left: Bytes)
    requires AtPoll(l, dropped, before, p) && to == Receivers(before, p) && |to| <= 1 && left == Leftover(before, p)
    ensures Poll(l, p.report, p.closed).users.Keys ==
            Scan(l, p.report.conns).users.Keys + if left == NOTHING || to == [] then {} else {to[0]}
  {
    var cs, seen, open := p.report.conns, SeenSince(before), OpenSince(before);
    var f := Forget(Scan(l, cs), OpenIds(cs));
    TargetsAreReceivers(l, dropped, before, p);
    LeftIsLeftover(l, dropped, seen, open, p);
    if !Reports(p.report.totals) { NothingLeft(l, dropped, seen, open, p, left); }
    ScanKeys(l, seen, cs);
    PollUsers(l, p.report, p.closed, f);
    SettleKeys(f, p.report, Active(l, cs), p.closed, to, left);
  }

  // Nobody departs while nobody was named.
  lemma NamelessReceivers(l: Ledger, dropped: Bytes, before: seq<Step>, p: Step)
    requires AtPoll(l, dropped, before, p) && LastNamed(Heard(before) + p.report.conns) == ""
    ensures Scan(l, p.report.conns).users == l.users && Scan(l, p.report.conns).connUser == l.connUser == map[]
    ensures LastNamed(Heard(before)) == "" && Departed(before, p) == {}
  {
    NamelessFront(Heard(before), p.report.conns);
    NamelessScan(l, Heard(before), p.report.conns);
    ClosedAreDeparted(l, dropped, before, p);
  }

  lemma HostReceives(before: seq<Step>, p: Step)
    requires p.Polled? && LastNamed(Heard(before) + p.report.conns) == "" && Departed(before, p) == {}
    ensures Receivers(before, p) ==
            if Host(before) != "" then [Host(before)]
            else if p.report.fallback != "" then [p.report.fallback]
            else []
  {}

  lemma NamelessPoll(l: Ledger, dropped: Bytes, before: seq<Step>, p: Step, steps: seq<Step>)
    requires AtPoll(l, dropped, before, p) && EndsInPoll(steps, before, p)
    ensures HostIsAlone(Poll(l, p.report, p.closed), steps)
  {
    PollUnfolds(steps, before, p, "");
    if LastNamed(Heard(steps)) == "" {
      NamelessReceivers(l, dropped, before, p);
      HostReceives(before, p);
      PollKeys(l, dropped, before, p, Receivers(before, p), Leftover(before, p));
    }
  }

  lemma PollTracks(l: Ledger, dropped: Bytes, before: seq<Step>, p: Step, steps: seq<Step>)
    requires AtPoll(l, dropped, before, p) && EndsInPoll(steps, before, p)
    ensures Tracks(Poll(l, p.report, p.closed), steps)
  {
    PollHears(l, dropped, before, p, steps);
    PollKnowsOwners(l, dropped, before, p, steps);
    NamelessPoll(l, dropped, before, p, steps);
  }

  lemma FreshTracks(steps: seq<Step>, key: string)
    requires Fresh(steps)
    ensures LedgerAfter(steps) == EMPTY && Tracks(EMPTY, steps) && Counts(EMPTY, steps, key)
  {}

  lemma OpenIsSince(steps: seq<Step>)
    requires HonestRun(steps) && !Fresh(steps)
    ensures SourceAfter(steps) == SeenSince(steps) && OpenAfter(steps) == OpenSince(steps)
  {
    var r := steps[|steps| - 1].report;
    forall id ensures id in OpenIds(r.conns) <==> id in ReportedIds(r) {}
  }

  lemma RunIsSettled(steps: seq<Step>)
    requires HonestRun(steps)
    ensures Settled(LedgerAfter(steps), DroppedAfter(steps), SeenSince(steps), OpenSince(steps))
  {
    if Fresh(steps) {
      EmptyIsSettled();
    } else {
      LastPollSettles(steps);
      OpenIsSince(steps);
    }
  }

  lemma PollIsHonest(steps: seq<Step>, before: seq<Step>, p: Step)
    requires HonestRun(steps) && EndsInPoll(steps, before, p)
    ensures HonestRun(before) && LedgerAfter(steps) == Poll(LedgerAfter(before), p.report, p.closed)
    ensures Honest(SourceAfter(before), OpenAfter(before), p.source, p.report) && WellNamed(p.report)
    ensures IsOrderOf(p.closed, ClosedUsers(Scan(LedgerAfter(before), p.report.conns), OpenIds(p.report.conns)))
  {}

  lemma HonestAfresh(seen: map<string, Bytes>, open: set<string>, now: map<string, Bytes>, r: Report)
    requires Honest(seen, open, now, r)
    ensures Honest(map[], {}, now, r)
  {}

  lemma HonestSince(before: seq<Step>, p: Step)
    requires HonestRun(before) && p.Polled? && Honest(SourceAfter(before), OpenAfter(before), p.source, p.report)
    ensures Honest(SeenSince(before), OpenSince(before), p.source, p.report)
  {
    if Fresh(before) {
      HonestAfresh(SourceAfter(before), OpenAfter(before), p.source, p.report);
    } else {
      OpenIsSince(before);
    }
  }

  lemma SettledPolls(l: Ledger, dropped: Bytes, seen: map<string, Bytes>, open: set<string>, p: Step)
    requires p.Polled? && Settled(l, dropped, seen, open) && Honest(seen, open, p.source, p.report)
    requires WellNamed(p.report)
    requires IsOrderOf(p.closed, ClosedUsers(Scan(l, p.report.conns), OpenIds(p.report.conns)))
    ensures Polls(l, dropped, seen, open, p)
  {}

  // The last poll of a run polls the ledger before it.
  lemma LastPoll(steps: seq<Step>, before: seq<Step>, p: Step, l: Ledger, dropped: Bytes)
    requires HonestRun(steps) && EndsInPoll(steps, before, p)
    requires l == LedgerAfter(before) && dropped == DroppedAfter(before)
    ensures HonestRun(before) && LedgerAfter(steps) == Poll(l, p.report, p.closed)
    ensures Polls(l, dropped, SeenSince(before), OpenSince(before), p)
  {
    PollIsHonest(steps, before, p);
    RunIsSettled(before);
    HonestSince(before, p);
    SettledPolls(l, dropped, SeenSince(before), OpenSince(before), p);
  }

  lemma {:induction false} RunTracks(steps: seq<Step>)
    requires HonestRun(steps)
    ensures Tracks(LedgerAfter(steps), steps)
  {
    if Fresh(steps) {
      FreshTracks(steps, "");
    } else {
      var before, p := steps[..|steps| - 1], steps[|steps| - 1];
      LastPoll(steps, before, p, LedgerAfter(before), DroppedAfter(before));
      RunTracks(before);
      PollTracks(LedgerAfter(before), DroppedAfter(before), before, p, steps);
    }
  }

  /** On every honest run the counter of a user is what the connections it owns carried since the last
      reset, plus its portions of what was left over; the counter of an outbound is what the owned
      connections through it carried. */
  lemma {:induction false} CountersAreOwned(steps: seq<Step>, key: string)
    requires HonestRun(steps) && key != ""
    ensures Get(LedgerAfter(steps).users, key) == Carried(steps, key).Plus(Received(steps, key))
  {
    if Fresh(steps) {
      FreshTracks(steps, key);
    } else {
      var before, p := steps[..|steps| - 1], steps[|steps| - 1];
      LastPoll(steps, before, p, LedgerAfter(before), DroppedAfter(before));
      CountersAreOwned(before, key);
      RunTracks(before);
      PollCounts(LedgerAfter(before), DroppedAfter(before), before, p, steps, key);
    }
  }

  /** The users of an honest poll's closed connections, in some order, are the owners of the connections
      that are no longer reported. */
  lemma ClosedAreDepartedInRuns(steps: seq<Step>, before: seq<Step>, p: Step)
    requires HonestRun(steps) && EndsInPoll(steps, before, p)
    ensures IsOrderOf(p.closed, Departed(before, p))
  {
    LastPoll(steps, before, p, LedgerAfter(before), DroppedAfter(before));
    RunTracks(before);
    ClosedAreDeparted(LedgerAfter(before), DroppedAfter(before), before, p);
  }

  // ---------------------------------------------------------------------------------------
  // Connections that keep their owner
  // ---------------------------------------------------------------------------------------

  // The bytes last reported of each connection since the last reset.
  ghost function LastReported(steps: seq<Step>): map<string, Bytes> {
    if Fresh(steps) then map[]
    else Updated(LastReported(steps[..|steps| - 1]), steps[|steps| - 1].report.conns)
  }

  ghost function PartOf(m: map<string, Bytes>, owner: string -> string, user: string): map<string, Bytes> {
    map id | id in m && owner(id) == user :: m[id]
  }

  // Each of these reports names the same owner for the same connection.
  ghost predicate Steady(heard: seq<Conn>, owner: string -> string) {
    forall i | 0 <= i < |heard| :: Owner(heard[..i], heard[i]) == owner(heard[i].id)
  }

  lemma PartOfRaised(m: map<string, Bytes>, owner: string -> string, user: string, id: string, raised: Bytes, d: Bytes)
    requires Get(m, id).Plus(d) == raised
    ensures Sum(PartOf(m[id := raised], owner, user)) ==
            Sum(PartOf(m, owner, user)).Plus(if owner(id) == user then d else NOTHING)
  {
    if owner(id) == user {
      assert PartOf(m[id := raised], owner, user) == PartOf(m, owner, user)[id := raised];
      SumOfRaised(PartOf(m, owner, user), id, raised, d);
    } else {
      assert PartOf(m[id := raised], owner, user) == PartOf(m, owner, user);
      NothingMore(Sum(PartOf(m, owner, user)));
    }
  }

  lemma SteadyOwner(heard: seq<Conn>, cs: seq<Conn>, owner: string -> string, i: nat)
    requires Steady(heard + cs, owner) && i < |cs|
    ensures Owner(heard + cs[..i], cs[i]) == owner(cs[i].id)
  {
    assert (heard + cs)[..|heard| + i] == heard + cs[..i];
    assert (heard + cs)[|heard| + i] == cs[i];
  }

  // The connections' bytes were last reported as the source was last seen.
  ghost predicate UpToDate(m: map<string, Bytes>, seen: map<string, Bytes>, cs: seq<Conn>) {
    forall c | c in cs :: Get(m, c.id) == Get(seen, c.id)
  }

  ghost predicate InFull(heard: seq<Conn>, seen: map<string, Bytes>, cs: seq<Conn>, m: map<string, Bytes>,
                         owner: string -> string, user: string) {
    Sum(PartOf(Updated(m, cs), owner, user)) ==
    Sum(PartOf(m, owner, user)).Plus(CarriedIn(heard, seen, cs, user))
  }

  lemma OneMoreInFull(heard: seq<Conn>, seen: map<string, Bytes>, cs: seq<Conn>, m: map<string, Bytes>,
                      owner: string -> string, user: string)
    requires cs != [] && InFull(heard, seen, cs[..|cs| - 1], m, owner, user) && !("outbound:" <= user)
    requires Owner(heard + cs[..|cs| - 1], cs[|cs| - 1]) == owner(cs[|cs| - 1].id)
    requires Get(m, cs[|cs| - 1].id) == Get(seen, cs[|cs| - 1].id) && Unscanned(cs[..|cs| - 1], cs[|cs| - 1].id)
    ensures InFull(heard, seen, cs, m, owner, user)
  {
    var before, c := cs[..|cs| - 1], cs[|cs| - 1];
    ScanLeaves(EMPTY, m, before, c.id);
    PartOfRaised(Updated(m, before), owner, user, c.id, c.bytes, Growth(seen, c));
    CarriedOneMore(heard, seen, cs, user, Sum(PartOf(m, owner, user)),
                   if owner(c.id) == user then Growth(seen, c) else NOTHING);
  }

  lemma SteadyFront(heard: seq<Conn>, cs: seq<Conn>, owner: string -> string, n: nat)
    requires Steady(heard + cs, owner) && n <= |cs|
    ensures Steady(heard + cs[..n], owner)
  {
    assert (heard + cs)[..|heard| + n] == heard + cs[..n];
    forall i | 0 <= i < |heard| + n
      ensures Owner((heard + cs[..n])[..i], (heard + cs[..n])[i]) == owner((heard + cs[..n])[i].id)
    {
      assert (heard + cs[..n])[..i] == (heard + cs)[..i];
    }
  }

  lemma {:induction false} ScanInFull(heard: seq<Conn>, seen: map<string, Bytes>, cs: seq<Conn>, m: map<string, Bytes>,
                                      owner: string -> string, user: string)
    requires Steady(heard + cs, owner) && UpToDate(m, seen, cs) && Distinct(cs) && !("outbound:" <= user)
    ensures InFull(heard, seen, cs, m, owner, user)
  {
    if cs == [] {
      NothingMore(Sum(PartOf(m, owner, user)));
    } else {
      SteadyFront(heard, cs, owner, |cs| - 1);
      SteadyOwner(heard, cs, owner, |cs| - 1);
      ScanInFull(heard, seen, cs[..|cs| - 1], m, owner, user);
      OneMoreInFull(heard, seen, cs, m, owner, user);
    }
  }

  // What was reported of open connections is what the source was seen to carry.
  ghost predicate ReportsMatch(steps: seq<Step>) {
    && LastReported(steps).Keys <= SeenSince(steps).Keys
    && forall id | id in OpenSince(steps) :: Get(LastReported(steps), id) == Get(SeenSince(steps), id)
  }

  lemma PollMatches(steps: seq<Step>, before: seq<Step>, p: Step)
    requires EndsInPoll(steps, before, p) && ReportsMatch(before)
    requires Honest(SeenSince(before), OpenSince(before), p.source, p.report)
    ensures ReportsMatch(steps) && UpToDate(LastReported(before), SeenSince(before), p.report.conns)
  {
    ScanKeys(EMPTY, LastReported(before), p.report.conns);
    forall id | id in ReportedIds(p.report) ensures Get(LastReported(steps), id) == Get(p.source, id) {
      var c :| c in p.report.conns && c.id == id;
      var i :| 0 <= i < |p.report.conns| && p.report.conns[i] == c;
      ScanRecordsCounters(EMPTY, LastReported(before), p.report.conns, i);
    }
  }

  lemma {:induction false} RunMatches(steps: seq<Step>)
    requires HonestRun(steps)
    ensures ReportsMatch(steps)
  {
    if !Fresh(steps) {
      var before, p := steps[..|steps| - 1], steps[|steps| - 1];
      PollIsHonest(steps, before, p);
      HonestSince(before, p);
      RunMatches(before);
      PollMatches(steps, before, p);
    }
  }

  lemma NothingReported(steps: seq<Step>, owner: string -> string, user: string)
    requires Fresh(steps)
    ensures Sum(PartOf(LastReported(steps), owner, user)) == NOTHING == Carried(steps, user)
  {
    assert PartOf(map[], owner, user) == map[];
  }

  /** While connections keep their owner, what a user's connections carried is the sum of the bytes last
      reported of each of them. */
  lemma {:induction false} SteadyOwnersAreChargedInFull(steps: seq<Step>, owner: string -> string, user: string)
    requires HonestRun(steps) && Steady(Heard(steps), owner) && !("outbound:" <= user)
    ensures Carried(steps, user) == Sum(PartOf(LastReported(steps), owner, user))
  {
    if Fresh(steps) {
      NothingReported(steps, owner, user);
    } else {
      var before, p := steps[..|steps| - 1], steps[|steps| - 1];
      PollIsHonest(steps, before, p);
      HonestSince(before, p);
      RunMatches(before);
      PollMatches(steps, before, p);
      SteadyFront(Heard(before), p.report.conns, owner, 0);
      assert Heard(before) + p.report.conns[..0] == Heard(before);
      SteadyOwnersAreChargedInFull(before, owner, user);
      ScanInFull(Heard(before), SeenSince(before), p.report.conns, LastReported(before), owner, user);
    }
  }
}
