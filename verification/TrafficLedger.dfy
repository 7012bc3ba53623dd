/** Per-user traffic accounting of one sing-box instance from its polled counters
    (pkg/supervisor/singbox.go).

    A poll reports the bytes carried by every open connection and the two grand totals.  The
    ledger turns the reports into cumulative per-user counters.  It is compared with the
    traffic source itself: the bytes carried by every connection that was ever opened. */
module TrafficLedger {
  import opened Text

  datatype Bytes = Bytes(up: int, down: int) {
    function Plus(b: Bytes): Bytes { Bytes(up + b.up, down + b.down) }
    function Minus(b: Bytes): Bytes { Bytes(up - b.up, down - b.down) }
    predicate AtMost(b: Bytes) { up <= b.up && down <= b.down }
  }

  const NOTHING := Bytes(0, 0)
  const OUTBOUND_PREFIX := "outbound:"

  // One entry of the `connections` list.  `claims` are the twelve fields that may name the
  // user, in the order they are consulted, and `resolved` is the session tracker's answer.
  datatype Conn = Conn(id: string, bytes: Bytes, claims: seq<string>, resolved: string, sourceIP: string,
                       outbound: string, chains: seq<string>, metaChains: seq<string>)

  // `fallback` is the session tracker's answer when it is asked without an address.
  datatype Report = Report(totals: Bytes, conns: seq<Conn>, fallback: string)

  datatype Ledger = Ledger(users: map<string, Bytes>, lastConn: map<string, Bytes>,
                           connUser: map<string, string>, lastTotals: Bytes, lastSeen: string)

  const EMPTY := Ledger(map[], map[], map[], NOTHING, "")

  predicate IsOutbound(key: string) { HasPrefix(key, OUTBOUND_PREFIX) }

  function Get(m: map<string, Bytes>, k: string): Bytes { if k in m then m[k] else NOTHING }

  function Credit(m: map<string, Bytes>, k: string, d: Bytes): map<string, Bytes> {
    m[k := Get(m, k).Plus(d)]
  }

  // ---------------------------------------------------------------------------------------
  // One poll, as a function of the ledger
  // ---------------------------------------------------------------------------------------

  // A counter that went backwards was reset, so all of it is new.
  function Advance(prev: int, cur: int): int { if cur >= prev then cur - prev else cur }

  function Delta(prev: Bytes, cur: Bytes): Bytes {
    Bytes(Advance(prev.up, cur.up), Advance(prev.down, cur.down))
  }

  function FirstNonEmpty(claims: seq<string>): string {
    if claims == [] then "" else if claims[0] != "" then claims[0] else FirstNonEmpty(claims[1..])
  }

  function UserOf(c: Conn, lastSeen: string): string {
    var claimed := FirstNonEmpty(c.claims);
    var user := TrimSpace(if claimed == "" then c.resolved else claimed);
    if user == "" && (c.sourceIP == "" || c.sourceIP == "127.0.0.1") then lastSeen else user
  }

  function LastOr(tags: seq<string>, tag: string): string {
    if tag == "" && tags != [] then tags[|tags| - 1] else tag
  }

  function OutboundTag(c: Conn): string { LastOr(c.metaChains, LastOr(c.chains, c.outbound)) }

  predicate Attributed(tag: string) {
    tag != "" && tag != "direct" && tag != "block" && tag != "blocked"
  }

  function OutboundKey(tag: string): string { OUTBOUND_PREFIX + tag }

  function ConnDelta(l: Ledger, c: Conn): Bytes { Delta(Get(l.lastConn, c.id), c.bytes) }

  // A connection whose user and outbound tag are known.
  function Attribute(l: Ledger, id: string, bytes: Bytes, user: string, tag: string): Ledger {
    var d := Delta(Get(l.lastConn, id), bytes);
    var l' := l.(lastConn := l.lastConn[id := bytes]);
    if user == "" then l'
    else
      var users := Credit(l.users, user, d);
      l'.(users := if Attributed(tag) then Credit(users, OutboundKey(tag), d) else users,
          connUser := if id != "" then l.connUser[id := user] else l.connUser,
          lastSeen := user)
  }

  function ConnStep(l: Ledger, c: Conn): Ledger {
    Attribute(l, c.id, c.bytes, UserOf(c, l.lastSeen), OutboundTag(c))
  }

  function Scan(l: Ledger, cs: seq<Conn>): Ledger {
    if cs == [] then l else ConnStep(Scan(l, cs[..|cs| - 1]), cs[|cs| - 1])
  }

  // What the open connections carried since the last poll.
  function Active(l: Ledger, cs: seq<Conn>): Bytes {
    if cs == [] then NOTHING
    else
      var before := cs[..|cs| - 1];
      Active(l, before).Plus(ConnDelta(Scan(l, before), cs[|cs| - 1]))
  }

  // The part of it that belongs to nobody.
  function Unclaimed(l: Ledger, cs: seq<Conn>): Bytes {
    if cs == [] then NOTHING
    else
      var before, c := cs[..|cs| - 1], cs[|cs| - 1];
      var s := Scan(l, before);
      if UserOf(c, s.lastSeen) == "" then Unclaimed(l, before).Plus(ConnDelta(s, c)) else Unclaimed(l, before)
  }

  function OpenIds(cs: seq<Conn>): set<string> {
    set c | c in cs && c.id != "" :: c.id
  }

  function ClosedUsers(l: Ledger, open: set<string>): set<string> {
    set id | id in l.connUser && id !in open && l.connUser[id] != "" :: l.connUser[id]
  }

  function Forget(l: Ledger, open: set<string>): Ledger {
    l.(connUser := map id | id in l.connUser && id in open :: l.connUser[id],
       lastConn := map id | id in l.lastConn && (id in open || id !in l.connUser) :: l.lastConn[id])
  }

  // Go's truncating division and remainder, for a positive divisor.
  function Quotient(x: int, n: nat): int
    requires n > 0
  {
    if x >= 0 then x / n else -((-x) / n)
  }

  function Remainder(x: int, n: nat): int
    requires n > 0
  {
    x - Quotient(x, n) * n
  }

  function Share(left: Bytes, n: nat, i: nat): Bytes
    requires n > 0
  {
    var per := Bytes(Quotient(left.up, n), Quotient(left.down, n));
    if i == 0 then per.Plus(Bytes(Remainder(left.up, n), Remainder(left.down, n))) else per
  }

  // The users after the first `k` targets received their shares.
  function Spread(users: map<string, Bytes>, targets: seq<string>, left: Bytes, k: nat): map<string, Bytes>
    requires k <= |targets|
  {
    if k == 0 then users
    else Credit(Spread(users, targets, left, k - 1), targets[k - 1], Share(left, |targets|, k - 1))
  }

  // Who receives the bytes no open connection accounts for.
  ghost function Targets(l: Ledger, closed: seq<string>, fallback: string): seq<string> {
    if closed != [] then closed
    else if l.lastSeen != "" then [l.lastSeen]
    else if |l.users| == 1 then var u :| u in l.users; [u]
    else if fallback != "" then [fallback]
    else []
  }

  predicate Reports(totals: Bytes) { totals.down > 0 || totals.up > 0 }

  function Unaccounted(l: Ledger, totals: Bytes, active: Bytes): Bytes {
    Delta(l.lastTotals, totals).Minus(active)
  }

  ghost function Settle(l: Ledger, r: Report, active: Bytes, closed: seq<string>): Ledger {
    if !Reports(r.totals) then l
    else
      var left := Unaccounted(l, r.totals, active);
      var targets := Targets(l, closed, r.fallback);
      l.(lastTotals := r.totals,
         users := if left.up > 0 || left.down > 0 then Spread(l.users, targets, left, |targets|) else l.users)
  }

  function KeepOpen(l: Ledger, open: set<string>): Ledger {
    l.(lastConn := map id | id in l.lastConn && id in open :: l.lastConn[id])
  }

  // `closed` lists the users of the connections that closed, in the map order of this poll.
  ghost function Poll(l: Ledger, r: Report, closed: seq<string>): Ledger {
    var open := OpenIds(r.conns);
    KeepOpen(Settle(Forget(Scan(l, r.conns), open), r, Active(l, r.conns), closed), open)
  }

  // `closed` is some order of the users whose connections closed.
  ghost predicate IsOrderOf(closed: seq<string>, users: set<string>) {
    && (forall u :: u in closed <==> u in users)
    && (forall i, j | 0 <= i < j < |closed| :: closed[i] != closed[j])
  }

  // ---------------------------------------------------------------------------------------
  // Sums over maps
  // ---------------------------------------------------------------------------------------

  ghost function Sum(m: map<string, Bytes>): Bytes {
    if m == map[] then NOTHING else var k :| k in m; m[k].Plus(Sum(m - {k}))
  }

  lemma {:induction false} SumWithout(m: map<string, Bytes>, k: string)
    requires k in m
    ensures Sum(m) == m[k].Plus(Sum(m - {k}))
    decreases |m|
  {
    var j :| j in m && Sum(m) == m[j].Plus(Sum(m - {j}));
    if j != k {
      var rest := m - {j} - {k};
      assert rest == m - {k} - {j};
      SumWithout(m - {j}, k);
      SumWithout(m - {k}, j);
      assert (m - {j})[k] == m[k] && (m - {k})[j] == m[j];
      assert Sum(m) == m[j].Plus(m[k].Plus(Sum(rest)));
      assert Sum(m - {k}) == m[j].Plus(Sum(rest));
    }
  }

  lemma SumOfCredit(m: map<string, Bytes>, k: string, d: Bytes)
    ensures Sum(Credit(m, k, d)) == Sum(m).Plus(d)
  {
    var m' := Credit(m, k, d);
    SumWithout(m', k);
    assert m' - {k} == m - {k};
    if k in m { SumWithout(m, k); } else { assert m - {k} == m; }
  }

  ghost predicate NonNegative(m: map<string, Bytes>) {
    forall k | k in m :: NOTHING.AtMost(m[k])
  }

  lemma {:induction false} SumIsMonotone(m: map<string, Bytes>, m': map<string, Bytes>)
    requires forall k | k in m :: k in m' && m[k].AtMost(m'[k])
    requires NonNegative(m')
    ensures Sum(m).AtMost(Sum(m'))
    decreases |m'|
  {
    if k :| k in m' {
      SumWithout(m', k);
      if k in m {
        SumWithout(m, k);
        SumIsMonotone(m - {k}, m' - {k});
      } else {
        SumIsMonotone(m, m' - {k});
      }
    }
  }

  lemma EachAtMostSum(m: map<string, Bytes>, k: string)
    requires NonNegative(m) && k in m
    ensures m[k].AtMost(Sum(m))
  {
    SumWithout(m, k);
    SumIsMonotone(map[], m - {k});
  }

  // The counters of users, and those of outbound tags.
  ghost function Part(m: map<string, Bytes>, outbound: bool): map<string, Bytes> {
    map k | k in m && IsOutbound(k) == outbound :: m[k]
  }

  lemma PartSumOfCredit(m: map<string, Bytes>, k: string, d: Bytes, outbound: bool)
    ensures Sum(Part(Credit(m, k, d), outbound)) ==
            if IsOutbound(k) == outbound then Sum(Part(m, outbound)).Plus(d) else Sum(Part(m, outbound))
  {
    if IsOutbound(k) == outbound {
      assert Part(Credit(m, k, d), outbound) == Credit(Part(m, outbound), k, d);
      SumOfCredit(Part(m, outbound), k, d);
    } else {
      assert Part(Credit(m, k, d), outbound) == Part(m, outbound);
    }
  }

  // ---------------------------------------------------------------------------------------
  // The traffic source
  // ---------------------------------------------------------------------------------------

  // The source polled after it was last seen as `before`, with `open` then open: counters only
  // grow, ids are not reused, and the report is about the connections that are open now.
  ghost predicate Honest(before: map<string, Bytes>, open: set<string>, now: map<string, Bytes>, r: Report) {
    && NonNegative(now)
    && (forall id | id in before :: id in now && before[id].AtMost(now[id]))
    && (forall c | c in r.conns :: c.id != "" && c.id in now && c.bytes == now[c.id])
    && (forall c | c in r.conns && c.id in before :: c.id in open)
    && (forall i, j | 0 <= i < j < |r.conns| :: r.conns[i].id != r.conns[j].id)
    && r.totals == Sum(now)
  }

  // No user is called "outbound:...".
  predicate WellNamed(r: Report) {
    && !IsOutbound(TrimSpace(r.fallback)) && !IsOutbound(r.fallback)
    && forall c | c in r.conns ::
         !IsOutbound(TrimSpace(c.resolved)) && forall e | e in c.claims :: !IsOutbound(TrimSpace(e))
  }

  lemma FirstNonEmptyIsAClaim(claims: seq<string>)
    ensures FirstNonEmpty(claims) == "" || FirstNonEmpty(claims) in claims
  {}

  lemma UserIsWellNamed(c: Conn, lastSeen: string)
    requires !IsOutbound(lastSeen) && !IsOutbound(TrimSpace(c.resolved))
    requires forall e | e in c.claims :: !IsOutbound(TrimSpace(e))
    ensures !IsOutbound(UserOf(c, lastSeen))
  {
    FirstNonEmptyIsAClaim(c.claims);
  }

  // ---------------------------------------------------------------------------------------
  // What every poll keeps
  // ---------------------------------------------------------------------------------------

  ghost predicate Named(l: Ledger) {
    && !IsOutbound(l.lastSeen)
    && (forall id | id in l.connUser :: !IsOutbound(l.connUser[id]))
    && (l.lastSeen == "" ==> forall u | u in l.users :: !IsOutbound(u))
  }

  ghost predicate AddUp(own: Bytes, out: Bytes, dropped: Bytes, total: Bytes) {
    own.Plus(dropped) == total && out.AtMost(own)
  }

  // The users' counters and the dropped bytes add up to `total`.
  ghost predicate Conserves(users: map<string, Bytes>, dropped: Bytes, total: Bytes) {
    && NonNegative(users) && NOTHING.AtMost(dropped)
    && AddUp(Sum(Part(users, false)), Sum(Part(users, true)), dropped, total)
  }

  // The ledger has settled the source `seen`, of which `open` was open.
  ghost predicate Settled(l: Ledger, dropped: Bytes, seen: map<string, Bytes>, open: set<string>) {
    && open <= seen.Keys && "" !in open && NonNegative(seen)
    && l.lastConn == (map id | id in open :: seen[id])
    && l.connUser.Keys <= open
    && l.lastTotals == Sum(seen)
    && Named(l) && Conserves(l.users, dropped, Sum(seen))
  }

  ghost predicate NoneDecreases(m: map<string, Bytes>, m': map<string, Bytes>) {
    forall k | k in m :: k in m' && m[k].AtMost(m'[k])
  }

  // `seen` brought up to date for the reported connections.
  ghost function Updated(seen: map<string, Bytes>, cs: seq<Conn>): map<string, Bytes> {
    if cs == [] then seen else Updated(seen, cs[..|cs| - 1])[cs[|cs| - 1].id := cs[|cs| - 1].bytes]
  }

  lemma CreditGrows(users: map<string, Bytes>, k: string, d: Bytes)
    requires NonNegative(users) && NOTHING.AtMost(d)
    ensures NonNegative(Credit(users, k, d)) && NoneDecreases(users, Credit(users, k, d))
  {}

  lemma AddUpOneMore(own: Bytes, out: Bytes, dropped: Bytes, total: Bytes, d: Bytes)
    requires AddUp(own, out, dropped, total) && NOTHING.AtMost(d)
    ensures AddUp(own.Plus(d), out, dropped, total.Plus(d)) && out.Plus(d).AtMost(own.Plus(d))
  {}

  lemma CreditUser(users: map<string, Bytes>, dropped: Bytes, total: Bytes, user: string, d: Bytes)
    requires Conserves(users, dropped, total) && NOTHING.AtMost(d) && !IsOutbound(user)
    ensures Conserves(Credit(users, user, d), dropped, total.Plus(d))
    ensures Sum(Part(Credit(users, user, d), true)).Plus(d).AtMost(Sum(Part(Credit(users, user, d), false)))
  {
    CreditGrows(users, user, d);
    PartSumOfCredit(users, user, d, false);
    PartSumOfCredit(users, user, d, true);
    AddUpOneMore(Sum(Part(users, false)), Sum(Part(users, true)), dropped, total, d);
  }

  lemma CreditOutbound(users: map<string, Bytes>, dropped: Bytes, total: Bytes, key: string, d: Bytes)
    requires Conserves(users, dropped, total) && NOTHING.AtMost(d) && IsOutbound(key)
    requires Sum(Part(users, true)).Plus(d).AtMost(Sum(Part(users, false)))
    ensures Conserves(Credit(users, key, d), dropped, total)
  {
    CreditGrows(users, key, d);
    PartSumOfCredit(users, key, d, false);
    PartSumOfCredit(users, key, d, true);
  }

  lemma OutboundKeyIsOutbound(tag: string)
    ensures IsOutbound(OutboundKey(tag))
  {}

  lemma AttributeKeepsNames(l: Ledger, id: string, bytes: Bytes, user: string, tag: string)
    requires Named(l) && !IsOutbound(user)
    ensures Named(Attribute(l, id, bytes, user, tag))
  {}

  lemma AttributeConserves(l: Ledger, id: string, bytes: Bytes, user: string, tag: string,
                           dropped: Bytes, total: Bytes)
    requires Conserves(l.users, dropped, total) && !IsOutbound(user)
    requires NOTHING.AtMost(Delta(Get(l.lastConn, id), bytes))
    ensures var d, l' := Delta(Get(l.lastConn, id), bytes), Attribute(l, id, bytes, user, tag);
            && NoneDecreases(l.users, l'.users)
            && Conserves(l'.users, if user == "" then dropped.Plus(d) else dropped, total.Plus(d))
  {
    if user != "" {
      var d := Delta(Get(l.lastConn, id), bytes);
      var users := Credit(l.users, user, d);
      CreditGrows(l.users, user, d);
      CreditUser(l.users, dropped, total, user, d);
      if Attributed(tag) {
        var key := OutboundKey(tag);
        OutboundKeyIsOutbound(tag);
        CreditGrows(users, key, d);
        CreditOutbound(users, dropped, total.Plus(d), key, d);
        GrowthComposes(l.users, users, Credit(users, key, d));
      }
    }
  }

  lemma GrowthComposes(a: map<string, Bytes>, b: map<string, Bytes>, c: map<string, Bytes>)
    requires NoneDecreases(a, b) && NoneDecreases(b, c)
    ensures NoneDecreases(a, c)
  {}

  ghost predicate Distinct(cs: seq<Conn>) {
    forall i, j | 0 <= i < j < |cs| :: cs[i].id != cs[j].id
  }

  ghost function Ids(cs: seq<Conn>): set<string> { set c | c in cs :: c.id }

  lemma IdsOfOneMore(cs: seq<Conn>, c: Conn)
    ensures Ids(cs + [c]) == Ids(cs) + {c.id}
  {
    forall id ensures id in Ids(cs + [c]) <==> id in Ids(cs) + {c.id} {
      if id in Ids(cs) { var x :| x in cs && x.id == id; assert x in cs + [c]; }
      if id == c.id { assert c in cs + [c]; }
    }
  }

  lemma AttributeTouches(l: Ledger, id: string, bytes: Bytes, user: string, tag: string)
    ensures var l' := Attribute(l, id, bytes, user, tag);
            && l'.lastTotals == l.lastTotals
            && l'.lastConn == l.lastConn[id := bytes]
            && l'.connUser.Keys <= l.connUser.Keys + {id}
  {}

  lemma {:induction false} ScanKeys(l: Ledger, seen: map<string, Bytes>, cs: seq<Conn>)
    ensures var s := Scan(l, cs);
            && s.lastTotals == l.lastTotals
            && s.lastConn.Keys == l.lastConn.Keys + Ids(cs)
            && s.connUser.Keys <= l.connUser.Keys + Ids(cs)
            && Updated(seen, cs).Keys == seen.Keys + Ids(cs)
  {
    if cs != [] {
      var before, c := cs[..|cs| - 1], cs[|cs| - 1];
      ScanKeys(l, seen, before);
      assert Ids(cs) == Ids(before) + {c.id} by { IdsOfOneMore(before, c); assert cs == before + [c]; }
      var s := Scan(l, before);
      AttributeTouches(s, c.id, c.bytes, UserOf(c, s.lastSeen), OutboundTag(c));
    }
  }

  ghost predicate Unscanned(cs: seq<Conn>, id: string) { forall i | 0 <= i < |cs| :: cs[i].id != id }

  // The counter of a connection that is not scanned stays as it was.
  lemma {:induction false} ScanLeaves(l: Ledger, seen: map<string, Bytes>, cs: seq<Conn>, id: string)
    requires Unscanned(cs, id)
    ensures Get(Scan(l, cs).lastConn, id) == Get(l.lastConn, id)
    ensures Get(Updated(seen, cs), id) == Get(seen, id)
  {
    if cs != [] {
      var before, c := cs[..|cs| - 1], cs[|cs| - 1];
      ScanLeaves(l, seen, before, id);
      var s := Scan(l, before);
      AttributeTouches(s, c.id, c.bytes, UserOf(c, s.lastSeen), OutboundTag(c));
    }
  }

  // Each scanned connection leaves its counter behind.
  lemma {:induction false} ScanRecordsCounters(l: Ledger, seen: map<string, Bytes>, cs: seq<Conn>, i: nat)
    requires Distinct(cs) && i < |cs|
    ensures Get(Scan(l, cs).lastConn, cs[i].id) == cs[i].bytes == Get(Updated(seen, cs), cs[i].id)
  {
    if i < |cs| - 1 { ScanRecordsCounters(l, seen, cs[..|cs| - 1], i); }
  }

  // A connection whose counter has not gone back since it was last seen.
  ghost predicate Proper(l: Ledger, seen: map<string, Bytes>, c: Conn) {
    && Get(l.lastConn, c.id) == Get(seen, c.id) && Get(seen, c.id).AtMost(c.bytes)
    && !IsOutbound(TrimSpace(c.resolved)) && forall e | e in c.claims :: !IsOutbound(TrimSpace(e))
  }

  // What the scan needs of the ledger and of the connections.
  ghost predicate Scannable(l: Ledger, seen: map<string, Bytes>, cs: seq<Conn>) {
    Distinct(cs) && forall c | c in cs :: Proper(l, seen, c)
  }

  // A ledger reached from `l` whose users account for `total`, and counters that sum to `settled`.
  ghost predicate Balanced(l: Ledger, s: Ledger, counters: map<string, Bytes>, settled: Bytes, dropped: Bytes,
                           total: Bytes) {
    Named(s) && NoneDecreases(l.users, s.users) && Conserves(s.users, dropped, total) && Sum(counters) == settled
  }

  ghost predicate ScanBalance(l: Ledger, seen: map<string, Bytes>, cs: seq<Conn>, dropped: Bytes, total: Bytes) {
    Balanced(l, Scan(l, cs), Updated(seen, cs), Sum(seen).Plus(Active(l, cs)), dropped.Plus(Unclaimed(l, cs)),
             total.Plus(Active(l, cs)))
  }

  lemma SumOfRaised(m: map<string, Bytes>, k: string, raised: Bytes, d: Bytes)
    requires Get(m, k).Plus(d) == raised
    ensures Sum(m[k := raised]) == Sum(m).Plus(d)
  {
    SumOfCredit(m, k, d);
    assert m[k := raised] == Credit(m, k, d);
  }

  // Credits for the newest connection carry the balance over.
  lemma BalanceOneMore(l: Ledger, s: Ledger, c: Conn, user: string, seen: map<string, Bytes>, settled: Bytes,
                       dropped: Bytes, total: Bytes)
    requires Balanced(l, s, seen, settled, dropped, total) && Get(s.lastConn, c.id) == Get(seen, c.id)
    requires Get(s.lastConn, c.id).AtMost(c.bytes) && !IsOutbound(user)
    ensures var d := ConnDelta(s, c);
            Balanced(l, Attribute(s, c.id, c.bytes, user, OutboundTag(c)), seen[c.id := c.bytes], settled.Plus(d),
                     if user == "" then dropped.Plus(d) else dropped, total.Plus(d))
  {
    var d, tag := ConnDelta(s, c), OutboundTag(c);
    var s' := Attribute(s, c.id, c.bytes, user, tag);
    assert Named(s') by { AttributeKeepsNames(s, c.id, c.bytes, user, tag); }
    AttributeConserves(s, c.id, c.bytes, user, tag, dropped, total);
    GrowthComposes(l.users, s.users, s'.users);
    SumOfRaised(seen, c.id, c.bytes, d);
  }

  lemma ScanUnfolds(l: Ledger, seen: map<string, Bytes>, cs: seq<Conn>)
    requires cs != []
    ensures var before, c := cs[..|cs| - 1], cs[|cs| - 1];
            var s := Scan(l, before);
            var d, user, lost := ConnDelta(s, c), UserOf(c, s.lastSeen), Unclaimed(l, before);
            && Scan(l, cs) == Attribute(s, c.id, c.bytes, user, OutboundTag(c))
            && Unclaimed(l, cs) == (if user == "" then lost.Plus(d) else lost)
            && Active(l, cs) == Active(l, before).Plus(d)
            && Updated(seen, cs) == Updated(seen, before)[c.id := c.bytes]
  {}

  lemma PlusAssociates(a: Bytes, b: Bytes, c: Bytes)
    ensures a.Plus(b).Plus(c) == a.Plus(b.Plus(c))
  {}

  // The scan is about to charge `c` against the counter it was last seen with.
  ghost predicate Ready(s: Ledger, counters: map<string, Bytes>, c: Conn) {
    && Get(s.lastConn, c.id) == Get(counters, c.id) && Get(s.lastConn, c.id).AtMost(c.bytes)
    && !IsOutbound(UserOf(c, s.lastSeen))
  }

  lemma ScanStep(l: Ledger, seen: map<string, Bytes>, cs: seq<Conn>, dropped: Bytes, total: Bytes)
    requires cs != [] && ScanBalance(l, seen, cs[..|cs| - 1], dropped, total)
    requires Ready(Scan(l, cs[..|cs| - 1]), Updated(seen, cs[..|cs| - 1]), cs[|cs| - 1])
    ensures ScanBalance(l, seen, cs, dropped, total)
  {
    var before, c := cs[..|cs| - 1], cs[|cs| - 1];
    var s, counters := Scan(l, before), Updated(seen, before);
    var d, user := ConnDelta(s, c), UserOf(c, s.lastSeen);
    var lost, active := Unclaimed(l, before), Active(l, before);
    BalanceOneMore(l, s, c, user, counters, Sum(seen).Plus(active), dropped.Plus(lost), total.Plus(active));
    ScanUnfolds(l, seen, cs);
    PlusAssociates(dropped, lost, d);
    PlusAssociates(total, active, d);
    PlusAssociates(Sum(seen), active, d);
  }

  lemma ScannableFront(l: Ledger, seen: map<string, Bytes>, cs: seq<Conn>)
    requires cs != [] && Scannable(l, seen, cs)
    ensures Scannable(l, seen, cs[..|cs| - 1])
    ensures Proper(l, seen, cs[|cs| - 1]) && Unscanned(cs[..|cs| - 1], cs[|cs| - 1].id)
  {
    assert cs[|cs| - 1] in cs;
  }

  lemma NextIsReady(l: Ledger, seen: map<string, Bytes>, before: seq<Conn>, c: Conn)
    requires Proper(l, seen, c) && Unscanned(before, c.id) && Named(Scan(l, before))
    ensures Ready(Scan(l, before), Updated(seen, before), c)
  {
    ScanLeaves(l, seen, before, c.id);
    UserIsWellNamed(c, Scan(l, before).lastSeen);
  }

  lemma {:induction false} ScanConserves(l: Ledger, seen: map<string, Bytes>, cs: seq<Conn>, dropped: Bytes,
                                         total: Bytes)
    requires Named(l) && Conserves(l.users, dropped, total) && Scannable(l, seen, cs)
    ensures ScanBalance(l, seen, cs, dropped, total)
  {
    if cs == [] {
      NothingScanned(l, seen, cs, dropped, total);
    } else {
      var before := cs[..|cs| - 1];
      ScannableFront(l, seen, cs);
      ScanConserves(l, seen, before, dropped, total);
      NextIsReady(l, seen, before, cs[|cs| - 1]);
      ScanStep(l, seen, cs, dropped, total);
    }
  }

  lemma PlusNothing(a: Bytes)
    ensures a.Plus(NOTHING) == a
  {}

  lemma EmptyScan(l: Ledger, seen: map<string, Bytes>, cs: seq<Conn>)
    requires cs == []
    ensures Scan(l, cs) == l && Updated(seen, cs) == seen && Unclaimed(l, cs) == NOTHING && Active(l, cs) == NOTHING
  {}

  lemma NothingGrows(l: Ledger)
    ensures NoneDecreases(l.users, l.users)
  {}

  lemma NothingScanned(l: Ledger, seen: map<string, Bytes>, cs: seq<Conn>, dropped: Bytes, total: Bytes)
    requires cs == [] && Named(l) && Conserves(l.users, dropped, total)
    ensures ScanBalance(l, seen, cs, dropped, total)
  {
    EmptyScan(l, seen, cs);
    PlusNothing(dropped);
    PlusNothing(total);
    PlusNothing(Sum(seen));
    NothingGrows(l);
    assert Balanced(l, l, seen, Sum(seen), dropped, total);
  }

  // ---------------------------------------------------------------------------------------
  // The bytes no open connection accounts for
  // ---------------------------------------------------------------------------------------

  ghost function Shares(left: Bytes, n: nat, k: nat): Bytes
    requires n > 0
  {
    if k == 0 then NOTHING else Shares(left, n, k - 1).Plus(Share(left, n, k - 1))
  }

  lemma {:induction false} SharesClosedForm(left: Bytes, n: nat, k: nat)
    requires 0 < k <= n
    ensures Shares(left, n, k).up == k * Quotient(left.up, n) + Remainder(left.up, n)
    ensures Shares(left, n, k).down == k * Quotient(left.down, n) + Remainder(left.down, n)
  {
    if k > 1 { SharesClosedForm(left, n, k - 1); } else { assert Shares(left, n, 0) == NOTHING; }
  }

  /** Integer shares plus the remainder hand out exactly what is left, whatever its sign. */
  lemma SharesAddUp(left: Bytes, n: nat)
    requires n > 0
    ensures Shares(left, n, n) == left
  {
    SharesClosedForm(left, n, n);
    assert n * Quotient(left.up, n) == Quotient(left.up, n) * n;
    assert n * Quotient(left.down, n) == Quotient(left.down, n) * n;
  }

  lemma ShareIsNonNegative(left: Bytes, n: nat, i: nat)
    requires n > 0 && NOTHING.AtMost(left)
    ensures NOTHING.AtMost(Share(left, n, i))
  {}

  lemma {:induction false} SpreadConserves(users: map<string, Bytes>, targets: seq<string>, left: Bytes, k: nat,
                                           dropped: Bytes, total: Bytes)
    requires 0 < |targets| && k <= |targets| && NOTHING.AtMost(left)
    requires Conserves(users, dropped, total) && forall t | t in targets :: !IsOutbound(t)
    ensures Conserves(Spread(users, targets, left, k), dropped, total.Plus(Shares(left, |targets|, k)))
    ensures NoneDecreases(users, Spread(users, targets, left, k))
    ensures forall u | u in Spread(users, targets, left, k) :: u in users || u in targets
  {
    if k > 0 {
      SpreadConserves(users, targets, left, k - 1, dropped, total);
      var before, share := Spread(users, targets, left, k - 1), Share(left, |targets|, k - 1);
      var settled := Shares(left, |targets|, k - 1);
      ShareIsNonNegative(left, |targets|, k - 1);
      CreditUser(before, dropped, total.Plus(settled), targets[k - 1], share);
      CreditGrows(before, targets[k - 1], share);
      PlusAssociates(total, settled, share);
      GrowthComposes(users, before, Credit(before, targets[k - 1], share));
    }
  }

  lemma TargetsAreUsers(l: Ledger, closed: seq<string>, fallback: string)
    requires Named(l) && !IsOutbound(fallback) && forall t | t in closed :: !IsOutbound(t)
    ensures forall t | t in Targets(l, closed, fallback) :: !IsOutbound(t)
  {}

  // The unaccounted bytes that find no target.
  ghost function LeftOver(s: Ledger, r: Report, active: Bytes, closed: seq<string>): Bytes {
    var left := Unaccounted(s, r.totals, active);
    if Reports(r.totals) && (left.up > 0 || left.down > 0) && Targets(s, closed, r.fallback) == []
    then left else NOTHING
  }

  // The bytes of this poll that no user receives.
  ghost function Dropped(l: Ledger, r: Report, closed: seq<string>): Bytes {
    Unclaimed(l, r.conns).Plus(
      LeftOver(Forget(Scan(l, r.conns), OpenIds(r.conns)), r, Active(l, r.conns), closed))
  }

  lemma SpreadSettles(s: Ledger, targets: seq<string>, left: Bytes, dropped: Bytes, total: Bytes)
    requires Named(s) && Conserves(s.users, dropped, total) && NOTHING.AtMost(left)
    requires targets != [] && forall t | t in targets :: !IsOutbound(t)
    ensures var users := Spread(s.users, targets, left, |targets|);
            && NoneDecreases(s.users, users) && Conserves(users, dropped, total.Plus(left))
            && Named(s.(users := users))
  {
    SpreadConserves(s.users, targets, left, |targets|, dropped, total);
    SharesAddUp(left, |targets|);
  }

  // Without targets everything is dropped.
  lemma SpreadOrDrop(s: Ledger, targets: seq<string>, left: Bytes, dropped: Bytes, total: Bytes)
    requires Named(s) && Conserves(s.users, dropped, total) && NOTHING.AtMost(left)
    requires forall t | t in targets :: !IsOutbound(t)
    ensures var users := Spread(s.users, targets, left, |targets|);
            && NoneDecreases(s.users, users) && Named(s.(users := users))
            && Conserves(users, dropped.Plus(if targets == [] then left else NOTHING), total.Plus(left))
  {
    if targets == [] {
      NothingGrows(s);
      DropConserves(s.users, left, dropped, total);
      assert Spread(s.users, targets, left, |targets|) == s.users;
    } else {
      PlusNothing(dropped);
      SpreadSettles(s, targets, left, dropped, total);
    }
  }

  lemma DropConserves(users: map<string, Bytes>, left: Bytes, dropped: Bytes, total: Bytes)
    requires Conserves(users, dropped, total) && NOTHING.AtMost(left)
    ensures Conserves(users, dropped.Plus(left), total.Plus(left))
  {
    PlusAssociates(Sum(Part(users, false)), dropped, left);
  }

  lemma TotalsCoverTheLeftOver(s: Ledger, totals: Bytes, active: Bytes, dropped: Bytes, total: Bytes)
    requires Conserves(s.users, dropped, total)
    requires NOTHING.AtMost(s.lastTotals) && s.lastTotals.AtMost(totals)
    requires total == s.lastTotals.Plus(active) && total.AtMost(totals)
    ensures var left := Unaccounted(s, totals, active);
            && NOTHING.AtMost(left) && total.Plus(left) == totals
            && (!Reports(totals) || (left.up <= 0 && left.down <= 0) ==> left == NOTHING && total == totals)
            && (!Reports(totals) ==> s.lastTotals == totals)
  {
    SumIsMonotone(map[], Part(s.users, false));
  }

  // Settling the totals hands out or drops exactly what is left.
  lemma SettleConserves(s: Ledger, r: Report, active: Bytes, closed: seq<string>, dropped: Bytes, total: Bytes)
    requires Named(s) && Conserves(s.users, dropped, total)
    requires NOTHING.AtMost(s.lastTotals) && s.lastTotals.AtMost(r.totals)
    requires total == s.lastTotals.Plus(active) && total.AtMost(r.totals)
    requires !IsOutbound(r.fallback) && forall t | t in closed :: !IsOutbound(t)
    ensures var s', left := Settle(s, r, active, closed), Unaccounted(s, r.totals, active);
            && NOTHING.AtMost(left)
            && Named(s') && NoneDecreases(s.users, s'.users) && s'.lastTotals == r.totals
            && s'.lastConn == s.lastConn && s'.connUser == s.connUser
            && Conserves(s'.users, dropped.Plus(LeftOver(s, r, active, closed)), r.totals)
  {
    var left := Unaccounted(s, r.totals, active);
    TotalsCoverTheLeftOver(s, r.totals, active, dropped, total);
    if Reports(r.totals) && (left.up > 0 || left.down > 0) {
      TargetsAreUsers(s, closed, r.fallback);
      SpreadOrDrop(s, Targets(s, closed, r.fallback), left, dropped, total);
    } else {
      PlusNothing(dropped);
      NothingGrows(s);
    }
  }

  // What follows the scan, for any scanned ledger.
  lemma FinishConserves(s: Ledger, open: set<string>, r: Report, active: Bytes, closed: seq<string>,
                        dropped: Bytes, total: Bytes)
    requires Named(s) && Conserves(s.users, dropped, total)
    requires NOTHING.AtMost(s.lastTotals) && s.lastTotals.AtMost(r.totals)
    requires total == s.lastTotals.Plus(active) && total.AtMost(r.totals)
    requires !IsOutbound(r.fallback) && forall t | t in closed :: !IsOutbound(t)
    ensures var f := Forget(s, open);
            var s' := KeepOpen(Settle(f, r, active, closed), open);
            && NOTHING.AtMost(Unaccounted(f, r.totals, active))
            && Named(s') && NoneDecreases(s.users, s'.users) && s'.lastTotals == r.totals
            && s'.lastConn == KeepOpen(f, open).lastConn && s'.connUser == f.connUser
            && Conserves(s'.users, dropped.Plus(LeftOver(f, r, active, closed)), r.totals)
  {
    SettleConserves(Forget(s, open), r, active, closed, dropped, total);
  }

  // ---------------------------------------------------------------------------------------
  // One honest poll
  // ---------------------------------------------------------------------------------------

  lemma UpdatedIsBounded(seen: map<string, Bytes>, now: map<string, Bytes>, cs: seq<Conn>)
    requires forall id | id in seen :: id in now && seen[id].AtMost(now[id])
    requires forall c | c in cs :: c.id in now && c.bytes == now[c.id]
    ensures forall id | id in Updated(seen, cs) :: id in now && Updated(seen, cs)[id].AtMost(now[id])
  {
    if cs != [] { UpdatedIsBounded(seen, now, cs[..|cs| - 1]); }
  }

  lemma HonestReportIsScannable(l: Ledger, dropped: Bytes, seen: map<string, Bytes>, open: set<string>,
                                now: map<string, Bytes>, r: Report)
    requires Settled(l, dropped, seen, open) && Honest(seen, open, now, r) && WellNamed(r)
    ensures Scannable(l, seen, r.conns)
  {
    forall c | c in r.conns
      ensures Get(l.lastConn, c.id) == Get(seen, c.id) && Get(seen, c.id).AtMost(c.bytes)
    {
      assert c.id in seen <==> c.id in open;
    }
  }

  // After the scan, the open connections' counters are on record.
  lemma ScanRecordsOpen(l: Ledger, cs: seq<Conn>, now: map<string, Bytes>)
    requires Distinct(cs) && forall c | c in cs :: c.id != "" && c.id in now && c.bytes == now[c.id]
    ensures var open := OpenIds(cs);
            KeepOpen(Forget(Scan(l, cs), open), open).lastConn == (map id | id in open :: now[id])
  {
    ScanKeys(l, now, cs);
    var open := OpenIds(cs);
    forall id | id in open ensures id in Scan(l, cs).lastConn && Scan(l, cs).lastConn[id] == now[id] {
      var c :| c in cs && c.id == id;
      var i :| 0 <= i < |cs| && cs[i] == c;
      ScanRecordsCounters(l, now, cs, i);
    }
  }

  // The source grows by what the scan brings up to date, at most.
  lemma SourceGrows(seen: map<string, Bytes>, now: map<string, Bytes>, cs: seq<Conn>)
    requires NonNegative(seen) && NonNegative(now) && forall id | id in seen :: id in now && seen[id].AtMost(now[id])
    requires forall c | c in cs :: c.id in now && c.bytes == now[c.id]
    ensures NOTHING.AtMost(Sum(seen)) && Sum(seen).AtMost(Sum(now)) && Sum(Updated(seen, cs)).AtMost(Sum(now))
  {
    UpdatedIsBounded(seen, now, cs);
    SumIsMonotone(Updated(seen, cs), now);
    SumIsMonotone(seen, now);
    SumIsMonotone(map[], seen);
  }

  /** One poll of an honest source, from a ledger that had settled an earlier view of it. */
  lemma PollSettles(l: Ledger, dropped: Bytes, seen: map<string, Bytes>, open: set<string>,
                    now: map<string, Bytes>, r: Report, closed: seq<string>)
    requires Settled(l, dropped, seen, open) && Honest(seen, open, now, r) && WellNamed(r)
    requires IsOrderOf(closed, ClosedUsers(Scan(l, r.conns), OpenIds(r.conns)))
    ensures Settled(Poll(l, r, closed), dropped.Plus(Dropped(l, r, closed)), now, OpenIds(r.conns))
    ensures NoneDecreases(l.users, Poll(l, r, closed).users)
    ensures NOTHING.AtMost(Unaccounted(l, r.totals, Active(l, r.conns)))
  {
    HonestReportIsScannable(l, dropped, seen, open, now, r);
    ScanConserves(l, seen, r.conns, dropped, Sum(seen));
    ScanKeys(l, seen, r.conns);
    SourceGrows(seen, now, r.conns);
    var s, active, lost, users := Scan(l, r.conns), Active(l, r.conns), Unclaimed(l, r.conns), Poll(l, r, closed).users;
    FinishConserves(s, OpenIds(r.conns), r, active, closed, dropped.Plus(lost), Sum(seen).Plus(active));
    GrowthComposes(l.users, s.users, users);
    PlusAssociates(dropped, lost, LeftOver(Forget(s, OpenIds(r.conns)), r, active, closed));
    ScanRecordsOpen(l, r.conns, now);
  }

  // ---------------------------------------------------------------------------------------
  // Runs of polls and resets
  // ---------------------------------------------------------------------------------------

  datatype Step =
    | Polled(report: Report, source: map<string, Bytes>, closed: seq<string>)
    | Reset

  ghost function SourceAfter(steps: seq<Step>): map<string, Bytes> {
    if steps == [] then map[]
    else match steps[|steps| - 1]
      case Polled(_, source, _) => source
      case Reset => SourceAfter(steps[..|steps| - 1])
  }

  ghost function OpenAfter(steps: seq<Step>): set<string> {
    if steps == [] then {}
    else match steps[|steps| - 1]
      case Polled(r, _, _) => OpenIds(r.conns)
      case Reset => OpenAfter(steps[..|steps| - 1])
  }

  ghost function LedgerAfter(steps: seq<Step>): Ledger {
    if steps == [] then EMPTY
    else match steps[|steps| - 1]
      case Polled(r, _, closed) => Poll(LedgerAfter(steps[..|steps| - 1]), r, closed)
      case Reset => EMPTY
  }

  // Bytes dropped since the last reset.
  ghost function DroppedAfter(steps: seq<Step>): Bytes {
    if steps == [] then NOTHING
    else
      var before := steps[..|steps| - 1];
      match steps[|steps| - 1]
      case Polled(r, _, closed) => DroppedAfter(before).Plus(Dropped(LedgerAfter(before), r, closed))
      case Reset => NOTHING
  }

  ghost predicate HonestRun(steps: seq<Step>) {
    steps == [] ||
    var before, l := steps[..|steps| - 1], LedgerAfter(steps[..|steps| - 1]);
    && HonestRun(before)
    && match steps[|steps| - 1]
       case Polled(r, source, closed) =>
         && Honest(SourceAfter(before), OpenAfter(before), source, r) && WellNamed(r)
         && IsOrderOf(closed, ClosedUsers(Scan(l, r.conns), OpenIds(r.conns)))
       case Reset => true
  }

  /** Honest runs exist: a first poll that reports one connection and its bytes as the totals. */
  lemma FirstPollIsHonest(c: Conn)
    requires c.id != "" && NOTHING.AtMost(c.bytes) && WellNamed(Report(c.bytes, [c], ""))
    ensures HonestRun([Polled(Report(c.bytes, [c], ""), map[c.id := c.bytes], [])])
  {
    var r, now := Report(c.bytes, [c], ""), map[c.id := c.bytes];
    var run := [Polled(r, now, [])];
    SumWithout(now, c.id);
    assert now - {c.id} == map[];
    assert c.bytes.Plus(NOTHING) == c.bytes;
    assert Honest(map[], {}, now, r);
    assert c in r.conns && c.id in OpenIds(r.conns);
    OneConnectionIsOpen(c);
    assert run[..0] == [];
  }

  lemma OneConnectionIsOpen(c: Conn)
    ensures Scan(EMPTY, [c]).connUser.Keys <= {c.id}
  {
    assert [c][..0] == [];
    assert Scan(EMPTY, [c]) == ConnStep(EMPTY, c);
  }

  // A ledger that was reset takes the source as if nothing had been seen of it.
  ghost predicate SettledFor(l: Ledger, dropped: Bytes, source: map<string, Bytes>, open: set<string>) {
    Settled(l, dropped, source, open) || Settled(l, dropped, map[], {})
  }

  lemma SettledView(l: Ledger, dropped: Bytes, source: map<string, Bytes>, open: set<string>,
                    now: map<string, Bytes>, r: Report) returns (seen: map<string, Bytes>, known: set<string>)
    requires SettledFor(l, dropped, source, open) && Honest(source, open, now, r)
    ensures Settled(l, dropped, seen, known) && Honest(seen, known, now, r)
  {
    if Settled(l, dropped, source, open) {
      seen, known := source, open;
    } else {
      seen, known := map[], {};
    }
  }

  lemma EmptyIsSettled()
    ensures Settled(EMPTY, NOTHING, map[], {})
  {
    assert Part(map[], true) == map[] && Part(map[], false) == map[];
  }

  lemma {:induction false} RunSettles(steps: seq<Step>)
    requires HonestRun(steps)
    ensures SettledFor(LedgerAfter(steps), DroppedAfter(steps), SourceAfter(steps), OpenAfter(steps))
    decreases |steps|, 1
  {
    if steps == [] || steps[|steps| - 1].Reset? {
      EmptyIsSettled();
    } else {
      LastPollSettles(steps);
    }
  }

  lemma {:induction false} LastPollSettles(steps: seq<Step>)
    requires HonestRun(steps) && steps != [] && steps[|steps| - 1].Polled?
    ensures Settled(LedgerAfter(steps), DroppedAfter(steps), SourceAfter(steps), OpenAfter(steps))
    decreases |steps|, 0
  {
    var before, p := steps[..|steps| - 1], steps[|steps| - 1];
    RunSettles(before);
    var seen, known := SettledView(LedgerAfter(before), DroppedAfter(before), SourceAfter(before), OpenAfter(before),
                                   p.source, p.report);
    PollSettles(LedgerAfter(before), DroppedAfter(before), seen, known, p.source, p.report, p.closed);
  }

  /** Conservation: after every poll of an honest source, the users' counters plus the bytes
      dropped as unattributable are the source's total in each direction; outbound counters
      never exceed them.  Resets in between change nothing: the next poll attributes the whole
      total again. */
  lemma TrafficIsConserved(steps: seq<Step>)
    requires HonestRun(steps) && steps != [] && steps[|steps| - 1].Polled?
    ensures Conserves(LedgerAfter(steps).users, DroppedAfter(steps), Sum(SourceAfter(steps)))
  {
    LastPollSettles(steps);
  }

  /** Without a reset in between, no counter ever decreases, and nothing negative is handed out. */
  lemma CountersNeverDecrease(steps: seq<Step>, p: Step)
    requires HonestRun(steps + [p]) && p.Polled?
    ensures NoneDecreases(LedgerAfter(steps).users, LedgerAfter(steps + [p]).users)
    ensures NOTHING.AtMost(Unaccounted(LedgerAfter(steps), p.report.totals, Active(LedgerAfter(steps), p.report.conns)))
  {
    assert (steps + [p])[..|steps|] == steps;
    RunSettles(steps);
    var seen, known := SettledView(LedgerAfter(steps), DroppedAfter(steps), SourceAfter(steps), OpenAfter(steps),
                                   p.source, p.report);
    PollSettles(LedgerAfter(steps), DroppedAfter(steps), seen, known, p.source, p.report, p.closed);
  }

  /** Every counter stays within the source's totals, so 64-bit counters never overflow before
      the source's own do. */
  lemma CountersStayWithinTotals(steps: seq<Step>, user: string)
    requires HonestRun(steps) && steps != [] && steps[|steps| - 1].Polled?
    requires user in LedgerAfter(steps).users
    ensures NOTHING.AtMost(LedgerAfter(steps).users[user])
    ensures LedgerAfter(steps).users[user].AtMost(steps[|steps| - 1].report.totals)
  {
    TrafficIsConserved(steps);
    EachAtMostSum(Part(LedgerAfter(steps).users, IsOutbound(user)), user);
  }

  // ---------------------------------------------------------------------------------------
  // The package-level maps and the poll that updates them
  // ---------------------------------------------------------------------------------------

  lemma OneKey(m: map<string, Bytes>, a: string, b: string)
    requires |m| == 1 && a in m && b in m
    ensures a == b
  {
    var rest := m.Keys - {a};
    assert |m.Keys| == 1 && |rest| == 0;
    assert b !in rest;
  }

  ghost function UsersOf(m: map<string, string>, ids: set<string>): set<string> {
    set id | id in ids && id in m && m[id] != "" :: m[id]
  }

  lemma UsersOfOneMore(m: map<string, string>, ids: set<string>, id: string)
    requires id in m
    ensures UsersOf(m, ids + {id}) == UsersOf(m, ids) + (if m[id] != "" then {m[id]} else {})
  {}

  lemma ScanOneMore(l: Ledger, cs: seq<Conn>, i: nat)
    requires i < |cs|
    ensures var c, s := cs[i], Scan(l, cs[..i]);
            && Scan(l, cs[..i + 1]) == ConnStep(s, c)
            && Active(l, cs[..i + 1]) == Active(l, cs[..i]).Plus(ConnDelta(s, c))
            && OpenIds(cs[..i + 1]) == OpenIds(cs[..i]) + (if c.id != "" then {c.id} else {})
  {
    var c, before := cs[i], cs[..i];
    assert cs[..i + 1] == before + [c];
    assert (before + [c])[..i] == before;
    forall id ensures id in OpenIds(before + [c]) <==> id in OpenIds(before) + (if c.id != "" then {c.id} else {}) {
      if id in OpenIds(before) { var x :| x in before && x.id == id; assert x in before + [c]; }
      if id == c.id { assert c in before + [c]; }
    }
  }

  class TrafficState {
    var users: map<string, Bytes>
    var lastConn: map<string, Bytes>
    var connUser: map<string, string>
    var lastTotals: Bytes
    var lastSeen: string

    ghost function Contents(): Ledger
      reads this
    {
      Ledger(users, lastConn, connUser, lastTotals, lastSeen)
    }

    constructor ()
      ensures Contents() == EMPTY
    {
      users, lastConn, connUser, lastTotals, lastSeen := map[], map[], map[], NOTHING, "";
    }

    method Reset()
      modifies this
      ensures Contents() == EMPTY
    {
      users, lastConn, connUser, lastTotals, lastSeen := map[], map[], map[], NOTHING, "";
    }

    // Accounts for one reported connection.
    method Account(c: Conn) returns (delta: Bytes)
      modifies this
      ensures delta == ConnDelta(old(Contents()), c)
      ensures Contents() == ConnStep(old(Contents()), c)
    {
      var user := FirstNonEmpty(c.claims);
      if user == "" {
        user := c.resolved;
      }
      user := TrimSpace(user);
      if user == "" && (c.sourceIP == "" || c.sourceIP == "127.0.0.1") {
        user := lastSeen;
      }
      delta := Delta(Get(lastConn, c.id), c.bytes);
      lastConn := lastConn[c.id := c.bytes];
      if user == "" {
        return;
      }
      lastSeen := user;
      if c.id != "" {
        connUser := connUser[c.id := user];
      }
      users := Credit(users, user, delta);
      var tag := c.outbound;
      if tag == "" && c.chains != [] {
        tag := c.chains[|c.chains| - 1];
      }
      if tag == "" && c.metaChains != [] {
        tag := c.metaChains[|c.metaChains| - 1];
      }
      if Attributed(tag) {
        users := Credit(users, OutboundKey(tag), delta);
      }
    }

    // Forgets the connections that are no longer open and lists their users, each once.
    method DetectClosed(open: set<string>) returns (closed: seq<string>)
      modifies this`connUser, this`lastConn
      ensures Contents() == Forget(old(Contents()), open)
      ensures IsOrderOf(closed, ClosedUsers(old(Contents()), open))
    {
      closed := [];
      var pending := connUser.Keys;
      ghost var userWas, connWas := connUser, lastConn;
      while pending != {}
        invariant pending <= userWas.Keys
        invariant connUser.Keys == pending + userWas.Keys * open
        invariant forall id | id in connUser :: connUser[id] == userWas[id]
        invariant lastConn.Keys == connWas.Keys - (userWas.Keys - pending - open)
        invariant forall id | id in lastConn :: lastConn[id] == connWas[id]
        invariant forall u :: u in closed <==> u in UsersOf(userWas, userWas.Keys - pending - open)
        invariant forall i, j | 0 <= i < j < |closed| :: closed[i] != closed[j]
        decreases pending
      {
        var id :| id in pending;
        UsersOfOneMore(userWas, userWas.Keys - pending - open, id);
        assert userWas.Keys - (pending - {id}) - open ==
               if id in open then userWas.Keys - pending - open else userWas.Keys - pending - open + {id};
        pending := pending - {id};
        if id !in open {
          var user := connUser[id];
          if user != "" && user !in closed {
            closed := closed + [user];
          }
          connUser := connUser - {id};
          lastConn := lastConn - {id};
        }
      }
      assert UsersOf(userWas, userWas.Keys - {} - open) == ClosedUsers(old(Contents()), open);
      assert connUser == Forget(old(Contents()), open).connUser;
      assert lastConn == Forget(old(Contents()), open).lastConn;
    }

    method Distribute(targets: seq<string>, left: Bytes)
      requires targets != []
      modifies this`users
      ensures users == Spread(old(users), targets, left, |targets|)
    {
      var n := |targets|;
      var per := Bytes(Quotient(left.up, n), Quotient(left.down, n));
      var rem := Bytes(Remainder(left.up, n), Remainder(left.down, n));
      var i := 0;
      while i < n
        invariant 0 <= i <= n
        invariant users == Spread(old(users), targets, left, i)
      {
        var add := per;
        if i == 0 {
          add := add.Plus(rem);
        }
        users := Credit(users, targets[i], add);
        i := i + 1;
      }
    }

    // Settles the grand totals against what the open connections carried.
    method SettleTotals(r: Report, active: Bytes, closed: seq<string>)
      modifies this`users, this`lastTotals
      ensures Contents() == Settle(old(Contents()), r, active, closed)
    {
      if !(r.totals.down > 0 || r.totals.up > 0) {
        return;
      }
      var left := Delta(lastTotals, r.totals).Minus(active);
      lastTotals := r.totals;
      if left.up > 0 || left.down > 0 {
        var targets: seq<string> := [];
        if |closed| > 0 {
          targets := closed;
        } else if lastSeen != "" {
          targets := [lastSeen];
        } else if |users| == 1 {
          var user :| user in users;
          targets := [user];
          assert forall u | u in users :: u == user by {
            forall u | u in users ensures u == user { OneKey(users, u, user); }
          }
        } else if r.fallback != "" {
          targets := [r.fallback];
        }
        if |targets| > 0 {
          Distribute(targets, left);
        }
      }
    }

    // One successful poll; `closed` is the order in which the map of known connections was
    // walked.  The result is the snapshot handed to the caller.
    method Fetch(r: Report) returns (result: map<string, Bytes>, closed: seq<string>)
      modifies this
      ensures IsOrderOf(closed, ClosedUsers(Scan(old(Contents()), r.conns), OpenIds(r.conns)))
      ensures Contents() == Poll(old(Contents()), r, closed)
      ensures result == users
    {
      ghost var was := Contents();
      var open: set<string> := {};
      var active := NOTHING;
      var i := 0;
      while i < |r.conns|
        invariant 0 <= i <= |r.conns|
        invariant open == OpenIds(r.conns[..i])
        invariant active == Active(was, r.conns[..i])
        invariant Contents() == Scan(was, r.conns[..i])
      {
        var c := r.conns[i];
        ScanOneMore(was, r.conns, i);
        if c.id != "" {
          open := open + {c.id};
        }
        var delta := Account(c);
        active := active.Plus(delta);
        i := i + 1;
      }
      assert r.conns[..i] == r.conns;
      closed := Finish(r, open, active);
      result := users;
    }

    // Everything a poll does after the connections were accounted for.
    method Finish(r: Report, open: set<string>, active: Bytes) returns (closed: seq<string>)
      modifies this
      ensures IsOrderOf(closed, ClosedUsers(old(Contents()), open))
      ensures Contents() == KeepOpen(Settle(Forget(old(Contents()), open), r, active, closed), open)
    {
      closed := DetectClosed(open);
      SettleTotals(r, active, closed);
      DropStale(open);
    }

    method DropStale(open: set<string>)
      modifies this`lastConn
      ensures Contents() == KeepOpen(old(Contents()), open)
    {
      var pending := lastConn.Keys;
      ghost var was := lastConn;
      while pending != {}
        invariant pending <= was.Keys
        invariant lastConn == map id | id in was && (id in pending || id in open) :: was[id]
        decreases pending
      {
        var id :| id in pending;
        pending := pending - {id};
        if id !in open {
          lastConn := lastConn - {id};
        }
      }
    }
  }
}
