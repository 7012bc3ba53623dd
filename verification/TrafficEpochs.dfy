/** Traffic accounting across restarts of the core (pkg/supervisor/singbox.go).

    A restarted core counts from zero and opens connections under new ids, while the accounting keeps
    the last totals it saw.  An epoch is the time between two restarts; its traffic is what its last
    poll reports. */
module TrafficEpochs {
  import opened TrafficLedger

  // The ledger has settled the epoch's source `seen` on top of `earlier` epochs.
  ghost predicate SettledIn(l: Ledger, dropped: Bytes, earlier: Bytes, seen: map<string, Bytes>, open: set<string>) {
    && open <= seen.Keys && "" !in open && NonNegative(seen)
    && l.lastConn == (map id | id in open :: seen[id])
    && l.connUser.Keys <= open
    && l.lastTotals == Sum(seen)
    && Named(l) && Conserves(l.users, dropped, earlier.Plus(Sum(seen)))
  }

  // Settling when the totals have advanced from `last`.
  lemma SettleFrom(s: Ledger, r: Report, active: Bytes, closed: seq<string>, dropped: Bytes, earlier: Bytes,
                   last: Bytes)
    requires Named(s) && Conserves(s.users, dropped, earlier.Plus(last).Plus(active))
    requires Delta(s.lastTotals, r.totals) == r.totals.Minus(last)
    requires NOTHING.AtMost(last.Plus(active)) && last.Plus(active).AtMost(r.totals)
    requires !Reports(r.totals) ==> s.lastTotals == r.totals
    requires !IsOutbound(r.fallback) && forall t | t in closed :: !IsOutbound(t)
    ensures var s' := Settle(s, r, active, closed);
            && Named(s') && NoneDecreases(s.users, s'.users) && s'.lastTotals == r.totals
            && s'.lastConn == s.lastConn && s'.connUser == s.connUser
            && Conserves(s'.users, dropped.Plus(LeftOver(s, r, active, closed)), earlier.Plus(r.totals))
  {
    var left, total := Unaccounted(s, r.totals, active), earlier.Plus(last).Plus(active);
    assert total.Plus(left) == earlier.Plus(r.totals) && NOTHING.AtMost(left);
    if Reports(r.totals) && (left.up > 0 || left.down > 0) {
      TargetsAreUsers(s, closed, r.fallback);
      SpreadOrDrop(s, Targets(s, closed, r.fallback), left, dropped, total);
    } else {
      assert left == NOTHING;
      PlusNothing(dropped);
      NothingGrows(s);
    }
  }

  lemma FinishFrom(s: Ledger, open: set<string>, r: Report, active: Bytes, closed: seq<string>, dropped: Bytes,
                   earlier: Bytes, last: Bytes)
    requires Named(s) && Conserves(s.users, dropped, earlier.Plus(last).Plus(active))
    requires Delta(s.lastTotals, r.totals) == r.totals.Minus(last)
    requires NOTHING.AtMost(last.Plus(active)) && last.Plus(active).AtMost(r.totals)
    requires !Reports(r.totals) ==> s.lastTotals == r.totals
    requires !IsOutbound(r.fallback) && forall t | t in closed :: !IsOutbound(t)
    ensures var f := Forget(s, open);
            var s' := KeepOpen(Settle(f, r, active, closed), open);
            && Named(s') && s'.lastTotals == r.totals
            && s'.lastConn == KeepOpen(f, open).lastConn && s'.connUser == f.connUser
            && Conserves(s'.users, dropped.Plus(LeftOver(f, r, active, closed)), earlier.Plus(r.totals))
  {
    SettleFrom(Forget(s, open), r, active, closed, dropped, earlier, last);
  }

  // ---------------------------------------------------------------------------------------
  // The scan of a poll, in an epoch or after a restart
  // ---------------------------------------------------------------------------------------

  // The connections are charged against `seen`.
  ghost predicate ChargedAgainst(l: Ledger, seen: map<string, Bytes>, r: Report) {
    forall c | c in r.conns :: Get(l.lastConn, c.id) == Get(seen, c.id)
  }

  lemma ReportIsScannable(l: Ledger, seen: map<string, Bytes>, open: set<string>, now: map<string, Bytes>, r: Report)
    requires Honest(seen, open, now, r) && WellNamed(r) && ChargedAgainst(l, seen, r) && NonNegative(seen)
    ensures Scannable(l, seen, r.conns)
  {}

  // What the scan leaves, and how far the totals reach beyond it.
  ghost predicate Scanned(l: Ledger, r: Report, dropped: Bytes, earlier: Bytes, last: Bytes) {
    var s, active := Scan(l, r.conns), Active(l, r.conns);
    && Named(s) && s.lastTotals == l.lastTotals
    && Conserves(s.users, dropped.Plus(Unclaimed(l, r.conns)), earlier.Plus(last).Plus(active))
    && NOTHING.AtMost(last.Plus(active)) && last.Plus(active).AtMost(r.totals)
  }

  lemma ScanOfReport(l: Ledger, dropped: Bytes, earlier: Bytes, seen: map<string, Bytes>, open: set<string>,
                     now: map<string, Bytes>, r: Report)
    requires Named(l) && Conserves(l.users, dropped, earlier.Plus(Sum(seen))) && NonNegative(seen)
    requires Honest(seen, open, now, r) && WellNamed(r) && ChargedAgainst(l, seen, r)
    ensures Scanned(l, r, dropped, earlier, Sum(seen))
  {
    ReportIsScannable(l, seen, open, now, r);
    ScanConserves(l, seen, r.conns, dropped, earlier.Plus(Sum(seen)));
    ScanKeys(l, seen, r.conns);
    SourceGrows(seen, now, r.conns);
    UpdatedIsNonNegative(seen, now, r.conns);
    SumIsMonotone(map[], Updated(seen, r.conns));
  }

  lemma {:induction false} UpdatedIsNonNegative(seen: map<string, Bytes>, now: map<string, Bytes>, cs: seq<Conn>)
    requires NonNegative(seen) && NonNegative(now) && forall c | c in cs :: c.id in now && c.bytes == now[c.id]
    ensures NonNegative(Updated(seen, cs))
  {
    if cs != [] {
      UpdatedIsNonNegative(seen, now, cs[..|cs| - 1]);
      assert cs[|cs| - 1] in cs;
    }
  }

  // The open connections are on record afterwards.
  lemma OpenIsRecorded(l: Ledger, seen: map<string, Bytes>, now: map<string, Bytes>, r: Report)
    requires Distinct(r.conns) && forall c | c in r.conns :: c.id != "" && c.id in now && c.bytes == now[c.id]
    ensures var open := OpenIds(r.conns);
            && open <= now.Keys && "" !in open
            && KeepOpen(Forget(Scan(l, r.conns), open), open).lastConn == (map id | id in open :: now[id])
            && Forget(Scan(l, r.conns), open).connUser.Keys <= open
  {
    ScanRecordsOpen(l, r.conns, now);
  }

  // The report is about this source.
  ghost predicate Reported(now: map<string, Bytes>, r: Report) {
    && r.totals == Sum(now) && NonNegative(now) && WellNamed(r) && Distinct(r.conns)
    && forall c | c in r.conns :: c.id != "" && c.id in now && c.bytes == now[c.id]
  }

  lemma HonestIsReported(seen: map<string, Bytes>, open: set<string>, now: map<string, Bytes>, r: Report)
    requires Honest(seen, open, now, r) && WellNamed(r)
    ensures Reported(now, r)
  {}

  // A poll whose totals have advanced from `last` settles the source.
  lemma PollFrom(l: Ledger, dropped: Bytes, earlier: Bytes, now: map<string, Bytes>, r: Report, closed: seq<string>,
                 last: Bytes)
    requires Scanned(l, r, dropped, earlier, last) && Delta(l.lastTotals, r.totals) == r.totals.Minus(last)
    requires !Reports(r.totals) ==> l.lastTotals == r.totals
    requires Reported(now, r) && IsOrderOf(closed, ClosedUsers(Scan(l, r.conns), OpenIds(r.conns)))
    ensures SettledIn(Poll(l, r, closed), dropped.Plus(Dropped(l, r, closed)), earlier, now, OpenIds(r.conns))
  {
    var s, active, lost := Scan(l, r.conns), Active(l, r.conns), Unclaimed(l, r.conns);
    FinishFrom(s, OpenIds(r.conns), r, active, closed, dropped.Plus(lost), earlier, last);
    PlusAssociates(dropped, lost, LeftOver(Forget(s, OpenIds(r.conns)), r, active, closed));
    OpenIsRecorded(l, now, now, r);
  }

  lemma DeltaOfGrowth(a: Bytes, b: Bytes)
    requires a.AtMost(b)
    ensures Delta(a, b) == b.Minus(a)
  {}

  // A poll within an epoch.
  lemma PollSettlesIn(l: Ledger, dropped: Bytes, earlier: Bytes, seen: map<string, Bytes>, open: set<string>,
                      now: map<string, Bytes>, r: Report, closed: seq<string>)
    requires SettledIn(l, dropped, earlier, seen, open) && Honest(seen, open, now, r) && WellNamed(r)
    requires IsOrderOf(closed, ClosedUsers(Scan(l, r.conns), OpenIds(r.conns)))
    ensures SettledIn(Poll(l, r, closed), dropped.Plus(Dropped(l, r, closed)), earlier, now, OpenIds(r.conns))
  {
    forall c | c in r.conns ensures Get(l.lastConn, c.id) == Get(seen, c.id) {
      assert c.id in seen <==> c.id in open;
    }
    ScanOfReport(l, dropped, earlier, seen, open, now, r);
    SumIsMonotone(seen, now);
    SumIsMonotone(map[], seen);
    DeltaOfGrowth(Sum(seen), Sum(now));
    HonestIsReported(seen, open, now, r);
    PollFrom(l, dropped, earlier, now, r, closed, Sum(seen));
  }

  // ---------------------------------------------------------------------------------------
  // The first poll of an epoch
  // ---------------------------------------------------------------------------------------

  // A new source, none of whose connections is on record.
  ghost predicate Restarts(l: Ledger, now: map<string, Bytes>, r: Report) {
    Honest(map[], {}, now, r) && WellNamed(r) && Reports(r.totals) && forall c | c in r.conns :: c.id !in l.lastConn
  }

  // In this direction the total of the new epoch is taken for what it is.
  predicate Noticed(last: int, first: int) { first < last || last == 0 }

  predicate AllNoticed(last: Bytes, first: Bytes) { Noticed(last.up, first.up) && Noticed(last.down, first.down) }

  // The open connections leave something to hand out.
  predicate SomethingLeft(l: Ledger, r: Report) {
    var left := Unaccounted(l, r.totals, Active(l, r.conns));
    left.up > 0 || left.down > 0
  }

  // In both directions the first totals are below the last ones, or there were none; or else the open
  // connections carry all of the new epoch's traffic and nothing else is handed out.
  predicate RestartIsSeen(l: Ledger, r: Report) {
    if SomethingLeft(l, r) then AllNoticed(l.lastTotals, r.totals) else Active(l, r.conns) == r.totals
  }

  lemma NoticedIsAll(last: Bytes, first: Bytes)
    requires NOTHING.AtMost(last)
    ensures AllNoticed(last, first) <==> Delta(last, first) == first
  {}

  // The counters and what was dropped add up to this.
  ghost predicate AddsUpTo(users: map<string, Bytes>, dropped: Bytes, total: Bytes) {
    Sum(Part(users, false)).Plus(dropped) == total
  }

  lemma {:induction false} SpreadAddsShares(users: map<string, Bytes>, targets: seq<string>, left: Bytes, k: nat)
    requires 0 < |targets| && k <= |targets| && forall t | t in targets :: !IsOutbound(t)
    ensures Sum(Part(Spread(users, targets, left, k), false)) ==
            Sum(Part(users, false)).Plus(Shares(left, |targets|, k))
  {
    if k == 0 {
      PlusNothing(Sum(Part(users, false)));
    } else {
      SpreadAddsShares(users, targets, left, k - 1);
      var share := Share(left, |targets|, k - 1);
      PartSumOfCredit(Spread(users, targets, left, k - 1), targets[k - 1], share, false);
      PlusAssociates(Sum(Part(users, false)), Shares(left, |targets|, k - 1), share);
    }
  }

  // What settling adds, whatever the sign of what is left.
  lemma SettleAdds(s: Ledger, r: Report, active: Bytes, closed: seq<string>, dropped: Bytes, total: Bytes)
    requires Named(s) && AddsUpTo(s.users, dropped, total) && Reports(r.totals)
    requires !IsOutbound(r.fallback) && forall t | t in closed :: !IsOutbound(t)
    ensures var left := Unaccounted(s, r.totals, active);
            AddsUpTo(Settle(s, r, active, closed).users, dropped.Plus(LeftOver(s, r, active, closed)),
                     if left.up > 0 || left.down > 0 then total.Plus(left) else total)
  {
    var left, targets := Unaccounted(s, r.totals, active), Targets(s, closed, r.fallback);
    TargetsAreUsers(s, closed, r.fallback);
    PlusNothing(dropped);
    if (left.up > 0 || left.down > 0) && targets != [] {
      SpreadAddsShares(s.users, targets, left, |targets|);
      SharesAddUp(left, |targets|);
    }
  }

  lemma RestartIsScanned(l: Ledger, dropped: Bytes, earlier: Bytes, seen: map<string, Bytes>, open: set<string>,
                         now: map<string, Bytes>, r: Report)
    requires SettledIn(l, dropped, earlier, seen, open) && Restarts(l, now, r)
    ensures Scanned(l, r, dropped, earlier.Plus(Sum(seen)), NOTHING)
  {
    PlusNothing(earlier.Plus(Sum(seen)));
    ScanOfReport(l, dropped, earlier.Plus(Sum(seen)), map[], {}, now, r);
  }

  lemma ScannedAddsUp(l: Ledger, r: Report, dropped: Bytes, earlier: Bytes)
    requires Scanned(l, r, dropped, earlier, NOTHING)
    ensures AddsUpTo(Scan(l, r.conns).users, dropped.Plus(Unclaimed(l, r.conns)), earlier.Plus(Active(l, r.conns)))
  {
    PlusNothing(earlier);
  }

  lemma AllHandedOut(earlier: Bytes, active: Bytes, delta: Bytes)
    ensures earlier.Plus(active).Plus(delta.Minus(active)) == earlier.Plus(delta)
  {}

  // What the counters add up to after the first poll of an epoch.
  lemma RestartAddsUp(l: Ledger, dropped: Bytes, earlier: Bytes, r: Report, closed: seq<string>)
    requires Scanned(l, r, dropped, earlier, NOTHING) && WellNamed(r) && Reports(r.totals)
    requires IsOrderOf(closed, ClosedUsers(Scan(l, r.conns), OpenIds(r.conns)))
    ensures AddsUpTo(Poll(l, r, closed).users, dropped.Plus(Dropped(l, r, closed)),
                     earlier.Plus(if SomethingLeft(l, r) then Delta(l.lastTotals, r.totals) else Active(l, r.conns)))
  {
    var f, active, lost := Forget(Scan(l, r.conns), OpenIds(r.conns)), Active(l, r.conns), Unclaimed(l, r.conns);
    ScannedAddsUp(l, r, dropped, earlier);
    SettleAdds(f, r, active, closed, dropped.Plus(lost), earlier.Plus(active));
    PlusAssociates(dropped, lost, LeftOver(f, r, active, closed));
    AllHandedOut(earlier, active, Delta(l.lastTotals, r.totals));
  }

  lemma RestartMeans(l: Ledger, now: map<string, Bytes>, r: Report)
    requires Restarts(l, now, r)
    ensures Reported(now, r) && Reports(r.totals)
  {
    HonestIsReported(map[], {}, now, r);
  }

  lemma SettledHasTotals(l: Ledger, dropped: Bytes, earlier: Bytes, seen: map<string, Bytes>, open: set<string>)
    requires SettledIn(l, dropped, earlier, seen, open)
    ensures l.lastTotals == Sum(seen) && NOTHING.AtMost(l.lastTotals)
  {
    SumIsMonotone(map[], seen);
  }

  lemma SeenIsWhole(l: Ledger, r: Report)
    requires NOTHING.AtMost(l.lastTotals)
    ensures RestartIsSeen(l, r) <==>
            (if SomethingLeft(l, r) then Delta(l.lastTotals, r.totals) else Active(l, r.conns)) == r.totals
  {
    NoticedIsAll(l.lastTotals, r.totals);
  }

  lemma SameSum(earlier: Bytes, a: Bytes, b: Bytes)
    ensures earlier.Plus(a) == earlier.Plus(b) <==> a == b
  {}

  /** After the first poll of an epoch the counters add up to the traffic of all epochs iff the restart is
      seen. */
  lemma RestartIsConservedIffSeen(l: Ledger, dropped: Bytes, earlier: Bytes, seen: map<string, Bytes>,
                                  open: set<string>, now: map<string, Bytes>, r: Report, closed: seq<string>)
    requires SettledIn(l, dropped, earlier, seen, open) && Restarts(l, now, r)
    requires IsOrderOf(closed, ClosedUsers(Scan(l, r.conns), OpenIds(r.conns)))
    ensures RestartIsSeen(l, r) <==>
            AddsUpTo(Poll(l, r, closed).users, dropped.Plus(Dropped(l, r, closed)),
                     earlier.Plus(Sum(seen)).Plus(Sum(now)))
  {
    RestartMeans(l, now, r);
    RestartIsScanned(l, dropped, earlier, seen, open, now, r);
    RestartAddsUp(l, dropped, earlier.Plus(Sum(seen)), r, closed);
    SettledHasTotals(l, dropped, earlier, seen, open);
    SeenIsWhole(l, r);
    SameSum(earlier.Plus(Sum(seen)),
            if SomethingLeft(l, r) then Delta(l.lastTotals, r.totals) else Active(l, r.conns), r.totals);
  }

  // And then the ledger has settled the new epoch.
  lemma RestartSettles(l: Ledger, dropped: Bytes, earlier: Bytes, seen: map<string, Bytes>, open: set<string>,
                       now: map<string, Bytes>, r: Report, closed: seq<string>)
    requires SettledIn(l, dropped, earlier, seen, open) && Restarts(l, now, r) && RestartIsSeen(l, r)
    requires IsOrderOf(closed, ClosedUsers(Scan(l, r.conns), OpenIds(r.conns)))
    ensures SettledIn(Poll(l, r, closed), dropped.Plus(Dropped(l, r, closed)), earlier.Plus(Sum(seen)), now,
                      OpenIds(r.conns))
  {
    RestartMeans(l, now, r);
    RestartIsScanned(l, dropped, earlier, seen, open, now, r);
    SettledHasTotals(l, dropped, earlier, seen, open);
    SeenMeans(l, r);
    SeenRestartSettles(l, dropped, earlier.Plus(Sum(seen)), now, r, closed);
  }

  lemma SeenMeans(l: Ledger, r: Report)
    requires RestartIsSeen(l, r) && NOTHING.AtMost(l.lastTotals)
    ensures SomethingLeft(l, r) ==> Delta(l.lastTotals, r.totals) == r.totals.Minus(NOTHING)
    ensures !SomethingLeft(l, r) ==> Active(l, r.conns) == r.totals
  {
    NoticedIsAll(l.lastTotals, r.totals);
  }

  lemma SeenRestartSettles(l: Ledger, dropped: Bytes, earlier: Bytes, now: map<string, Bytes>, r: Report,
                           closed: seq<string>)
    requires Scanned(l, r, dropped, earlier, NOTHING) && Reported(now, r) && Reports(r.totals)
    requires SomethingLeft(l, r) ==> Delta(l.lastTotals, r.totals) == r.totals.Minus(NOTHING)
    requires !SomethingLeft(l, r) ==> Active(l, r.conns) == r.totals
    requires IsOrderOf(closed, ClosedUsers(Scan(l, r.conns), OpenIds(r.conns)))
    ensures SettledIn(Poll(l, r, closed), dropped.Plus(Dropped(l, r, closed)), earlier, now, OpenIds(r.conns))
  {
    if SomethingLeft(l, r) {
      PollFrom(l, dropped, earlier, now, r, closed, NOTHING);
    } else {
      QuietPollSettles(l, dropped, earlier, now, r, closed);
    }
  }

  // A poll whose open connections carry everything hands out nothing else.
  lemma QuietPollSettles(l: Ledger, dropped: Bytes, earlier: Bytes, now: map<string, Bytes>, r: Report,
                         closed: seq<string>)
    requires Scanned(l, r, dropped, earlier, NOTHING) && Reports(r.totals) && !SomethingLeft(l, r)
    requires Active(l, r.conns) == r.totals && Reported(now, r)
    ensures SettledIn(Poll(l, r, closed), dropped.Plus(Dropped(l, r, closed)), earlier, now, OpenIds(r.conns))
  {
    PlusNothing(earlier);
    PlusNothing(Unclaimed(l, r.conns));
    OpenIsRecorded(l, now, now, r);
  }

  // ---------------------------------------------------------------------------------------
  // Runs over several epochs
  // ---------------------------------------------------------------------------------------

  // A poll of the running core, or the first one after a restart that reports totals.
  datatype Observed = Polled(report: Report, source: map<string, Bytes>, closed: seq<string>)
                 | Restarted(report: Report, source: map<string, Bytes>, closed: seq<string>)

  ghost function LedgerAfter(run: seq<Observed>): Ledger {
    if run == [] then EMPTY
    else Poll(LedgerAfter(run[..|run| - 1]), run[|run| - 1].report, run[|run| - 1].closed)
  }

  ghost function DroppedAfter(run: seq<Observed>): Bytes {
    if run == [] then NOTHING
    else
      var before, p := run[..|run| - 1], run[|run| - 1];
      DroppedAfter(before).Plus(Dropped(LedgerAfter(before), p.report, p.closed))
  }

  function SourceAfter(run: seq<Observed>): map<string, Bytes> { if run == [] then map[] else run[|run| - 1].source }

  function OpenAfter(run: seq<Observed>): set<string> {
    if run == [] then {} else OpenIds(run[|run| - 1].report.conns)
  }

  // What the epochs before the current one carried.
  ghost function EarlierAfter(run: seq<Observed>): Bytes {
    if run == [] then NOTHING
    else
      var before := run[..|run| - 1];
      if run[|run| - 1].Restarted? then EarlierAfter(before).Plus(Sum(SourceAfter(before))) else EarlierAfter(before)
  }

  // What all epochs carried, as far as it was polled.
  ghost function AllEpochs(run: seq<Observed>): Bytes { EarlierAfter(run).Plus(Sum(SourceAfter(run))) }

  ghost predicate HonestPoll(before: seq<Observed>, p: Observed) {
    var l := LedgerAfter(before);
    && IsOrderOf(p.closed, ClosedUsers(Scan(l, p.report.conns), OpenIds(p.report.conns)))
    && if p.Restarted? then Restarts(l, p.source, p.report)
       else Honest(SourceAfter(before), OpenAfter(before), p.source, p.report) && WellNamed(p.report)
  }

  ghost predicate HonestRun(run: seq<Observed>) {
    forall n | 0 <= n < |run| :: HonestPoll(run[..n], run[n])
  }

  ghost predicate SeenPoll(before: seq<Observed>, p: Observed) {
    p.Restarted? ==> RestartIsSeen(LedgerAfter(before), p.report)
  }

  ghost predicate SeenAt(run: seq<Observed>, n: nat)
    requires n < |run|
  {
    SeenPoll(run[..n], run[n])
  }

  ghost predicate ConservedAt(run: seq<Observed>, n: nat)
    requires n <= |run|
  {
    AddsUpTo(LedgerAfter(run[..n]).users, DroppedAfter(run[..n]), AllEpochs(run[..n]))
  }

  ghost predicate SettledAfter(run: seq<Observed>) {
    SettledIn(LedgerAfter(run), DroppedAfter(run), EarlierAfter(run), SourceAfter(run), OpenAfter(run))
  }

  lemma NothingIsSettled(run: seq<Observed>)
    requires run == []
    ensures SettledAfter(run)
  {
    EmptyIsSettled();
  }

  lemma OnePollMore(before: seq<Observed>, p: Observed, run: seq<Observed>)
    requires SettledAfter(before) && HonestPoll(before, p) && run == before + [p]
    requires SeenPoll(before, p)
    ensures SettledAfter(run)
  {
    var l := LedgerAfter(before);
    assert run[..|run| - 1] == before;
    if p.Restarted? {
      RestartSettles(l, DroppedAfter(before), EarlierAfter(before), SourceAfter(before), OpenAfter(before),
                     p.source, p.report, p.closed);
    } else {
      PollSettlesIn(l, DroppedAfter(before), EarlierAfter(before), SourceAfter(before), OpenAfter(before),
                    p.source, p.report, p.closed);
    }
  }

  // What holds of the empty front, and of every longer one when it holds of the one before.
  lemma {:induction false} HoldsOfFronts(holds: nat -> bool, n: nat)
    requires holds(0) && forall i: nat | i < n :: holds(i) ==> holds(i + 1)
    ensures holds(n)
  {
    if n > 0 { HoldsOfFronts(holds, n - 1); }
  }

  lemma HonestAt(run: seq<Observed>, i: nat)
    requires HonestRun(run) && i < |run|
    ensures HonestPoll(run[..i], run[i])
  {}

  lemma FrontGrows<T>(run: seq<T>, i: nat, front: seq<T>, p: T, longer: seq<T>)
    requires i < |run| && front == run[..i] && p == run[i] && longer == run[..i + 1]
    ensures longer == front + [p]
  {}

  lemma NextFrontSettles(run: seq<Observed>, i: nat)
    requires HonestRun(run) && i < |run| && SeenAt(run, i) && SettledAfter(run[..i])
    ensures SettledAfter(run[..i + 1])
  {
    HonestAt(run, i);
    FrontGrows(run, i, run[..i], run[i], run[..i + 1]);
    OnePollMore(run[..i], run[i], run[..i + 1]);
  }

  lemma SeenRunsSettle(run: seq<Observed>, n: nat)
    requires HonestRun(run) && n <= |run| && forall i | 0 <= i < n :: SeenAt(run, i)
    ensures SettledAfter(run[..n])
  {
    NothingIsSettled(run[..0]);
    forall i: nat | i < n && SettledAfter(run[..i]) ensures SettledAfter(run[..i + 1]) {
      NextFrontSettles(run, i);
    }
    HoldsOfFronts((i: nat) => i <= |run| && SettledAfter(run[..i]), n);
  }

  lemma SettledIsConserved(run: seq<Observed>, n: nat)
    requires n <= |run| && SettledAfter(run[..n])
    ensures ConservedAt(run, n)
  {}

  // The first restart that is not seen breaks conservation.
  lemma UnseenIsNotConserved(run: seq<Observed>, n: nat)
    requires HonestRun(run) && n < |run| && SettledAfter(run[..n]) && !SeenAt(run, n)
    ensures !ConservedAt(run, n + 1)
  {
    var before, p := run[..n], run[n];
    assert HonestPoll(before, p) && run[..n + 1][..n] == before;
    RestartIsConservedIffSeen(LedgerAfter(before), DroppedAfter(before), EarlierAfter(before), SourceAfter(before),
                              OpenAfter(before), p.source, p.report, p.closed);
  }

  lemma {:induction false} FirstUnseen(run: seq<Observed>, n: nat) returns (m: nat)
    requires n < |run| && !SeenAt(run, n)
    ensures m <= n && !SeenAt(run, m) && forall i | 0 <= i < m :: SeenAt(run, i)
  {
    if i :| 0 <= i < n && !SeenAt(run, i) {
      m := FirstUnseen(run, i);
    } else {
      m := n;
    }
  }

  /** On a run of polls over any number of epochs, the counters and what was dropped add up to the traffic
      of all epochs after every poll iff every restart is seen: its first totals are below the last ones
      in both directions, or there were none, or open connections carry all that is new. */
  lemma EpochsAreConservedIffRestartsAreSeen(run: seq<Observed>)
    requires HonestRun(run)
    ensures (forall n | 0 <= n <= |run| :: ConservedAt(run, n)) <==> forall n | 0 <= n < |run| :: SeenAt(run, n)
  {
    if forall n | 0 <= n < |run| :: SeenAt(run, n) {
      forall n | 0 <= n <= |run| ensures ConservedAt(run, n) {
        SeenRunsSettle(run, n);
        SettledIsConserved(run, n);
      }
    } else {
      var n :| 0 <= n < |run| && !SeenAt(run, n);
      var m := FirstUnseen(run, n);
      SeenRunsSettle(run, m);
      UnseenIsNotConserved(run, m);
    }
  }
}
