# Verified models of the sentinel core

This project models the parts of the sentinel core that keep state, do arithmetic or rewrite rules
without changing their meaning, and proves what they are for. One module follows one source file or
one small group of them; code that updates fields in place is a class whose methods are proved equal
to step functions, and the theorems are about all runs of those steps, all packets or all inputs.

- `TrafficLedger`: a poll of the sing-box API turns connection counters and totals into user counters;
  `TrafficOwners`: who is credited with what; `TrafficEpochs`: the same across restarts of the core.
- `RateLimiter` (module `RateLimiting`): the token bucket with bans and idle clean-up.
- `PortMonitor`: sensitive ports, fixed probe windows, bans, pruning and eviction.
- `ClientRisk`: risk scores, quarantine and decay.
- `SessionTracker` (module `SessionTracking`): sessions, roaming, expiry and the bounded event list;
  `Presence`: who has a session, told from the steps alone.
- `Cidr`, `Domains`, `SecondPass`, `Sanitize`, `Policy`, `RoutingAst`, `Backends`, `SecurityRules`: the
  routing compiler, from a policy through its optimizer and cleaning to the rule lists of both cores.
- `HostPatterns`, `Cores`: what domain entries ask of a host, and when the two cores, which read them
  differently, agree. `TidyLists`, `Presets`: which domain lists survive being optimized before they are
  cleaned, for the readings of both cores, and two presets that do. `Lan`: the private
  networks of sing-box rules. `BlockList`: a policy that blocks names, followed to the rules of sing-box.
- `Bloom`, `ThreatFilter`: the threat lists behind a Bloom filter; `ThreatLists`: the lists and hosts as
  they are written.
- `Bytes`, `Packet`, `Pcap`: synthesized IPv4 packets and capture files.
- `Supervisor`: starting, stopping and reloading cores while their processes end.
- `Common`, `Text`, `Sorting`, `Arithmetic`: helpers.

`dafny verify dfyconfig.toml` verifies everything.

## How to read the models

Clocks, random numbers, file-system and network answers are parameters. Where a Go map is walked, the
order is either irrelevant by proof or returned as a parameter that the theorem quantifies over.
Instants are integers or reals, `float64` is `real`, and byte counters are unbounded integers
(`CountersStayWithinTotals` says why 64 bits suffice when the reported totals fit). Sixteen- and
thirty-two-bit fields and the 64-bit hashes wrap as in the code.

A packet in the routing models is a record of predicates, one per kind of matcher, so the theorems
hold for every meaning of a single geosite, regular expression or port item. A rule matches when all
its non-address matchers do and, if it names domains or addresses, some domain or some address does.
A written list item means the entries it is split and cleaned into. Where hosts matter, an entry is a
pattern: the very name, the name and what is below it, a part of the host, or a tag of any meaning.
`Covers` compares two lists of patterns without mentioning hosts, and `CoverageIsExact` shows that this
is exactly inclusion of hosts, given a character that occurs in no pattern. Any character will do, so the
host that tells two lists apart need be a legal host name only if the character is a letter, a digit or a
hyphen.

## What the code does that its documentation does not say

- After a restart of the core the accounting notices that a direction started again only by a total below
  the last one. The counters add up to the traffic of all epochs exactly when, at the first poll of each,
  both totals are below the last ones (or these were zero), or open connections carry all the new traffic.
- Resetting the traffic counters forgets the last totals too, so the next poll hands out the whole
  lifetime total again; conservation is proved with resets in between.
- The rate bound of the limiter survives the clean-up of idle buckets exactly when a bucket refills
  within ten minutes (`rps * 600 >= burst`).
- `OptimizeDomains` takes `domain:x` to cover subdomains, while the sing-box builder emits it as an
  exact name. Under that reading lists lose hosts, exactly when an entry at or below a topmost domain
  labelled `domain:` is not that very entry. Under either reading a topmost name that is written without
  a label and starts like one once it is lowered, as `Domain:x.org`, is garbled, and its list loses hosts.
- `OptimizeCIDRs` only drops contained networks, although its comment speaks of merging. Its result is
  the shortest list of networks with that coverage exactly when no two uncontained networks of the input
  are the halves of one.
- A second pass of `OptimizeDomains` changes nothing exactly when at most one text is printed, or the
  printed texts are read again in their places: those that read as tags come first and continue the tags,
  and the others are read as names in strict order of which none is empty or above another. Otherwise it
  drops entries (`Domain:x.org` and `x.org`) or moves them (`Domain:z.org` and `y.org`). A third pass never
  changes anything.
- Lists are optimized before they are cleaned. Of a list the trimmed tags and the topmost names stay, each
  with the label of its first item, and its hosts survive, whatever its tags mean, exactly when the
  cleaned entries of the items and of what stays cover each other. The items `a.com,b.org` and `org` do
  not survive: the first is dropped as a subdomain of the second, and a.com is no longer blocked. Among
  tidy items, for sing-box a name below another one under `domain:` is lost unless a tag makes up for it,
  and for Xray a bare name below one under `domain:`. The presets for Russia and for address checkers
  survive; `api.ipify.org` does so by the keyword `ipify`.
- An entry without a URL is cleaned to itself exactly when it is trimmed and, after any labels `domain:` and
  `full:`, is a tag or a lower-case host without path, port, leading dot or `*.`. The label `suffix:` is
  taken for a host with a port, and lost with what follows, unless that holds another colon or a bracket
  before its path.
- The cores read domain entries differently. For sing-box `domain:` is an exact name and a bare name a
  suffix; for Xray `domain:` covers subdomains and a bare name is a part of the host. An entry on its own
  is read alike exactly when it carries `full:`, `keyword:`, `regexp:` or `geosite:`. A name blocked as
  `domain:evil.com` leaves www.evil.com open in sing-box and closed in Xray.
- The injected filter rule, whose names carry `domain:`, therefore falls short of the threat engine in
  sing-box: of the hosts the engine blocks by name it blocks only those listed themselves. In Xray it
  blocks all of them, and also hosts below listed names without a dot.
- A list that cleaning empties, such as ports `["abc"]`, turns its row into one that matches everything.
  An emptied list of blocked ports blocks all traffic.
- Override rows that name both processes and destinations need both to match.
- In sing-box rules `::/0` beside other addresses narrows them to IPv6, and a rule for IPv6 alone that
  names domains also matches every IPv6 packet. Xray rules ignore other IP versions and are dropped when
  nothing is matched. Package ids and process names are written under the key `user`, where they are
  compared with user names, and only the first of the three lists is written at all.
- The time of the last violation is never assigned, so every tick decays. When a violation of the least
  weight can leave a score that looks clean and that the remaining ticks of the quarantine take to zero,
  the client's profile is deleted while its quarantine runs; otherwise the quarantine holds.
- Above the hard bound of the port monitor an evicted ban lets the banned address through, and an
  evicted probe record leaves a scan unflagged; these are the only ways in which eviction shows.
- A Bloom filter within 63 bits of the largest size gets no words at all.
- The TCP checksum of a synthesized packet stays zero, and packets longer than the snapshot length are
  written whole.
- A start whose binary is refused or fails costs the core the process it had. A start whose
  configuration is missing still changes the paths that a reload uses.

## Model

| member | source | states |
|---|---|---|
| TrafficLedger.TrafficIsConserved | pkg/supervisor/singbox.go:130-336 | On every run of polls of an honest source, with resets anywhere, the user counters plus the bytes no user could be given equal the source's total in each direction; `outbound:` counters sum to no more |
| TrafficLedger.CountersNeverDecrease | pkg/supervisor/singbox.go:180-329 | On such a run no counter falls in a poll, and the bytes left to hand out are never negative |
| TrafficLedger.CountersStayWithinTotals | pkg/supervisor/singbox.go:209-329 | After a poll every counter lies between zero and the reported totals |
| TrafficLedger.PollSettles | pkg/supervisor/singbox.go:130-336 | One poll carries the balance from what was seen of the source to what is now reported of it |
| TrafficLedger.FirstPollIsHonest | pkg/supervisor/singbox.go:119-336 | Such runs exist: any first poll that reports one connection |
| TrafficOwners.CountersAreOwned | pkg/supervisor/singbox.go:137-329 | On every honest run the counter of a user is what the connections it owns carried since the last reset, by the first name each report gives, else the resolved one, else for local ones the last name, plus its portions of the leftovers; the counter `outbound:t` is what the owned connections through t carried |
| TrafficOwners.TargetsAreReceivers | pkg/supervisor/singbox.go:292-303 | What is left over goes to the users of closed connections, else to the last name, else to who took it before, else to the fallback |
| TrafficOwners.ClosedAreDepartedInRuns | pkg/supervisor/singbox.go:256-266 | The closed users of an honest poll are the owners of the connections that are no longer reported, each once |
| TrafficOwners.LeftIsLeftover | pkg/supervisor/singbox.go:281-289 | What is handed out is what connections that are gone carried since they were last seen |
| TrafficOwners.SteadyOwnersAreChargedInFull | pkg/supervisor/singbox.go:137-212 | While connections keep their owner, a user's counter without leftovers is the sum of the bytes last reported of its connections |
| TrafficEpochs.EpochsAreConservedIffRestartsAreSeen | pkg/supervisor/singbox.go:268-290 | Over any number of restarts, the counters and what was dropped add up to the traffic of all epochs after every poll iff at each restart the first totals are below the last ones in both directions, or there were none, or open connections carry all that is new |
| TrafficEpochs.RestartIsConservedIffSeen | pkg/supervisor/singbox.go:268-329 | The same for the first poll after one restart |
| TrafficLedger.ScanConserves | pkg/supervisor/singbox.go:132-254 | The connection loop credits or drops exactly the bytes by which the reported connections grew |
| TrafficLedger.SettleConserves | pkg/supervisor/singbox.go:268-329 | Settling the totals hands out, or drops for lack of a target, exactly the bytes open connections do not account for |
| TrafficLedger.SharesAddUp | pkg/supervisor/singbox.go:305-326 | Truncating division and the remainder for the first target add up to the whole amount, for either sign |
| TrafficLedger.ScanRecordsCounters | pkg/supervisor/singbox.go:180-195 | With distinct ids, every scanned connection leaves its reported counter behind |
| TrafficLedger.TrafficState.Account | pkg/supervisor/singbox.go:138-234 | One connection's loop body: counter delta or restart, user by claim, resolution or last seen user, outbound tag |
| TrafficLedger.TrafficState.DetectClosed | pkg/supervisor/singbox.go:257-266 | Collects each user of a closed connection once, in the order the map yields, and forgets the connections |
| TrafficLedger.TrafficState.Distribute | pkg/supervisor/singbox.go:304-327 | Gives every target its share |
| TrafficLedger.TrafficState.SettleTotals | pkg/supervisor/singbox.go:268-329 | Compares the totals with the last ones and shares out the rest among closed, last seen, only or resolved users |
| TrafficLedger.TrafficState.DropStale | pkg/supervisor/singbox.go:331-336 | Keeps the counters of open connections only |
| TrafficLedger.TrafficState.Fetch | pkg/supervisor/singbox.go:119-349 | The new ledger is that of one poll, and the snapshot is its user counters |
| TrafficLedger.TrafficState.Reset | pkg/supervisor/singbox.go:24-32 | Forgets everything |
| RateLimiting.TokenBucketIsExact | pkg/security/guard/rate_limiter.go:62-112 | A request that is not banned is admitted iff, for every earlier admission, the admissions from it on plus this one fit into burst + rps times the elapsed time |
| RateLimiting.StoredTokensAreTheLevel | pkg/security/guard/rate_limiter.go:90-102 | The stored tokens are the largest amount, capped at the burst, for which every earlier admission leaves room |
| RateLimiting.AdmissionsAreRateBounded | pkg/security/guard/rate_limiter.go:62-166 | Across bans and clean-up, every window between two admissions since the last unban holds at most burst + rps times its length |
| RateLimiting.RateBoundHoldsIffBucketsRefillWhileIdle | pkg/security/guard/rate_limiter.go:155-164 | That bound holds on all runs iff rps times 600 reaches the burst |
| RateLimiting.PacedClientIsNeverDenied | pkg/security/guard/rate_limiter.go:85-111 | A client whose requests are at least 1/rps apart is admitted each time and never banned, whatever others do |
| RateLimiting.BansFollowDenials | pkg/security/guard/rate_limiter.go:85-136 | A client is banned at an instant iff a denial that brought its denials, since it was forgotten, unbanned or last banned, to the threshold lies less than the ban duration back; denials and forgetting are told from the events |
| RateLimiting.BansOutliveCleanup | pkg/security/guard/rate_limiter.go:105-164 | A client that a request gets banned is banned until the ban duration has passed, whatever requests, clean-up ticks and unbans of others come in between |
| RateLimiting.TicksForgetIdleClients | pkg/security/guard/rate_limiter.go:155-164 | A tick drops a bucket iff its ban is over and its last charged request is more than ten minutes old |
| RateLimiting.ClientBucket.Refill | pkg/security/guard/rate_limiter.go:90-96 | Adds rps times the elapsed time, capped at the burst |
| RateLimiting.ClientBucket.Take | pkg/security/guard/rate_limiter.go:85-111 | The request of a known client: ban test, refill, token or violation, ban at the threshold |
| RateLimiting.RateLimiter.constructor | pkg/security/guard/rate_limiter.go:31-59 | Defaults for non-positive settings and no buckets |
| RateLimiting.RateLimiter.Allow | pkg/security/guard/rate_limiter.go:62-112 | The table and the answer are those of the request step; disabled or protected requests pass and change nothing |
| RateLimiting.RateLimiter.IsBanned | pkg/security/guard/rate_limiter.go:115-124 | Whether the client's ban lasts |
| RateLimiting.RateLimiter.Unban | pkg/security/guard/rate_limiter.go:127-136 | Fills a known bucket and clears its ban and violations; other clients keep theirs |
| RateLimiting.RateLimiter.Cleanup | pkg/security/guard/rate_limiter.go:156-164 | Keeps exactly the buckets that are banned or were used within ten minutes |
| PortMonitor.PruningIsInvisible | pkg/security/guard/sensitive_ports.go:85-158 | While neither map stays above the hard bound, every verdict of every run is that of a monitor without pruning |
| PortMonitor.VerdictSurvivesIffNothingLastingIsEvicted | pkg/security/guard/sensitive_ports.go:85-158 | The verdict of an access is that of a monitor without pruning iff no lasting ban of the address is evicted and no current record that, with this port, makes a scan |
| PortMonitor.EvictionLiftsABan | pkg/security/guard/sensitive_ports.go:111-119 | An eviction that meets a lasting ban lets the banned address through |
| PortMonitor.EvictionHidesAScan | pkg/security/guard/sensitive_ports.go:92-102 | An eviction that meets the record of a scan leaves the scan unflagged |
| PortMonitor.VerdictsFollowHistory | pkg/security/guard/sensitive_ports.go:122-158 | Every verdict follows from the past accesses of the address: refused while the ban of a flagged access lasts, flagged iff the distinct sensitive ports of the current window reach the threshold |
| PortMonitor.WideScansAreFlagged | pkg/security/guard/sensitive_ports.go:135-145 | Twice the threshold less one distinct ports within one window length are flagged, wherever the fixed windows begin |
| PortMonitor.FlagsAreRecent | pkg/security/guard/sensitive_ports.go:135-145 | A flag rests on enough distinct ports within one window length before it |
| PortMonitor.AttemptsAreOrdered | pkg/security/guard/sensitive_ports.go:135-143 | The attempts remembered on any run are in time order, as the two window results need |
| PortMonitor.OnlyExpiredArePruned | pkg/security/guard/sensitive_ports.go:86-110 | Pruning starts above 1000 entries and takes exactly records older than two windows and bans that have passed |
| PortMonitor.MapsStayBounded | pkg/security/guard/sensitive_ports.go:85-120 | On every run neither map holds more than 10001 entries |
| PortMonitor.SensitivePortMonitor.constructor | pkg/security/guard/sensitive_ports.go:31-67 | Defaults: threshold 5, ten seconds, block |
| PortMonitor.SensitivePortMonitor.PruneProbes | pkg/security/guard/sensitive_ports.go:87-91 | Keeps exactly the records no older than two windows |
| PortMonitor.SensitivePortMonitor.PruneBans | pkg/security/guard/sensitive_ports.go:106-110 | Keeps exactly the bans that have not passed |
| PortMonitor.SensitivePortMonitor.Shrink | pkg/security/guard/sensitive_ports.go:92-102 | Deletes exactly 2000 entries, whichever the map yields |
| PortMonitor.SensitivePortMonitor.PruneAll | pkg/security/guard/sensitive_ports.go:85-120 | Prunes above 1000 entries and evicts above 10000 what pruning left |
| PortMonitor.SensitivePortMonitor.Decision | pkg/security/guard/sensitive_ports.go:122-158 | The decision on the pruned maps |
| PortMonitor.SensitivePortMonitor.CheckPortAccess | pkg/security/guard/sensitive_ports.go:71-159 | New maps and verdict are those of the access step |
| PortMonitor.SensitivePortMonitor.AddSensitivePort | pkg/security/guard/sensitive_ports.go:169-173 | Adds the port and changes nothing else |
| PortMonitor.SensitivePortMonitor.Unban | pkg/security/guard/sensitive_ports.go:176-181 | Drops the ban and the probe record of the address |
| ClientRisk.QuarantineHolds | pkg/security/detector/client_risk.go:141-202 | A client compromised at some time stays isolated until its quarantine ends under every interleaving of incidents, ticks and deletions, unless reset or the ticks take the threshold |
| ClientRisk.QuarantineIsGuaranteedIffSustained | pkg/security/detector/client_risk.go:260-296 | A compromise isolates the client for the whole quarantine on every run from an empty table, with ticks an interval apart, no reset and violations meanwhile of at least the least weight, iff no such violation can leave a score that looks clean and that the remaining ticks take to zero |
| ClientRisk.SustainsWithoutWeight | pkg/security/detector/client_risk.go:260-296 | Without a least weight this is a condition on the last tick of the quarantine alone |
| ClientRisk.DefaultsSustain | pkg/security/detector/client_risk.go:53-62 | The default configuration sustains every weight |
| ClientRisk.ReleaseIsDecidedByScore | pkg/security/detector/client_risk.go:273-288 | At a tick after the quarantine the client is isolated iff its remaining score reaches the threshold |
| ClientRisk.ScoresFollowSteps | pkg/security/detector/client_risk.go:139-290 | The score is that of the incidents and ticks since the last reset, never below zero after a tick |
| ClientRisk.StatusFollowsScore | pkg/security/detector/client_risk.go:152-159 | An incident leaves the status that the thresholds give the score it makes |
| ClientRisk.OnlyCompromisedAreIsolated | pkg/security/detector/client_risk.go:108-202 | A client whose score never reached the threshold is not isolated |
| ClientRisk.ExemptAreNeverIsolated | pkg/security/detector/client_risk.go:113-117 | A whitelisted client is never isolated |
| ClientRisk.ResetReleases | pkg/security/detector/client_risk.go:239-249 | A reset releases the client at once and until it is blamed again, for positive thresholds |
| ClientRisk.ResetDoesNotLast | pkg/security/detector/client_risk.go:271-288 | With a threshold that is not positive the next tick isolates it again |
| ClientRisk.ProfilesKeepTheLastIncidents | pkg/security/detector/client_risk.go:141-144 | A profile keeps the last hundred incidents since it began |
| ClientRisk.TicksDropOldCleanProfiles | pkg/security/detector/client_risk.go:290-293 | A tick drops a profile iff the score it leaves is zero and looks clean and it began more than half an hour ago |
| ClientRisk.RiskProfile.Blame | pkg/security/detector/client_risk.go:141-159 | Score, status, bounded incidents and deadline after an incident |
| ClientRisk.RiskProfile.Decay | pkg/security/detector/client_risk.go:271-288 | Score and status after a tick |
| ClientRisk.RiskTracker.constructor | pkg/security/detector/client_risk.go:79-98 | No profiles; loopback addresses are whitelisted |
| ClientRisk.RiskTracker.RecordIncident | pkg/security/detector/client_risk.go:108-184 | The table after the incident, and an alert exactly on entering the compromised status |
| ClientRisk.RiskTracker.IsCompromisedOrQuarantined | pkg/security/detector/client_risk.go:187-202 | Isolation by status or by deadline |
| ClientRisk.RiskTracker.ResetClientScore | pkg/security/detector/client_risk.go:239-249 | Clears one profile |
| ClientRisk.RiskTracker.Tick | pkg/security/detector/client_risk.go:268-294 | One tick decays every profile and drops the clean old ones |
| SessionTracking.EveryRunKeepsInv | pkg/supervisor/session_tracker.go:396-554 | In every reachable state a user has at most one session per core, each session sits under its own key, and replaying the full history rebuilds exactly the active sessions |
| Presence.SessionsFollowSteps | pkg/supervisor/session_tracker.go:396-726 | In every reachable state a user has a session, under an address, since and last seen at an instant, exactly as the steps say: a disconnect from any address ends it, a connect under another address replaces it, a tick ends it after 180 seconds without traffic |
| SessionTracking.KeyIsInjective | pkg/supervisor/session_tracker.go:504-505 | Equal keys mean equal core, lower-cased email and address when neither core nor email has a colon |
| SessionTracking.WalksAreDeterministic | pkg/supervisor/session_tracker.go:413-424 | In a reachable state roaming closes at most one session and the disconnect fallback has at most one match, so map order does not matter |
| SessionTracking.HistoryAlternates | pkg/supervisor/session_tracker.go:413-549 | Per user and core connects and disconnects alternate, a disconnect has the email, address and duration of its connect, and a connect lasts no time |
| SessionTracking.TailOfTail | pkg/supervisor/session_tracker.go:547-549 | Truncating after every few events keeps the last events of the whole history, no more than the limit |
| SessionTracking.SinceIsASuffix | pkg/supervisor/session_tracker.go:606-626 | On a history in time order the events since an instant are its end, without gaps |
| SessionTracking.HistoryIsChronological | pkg/supervisor/session_tracker.go:407-726 | With a clock that never goes back the history is in time order |
| SessionTracking.SessionTracker.RegisterConnect | pkg/supervisor/session_tracker.go:503-554 | Refreshes a known session, or closes the user's other sessions and opens one; the events are the last of the history |
| SessionTracking.SessionTracker.RegisterDisconnect | pkg/supervisor/session_tracker.go:407-444 | Ends the session under the key or, failing that, one of the same user |
| SessionTracking.SessionTracker.TouchSession | pkg/supervisor/session_tracker.go:396-405 | Refreshes a known session only |
| SessionTracking.SessionTracker.RefreshReported | pkg/supervisor/session_tracker.go:688-700 | Refreshes exactly sessions whose user is reported online, whichever spelling the map yields first |
| SessionTracking.SessionTracker.ExpireIdle | pkg/supervisor/session_tracker.go:702-723 | Closes exactly the sessions idle for more than 180 seconds |
| SessionTracking.SessionTracker.CleanInactive | pkg/supervisor/session_tracker.go:678-726 | One cleaner tick: refresh, then expire |
| SessionTracking.SessionTracker.GetRecentEvents | pkg/supervisor/session_tracker.go:606-626 | The events since an instant among the last few |
| SessionTracking.SessionTracker.Clear | pkg/supervisor/session_tracker.go:629-638 | No sessions and no events |
| Cidr.SubnetIsInclusion | pkg/routing/optimizer.go:126-137 | The subnet test holds iff every address of the child is one of the parent |
| Cidr.MergeKeepsCoverage | pkg/routing/optimizer.go:103-115 | Dropping contained networks keeps the covered addresses |
| Cidr.MergeIsDisjoint | pkg/routing/optimizer.go:93-115 | Networks merged broadest first are pairwise disjoint |
| Cidr.MergeIsMinimal | pkg/routing/optimizer.go:93-115 | No list of the input's networks that covers as much is shorter |
| Cidr.OptimizeKeepsMatches | pkg/routing/optimizer.go:42-124 | The optimized text list matches the same addresses, whatever its tags mean |
| Cidr.OptimizedIsDisjointAndMinimal | pkg/routing/optimizer.go:42-124 | Read back, its networks are disjoint, from the input, and fewest |
| Cidr.OptimizeIsIdempotent | pkg/routing/optimizer.go:42-124 | A second pass changes nothing |
| Cidr.MergeIsShortestIffNoHalves | pkg/routing/optimizer.go:93-115 | Of all lists of any networks with the same coverage the merged one is shortest iff no two uncontained networks are the halves of one |
| Cidr.OptimizedIsShortestIffNoHalves | pkg/routing/optimizer.go:41-124 | The same for the optimized text list of any input |
| Cidr.OptimizeCIDRs | pkg/routing/optimizer.go:42-124 | The method computes that list |
| Cidr.Classify | pkg/routing/optimizer.go:51-87 | Splits entries into tags, without duplicates, and networks |
| Cidr.MergeAll | pkg/routing/optimizer.go:103-115 | Keeps a network iff no earlier kept one contains it |
| Domains.OptimizeKeepsMatchesIffLegible | pkg/routing/optimizer.go:140-230 | Under suffix semantics the optimized list matches the same hosts, whatever the tags mean, iff no topmost name without a label starts like a tag or a label once it is lowered |
| Domains.OutputIsTagsAndTops | pkg/routing/optimizer.go:140-230 | A list of more than one entry is optimized into its trimmed tags in order, then the names that no other lies above in order, each with the label of its first entry |
| Domains.OptimizedIsAnAntichain | pkg/routing/optimizer.go:198-221 | No domain of such an optimized list is a subdomain of another, and the tags are those of the input as a set |
| SecondPass.SecondPassKeepsIffStable | pkg/routing/optimizer.go:140-230 | On a list of more than one entry a second pass changes nothing iff at most one text is printed, or the texts that read as tags come first and continue the tags strictly and the others are read as non-empty names in strict order of which none is above another |
| SecondPass.OptimizeIsIdempotent | pkg/routing/optimizer.go:140-230 | So it does where the topmost names read back |
| SecondPass.SecondPassDropsAnEntry | pkg/routing/optimizer.go:164-181 | On others it may drop one: `Domain:x.org` and `x.org` are two entries after one pass and one after two |
| SecondPass.SecondPassMovesAnEntry | pkg/routing/optimizer.go:164-223 | Or move one: `Domain:z.org` and `y.org` change places |
| SecondPass.OptimizeSettles | pkg/routing/optimizer.go:140-230 | On any list a third pass changes nothing |
| Domains.ExactMatchesAreKeptIffLabelsAgree | pkg/routing/optimizer.go:150-230 | With `domain:` read as an exact name, the meaning of any list is kept iff its topmost names read back and the labels of its topmost domains agree |
| Domains.OutputIsSound | pkg/routing/optimizer.go:140-230 | Under either reading nothing more is matched, if the topmost names read back |
| Domains.DisagreementLosesAHost | pkg/routing/optimizer.go:150-227 | Every disagreement loses a host |
| Domains.OptimizeDomains | pkg/routing/optimizer.go:140-230 | The method computes that list |
| Domains.Classify | pkg/routing/optimizer.go:150-181 | Special tags once each, lowered names, and the label of each name's first entry |
| Domains.Strip | pkg/routing/optimizer.go:164-173 | Splits an entry into label and lowered name |
| Domains.RetainRoots | pkg/routing/optimizer.go:198-218 | Keeps a domain iff no earlier kept one is at or above it |
| HostPatterns.CoverageIsExact | pkg/compiler/singbox/routing.go:221-257 | One list of patterns matches within another on all hosts, whatever the tags mean, iff each of its patterns is covered |
| HostPatterns.SameHostsIffCoverEachOther | pkg/compiler/singbox/routing.go:221-257 | Two lists match the same hosts iff each covers the other |
| Sanitize.NamesAreKept | pkg/routing/sanitize.go:13-57 | A lower-case host name is one field and is cleaned to itself, with or without the label `domain:` |
| Sanitize.KeptIffClean | pkg/routing/sanitize.go:13-57 | An entry without a URL is cleaned to itself iff it is trimmed and, after any labels `domain:` and `full:`, a tag or a lower-case host without path, port, leading dot or `*.` |
| Sanitize.SuffixLabelIsKeptIff | pkg/routing/sanitize.go:37-43 | An entry keeps the label `suffix:` iff what follows it, up to a slash, holds another colon or a bracket |
| Sanitize.PortIsLost | pkg/routing/sanitize.go:37-43 | A name with a port, or with a label that is not known, is cleaned to what precedes the colon |
| Sanitize.SuffixLabelIsLost | pkg/routing/sanitize.go:37-43 | `suffix:ads.org` is cleaned to `suffix` |
| Sanitize.WritingsOfAName | pkg/routing/sanitize.go:33-55 | Capitals, a leading dot or wildcard and a path are cleaned away from a host name |
| Sanitize.UrlIsCleanedToItsHost | pkg/routing/sanitize.go:34-37 | A URL is cleaned to its host |
| Sanitize.TrimmedItemIsTheSame | pkg/routing/sanitize.go:129-187 | White space around an item does not change the entries it stands for |
| Policy.OptimizingFirstKeepsHostsIffCovered | pkg/routing/engine.go:155-156 | Under any reading of the entries, optimizing before cleaning keeps the hosts of a list iff the cleaned entries of its items and those of its trimmed tags and topmost names, each with the label of its first item, cover each other |
| Policy.CommaItemLosesAHost | pkg/routing/engine.go:155-156 | A block row with the items `a.com,b.org` and `org` is compiled to a rule that misses a.com |
| TidyLists.TidyListsSurviveIff | pkg/routing/engine.go:155-156 | A list of tags and names that cleaning keeps survives iff each item that does not stay is covered by those that do |
| TidyLists.NameStaysIff | pkg/routing/optimizer.go:150-227 | Of its names exactly those stay that no other lies above and that carry the label of the first item of that name |
| TidyLists.TidyListsSurviveForBoxIff | pkg/compiler/singbox/routing.go:221-257 | Read by sing-box it survives iff every name stays or lies at or below a bare name that stays, or else a tag names it, and a keyword what is below it if it is bare |
| TidyLists.TidyListsSurviveForXrayIff | pkg/compiler/xray/routing.go:127-137 | Read by Xray it survives iff every bare name stays, or holds a bare name that stays or a keyword |
| TidyLists.NamesSurvive | pkg/routing/engine.go:155-156 | Lists of tags and names survive where `domain:` covers subdomains as a bare name does |
| TidyLists.LevelListsSurvive | pkg/routing/optimizer.go:184-218 | Lists whose names all carry `domain:` and have as many dots survive under any reading |
| TidyLists.LabelledListsSurvive | pkg/routing/optimizer.go:184-218 | Lists whose names all carry `domain:` survive for Xray, and for sing-box if each name has the fewest dots or holds a keyword |
| TidyLists.KeywordSavesASubdomain | pkg/routing/optimizer.go:184-218 | A name under `domain:` below another survives for sing-box iff it holds the keyword beside them |
| Presets.RuPresetSurvives | presets/ru.json:6-23 | The domains of the preset for Russia survive under any reading |
| Presets.CheckerPresetSurvives | presets/ip_checkers.json:6-63 | Those of the preset for address checkers survive for both cores |
| Presets.PresetRowsAreSound | pkg/routing/engine.go:131-153 | So rows with these domains meet what the theorem on compiled policies asks, for both cores |
| Policy.CompiledPolicyIsLayered | pkg/routing/engine.go:22-162 | For every packet the verdict of the compiled policy is that of the layered policy as it was written: blocked UIDs and ports, LAN, block, direct, proxy overrides, custom rows, presets, default; provided each enabled row keeps its lists and its domains survive |
| Policy.CustomRowsLeaveAsAsked | pkg/routing/table.go:69-87 | A custom row sends what it decides to the block outbound for `block` or `blocked` in any spelling, past the tunnel for `direct` or nothing, into it for `proxy`, and for any other target to the outbound of that name |
| Policy.TargetIsResolved | pkg/routing/table.go:69-87 | A target is resolved to what it asks for, in any case and with any white space around it |
| Policy.PresetsDecide | pkg/routing/preset_manager.go:36-74 | The rows of the presets decide as the presets do: each by its own rows or its matchers alone, with the override or else the default in place of the target |
| Policy.PresetsInForce | pkg/routing/engine.go:115-129 | A preset that is enabled twice counts once; in smart mode without presets ads and ru are in force |
| Policy.CompiledRowsDecide | pkg/routing/table.go:64-109 | The rules compiled from optimized rows decide every packet as the rows do |
| Policy.RowCompilationKeepsMeaning | pkg/routing/table.go:64-106 | Optimizing, cleaning and resolving one row keeps the packets it was written for, if its lists are not emptied and its domains survive |
| Policy.CleaningKeepsMatcherIffNotEmptied | pkg/routing/sanitize.go:129-187 | Cleaning keeps a matcher's answer iff it does not empty a list that had items |
| Policy.LeastOrderDecides | pkg/routing/table.go:54-67 | In a table in any order the enabled matching row of least order decides, the earliest among equals |
| Policy.EmptiedPortListBlocksEverything | pkg/routing/engine.go:47-56 | A list of blocked ports emptied by cleaning blocks every packet |
| Policy.CleanItems | pkg/routing/sanitize.go:129-187 | Splits, cleans and deduplicates in order |
| Policy.CompileOne | pkg/routing/table.go:69-106 | Action and tag by target, lists cleaned |
| Policy.OptimizeOne | pkg/routing/optimizer.go:22-28 | Optimizes the addresses and domains of a row |
| Policy.OptimizeRules | pkg/routing/optimizer.go:11-39 | Drops disabled rows and rows without matchers or target |
| Policy.RoutingTable.AddRule | pkg/routing/table.go:48-50 | Appends a row |
| Policy.RoutingTable.CompileToAST | pkg/routing/table.go:53-122 | Stable sort by order, disabled rows skipped, default action |
| Policy.ActivePresetIDs | pkg/routing/engine.go:115-129 | Enabled presets once each, or the two defaults in smart mode |
| Policy.AddFixedRows | pkg/routing/engine.go:33-105 | The security, LAN and override rows with consecutive numbers |
| Policy.AddCustomRows | pkg/routing/engine.go:107-113 | The custom rows renumbered |
| Policy.AddPresets | pkg/routing/engine.go:131-153 | The enabled rows of known presets, with the target override |
| Policy.CompilePolicy | pkg/routing/engine.go:22-162 | The method computes the compiled policy |
| Backends.BoxKeepsMeaningIffFaithful | pkg/compiler/singbox/routing.go:138-375 | The sing-box rules of a rule match the same packets iff no port list is blank, `::/0` stands alone and meets no other version, and IPv6 alone comes without domains |
| Backends.XrayKeepsMeaningIffFaithful | pkg/compiler/xray/routing.go:60-165 | The Xray rules of a rule match the same packets, whatever their package ids and processes, iff all its ports are blank or it has a matcher, no package ids and process names, and no IP version except all of IPv6 |
| Backends.BoxListKeepsVerdict | pkg/compiler/singbox/routing.go:136-376 | The sing-box list gives the first-match verdict for every packet, up to the name of the block outbound |
| Backends.XrayListKeepsVerdict | pkg/compiler/xray/routing.go:60-165 | The Xray list of such rules gives the first-match verdict for every packet |
| Cores.RuleIsMatchedAlikeIffTranslatedAlike | pkg/compiler/singbox/routing.go:138-375 | The rules emitted for the two cores match the same traffic, for every host, iff ports survive, some matcher is written, no package ids or process names are, addresses do not mix with IPv6 alone or a version (unless every host is hit anyway), and the two readings of the domains cover each other |
| Cores.CoresAgree | pkg/compiler/xray/routing.go:60-165 | Lists of such rules send the same traffic to the same outbound, up to the name of the block outbound |
| Cores.CoresAgreeIffTranslatedAlike | pkg/compiler/xray/routing.go:60-165 | The cores agree on all lists made of some rules iff each of them is such a rule |
| Cores.EntryIsReadAlikeIffLabelShared | pkg/compiler/singbox/routing.go:221-257 | An entry on its own is read alike iff it carries `full:`, `keyword:`, `regexp:` or `geosite:` |
| Cores.SharedLabelsSuffice | pkg/compiler/singbox/routing.go:221-257 | Rules all of whose entries carry such a label are read alike |
| Cores.DomainLabelTellsCoresApart | pkg/compiler/singbox/routing.go:245-246 | A host below a name blocked under `domain:` is blocked by Xray and not by sing-box |
| Backends.SplitProtocols | pkg/compiler/singbox/routing.go:183-200 | Transport and application protocols apart, lowered |
| Backends.SortDomains | pkg/compiler/singbox/routing.go:221-257 | Each domain entry goes to the list of its kind |
| Backends.ResolveIPs | pkg/compiler/singbox/routing.go:259-303 | Networks, rule sets and the IPv6 flag of an address list |
| Backends.EntryIsResolved | pkg/compiler/singbox/routing.go:259-303 | The networks and rule sets of an address entry pass exactly when what the entry asks for does |
| Lan.PrivateIsTheLan | pkg/compiler/singbox/routing.go:267-277 | In sing-box rules `geoip:private` passes exactly for the addresses of 10/8, 172.16/12, 192.168/16, 127/8, fc00::/7 and ::1 |
| Lan.CountriesAskForTheirSet | pkg/compiler/singbox/routing.go:278-297 | Any other `geoip:c` asks for the rule set `geoip-c` |
| Backends.TranslateForBox | pkg/compiler/singbox/routing.go:138-375 | One or two adjacent rules, split between domains and addresses |
| Backends.BuildBoxRules | pkg/compiler/singbox/routing.go:136-376 | The user-rule part of the route |
| Backends.RenameDomains | pkg/compiler/xray/routing.go:128-137 | `geosite:ru` is renamed |
| Backends.AddAllV6 | pkg/compiler/xray/routing.go:62-73 | A rule for IPv6 gets `::/0` once |
| Backends.TranslateForXray | pkg/compiler/xray/routing.go:61-164 | None, one or two adjacent rules |
| Backends.BuildXrayRules | pkg/compiler/xray/routing.go:60-165 | The user-rule part of the routing object |
| SecurityRules.InjectionBlocksExactlyThreats | pkg/security/compiler.go:11-107 | With the security rules in front threats are blocked whatever follows, and everything else is decided as before |
| SecurityRules.RulesBlockThreats | pkg/security/compiler.go:19-94 | The injected rules block exactly quarantined users, metadata addresses, sensitive ports and listed destinations |
| RoutingAst.ProtocolsAreSplit | pkg/compiler/singbox/routing.go:184-197 | The transport matcher is made of the entries tcp and udp in any case, the application matcher of the others |
| SecurityRules.PolicyReachesSingbox | pkg/compiler/singbox/routing.go:136-376 | From the written policy to sing-box rules: threats are blocked and every other packet leaves as the layered policy says; core and packet need only agree on the entries of the emitted rules |
| SecurityRules.PolicyReachesXray | pkg/compiler/xray/routing.go:60-165 | The same for Xray, where the emitted rules ask for nothing it cannot test |
| SecurityRules.FilterRuleBlocks | pkg/security/compiler.go:61-94 | The filter rule blocks the listed names in sing-box, whatever lies at or below them in Xray, and listed ads and addresses in both |
| SecurityRules.RulesAgainstEngine | pkg/security/filter/engine.go:170-196 | For a host that is no ad, no address and not allowed: sing-box blocks it iff the threat engine does and it is listed itself; the engine blocks it iff Xray does and not all listed names above it lack a dot |
| BlockList.BlockedNamesReachSingbox | pkg/routing/engine.go:22-162 | A policy that blocks host names, compiled for sing-box, sends the addresses of the six private networks direct and blocks all other traffic exactly if its host is at or below one of the names, for every list of names and every host |
| BlockList.BlockingIsClear | pkg/routing/engine.go:22-162 | That policy meets what the theorem on compiled policies asks |
| BlockList.EnvironmentsExist | pkg/routing/sanitize.go:63-102 | Some parsers and printers meet what that theorem asks of them |
| SecurityRules.InjectSecurityRules | pkg/security/compiler.go:11-107 | The method computes the extended rule list |
| SecurityRules.CollectDomains | pkg/security/compiler.go:63-84 | The domain entries of the enabled feeds in order |
| Bloom.SetBitSetsOnlyIt | pkg/security/filter/bloom.go:43-57 | Setting a bit of a word changes the test of that bit only |
| Bloom.SetOneOfAll | pkg/security/filter/bloom.go:40-43 | Setting a position of the array adds exactly that position |
| Bloom.CharBytesAreUtf8 | pkg/security/filter/bloom.go:64-79 | Keys are hashed in their UTF-8 form |
| Bloom.FnvIsKnown | pkg/security/filter/bloom.go:64-79 | The hash has the known values of 64-bit FNV-1a |
| Bloom.BloomFilter.constructor | pkg/security/filter/bloom.go:17-31 | Defaults and no bit set; within 63 bits of the largest size the word count wraps to none |
| Bloom.BloomFilter.Add | pkg/security/filter/bloom.go:34-45 | Adds exactly the positions of the key, indexes in bounds |
| Bloom.BloomFilter.MayContain | pkg/security/filter/bloom.go:48-62 | True iff all positions of the key are set |
| ThreatFilter.ParentsAreDottedSuffixes | pkg/security/filter/engine.go:180-184 | The parents looked up are exactly the proper suffixes at a dot that contain a dot |
| ThreatFilter.BlockedMeansListed | pkg/security/filter/engine.go:170-196 | A host that is no address and not allowed is blocked iff it is listed or lies below a listed name with a dot |
| ThreatLists.EngineBlocksAsWritten | pkg/security/filter/engine.go:29-197 | An engine made of lists blocks a host iff it is not allowed and it is an address that some blocked text covers, or a name listed by an enabled feed or below such a name with a dot |
| ThreatLists.FeedsAreAdded | pkg/security/filter/engine.go:49-72 | The engine knows the names of the enabled feeds, in lower case without a leading dot, each with the category of the last feed that has it |
| ThreatLists.HostsAreNamedAlike | pkg/security/filter/engine.go:120-133 | A host is looked up by its name, whatever its case, white space around it, a root dot and a port |
| ThreatLists.AddressesAreUnbracketed | pkg/security/filter/engine.go:124-128 | An address in brackets is looked up by itself |
| ThreatLists.AddressesAreKept | pkg/security/filter/engine.go:129-133 | An address without brackets is looked up as it is |
| ThreatFilter.ThreatEngine.constructor | pkg/security/filter/engine.go:29-100 | The maps and networks of the lists, every listed name known to the filter |
| ThreatFilter.ThreatEngine.Add | pkg/security/filter/engine.go:102-112 | Both maps and the filter learn the cleaned name |
| ThreatFilter.ThreatEngine.CheckHost | pkg/security/filter/engine.go:115-197 | The verdict with the Bloom pre-check is that of the plain whitelist, address, name and parent lookup |
| ThreatFilter.ThreatEngine.ParentMayBeListed | pkg/security/filter/engine.go:151-165 | If the filter knows no parent, no parent is listed |
| ThreatFilter.ThreatEngine.ScanNets | pkg/security/filter/engine.go:137-145 | Blocked iff some blocked network contains the address |
| ThreatFilter.ThreatEngine.ScanParents | pkg/security/filter/engine.go:179-194 | The nearest listed parent decides |
| Packet.OnesSumIsModular | pkg/security/pcap.go:171-178 | The end-around-carry sum is the sum modulo 65535 and zero only for zeros |
| Packet.ComplementCompletes | pkg/security/pcap.go:171-178 | Storing the complement makes the words sum to 65535 |
| Packet.Fold | pkg/security/pcap.go:175-177 | Folding the carries ends and keeps the residue |
| Packet.Checksum | pkg/security/pcap.go:170-178 | The complement of the one's-complement sum, without overflow of 32 bits |
| Packet.TcpHeader | pkg/security/pcap.go:131-146 | Reads back as the given ports, numbers, flags and window, each at its place |
| Packet.UdpHeader | pkg/security/pcap.go:147-155 | Reads back as the given ports and length |
| Packet.IpHeader | pkg/security/pcap.go:158-178 | Reads back as the given fields and sums to 65535 |
| Packet.Synthesize | pkg/security/pcap.go:107-185 | A receiver that checks version, length and checksum reads back exactly what the packet was made from, iff it has at most 65535 bytes; its header always sums to 65535; unknown addresses and a zero window get fixed values, and no protocol means TCP |
| Pcap.CaptureReadsBack | pkg/security/pcap.go:27-92 | Any writes to a readable or empty capture add exactly the non-empty packets at their times, given or now, in order, iff every length and every second fits 32 bits |
| Pcap.HeaderThenRecords | pkg/security/pcap.go:32-46 | However many packets are written, there is one global header and the records follow it |
| Pcap.GlobalHeaderBytes | pkg/security/pcap.go:36-43 | The 24 bytes of the global header |
| Pcap.RecordIsRead | pkg/security/pcap.go:75-91 | A record that fits is read as written whatever follows it |
| Pcap.RecordIsMisread | pkg/security/pcap.go:75-77 | One that does not fit is not |
| Pcap.CaptureFile.WriteGlobalHeader | pkg/security/pcap.go:27-47 | Writes the header to an empty file only |
| Pcap.CaptureFile.WritePacket | pkg/security/pcap.go:50-92 | Appends header and record, or nothing for an empty packet |
| Pcap.NewGlobalHeader | pkg/security/pcap.go:36-43 | The 24 bytes of the global header for any link type |
| Pcap.NewRecordHeader | pkg/security/pcap.go:79-83 | The 16 bytes of a record header |
| Bytes.LittleLongReadsBack | pkg/security/pcap.go:37-43 | A number stored least byte first is read back |
| Supervisor.NoOrphansInAnyRun | pkg/supervisor/process.go:178-374 | Under every interleaving of start, stop, exit and waiter steps, each live process is the tracked one of its core, so there is at most one; no entry names a process whose waiter finished |
| Supervisor.NamesShareSlotIffOneCore | pkg/supervisor/process.go:608-620 | Two names share a slot iff they are equal up to case and white space or spellings of one known core |
| Supervisor.OneLiveProcessPerCore | pkg/supervisor/process.go:178-374 | Of all processes started under spellings of one core at most one is alive |
| Supervisor.AliveIffNothingEndedIt | pkg/supervisor/process.go:178-385 | A process is alive after a run iff no step since its start ended it: a stop, or a start that found binary and configuration, of its core under any spelling, a sweep that hit it, or its exit; a start adds a process iff the binary resolves and is authorized, the configuration is empty or present, and the host starts it |
| Supervisor.TableFollowsSteps | pkg/supervisor/process.go:200-330 | What the table names for a core is told by the steps; the entry goes with the waiter of its own process and no other |
| Supervisor.SettledTableIsExact | pkg/supervisor/process.go:320-330 | Once every waiter has run, the table holds exactly the live processes |
| Supervisor.RunAdvances | pkg/supervisor/process.go:320-330 | A process that lost its entry never gets it back, and one alive at the end was tracked since its start: no stale waiter removes a newer process |
| Supervisor.StartDecides | pkg/supervisor/process.go:178-245 | Which processes of a core are live after each outcome of a start; other cores are untouched |
| Supervisor.StopEmpties | pkg/supervisor/process.go:351-385 | A stop leaves the core without live process and without entry |
| Supervisor.ReloadReplaces | pkg/supervisor/process.go:388-407 | Whatever happens between its locked sections, a successful reload leaves its new process as the only live one |
| Supervisor.PathsAreTheLastAttempt | pkg/supervisor/process.go:190-191 | The paths of a reload are those of the last start that found its binary |
| Supervisor.NormalizeIsIdempotent | pkg/supervisor/process.go:608-620 | A core name and its normal form denote the same slot |
| Supervisor.ProcessManager.StartCore | pkg/supervisor/process.go:178-333 | New table, paths and processes, and the outcome of a start |
| Supervisor.ProcessManager.StopCore | pkg/supervisor/process.go:351-385 | Kills and forgets the tracked process, then sweeps recognized cores |
| Supervisor.ProcessManager.KillAll | pkg/supervisor/process.go:365-380 | A sweep kills exactly the running processes it hits |
| Supervisor.ProcessManager.ProcessEnded | pkg/supervisor/process.go:320-330 | The waiter deletes the entry only if it still holds its process |
| Supervisor.ProcessManager.RestartCore | pkg/supervisor/process.go:388-392 | Stop, then start |
| Supervisor.ProcessManager.ReloadCore | pkg/supervisor/process.go:395-407 | Restarts with the recorded paths, or does nothing without them |

## Left out

- Fetching and decoding of API answers, SSH, file tailing, JSON, the C interface and the command line: the models take decoded records.
- Log-line parsing in the session tracker and the detectors: only the state updates it triggers are modelled.
- URI parsing, key generation, authenticated encryption and configuration assembly for single protocols: one branch per field or library calls.
- `AuditConnection`, event buses and log broadcasters: they repeat the results about the bounded event list.
- Parsing of addresses, networks and ports, the host of a full URL and the cleaning of single addresses and ports are parameters; printing a network and reading it again is assumed to be the identity (`Cidr.Codec.Valid`), and a text that reads as a network to be one field that is cleaned to that network (`Policy.Env.Valid`). IPv4-mapped IPv6 networks are excluded.
- How the cores read a domain entry is their documented behaviour, not code of this repository: sing-box's `domain`, `domain_suffix`, `domain_keyword`, `domain_regex` and `rule_set`; Xray's `domain:`, `full:`, `keyword:`, `regexp:`, `geosite:` and plain texts. Hosts are lower case, suffixes have no leading dot, Xray's `ext:` and `dotless:` are not modelled, and the list ru of one core is taken to be category-ru of the other, as the Xray builder does.
- The exact conditions on hosts ask for a character that occurs in none of the patterns; without one only the sufficient direction is proved (`CoverEachOtherSuffices`).
- Case mapping is ASCII only, and a library sort is modelled as insertion sort; where equal elements could be ordered either way the order is total.
- TrafficLedger.TrafficState.Fetch: keeps one API address, since the connection map is shared between addresses; the live counts, online flags and active addresses of the snapshot and the session registration are not modelled, and user resolution is a parameter of each connection.
- TrafficLedger.TrafficState.Account: the live connection count and the session registration of the loop body are not modelled.
- TrafficLedger.TrafficIsConserved: asks the source to keep counters monotone, not to reuse ids and to report totals that sum its connections; user names that start with `outbound:` are excluded.
- TrafficOwners.CountersAreOwned: asks the same of the source as `TrafficIsConserved`.
- Presence.SessionsFollowSteps: cores and emails with a colon are excluded, as two users may then share a key.
- Lan.PrivateIsTheLan: asks that the core reads the six texts as the networks they name and looks addresses up in them; parsing is a parameter.
- ClientRisk.ResetReleases: asks for positive thresholds; `ResetDoesNotLast` shows what happens without.
- PortMonitor.MapsStayBounded: which entries an eviction meets is a parameter; it meets 2000.
- Map entries of the traffic counters, sessions and probe records are values in the models, while the code holds pointers that nothing else shares.
- RateLimiting.RateLimiter.Allow: rounding of `float64` is not modelled, and the whitelist answer is a parameter.
- ClientRisk.RiskTracker.RecordIncident: the texts of incidents, the probed ports and the published events are not modelled; `alert` says when the callbacks run.
- ClientRisk.RiskTracker.ResetClientScore: the probed ports that it clears as well are not modelled.
- SessionTracking.SessionTracker.Clear: the address and connection maps of the sing-box log reader, which it clears as well, are not modelled.
- SecurityRules.FilterRuleBlocks: asks that `::/0` does not stand beside other custom addresses, where the sing-box rule loses its meaning anyway (`BoxKeepsMeaningIffFaithful`).
- SecurityRules.RulesAgainstEngine: asks that listed names are lower case, trimmed and without a leading dot, as the built-in lists are; the engine cleans names, the injected rules take them as they are.
- SecurityRules.InjectSecurityRules: the outbounds and switches that it copies and the printing of port numbers are not modelled.
- SessionTracking.SessionTracker.RegisterDisconnect: durations are numbers of seconds; their localized text and the connection maps of log lines are not modelled.
- Policy.CompilePolicy: preset lookup is a parameter, and the flags of the specification that are constants are not modelled.
- Policy.CompiledPolicyIsLayered: asks that cleaning empties no list of an enabled row and that its domains survive, which are the exact conditions of `CleaningKeepsMatcherIffNotEmptied` and `OptimizingFirstKeepsHostsIffCovered`, on the items as they are written.
- Policy.CleanItems: the functions that clean one address and one port are parameters.
- SecondPass.OptimizeIsIdempotent: asks that the topmost names read back, which is sufficient; `SecondPassKeepsIffStable` has the exact condition.
- Sanitize.KeptIffClean: entries with a URL are excluded, as the host of a URL is a parameter.
- TidyLists.TidyListsSurviveForBoxIff: covers lists of items that are cleaned to themselves; the condition for all lists is `DomainsSurvive`.
- TrafficEpochs.EpochsAreConservedIffRestartsAreSeen: takes the first poll after a restart to be the first that reports totals, and the ids of its connections to be new; resets of the counters are treated in `TrafficIsConserved`.
- ClientRisk.QuarantineIsGuaranteedIffSustained: the least weight binds the violations during the quarantine, not those before it.
- Backends.BuildBoxRules: the rule-set definitions that the same loop fills in are not modelled; DNS, mirror and rule-set download blocks are not modelled; numeric ports and port ranges are one list.
- Backends.BuildXrayRules: the fixed rules around the user rules are not modelled.
- Supervisor.ProcessManager.StartCore: binary lookup, the authorization test and the arguments of the process are parameters or left out, as are telemetry registration and log tailing.
- Supervisor.ProcessManager.StopCore: the reset of the Hysteria counters is not modelled; which processes the operating system's sweep hits is a parameter; processes the manager did not start are not modelled.
- Packet.Synthesize: parsing of the address texts and the random identification are parameters.
- Pcap.CaptureFile.WritePacket: file-system errors and concurrent writers are not modelled.
- ThreatFilter.ThreatEngine.constructor: the built-in lists are parameters, and the reason texts are a datatype.
