/** Security rules put in front of a routing specification (pkg/security/compiler.go). */
module SecurityRules {
  import opened Common
  import opened Text
  import opened HostPatterns
  import opened RoutingAst
  import opened Cores
  import Backends
  import Cidr
  import Domains
  import Policy
  import Sanitize
  import ThreatFilter

  datatype Feeds = Feeds(malware: seq<string>, phishing: seq<string>, miners: seq<string>)

  datatype Config = Config(blockMetadata: bool, portGuard: bool, sensitivePorts: seq<string>, filter: bool,
                           malware: bool, phishing: bool, miners: bool, ads: bool,
                           customDomains: seq<string>, customIPs: seq<string>)

  const METADATA_IPS := ["169.254.169.254", "100.100.100.200", "169.254.170.2"]
  const METADATA_DOMAINS := ["domain:metadata.google.internal", "domain:metadata.goog", "domain:instance-data"]
  const ADS := "geosite:category-ads-all"
  const BLOCK_RULE := Rule(Block, "block", [], [], [], [], [], [], [], [], 0)

  function Labelled(domains: seq<string>): (r: seq<string>)
    ensures |r| == |domains| && forall i | 0 <= i < |domains| :: r[i] == "domain:" + domains[i]
  {
    seq(|domains|, i requires 0 <= i < |domains| => "domain:" + domains[i])
  }

  // The threat feeds that are switched on.
  function BlockedDomains(cfg: Config, feeds: Feeds): seq<string> {
    (if cfg.malware then Labelled(feeds.malware) else [])
    + (if cfg.phishing then Labelled(feeds.phishing) else [])
    + (if cfg.miners then Labelled(feeds.miners) else [])
    + (if cfg.ads then [ADS] else [])
    + Labelled(cfg.customDomains)
  }

  predicate FiltersSomething(cfg: Config, feeds: Feeds) {
    cfg.filter && (BlockedDomains(cfg, feeds) != [] || cfg.customIPs != [])
  }

  function UserRules(quarantined: seq<string>): seq<Rule> {
    if quarantined != [] then [BLOCK_RULE.(users := quarantined)] else []
  }

  function MetadataRules(cfg: Config): seq<Rule> {
    if cfg.blockMetadata then [BLOCK_RULE.(ips := METADATA_IPS, domains := METADATA_DOMAINS)] else []
  }

  function PortRules(cfg: Config): seq<Rule> {
    if cfg.portGuard && cfg.sensitivePorts != [] then [BLOCK_RULE.(ports := cfg.sensitivePorts)] else []
  }

  function FilterRules(cfg: Config, feeds: Feeds): seq<Rule> {
    if FiltersSomething(cfg, feeds) then [BLOCK_RULE.(domains := BlockedDomains(cfg, feeds), ips := cfg.customIPs)]
    else []
  }

  function Rules(cfg: Config, feeds: Feeds, quarantined: seq<string>): seq<Rule> {
    UserRules(quarantined) + MetadataRules(cfg) + PortRules(cfg) + FilterRules(cfg, feeds)
  }

  function Injected(base: Option<Spec>, cfg: Config, feeds: Feeds, quarantined: seq<string>): Spec {
    var spec := if base.Some? then base.value else Spec(Proxy, []);
    Spec(spec.defaultAction, Rules(cfg, feeds, quarantined) + spec.rules)
  }

  // Some of these names is matched, as `domain:` entries.
  predicate AnyNamed(k: Packet, names: seq<string>) { exists n | n in names :: k.domain("domain:" + n) }

  // The metadata services of cloud providers.
  predicate IsMetadata(k: Packet) {
    || k.ip("169.254.169.254") || k.ip("100.100.100.200") || k.ip("169.254.170.2")
    || k.domain("domain:metadata.google.internal") || k.domain("domain:metadata.goog")
    || k.domain("domain:instance-data")
  }

  // What the security rules are there to stop.
  predicate IsThreat(cfg: Config, feeds: Feeds, quarantined: seq<string>, k: Packet) {
    || Any(k.user, quarantined)
    || (cfg.blockMetadata && IsMetadata(k))
    || (cfg.portGuard && Any(k.port, cfg.sensitivePorts))
    || (cfg.filter && (
          || (cfg.malware && AnyNamed(k, feeds.malware)) || (cfg.phishing && AnyNamed(k, feeds.phishing))
          || (cfg.miners && AnyNamed(k, feeds.miners)) || (cfg.ads && k.domain("geosite:category-ads-all"))
          || AnyNamed(k, cfg.customDomains) || Any(k.ip, cfg.customIPs)))
  }

  lemma AnyOfThree(test: string -> bool, a: string, b: string, c: string)
    ensures Any(test, [a, b, c]) <==> test(a) || test(b) || test(c)
  {
    var all := [a, b, c];
    assert all[0] == a && all[1] == b && all[2] == c;
  }

  lemma MetadataIsListed(k: Packet)
    ensures Any(k.domain, METADATA_DOMAINS) || Any(k.ip, METADATA_IPS) <==> IsMetadata(k)
  {
    AnyOfThree(k.ip, "169.254.169.254", "100.100.100.200", "169.254.170.2");
    AnyOfThree(k.domain, "domain:metadata.google.internal", "domain:metadata.goog", "domain:instance-data");
  }

  lemma LabelledAreNamed(k: Packet, names: seq<string>)
    ensures Any(k.domain, Labelled(names)) <==> AnyNamed(k, names)
  {
    if n :| n in names && k.domain("domain:" + n) { LabelledEntries(names, "domain:" + n); }
    if d :| d in Labelled(names) && k.domain(d) { LabelledEntries(names, d); }
  }

  lemma SingleRule(r: Rule, k: Packet)
    ensures FirstMatch([r], k) == if Matches(r, k) then Some(r) else None
  {
    assert [r][1..] == [];
  }

  lemma FeedsAreAlternatives(cfg: Config, feeds: Feeds, k: Packet)
    ensures Any(k.domain, BlockedDomains(cfg, feeds)) <==>
            || (cfg.malware && AnyNamed(k, feeds.malware)) || (cfg.phishing && AnyNamed(k, feeds.phishing))
            || (cfg.miners && AnyNamed(k, feeds.miners)) || (cfg.ads && k.domain("geosite:category-ads-all"))
            || AnyNamed(k, cfg.customDomains)
  {
    var malware := if cfg.malware then Labelled(feeds.malware) else [];
    var phishing := if cfg.phishing then Labelled(feeds.phishing) else [];
    var miners := if cfg.miners then Labelled(feeds.miners) else [];
    var ads := if cfg.ads then [ADS] else [];
    Backends.AnyOfConcat(k.domain, malware, phishing);
    Backends.AnyOfConcat(k.domain, malware + phishing, miners);
    Backends.AnyOfConcat(k.domain, malware + phishing + miners, ads);
    Backends.AnyOfConcat(k.domain, malware + phishing + miners + ads, Labelled(cfg.customDomains));
    Backends.AnyOfOne(k.domain, ADS);
    LabelledAreNamed(k, feeds.malware);
    LabelledAreNamed(k, feeds.phishing);
    LabelledAreNamed(k, feeds.miners);
    LabelledAreNamed(k, cfg.customDomains);
  }

  // A rule with this test blocks exactly what passes it.
  ghost predicate Blocks(rules: seq<Rule>, k: Packet, test: bool) {
    && (FirstMatch(rules, k).Some? <==> test)
    && (FirstMatch(rules, k).Some? ==>
          FirstMatch(rules, k).value.action == Block && FirstMatch(rules, k).value.outboundTag == "block")
  }

  lemma BlocksEither(a: seq<Rule>, b: seq<Rule>, k: Packet, s: bool, t: bool)
    requires Blocks(a, k, s) && Blocks(b, k, t)
    ensures Blocks(a + b, k, s || t)
  {
    FirstMatchOfConcat(a, b, k);
  }

  lemma NoRules(k: Packet)
    ensures Blocks([], k, false)
  {}

  lemma UsersAreBlocked(quarantined: seq<string>, k: Packet)
    ensures Blocks(if quarantined != [] then [BLOCK_RULE.(users := quarantined)] else [], k, Any(k.user, quarantined))
  {
    SingleRule(BLOCK_RULE.(users := quarantined), k);
  }

  lemma PortsAreBlocked(ports: seq<string>, k: Packet)
    ensures Blocks(if ports != [] then [BLOCK_RULE.(ports := ports)] else [], k, Any(k.port, ports))
  {
    SingleRule(BLOCK_RULE.(ports := ports), k);
  }

  lemma AddressesAreBlocked(domains: seq<string>, ips: seq<string>, k: Packet)
    ensures Blocks(if domains != [] || ips != [] then [BLOCK_RULE.(domains := domains, ips := ips)] else [], k,
                   Any(k.domain, domains) || Any(k.ip, ips))
  {
    SingleRule(BLOCK_RULE.(domains := domains, ips := ips), k);
  }

  lemma RulesBlockThreats(cfg: Config, feeds: Feeds, quarantined: seq<string>, k: Packet)
    ensures Blocks(Rules(cfg, feeds, quarantined), k, IsThreat(cfg, feeds, quarantined, k))
  {
    var domains := BlockedDomains(cfg, feeds);
    var a, b, c, d := UserRules(quarantined), MetadataRules(cfg), PortRules(cfg), FilterRules(cfg, feeds);
    var ta := Any(k.user, quarantined);
    var tb := cfg.blockMetadata && (Any(k.domain, METADATA_DOMAINS) || Any(k.ip, METADATA_IPS));
    var tc := cfg.portGuard && Any(k.port, cfg.sensitivePorts);
    var td := cfg.filter && (Any(k.domain, domains) || Any(k.ip, cfg.customIPs));
    NoRules(k);
    MetadataIsListed(k);
    assert Blocks(a, k, ta) by { UsersAreBlocked(quarantined, k); }
    assert Blocks(b, k, tb) by { AddressesAreBlocked(METADATA_DOMAINS, METADATA_IPS, k); }
    assert Blocks(c, k, tc) by { PortsAreBlocked(cfg.sensitivePorts, k); }
    assert Blocks(d, k, td) by { AddressesAreBlocked(domains, cfg.customIPs, k); }
    BlocksEither(a, b, k, ta, tb);
    BlocksEither(a + b, c, k, ta || tb, tc);
    BlocksEither(a + b + c, d, k, ta || tb || tc, td);
    FeedsAreAlternatives(cfg, feeds, k);
  }

  /** With the security rules in front, threats are blocked whatever the base rules say, and
      everything else is decided by the base rules alone. */
  lemma InjectionBlocksExactlyThreats(base: Spec, cfg: Config, feeds: Feeds, quarantined: seq<string>, k: Packet)
    ensures Verdict(Injected(Some(base), cfg, feeds, quarantined), k) ==
            if IsThreat(cfg, feeds, quarantined, k) then Decided(Block, "block") else Verdict(base, k)
  {
    RulesBlockThreats(cfg, feeds, quarantined, k);
    FirstMatchOfConcat(Rules(cfg, feeds, quarantined), base.rules, k);
  }

  // The packet agrees with the core's tests on the entries of the rules.
  ghost predicate SeenBy(rules: seq<Rule>, k: Packet, t: Backends.BoxTests) {
    forall r | r in rules :: Alike(r, k, Backends.BoxPacket(t))
  }

  ghost predicate AllFaithful(rules: seq<Rule>) { forall r | r in rules :: Backends.BoxFaithful(r) }

  // What the core should do with a packet.
  ghost function Intended(env: Policy.Env, p: Policy.RoutingPolicy, cfg: Config, feeds: Feeds,
                          quarantined: seq<string>, k: Packet): Option<string> {
    if IsThreat(cfg, feeds, quarantined, k) then Some("block") else TagOf(Policy.Layered(env, p, k))
  }

  /** From the policy to sing-box: threats are blocked, and every other packet leaves as the layered
      policy says.  The core and the packet need only agree on the entries of the emitted rules. */
  lemma PolicyReachesSingbox(env: Policy.Env, p: Policy.RoutingPolicy, cfg: Config, feeds: Feeds,
                             quarantined: seq<string>, server: string, k: Packet, v: Policy.View,
                             t: Backends.BoxTests)
    requires env.Valid() && Policy.Clear(env, k, v, Policy.PolicyRows(env, p))
    requires var rules := Injected(Some(Policy.Compiled(env, p)), cfg, feeds, quarantined).rules;
             AllFaithful(rules) && SeenBy(rules, k, t)
    ensures var rules := Injected(Some(Policy.Compiled(env, p)), cfg, feeds, quarantined).rules;
            Backends.BoxVerdict(Backends.BoxList(rules, server), t) == Intended(env, p, cfg, feeds, quarantined, k)
  {
    var base := Policy.Compiled(env, p);
    var spec := Injected(Some(base), cfg, feeds, quarantined);
    InjectedRulesHaveTags(cfg, feeds, quarantined);
    Policy.CompiledRulesHaveTags(env, p);
    AllHaveTags(Rules(cfg, feeds, quarantined), base.rules);
    BoxFollowsVerdict(spec, server, k, t);
    InjectionBlocksExactlyThreats(base, cfg, feeds, quarantined, k);
    Policy.CompiledPolicyIsLayered(env, p, k, v);
  }

  // The tag a verdict sends a packet to, if a rule decided it.
  function TagOf(v: Outcome): Option<string> { if v.Decided? then Backends.Unblocked(Some(v.tag)) else None }

  lemma InjectedRulesHaveTags(cfg: Config, feeds: Feeds, quarantined: seq<string>)
    ensures Policy.HaveTags(Rules(cfg, feeds, quarantined))
  {}

  lemma AllHaveTags(a: seq<Rule>, b: seq<Rule>)
    requires Policy.HaveTags(a) && Policy.HaveTags(b)
    ensures Policy.HaveTags(a + b)
  {}

  lemma BoxFollowsVerdict(spec: Spec, server: string, k: Packet, t: Backends.BoxTests)
    requires AllFaithful(spec.rules) && Policy.HaveTags(spec.rules) && SeenBy(spec.rules, k, t)
    ensures Backends.BoxVerdict(Backends.BoxList(spec.rules, server), t) == TagOf(Verdict(spec, k))
  {
    Backends.BoxListKeepsVerdict(spec.rules, server, t);
    FirstMatchAlike(spec.rules, k, Backends.BoxPacket(t));
    FirstMatchIsARule(spec.rules, k);
  }

  // The packet agrees with the tests of Xray, which knows neither package ids nor processes.
  ghost predicate SeenByXray(rules: seq<Rule>, k: Packet, t: Backends.XrayTests) {
    forall r | r in rules :: Alike(r, k, Backends.XrayPacket(t, k.uid, k.process))
  }

  ghost predicate AllXrayFaithful(rules: seq<Rule>) { forall r | r in rules :: Backends.XrayFaithful(r) }

  function TagAsWritten(v: Outcome): Option<string> { if v.Decided? then Some(v.tag) else None }

  lemma XrayFollowsVerdict(spec: Spec, server: string, k: Packet, t: Backends.XrayTests)
    requires AllXrayFaithful(spec.rules) && Policy.HaveTags(spec.rules) && SeenByXray(spec.rules, k, t) && t.Valid()
    ensures Backends.XrayVerdict(Backends.XrayList(spec.rules, server), t) == TagAsWritten(Verdict(spec, k))
  {
    Backends.XrayListKeepsVerdict(spec.rules, server, t, k.uid, k.process);
    FirstMatchAlike(spec.rules, k, Backends.XrayPacket(t, k.uid, k.process));
    FirstMatchIsARule(spec.rules, k);
  }

  /** From the policy to Xray, where the emitted rules ask for nothing that Xray cannot test: threats are
      blocked, and every other packet leaves as the layered policy says. */
  lemma PolicyReachesXray(env: Policy.Env, p: Policy.RoutingPolicy, cfg: Config, feeds: Feeds,
                          quarantined: seq<string>, server: string, k: Packet, v: Policy.View,
                          t: Backends.XrayTests)
    requires env.Valid() && t.Valid() && Policy.Clear(env, k, v, Policy.PolicyRows(env, p))
    requires var rules := Injected(Some(Policy.Compiled(env, p)), cfg, feeds, quarantined).rules;
             AllXrayFaithful(rules) && SeenByXray(rules, k, t)
    ensures var rules := Injected(Some(Policy.Compiled(env, p)), cfg, feeds, quarantined).rules;
            Backends.XrayVerdict(Backends.XrayList(rules, server), t) ==
            if IsThreat(cfg, feeds, quarantined, k) then Some("block") else TagAsWritten(Policy.Layered(env, p, k))
  {
    var base := Policy.Compiled(env, p);
    InjectedRulesHaveTags(cfg, feeds, quarantined);
    Policy.CompiledRulesHaveTags(env, p);
    AllHaveTags(Rules(cfg, feeds, quarantined), base.rules);
    XrayFollowsVerdict(Injected(Some(base), cfg, feeds, quarantined), server, k, t);
    InjectionBlocksExactlyThreats(base, cfg, feeds, quarantined, k);
    Policy.CompiledPolicyIsLayered(env, p, k, v);
  }

  lemma {:induction false} FirstMatchIsARule(rules: seq<Rule>, k: Packet)
    ensures FirstMatch(rules, k).Some? ==> FirstMatch(rules, k).value in rules
  {
    if rules != [] { FirstMatchIsARule(rules[1..], k); }
  }

  // ---------------------------------------------------------------------------------------
  // The injected names and the threat engine
  // ---------------------------------------------------------------------------------------

  // The names that are injected under the label `domain:`.
  function BlockedNames(cfg: Config, feeds: Feeds): seq<string> {
    (if cfg.malware then feeds.malware else []) + (if cfg.phishing then feeds.phishing else [])
    + (if cfg.miners then feeds.miners else []) + cfg.customDomains
  }

  function FilterRule(cfg: Config, feeds: Feeds): Rule {
    BLOCK_RULE.(domains := BlockedDomains(cfg, feeds), ips := cfg.customIPs)
  }

  predicate AdListed(cfg: Config, tags: (string, string) -> bool, host: string) { cfg.ads && tags(ADS, host) }

  predicate BelowListed(names: seq<string>, host: string) { exists n | n in names :: Domains.Below(host, n) }

  lemma BlockedEntries(cfg: Config, feeds: Feeds, d: string)
    ensures d in BlockedDomains(cfg, feeds) <==>
            (cfg.ads && d == ADS) || exists n | n in BlockedNames(cfg, feeds) :: d == "domain:" + n
  {
    LabelledEntries(feeds.malware, d);
    LabelledEntries(feeds.phishing, d);
    LabelledEntries(feeds.miners, d);
    LabelledEntries(cfg.customDomains, d);
  }

  lemma LabelledEntries(names: seq<string>, d: string)
    ensures d in Labelled(names) <==> exists n | n in names :: d == "domain:" + n
  {
    if n :| n in names && d == "domain:" + n {
      var i :| 0 <= i < |names| && names[i] == n;
      assert Labelled(names)[i] == d;
    }
  }

  lemma AdsReadings()
    ensures BoxPattern(ADS) == Tagged(ADS) && XrayPattern(ADS) == Tagged(ADS)
  {
    assert ADS == "geosite:" + "category-ads-all";
  }

  lemma ReadEntries(read: string -> Pattern, tags: (string, string) -> bool, host: string, ds: seq<string>)
    ensures AnyFits(tags, Patterns(read, ds), host) <==> exists d | d in ds :: Fits(tags, read(d), host)
  {
    var test := (d: string) => Fits(tags, read(d), host);
    ReadPatterns(test, read, tags, host, ds);
  }

  // Which hosts the filter rule names, as each core reads it.
  lemma FilterRuleHosts(cfg: Config, feeds: Feeds, tags: (string, string) -> bool, host: string)
    ensures AnyFits(tags, BoxPatterns(FilterRule(cfg, feeds)), host) <==>
            host in BlockedNames(cfg, feeds) || AdListed(cfg, tags, host)
    ensures AnyFits(tags, XrayPatterns(FilterRule(cfg, feeds)), host) <==>
            BelowListed(BlockedNames(cfg, feeds), host) || AdListed(cfg, tags, host)
  {
    var ds := BlockedDomains(cfg, feeds);
    ReadEntries(BoxPattern, tags, host, ds);
    ReadEntries(XrayPattern, tags, host, ds);
    AdsReadings();
    BlockedEntries(cfg, feeds, ADS);
    BlockedEntries(cfg, feeds, "domain:" + host);
    LabelledReadings(host);
    forall n | n in BlockedNames(cfg, feeds) ensures "domain:" + n in ds && XrayPattern("domain:" + n) == Under(n) {
      BlockedEntries(cfg, feeds, "domain:" + n);
      LabelledReadings(n);
    }
    forall d | d in ds
      ensures d == ADS || (exists n | n in BlockedNames(cfg, feeds) ::
                             d == "domain:" + n && BoxPattern(d) == Exactly(n) && XrayPattern(d) == Under(n))
    {
      BlockedEntries(cfg, feeds, d);
      if n :| n in BlockedNames(cfg, feeds) && d == "domain:" + n { LabelledReadings(n); }
    }
  }

  // A rule with domains and addresses only.
  predicate OnlyDestinations(r: Rule) { r == BLOCK_RULE.(domains := r.domains, ips := r.ips) }

  lemma DestinationsDecideBox(r: Rule, b: Backends.BoxTests, hit: bool)
    requires OnlyDestinations(r) && Backends.BoxFaithful(r) && Backends.HasMatcher(r) && (r.domains == [] ==> !hit)
    ensures BoxAllows(r, b, hit) <==> hit || Any(Backends.BoxPacket(b).ip, r.ips)
  {
    Backends.ResolvedIPs(b, r.ips);
    Backends.EveryIPIsResolved(r.ips);
    if r.ips != [] { assert r.ips[0] in r.ips; }
  }

  lemma DestinationsDecideXray(r: Rule, x: Backends.XrayTests, hit: bool)
    requires OnlyDestinations(r) && Backends.HasMatcher(r)
    ensures Backends.XrayOthers(r, x) && XrayAddressAllows(r, x, hit) <==> hit || Any(x.ip, r.ips)
  {}

  // What the filter rule blocks in sing-box and in Xray.
  predicate BoxBlocks(cfg: Config, feeds: Feeds, b: Backends.BoxTests, tags: (string, string) -> bool, host: string) {
    || host in BlockedNames(cfg, feeds) || AdListed(cfg, tags, host)
    || Any(Backends.BoxPacket(b).ip, cfg.customIPs)
  }

  predicate XrayBlocks(cfg: Config, feeds: Feeds, x: Backends.XrayTests, tags: (string, string) -> bool, host: string) {
    || BelowListed(BlockedNames(cfg, feeds), host) || AdListed(cfg, tags, host) || Any(x.ip, cfg.customIPs)
  }

  /** The filter rule blocks the listed names themselves in sing-box, and whatever lies at or below them
      in Xray, besides listed ads and addresses. */
  lemma FilterRuleBlocks(cfg: Config, feeds: Feeds, server: string, b: Backends.BoxTests, x: Backends.XrayTests,
                         tags: (string, string) -> bool, host: string, r: Rule)
    requires r == FilterRule(cfg, feeds) && SameTraffic(r, b, x, tags, host)
    requires Backends.BoxFaithful(r) && Backends.HasMatcher(r)
    ensures Backends.BoxMatchesAny(Backends.BoxRules(r, server), b) <==> BoxBlocks(cfg, feeds, b, tags, host)
    ensures Backends.XrayMatchesAny(Backends.XrayRules(r, server), x) <==> XrayBlocks(cfg, feeds, x, tags, host)
  {
    FilterRuleHosts(cfg, feeds, tags, host);
    MatchesByHost(r, server, b, x, tags, host);
    assert r.domains == [] ==> BoxPatterns(r) == [];
    DestinationsDecideBox(r, b, AnyFits(tags, BoxPatterns(r), host));
    DestinationsDecideXray(r, x, AnyFits(tags, XrayPatterns(r), host));
  }

  // A name as the lists hold it.
  predicate IsListName(n: string) { n != "" && TrimSpace(n) == n && ToLower(n) == n && !HasPrefix(n, ".") }

  predicate AreListNames(names: seq<string>) { forall n | n in names :: IsListName(n) }

  // The lists the threat engine is built from; ads are a list of names there.
  function EngineFeeds(cfg: Config, feeds: Feeds, ads: seq<string>): seq<ThreatFilter.Feed> {
    [ThreatFilter.Feed(cfg.malware, ThreatFilter.Malware, feeds.malware),
     ThreatFilter.Feed(cfg.phishing, ThreatFilter.Phishing, feeds.phishing),
     ThreatFilter.Feed(cfg.miners, ThreatFilter.Miner, feeds.miners),
     ThreatFilter.Feed(cfg.ads, ThreatFilter.Adware, ads),
     ThreatFilter.Feed(true, ThreatFilter.Custom, cfg.customDomains)]
  }

  lemma {:induction false} NamesAreAdded(domains: map<string, ThreatFilter.Category>, names: seq<string>,
                                         c: ThreatFilter.Category)
    requires AreListNames(names)
    ensures forall n :: n in ThreatFilter.AddDomains(domains, names, c) <==> n in domains || n in names
  {
    if names != [] {
      var init, n := names[..|names| - 1], names[|names| - 1];
      assert names == init + [n] && n in names && forall m | m in init :: m in names;
      NamesAreAdded(domains, init, c);
    }
  }

  function ListOf(f: ThreatFilter.Feed): seq<string> { if f.enabled then f.domains else [] }

  ghost predicate Knows(fs: seq<ThreatFilter.Feed>, names: seq<string>) {
    forall n :: n in ThreatFilter.AddFeeds(fs) <==> n in names
  }

  lemma OneMoreFeed(before: seq<ThreatFilter.Feed>, f: ThreatFilter.Feed, all: seq<ThreatFilter.Feed>,
                    names: seq<string>)
    requires all == before + [f] && AreListNames(f.domains) && Knows(before, names)
    ensures Knows(all, names + ListOf(f))
  {
    assert all[..|all| - 1] == before;
    NamesAreAdded(ThreatFilter.AddFeeds(before), f.domains, f.category);
  }

  lemma MoveAds(a: seq<string>, b: seq<string>, c: seq<string>, ads: seq<string>, d: seq<string>)
    ensures forall n :: n in a + b + c + ads + d <==> n in a + b + c + d || n in ads
  {}

  // What the engine lists: the injected names and the ads.
  lemma EngineLists(cfg: Config, feeds: Feeds, ads: seq<string>, fs: seq<ThreatFilter.Feed>)
    requires AreListNames(feeds.malware) && AreListNames(feeds.phishing) && AreListNames(feeds.miners)
    requires AreListNames(ads) && AreListNames(cfg.customDomains) && fs == EngineFeeds(cfg, feeds, ads)
    ensures forall n :: n in ThreatFilter.AddFeeds(fs) <==> n in BlockedNames(cfg, feeds) || (cfg.ads && n in ads)
  {
    assert fs[..0] == [] && fs[..5] == fs;
    forall i | 0 <= i < 5 ensures fs[..i + 1] == fs[..i] + [fs[i]] {}
    OneMoreFeed(fs[..0], fs[0], fs[..1], []);
    OneMoreFeed(fs[..1], fs[1], fs[..2], [] + ListOf(fs[0]));
    assert [] + ListOf(fs[0]) == ListOf(fs[0]);
    OneMoreFeed(fs[..2], fs[2], fs[..3], ListOf(fs[0]) + ListOf(fs[1]));
    OneMoreFeed(fs[..3], fs[3], fs[..4], ListOf(fs[0]) + ListOf(fs[1]) + ListOf(fs[2]));
    OneMoreFeed(fs[..4], fs[4], fs, ListOf(fs[0]) + ListOf(fs[1]) + ListOf(fs[2]) + ListOf(fs[3]));
    MoveAds(ListOf(fs[0]), ListOf(fs[1]), ListOf(fs[2]), ListOf(fs[3]), ListOf(fs[4]));
  }

  // The engine blocks the host by name.
  predicate EngineBlocks(cfg: Config, feeds: Feeds, ads: seq<string>, parsers: ThreatFilter.Parsers,
                         allowed: set<string>, nets: seq<Cidr.Prefix>, host: string) {
    ThreatFilter.Plain(parsers, allowed, nets, ThreatFilter.AddFeeds(EngineFeeds(cfg, feeds, ads)), host).Blocked?
  }

  // A name is the host's, or above it with a dot.
  predicate ListedFor(names: seq<string>, host: string) {
    exists n | n in names :: n == host || (HasSuffix(host, "." + n) && '.' in n)
  }

  lemma EngineBlocksListed(cfg: Config, feeds: Feeds, ads: seq<string>, parsers: ThreatFilter.Parsers,
                           allowed: set<string>, nets: seq<Cidr.Prefix>, host: string)
    requires AreListNames(feeds.malware) && AreListNames(feeds.phishing) && AreListNames(feeds.miners)
    requires AreListNames(ads) && AreListNames(cfg.customDomains)
    requires ThreatFilter.CleanHost(host) == host && host !in allowed && parsers.ip(host).None?
    ensures EngineBlocks(cfg, feeds, ads, parsers, allowed, nets, host) <==>
            ListedFor(BlockedNames(cfg, feeds), host) || (cfg.ads && ListedFor(ads, host))
  {
    var fs := EngineFeeds(cfg, feeds, ads);
    EngineLists(cfg, feeds, ads, fs);
    ThreatFilter.BlockedMeansListed(parsers, allowed, nets, ThreatFilter.AddFeeds(fs), host);
  }

  // Every name above the host lacks a dot, and there is one.
  predicate OnlyBelowBareNames(names: seq<string>, host: string) {
    && host !in names && (exists n | n in names :: HasSuffix(host, "." + n))
    && forall n | n in names && HasSuffix(host, "." + n) :: '.' !in n
  }

  /** For a host that is no ad, no address and not allowed: what sing-box blocks by the filter rule the
      threat engine blocks, and what the engine blocks Xray blocks.  Of the hosts the engine blocks,
      sing-box blocks those listed themselves and lets all others through; Xray blocks besides only
      hosts all of whose listed parents lack a dot. */
  lemma RulesAgainstEngine(cfg: Config, feeds: Feeds, ads: seq<string>, parsers: ThreatFilter.Parsers,
                           allowed: set<string>, nets: seq<Cidr.Prefix>, server: string, b: Backends.BoxTests,
                           x: Backends.XrayTests, tags: (string, string) -> bool, host: string, r: Rule)
    requires r == FilterRule(cfg, feeds) && SameTraffic(r, b, x, tags, host)
    requires Backends.BoxFaithful(r) && Backends.HasMatcher(r)
    requires AreListNames(feeds.malware) && AreListNames(feeds.phishing) && AreListNames(feeds.miners)
    requires AreListNames(ads) && AreListNames(cfg.customDomains)
    requires ThreatFilter.CleanHost(host) == host && host !in allowed && parsers.ip(host).None?
    requires !AdListed(cfg, tags, host) && !(cfg.ads && ListedFor(ads, host)) && !Any(x.ip, cfg.customIPs)
    ensures var names := BlockedNames(cfg, feeds);
            var engine := EngineBlocks(cfg, feeds, ads, parsers, allowed, nets, host);
            var box := Backends.BoxMatchesAny(Backends.BoxRules(r, server), b);
            var xray := Backends.XrayMatchesAny(Backends.XrayRules(r, server), x);
            && (box <==> engine && host in names)
            && (engine <==> xray && !OnlyBelowBareNames(names, host))
  {
    FilterRuleBlocks(cfg, feeds, server, b, x, tags, host, r);
    EngineBlocksListed(cfg, feeds, ads, parsers, allowed, nets, host);
    AnyAlike(Backends.BoxPacket(b).ip, x.ip, r.ips);
  }

  method LabelAll(start: seq<string>, domains: seq<string>) returns (r: seq<string>)
    ensures r == start + Labelled(domains)
  {
    r := start;
    var i := 0;
    while i < |domains|
      invariant 0 <= i <= |domains|
      invariant r == start + Labelled(domains)[..i]
    {
      r := r + ["domain:" + domains[i]];
      i := i + 1;
    }
  }

  method CollectDomains(cfg: Config, feeds: Feeds) returns (blocked: seq<string>)
    ensures blocked == BlockedDomains(cfg, feeds)
  {
    blocked := [];
    if cfg.malware {
      blocked := LabelAll(blocked, feeds.malware);
    }
    if cfg.phishing {
      blocked := LabelAll(blocked, feeds.phishing);
    }
    if cfg.miners {
      blocked := LabelAll(blocked, feeds.miners);
    }
    if cfg.ads {
      blocked := blocked + [ADS];
    }
    blocked := LabelAll(blocked, cfg.customDomains);
  }

  method InjectSecurityRules(base: Option<Spec>, cfg: Config, feeds: Feeds, quarantined: seq<string>)
    returns (spec: Spec)
    ensures spec == Injected(base, cfg, feeds, quarantined)
  {
    var rules: seq<Rule> := [];
    if |quarantined| > 0 {
      rules := rules + [BLOCK_RULE.(users := quarantined)];
    }
    assert rules == UserRules(quarantined);
    if cfg.blockMetadata {
      rules := rules + [BLOCK_RULE.(ips := METADATA_IPS, domains := METADATA_DOMAINS)];
    }
    assert rules == UserRules(quarantined) + MetadataRules(cfg);
    if cfg.portGuard && |cfg.sensitivePorts| > 0 {
      rules := rules + [BLOCK_RULE.(ports := cfg.sensitivePorts)];
    }
    assert rules == UserRules(quarantined) + MetadataRules(cfg) + PortRules(cfg);
    if cfg.filter {
      var blocked := CollectDomains(cfg, feeds);
      if |blocked| > 0 || |cfg.customIPs| > 0 {
        rules := rules + [BLOCK_RULE.(domains := blocked, ips := cfg.customIPs)];
      }
    }
    assert rules == Rules(cfg, feeds, quarantined);
    var given := if base.Some? then base.value else Spec(Proxy, []);
    spec := Spec(given.defaultAction, rules + given.rules);
  }
}
