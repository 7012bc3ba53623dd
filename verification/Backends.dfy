/** Translation of routing rules for the two cores (pkg/compiler/singbox/routing.go,
    pkg/compiler/xray/routing.go).

    Each core has its own tests; a rule's meaning under a core is its AST meaning for the packet
    whose tests are the core's.  Xray tests users but neither package ids nor process names, so the
    packet's tests on these are independent of the core.  For both cores the rules whose translation
    keeps the meaning are characterised exactly. */
module Backends {
  import opened Common
  import opened Text
  import opened RoutingAst

  const ALL_V6 := "::/0"
  const GEOIP := "geoip:"

  lemma AnyOfConcat(test: string -> bool, a: seq<string>, b: seq<string>)
    ensures Any(test, a + b) <==> Any(test, a) || Any(test, b)
  {}

  lemma AnyOfOne(test: string -> bool, e: string)
    ensures Any(test, [e]) <==> test(e)
  {}

  // ---------------------------------------------------------------------------------------
  // sing-box
  // ---------------------------------------------------------------------------------------

  // Port numbers and port ranges are two keys of one alternative; an `ipVersion` of 0 and
  // an empty list stand for an absent key.
  datatype BoxRule = BoxRule(outbound: string, ipVersion: int, inbound: seq<string>, ports: seq<string>,
                             network: seq<string>, protocol: seq<string>, authUser: seq<string>,
                             userId: seq<string>, processName: seq<string>, regex: seq<string>,
                             suffix: seq<string>, exact: seq<string>, keyword: seq<string>,
                             ruleSet: seq<string>, cidr: seq<string>)

  // The tests of the core.
  datatype BoxTests = BoxTests(ipVersion: int, inbound: string -> bool, port: string -> bool,
                               network: string -> bool, protocol: string -> bool, authUser: string -> bool,
                               userId: string -> bool, processName: string -> bool, regex: string -> bool,
                               suffix: string -> bool, exact: string -> bool, keyword: string -> bool,
                               ruleSet: string -> bool, cidr: string -> bool)

  predicate HasDestination(r: BoxRule) {
    r.regex != [] || r.suffix != [] || r.exact != [] || r.keyword != [] || r.ruleSet != [] || r.cidr != []
  }

  predicate BoxBaseMatches(r: BoxRule, t: BoxTests) {
    && (r.ipVersion == 0 || r.ipVersion == t.ipVersion)
    && Allowed(t.inbound, r.inbound) && Allowed(t.port, r.ports)
    && Allowed(t.network, r.network) && Allowed(t.protocol, r.protocol)
    && Allowed(t.authUser, r.authUser) && Allowed(t.userId, r.userId) && Allowed(t.processName, r.processName)
  }

  predicate BoxMatches(r: BoxRule, t: BoxTests) {
    && BoxBaseMatches(r, t)
    && (!HasDestination(r)
        || Any(t.regex, r.regex) || Any(t.suffix, r.suffix) || Any(t.exact, r.exact)
        || Any(t.keyword, r.keyword) || Any(t.ruleSet, r.ruleSet) || Any(t.cidr, r.cidr))
  }

  datatype Kind = Geosite | Regex | Exact | Suffix | Keyword

  function KindOf(d: string): Kind {
    if HasPrefix(d, "geosite:") then Geosite
    else if HasPrefix(d, "regexp:") || HasPrefix(d, "regex:") then Regex
    else if HasPrefix(d, "domain:") || HasPrefix(d, "full:") then Exact
    else if HasPrefix(d, "suffix:") then Suffix
    else if HasPrefix(d, "keyword:") then Keyword
    else Suffix
  }

  function ValueOf(d: string): string {
    if HasPrefix(d, "geosite:") then "geosite-" + TrimPrefix(d, "geosite:")
    else if HasPrefix(d, "regexp:") then TrimPrefix(d, "regexp:")
    else if HasPrefix(d, "regex:") then TrimPrefix(d, "regex:")
    else if HasPrefix(d, "domain:") then TrimPrefix(d, "domain:")
    else if HasPrefix(d, "full:") then TrimPrefix(d, "full:")
    else if HasPrefix(d, "suffix:") then TrimPrefix(d, "suffix:")
    else TrimPrefix(d, "keyword:")
  }

  function Pick(ds: seq<string>, kind: Kind): seq<string> {
    if ds == [] then []
    else
      var before, d := Pick(ds[..|ds| - 1], kind), ds[|ds| - 1];
      if KindOf(d) == kind then before + [ValueOf(d)] else before
  }

  const PRIVATE_NETS := ["10.0.0.0/8", "172.16.0.0/12", "192.168.0.0/16", "127.0.0.0/8", "fc00::/7", "::1/128"]

  // The networks and the rule sets an address entry stands for.
  function NetsOf(ip: string): seq<string> {
    if ip == ALL_V6 then []
    else if HasPrefix(ip, GEOIP) then (if TrimPrefix(ip, GEOIP) == "private" then PRIVATE_NETS else [])
    else [TrimPrefix(ip, "ip:")]
  }

  function SetsOf(ip: string): seq<string> {
    if HasPrefix(ip, GEOIP) && TrimPrefix(ip, GEOIP) != "private" then ["geoip-" + TrimPrefix(ip, GEOIP)] else []
  }

  function Nets(ips: seq<string>): seq<string> {
    if ips == [] then [] else Nets(ips[..|ips| - 1]) + NetsOf(ips[|ips| - 1])
  }

  function Sets(ips: seq<string>): seq<string> {
    if ips == [] then [] else Sets(ips[..|ips| - 1]) + SetsOf(ips[|ips| - 1])
  }

  function NonBlank(ports: seq<string>): seq<string> {
    if ports == [] then []
    else
      var before, p := NonBlank(ports[..|ports| - 1]), TrimSpace(ports[|ports| - 1]);
      if p != "" then before + [p] else before
  }

  function OutboundOf(r: Rule, server: string): string {
    if r.outboundTag != "" then r.outboundTag
    else if r.action == Proxy then (if server != "" then server else "proxy")
    else r.action.Name()
  }

  function BoxOutbound(r: Rule, server: string): string {
    if OutboundOf(r, server) == "blocked" then "block" else OutboundOf(r, server)
  }

  function BoxBase(r: Rule, server: string): BoxRule {
    BoxRule(BoxOutbound(r, server), r.ipVersion, r.inboundTags, NonBlank(r.ports), Transports(r.protocols),
            Applications(r.protocols), r.users, r.packageUIDs, r.processNames, [], [], [], [], [], [])
  }

  function BoxDomainRule(r: Rule, server: string): BoxRule {
    BoxBase(r, server).(regex := Pick(r.domains, Regex), suffix := Pick(r.domains, Suffix),
                        exact := Pick(r.domains, Exact), keyword := Pick(r.domains, Keyword),
                        ruleSet := Pick(r.domains, Geosite))
  }

  predicate AsksForV6(r: Rule) { r.ipVersion == 6 || ALL_V6 in r.ips }

  function BoxIPRule(r: Rule, server: string): BoxRule {
    var base := BoxBase(r, server).(cidr := Nets(r.ips), ruleSet := Sets(r.ips));
    if AsksForV6(r) then base.(ipVersion := 6) else base
  }

  predicate HasIPMatchers(r: Rule) { Nets(r.ips) != [] || Sets(r.ips) != [] || AsksForV6(r) }

  function BoxRules(r: Rule, server: string): seq<BoxRule> {
    if HasDestination(BoxDomainRule(r, server)) then
      if HasIPMatchers(r) then [BoxDomainRule(r, server), BoxIPRule(r, server)] else [BoxDomainRule(r, server)]
    else if HasIPMatchers(r) then [BoxIPRule(r, server)]
    else [BoxBase(r, server)]
  }

  predicate DomainTest(t: BoxTests, d: string) {
    match KindOf(d)
    case Geosite => t.ruleSet(ValueOf(d))
    case Regex => t.regex(ValueOf(d))
    case Exact => t.exact(ValueOf(d))
    case Suffix => t.suffix(ValueOf(d))
    case Keyword => t.keyword(ValueOf(d))
  }

  // Private addresses are networks, other countries rule sets.
  predicate IPTest(t: BoxTests, ip: string) {
    if ip == "::/0" then t.ipVersion == 6
    else if ip == "geoip:private" then Any(t.cidr, PRIVATE_NETS)
    else if HasPrefix(ip, "geoip:") then t.ruleSet("geoip-" + ip[|"geoip:"|..])
    else t.cidr(if HasPrefix(ip, "ip:") then ip[|"ip:"|..] else ip)
  }

  predicate PortTest(test: string -> bool, p: string) { TrimSpace(p) != "" && test(TrimSpace(p)) }

  // The packet as the AST sees it.
  function BoxPacket(t: BoxTests): Packet {
    Packet(t.ipVersion, d => DomainTest(t, d), ip => IPTest(t, ip), p => PortTest(t.port, p), t.network,
           t.protocol, t.authUser, t.userId, t.processName, t.inbound)
  }

  predicate BoxMatchesAny(rules: seq<BoxRule>, t: BoxTests) {
    exists r | r in rules :: BoxMatches(r, t)
  }

  lemma {:induction false} PickAny(test: string -> bool, ds: seq<string>, kind: Kind)
    ensures Any(test, Pick(ds, kind)) <==> exists d | d in ds :: KindOf(d) == kind && test(ValueOf(d))
    ensures Pick(ds, kind) == [] <==> forall d | d in ds :: KindOf(d) != kind
  {
    if ds != [] {
      var init, d := ds[..|ds| - 1], ds[|ds| - 1];
      PickAny(test, init, kind);
      assert ds == init + [d];
      if KindOf(d) == kind {
        AnyOfConcat(test, Pick(init, kind), [ValueOf(d)]);
        AnyOfOne(test, ValueOf(d));
      }
    }
  }

  predicate PickedAny(t: BoxTests, ds: seq<string>) {
    || Any(t.regex, Pick(ds, Regex)) || Any(t.suffix, Pick(ds, Suffix)) || Any(t.exact, Pick(ds, Exact))
    || Any(t.keyword, Pick(ds, Keyword)) || Any(t.ruleSet, Pick(ds, Geosite))
  }

  lemma PickedDomains(t: BoxTests, ds: seq<string>)
    ensures Any(BoxPacket(t).domain, ds) <==> PickedAny(t, ds)
  {
    PickAny(t.regex, ds, Regex);
    PickAny(t.suffix, ds, Suffix);
    PickAny(t.exact, ds, Exact);
    PickAny(t.keyword, ds, Keyword);
    PickAny(t.ruleSet, ds, Geosite);
    forall d ensures BoxPacket(t).domain(d) <==> DomainTest(t, d) {}
  }

  lemma EveryDomainIsPicked(r: Rule, server: string)
    ensures HasDestination(BoxDomainRule(r, server)) <==> r.domains != []
  {
    if r.domains != [] {
      var d := r.domains[0];
      PickAny(_ => true, r.domains, KindOf(d));
    }
  }

  lemma PrefixedIs(s: string, p: string, rest: string)
    ensures HasPrefix(s, p) && TrimPrefix(s, p) == rest <==> s == p + rest
  {}

  // What an entry stands for is what it asks.
  lemma EntryIsResolved(t: BoxTests, ip: string)
    ensures IPTest(t, ip) <==>
            if ip == ALL_V6 then t.ipVersion == 6 else Any(t.cidr, NetsOf(ip)) || Any(t.ruleSet, SetsOf(ip))
  {
    PrefixedIs(ip, GEOIP, "private");
    if ip != ALL_V6 {
      if HasPrefix(ip, GEOIP) {
        AnyOfOne(t.ruleSet, "geoip-" + TrimPrefix(ip, GEOIP));
      } else {
        AnyOfOne(t.cidr, TrimPrefix(ip, "ip:"));
      }
    }
  }

  lemma {:induction false} ResolvedIPs(t: BoxTests, ips: seq<string>)
    ensures Any(BoxPacket(t).ip, ips) <==>
            Any(t.cidr, Nets(ips)) || Any(t.ruleSet, Sets(ips)) || (ALL_V6 in ips && t.ipVersion == 6)
  {
    if ips != [] {
      var init, ip := ips[..|ips| - 1], ips[|ips| - 1];
      ResolvedIPs(t, init);
      assert ips == init + [ip];
      AnyOfConcat(BoxPacket(t).ip, init, [ip]);
      AnyOfOne(BoxPacket(t).ip, ip);
      EntryIsResolved(t, ip);
      AnyOfConcat(t.cidr, Nets(init), NetsOf(ip));
      AnyOfConcat(t.ruleSet, Sets(init), SetsOf(ip));
      assert !HasPrefix(ALL_V6, GEOIP);
    }
  }

  predicate OnlyAllV6(ips: seq<string>) { forall ip | ip in ips :: ip == ALL_V6 }

  lemma {:induction false} EveryIPIsResolved(ips: seq<string>)
    ensures (Nets(ips) == [] && Sets(ips) == []) <==> OnlyAllV6(ips)
  {
    if ips != [] {
      var init, ip := ips[..|ips| - 1], ips[|ips| - 1];
      EveryIPIsResolved(init);
      assert ips == init + [ip];
      if OnlyAllV6(ips) {
        assert ip in ips;
        assert OnlyAllV6(init) by { assert forall x | x in init :: x in ips; }
      }
      assert !HasPrefix(ALL_V6, GEOIP);
      assert (NetsOf(ip) == [] && SetsOf(ip) == []) <==> ip == ALL_V6;
    }
  }

  lemma {:induction false} TrimmedPorts(test: string -> bool, ports: seq<string>)
    ensures Any(test, NonBlank(ports)) <==> Any((p: string) => PortTest(test, p), ports)
    ensures NonBlank(ports) == [] <==> forall p | p in ports :: TrimSpace(p) == ""
  {
    var trimmed := (p: string) => PortTest(test, p);
    if ports != [] {
      var init, p := ports[..|ports| - 1], ports[|ports| - 1];
      TrimmedPorts(test, init);
      assert ports == init + [p];
      AnyOfConcat(trimmed, init, [p]);
      AnyOfOne(trimmed, p);
      if TrimSpace(p) != "" {
        AnyOfConcat(test, NonBlank(init), [TrimSpace(p)]);
        AnyOfOne(test, TrimSpace(p));
      }
    }
  }

  // ---------------------------------------------------------------------------------------
  // Which rules sing-box gets right
  // ---------------------------------------------------------------------------------------

  predicate PortsSurvive(r: Rule) { r.ports == [] || exists p | p in r.ports :: TrimSpace(p) != "" }

  // `::/0` stands alone among the addresses and meets no other version; a rule for IPv6 alone
  // names no domain.
  predicate BoxFaithful(r: Rule) {
    && PortsSurvive(r)
    && (ALL_V6 in r.ips ==> (r.ipVersion == 0 || r.ipVersion == 6) && OnlyAllV6(r.ips))
    && (r.ipVersion == 6 && r.ips == [] ==> r.domains == [])
  }

  // What the rule asks for besides domains, addresses and the IP version.
  predicate OthersButVersion(r: Rule, t: BoxTests) {
    && Allowed(t.inbound, r.inboundTags) && Allowed(t.port, NonBlank(r.ports))
    && Allowed(t.network, Transports(r.protocols)) && Allowed(t.protocol, Applications(r.protocols))
    && Allowed(t.authUser, r.users) && Allowed(t.userId, r.packageUIDs) && Allowed(t.processName, r.processNames)
  }

  predicate VersionFits(r: Rule, t: BoxTests) { r.ipVersion == 0 || r.ipVersion == t.ipVersion }

  // The address lists of the IP rule allow the packet.
  predicate IPListsAllow(r: Rule, t: BoxTests) {
    (Nets(r.ips) == [] && Sets(r.ips) == []) || Any(t.cidr, Nets(r.ips)) || Any(t.ruleSet, Sets(r.ips))
  }

  lemma DomainRuleMatches(r: Rule, server: string, t: BoxTests)
    requires r.domains != []
    ensures BoxMatches(BoxDomainRule(r, server), t) <==>
            OthersButVersion(r, t) && VersionFits(r, t) && Any(BoxPacket(t).domain, r.domains)
  {
    EveryDomainIsPicked(r, server);
    PickedDomains(t, r.domains);
  }

  lemma IPRuleMatches(r: Rule, server: string, t: BoxTests)
    ensures BoxMatches(BoxIPRule(r, server), t) <==>
            OthersButVersion(r, t) && (if AsksForV6(r) then t.ipVersion == 6 else VersionFits(r, t)) &&
            IPListsAllow(r, t)
  {}

  lemma OthersSplit(r: Rule, t: BoxTests)
    requires PortsSurvive(r)
    ensures OthersAllow(r, BoxPacket(t)) <==> OthersButVersion(r, t) && VersionFits(r, t)
  {
    TrimmedPorts(t.port, r.ports);
    var trimmed, port := (p: string) => PortTest(t.port, p), BoxPacket(t).port;
    assert forall p :: trimmed(p) == port(p);
    assert Any(trimmed, r.ports) <==> Any(port, r.ports);
  }

  // When any of the emitted rules matches.
  predicate BoxRulesAllow(r: Rule, t: BoxTests) {
    && OthersButVersion(r, t)
    && (|| (VersionFits(r, t) && Any(BoxPacket(t).domain, r.domains))
        || (HasIPMatchers(r) && (if AsksForV6(r) then t.ipVersion == 6 else VersionFits(r, t)) && IPListsAllow(r, t))
        || (VersionFits(r, t) && r.domains == [] && !HasIPMatchers(r)))
  }

  lemma BoxRulesMatch(r: Rule, server: string, t: BoxTests)
    ensures BoxMatchesAny(BoxRules(r, server), t) <==> BoxRulesAllow(r, t)
  {
    EveryDomainIsPicked(r, server);
    if r.domains != [] { DomainRuleMatches(r, server, t); }
    IPRuleMatches(r, server, t);
    var rules := BoxRules(r, server);
    assert BoxMatchesAny(rules, t) <==>
           BoxMatches(rules[0], t) || (|rules| > 1 && BoxMatches(rules[1], t));
  }

  lemma BoxFaithfulSuffices(r: Rule, server: string, t: BoxTests)
    requires BoxFaithful(r)
    ensures BoxMatchesAny(BoxRules(r, server), t) <==> Matches(r, BoxPacket(t))
  {
    BoxRulesMatch(r, server, t);
    ResolvedIPs(t, r.ips);
    EveryIPIsResolved(r.ips);
    OthersSplit(r, t);
  }

  // Tests that pass everything but, possibly, domains and addresses.
  function BoxWitness(version: int, domains: bool, ips: bool): BoxTests {
    var yes := (_: string) => true;
    var host, addr := (_: string) => domains, (_: string) => ips;
    BoxTests(version, yes, yes, yes, yes, yes, yes, yes, host, host, host, host, _ => domains && ips, addr)
  }

  lemma {:induction false} NoneAny(test: string -> bool, l: seq<string>, answer: bool)
    requires forall e :: test(e) == answer
    ensures Any(test, l) <==> answer && l != []
  {
    if answer && l != [] { assert test(l[0]); }
  }

  lemma WitnessPasses(r: Rule, version: int, domains: bool, ips: bool)
    ensures var t := BoxWitness(version, domains, ips);
            && OthersButVersion(r, t)
            && (!(domains && ips) ==> !Any(t.ruleSet, Sets(r.ips)))
            && (domains && ips ==> (Any(t.ruleSet, Sets(r.ips)) <==> Sets(r.ips) != []))
            && (Any(t.cidr, Nets(r.ips)) <==> ips && Nets(r.ips) != [])
            && (!domains ==> !Any(BoxPacket(t).domain, r.domains))
            && (domains && ips ==> (Any(BoxPacket(t).domain, r.domains) <==> r.domains != []))
  {
    var t := BoxWitness(version, domains, ips);
    NoneAny(t.inbound, r.inboundTags, true);
    NoneAny(t.port, NonBlank(r.ports), true);
    NoneAny(t.network, Transports(r.protocols), true);
    NoneAny(t.protocol, Applications(r.protocols), true);
    NoneAny(t.authUser, r.users, true);
    NoneAny(t.userId, r.packageUIDs, true);
    NoneAny(t.processName, r.processNames, true);
    NoneAny(t.cidr, Nets(r.ips), ips);
    NoneAny(t.ruleSet, Sets(r.ips), domains && ips);
    if domains == (domains && ips) {
      forall d ensures BoxPacket(t).domain(d) == domains {}
      NoneAny(BoxPacket(t).domain, r.domains, domains);
    } else {
    }
  }

  ghost predicate BoxKeepsMeaning(r: Rule, server: string) {
    forall t :: BoxMatchesAny(BoxRules(r, server), t) <==> Matches(r, BoxPacket(t))
  }

  // Every list of ports is blank: the AST rule never matches, the emitted one ignores ports.
  lemma BlankPortsMismatch(r: Rule, server: string) returns (t: BoxTests)
    requires !PortsSurvive(r)
    ensures BoxMatchesAny(BoxRules(r, server), t) && !Matches(r, BoxPacket(t))
  {
    var version := if AsksForV6(r) || r.ipVersion == 0 then 6 else r.ipVersion;
    t := BoxWitness(version, true, true);
    WitnessPasses(r, version, true, true);
    BoxRulesMatch(r, server, t);
    forall p | p in r.ports ensures !BoxPacket(t).port(p) {}
    assert !Any(BoxPacket(t).port, r.ports);
  }

  // Another version is asked for along with `::/0`, or other addresses are.
  lemma AllV6Mismatch(r: Rule, server: string) returns (t: BoxTests)
    requires PortsSurvive(r) && ALL_V6 in r.ips
    requires (r.ipVersion != 0 && r.ipVersion != 6) || !OnlyAllV6(r.ips)
    ensures BoxMatchesAny(BoxRules(r, server), t) != Matches(r, BoxPacket(t))
  {
    if r.ipVersion != 0 && r.ipVersion != 6 {
      t := BoxWitness(6, true, true);
      WitnessPasses(r, 6, true, true);
    } else {
      t := BoxWitness(6, false, false);
      WitnessPasses(r, 6, false, false);
    }
    BoxRulesMatch(r, server, t);
    OthersSplit(r, t);
    EveryIPIsResolved(r.ips);
    ResolvedIPs(t, r.ips);
  }

  // The IP rule for version 6 alone ignores the domains.
  lemma V6DomainMismatch(r: Rule, server: string) returns (t: BoxTests)
    requires PortsSurvive(r) && r.ipVersion == 6 && r.ips == [] && r.domains != []
    ensures BoxMatchesAny(BoxRules(r, server), t) && !Matches(r, BoxPacket(t))
  {
    t := BoxWitness(6, false, false);
    WitnessPasses(r, 6, false, false);
    BoxRulesMatch(r, server, t);
  }

  /** A rule's translation for sing-box matches exactly the packets the rule matches, for all
      tests, iff the rule is one of the faithful ones. */
  lemma BoxKeepsMeaningIffFaithful(r: Rule, server: string)
    ensures BoxKeepsMeaning(r, server) <==> BoxFaithful(r)
  {
    if BoxFaithful(r) {
      forall t ensures BoxMatchesAny(BoxRules(r, server), t) <==> Matches(r, BoxPacket(t)) {
        BoxFaithfulSuffices(r, server, t);
      }
    } else if !PortsSurvive(r) {
      var t := BlankPortsMismatch(r, server);
    } else if ALL_V6 in r.ips && !((r.ipVersion == 0 || r.ipVersion == 6) && OnlyAllV6(r.ips)) {
      var t := AllV6Mismatch(r, server);
    } else {
      var t := V6DomainMismatch(r, server);
    }
  }

  // ---------------------------------------------------------------------------------------
  // Xray
  // ---------------------------------------------------------------------------------------

  datatype XrayRule = XrayRule(outboundTag: string, domain: seq<string>, ip: seq<string>, ports: seq<string>,
                               network: seq<string>, protocol: seq<string>, user: seq<string>,
                               inboundTag: seq<string>)

  datatype XrayTests = XrayTests(ipVersion: int, domain: string -> bool, ip: string -> bool, port: string -> bool,
                                 network: string -> bool, protocol: string -> bool, user: string -> bool,
                                 inboundTag: string -> bool) {
    ghost predicate Valid() { ip(ALL_V6) <==> ipVersion == 6 }
  }

  predicate XrayMatches(r: XrayRule, t: XrayTests) {
    && Allowed(p => PortTest(t.port, p), r.ports) && Allowed(t.network, r.network) && Allowed(t.protocol, r.protocol)
    && Allowed(t.user, r.user) && Allowed(t.inboundTag, r.inboundTag)
    && Allowed(t.domain, r.domain) && Allowed(t.ip, r.ip)
  }

  predicate XrayMatchesAny(rules: seq<XrayRule>, t: XrayTests) {
    exists r | r in rules :: XrayMatches(r, t)
  }

  function XrayDomain(d: string): string { if d == "geosite:ru" then "geosite:category-ru" else d }

  function XrayDomains(ds: seq<string>): seq<string> {
    if ds == [] then [] else XrayDomains(ds[..|ds| - 1]) + [XrayDomain(ds[|ds| - 1])]
  }

  function XrayIPs(r: Rule): seq<string> {
    if r.ipVersion == 6 && ALL_V6 !in r.ips then r.ips + [ALL_V6] else r.ips
  }

  // One key carries whichever identity list comes first.
  function Identities(r: Rule): seq<string> {
    if r.users != [] then r.users else if r.packageUIDs != [] then r.packageUIDs else r.processNames
  }

  function XrayBase(r: Rule, server: string): XrayRule {
    XrayRule(OutboundOf(r, server), [], [], r.ports, Transports(r.protocols), Applications(r.protocols),
             Identities(r), r.inboundTags)
  }

  // The base rule holds more than its type and tag.
  predicate HasBaseMatcher(r: Rule) {
    r.ports != [] || r.protocols != [] || Identities(r) != [] || r.inboundTags != []
  }

  function XrayRules(r: Rule, server: string): seq<XrayRule> {
    var base, domains, ips := XrayBase(r, server), XrayDomains(r.domains), XrayIPs(r);
    if domains != [] && ips != [] then [base.(domain := domains), base.(ip := ips)]
    else if domains != [] then [base.(domain := domains)]
    else if ips != [] then [base.(ip := ips)]
    else if HasBaseMatcher(r) then [base]
    else []
  }

  // The list ru of the rules is category-ru here.
  function DomainTests(t: XrayTests): string -> bool {
    d => t.domain(if d == "geosite:ru" then "geosite:category-ru" else d)
  }

  // The packet as the AST sees it; the core does not know the last two tests.
  function XrayPacket(t: XrayTests, uid: string -> bool, process: string -> bool): Packet {
    Packet(t.ipVersion, DomainTests(t), t.ip, p => PortTest(t.port, p), t.network, t.protocol,
           t.user, uid, process, t.inboundTag)
  }

  // Xray needs some matcher, no package ids or process names, as they are written where users are
  // tested, and no IP version but a rule for all of IPv6.  A rule whose ports are all blank matches
  // nothing either way.
  predicate XrayFaithful(r: Rule) {
    !PortsSurvive(r) || XraySupports(r)
  }

  predicate HasMatcher(r: Rule) { r.domains != [] || XrayIPs(r) != [] || HasBaseMatcher(r) }

  predicate XraySupports(r: Rule) {
    && HasMatcher(r) && r.packageUIDs == [] && r.processNames == []
    && (r.ipVersion == 0 || (r.ipVersion == 6 && r.domains == [] && OnlyAllV6(r.ips)))
  }

  lemma {:induction false} RenamedDomains(t: XrayTests, ds: seq<string>)
    ensures Any(DomainTests(t), ds) <==> Any(t.domain, XrayDomains(ds))
    ensures |XrayDomains(ds)| == |ds|
  {
    if ds != [] {
      var init, d := ds[..|ds| - 1], ds[|ds| - 1];
      RenamedDomains(t, init);
      assert ds == init + [d];
      AnyOfConcat(DomainTests(t), init, [d]);
      AnyOfOne(DomainTests(t), d);
      AnyOfConcat(t.domain, XrayDomains(init), [XrayDomain(d)]);
      AnyOfOne(t.domain, XrayDomain(d));
    }
  }

  lemma {:induction false} ProtocolsSplit(ps: seq<string>)
    ensures Transports(ps) == [] && Applications(ps) == [] <==> ps == []
  {
    if ps != [] { ProtocolsSplit(ps[..|ps| - 1]); }
  }

  // What the emitted rules ask for besides domains and addresses.
  predicate XrayOthers(r: Rule, t: XrayTests) {
    && Allowed(p => PortTest(t.port, p), r.ports)
    && Allowed(t.network, Transports(r.protocols)) && Allowed(t.protocol, Applications(r.protocols))
    && Allowed(t.user, Identities(r)) && Allowed(t.inboundTag, r.inboundTags)
  }

  lemma XrayRulesMatch(r: Rule, server: string, t: XrayTests)
    ensures XrayMatchesAny(XrayRules(r, server), t) <==>
            XrayOthers(r, t) &&
            (|| Any(DomainTests(t), r.domains) || Any(t.ip, XrayIPs(r))
             || (r.domains == [] && XrayIPs(r) == [] && HasBaseMatcher(r)))
  {
    RenamedDomains(t, r.domains);
    var rules := XrayRules(r, server);
    assert XrayMatchesAny(rules, t) <==>
           (|rules| > 0 && XrayMatches(rules[0], t)) || (|rules| > 1 && XrayMatches(rules[1], t));
  }

  lemma PortsReadAlike(r: Rule, t: XrayTests, uid: string -> bool, process: string -> bool)
    ensures Any(p => PortTest(t.port, p), r.ports) <==> Any(XrayPacket(t, uid, process).port, r.ports)
    ensures !PortsSurvive(r) ==> r.ports != [] && !Any(XrayPacket(t, uid, process).port, r.ports)
  {
    var trimmed, port := (p: string) => PortTest(t.port, p), XrayPacket(t, uid, process).port;
    assert forall p :: trimmed(p) == port(p);
    assert Any(trimmed, r.ports) <==> Any(port, r.ports);
  }

  lemma XrayFaithfulSuffices(r: Rule, server: string, t: XrayTests, uid: string -> bool, process: string -> bool)
    requires XrayFaithful(r) && t.Valid()
    ensures XrayMatchesAny(XrayRules(r, server), t) <==> Matches(r, XrayPacket(t, uid, process))
  {
    XrayRulesMatch(r, server, t);
    PortsReadAlike(r, t, uid, process);
    if !PortsSurvive(r) {
      return;
    }
    if r.ipVersion == 6 {
      assert Any(t.ip, XrayIPs(r)) <==> t.ipVersion == 6 by {
        assert ALL_V6 in XrayIPs(r);
      }
      assert Any(t.ip, r.ips) ==> t.ipVersion == 6;
      if r.ips != [] { assert r.ips[0] in r.ips; }
    }
  }

  // Tests that pass everything.
  function XrayWitness(version: int): (t: XrayTests)
    ensures t.Valid()
  {
    var yes := (_: string) => true;
    XrayTests(version, yes, ip => ip != ALL_V6 || version == 6, yes, yes, yes, yes, yes)
  }

  // The witness passes any matcher that is written.
  lemma XrayWitnessPasses(r: Rule, server: string, version: int)
    requires PortsSurvive(r)
    ensures var t := XrayWitness(version);
            XrayMatchesAny(XrayRules(r, server), t) <==>
            || r.domains != [] || (exists ip | ip in XrayIPs(r) :: ip != ALL_V6 || version == 6)
            || (r.domains == [] && XrayIPs(r) == [] && HasBaseMatcher(r))
  {
    var t := XrayWitness(version);
    XrayRulesMatch(r, server, t);
    NoneAny(DomainTests(t), r.domains, true);
    NoneAny(t.network, Transports(r.protocols), true);
    NoneAny(t.protocol, Applications(r.protocols), true);
    NoneAny(t.user, Identities(r), true);
    NoneAny(t.inboundTag, r.inboundTags, true);
    var trimmed := (p: string) => PortTest(t.port, p);
    if r.ports != [] {
      var p :| p in r.ports && TrimSpace(p) != "";
      assert trimmed(p);
    }
  }

  ghost predicate Mismatch(r: Rule, server: string, t: XrayTests, uid: string -> bool, process: string -> bool) {
    t.Valid() && XrayMatchesAny(XrayRules(r, server), t) != Matches(r, XrayPacket(t, uid, process))
  }

  // Without any matcher nothing is emitted, while the rule matches every packet.
  lemma NoMatcherMismatch(r: Rule, server: string, any: string -> bool) returns (t: XrayTests)
    requires !HasMatcher(r)
    ensures Mismatch(r, server, t, any, any)
  {
    t := XrayWitness(if r.ipVersion == 0 then 4 else r.ipVersion);
    assert r.protocols == [] && Transports([]) == [] && Applications([]) == [];
  }

  // Package ids and process names are compared with users.
  lemma IdentityMismatch(r: Rule, server: string, no: string -> bool) returns (t: XrayTests)
    requires PortsSurvive(r) && HasMatcher(r) && (r.packageUIDs != [] || r.processNames != [])
    requires forall e :: !no(e)
    ensures Mismatch(r, server, t, no, no)
  {
    t := XrayWitness(6);
    XrayWitnessPasses(r, server, 6);
    if XrayIPs(r) != [] { assert XrayIPs(r)[0] in XrayIPs(r); }
  }

  // Versions other than 6 are ignored, and 6 becomes an alternative to the other addresses.
  lemma VersionMismatch(r: Rule, server: string, any: string -> bool) returns (t: XrayTests)
    requires PortsSurvive(r) && HasMatcher(r)
    requires r.ipVersion != 0 && !(r.ipVersion == 6 && r.domains == [] && OnlyAllV6(r.ips))
    ensures Mismatch(r, server, t, any, any)
  {
    var version := if r.ipVersion == 6 then 4 else 6;
    t := XrayWitness(version);
    XrayWitnessPasses(r, server, version);
    if r.ipVersion != 6 {
      if XrayIPs(r) != [] { assert XrayIPs(r)[0] in XrayIPs(r); }
    } else if r.domains == [] {
      var ip :| ip in r.ips && ip != ALL_V6;
      assert ip in XrayIPs(r);
    }
  }

  lemma UnfaithfulMismatch(r: Rule, server: string)
    requires !XrayFaithful(r)
    ensures exists t, uid, process :: Mismatch(r, server, t, uid, process)
  {
    var no := (_: string) => false;
    var t;
    if !HasMatcher(r) {
      t := NoMatcherMismatch(r, server, no);
    } else if r.packageUIDs != [] || r.processNames != [] {
      t := IdentityMismatch(r, server, no);
    } else {
      t := VersionMismatch(r, server, no);
    }
    assert Mismatch(r, server, t, no, no);
  }

  ghost predicate XrayKeepsMeaning(r: Rule, server: string) {
    forall t, uid, process :: !Mismatch(r, server, t, uid, process)
  }

  /** A rule's translation for Xray matches exactly the packets the rule matches, whatever the core's
      tests and the packet's package id and process are, iff the rule is one of the faithful ones. */
  lemma XrayKeepsMeaningIffFaithful(r: Rule, server: string)
    ensures XrayKeepsMeaning(r, server) <==> XrayFaithful(r)
  {
    if XrayFaithful(r) {
      forall t, uid, process ensures !Mismatch(r, server, t, uid, process) {
        if t.Valid() { XrayFaithfulSuffices(r, server, t, uid, process); }
      }
    } else {
      UnfaithfulMismatch(r, server);
    }
  }

  // ---------------------------------------------------------------------------------------
  // Whole lists
  // ---------------------------------------------------------------------------------------

  function BoxList(rules: seq<Rule>, server: string): seq<BoxRule> {
    if rules == [] then [] else BoxList(rules[..|rules| - 1], server) + BoxRules(rules[|rules| - 1], server)
  }

  function XrayList(rules: seq<Rule>, server: string): seq<XrayRule> {
    if rules == [] then [] else XrayList(rules[..|rules| - 1], server) + XrayRules(rules[|rules| - 1], server)
  }

  // The outbound of the first rule that matches.
  function BoxVerdict(rules: seq<BoxRule>, t: BoxTests): Option<string> {
    if rules == [] then None
    else if BoxMatches(rules[0], t) then Some(rules[0].outbound)
    else BoxVerdict(rules[1..], t)
  }

  function XrayVerdict(rules: seq<XrayRule>, t: XrayTests): Option<string> {
    if rules == [] then None
    else if XrayMatches(rules[0], t) then Some(rules[0].outboundTag)
    else XrayVerdict(rules[1..], t)
  }

  // Where a rule sends its packets: to the outbound it names, or by its action.
  function Destination(r: Rule, server: string): string {
    if r.outboundTag != "" then r.outboundTag
    else match r.action
         case Proxy => if server == "" then "proxy" else server
         case Direct => "direct"
         case Block => "block"
  }

  lemma OutboundIsDestination(r: Rule, server: string)
    ensures OutboundOf(r, server) == Destination(r, server)
  {}

  function ListVerdict(rules: seq<Rule>, server: string, k: Packet): Option<string> {
    match FirstMatch(rules, k)
    case None => None
    case Some(r) => Some(Destination(r, server))
  }

  // sing-box knows only one of the two names.
  function Unblocked(v: Option<string>): Option<string> { if v == Some("blocked") then Some("block") else v }

  lemma {:induction false} BoxVerdictOfConcat(a: seq<BoxRule>, b: seq<BoxRule>, t: BoxTests)
    ensures BoxVerdict(a + b, t) == if BoxVerdict(a, t).Some? then BoxVerdict(a, t) else BoxVerdict(b, t)
  {
    if a == [] {
      assert a + b == b;
    } else {
      BoxVerdictOfConcat(a[1..], b, t);
      assert (a + b)[1..] == a[1..] + b;
    }
  }

  lemma {:induction false} XrayVerdictOfConcat(a: seq<XrayRule>, b: seq<XrayRule>, t: XrayTests)
    ensures XrayVerdict(a + b, t) == if XrayVerdict(a, t).Some? then XrayVerdict(a, t) else XrayVerdict(b, t)
  {
    if a == [] {
      assert a + b == b;
    } else {
      XrayVerdictOfConcat(a[1..], b, t);
      assert (a + b)[1..] == a[1..] + b;
    }
  }

  lemma BoxVerdictOfFew(rules: seq<BoxRule>, outbound: string, t: BoxTests)
    requires |rules| <= 2 && forall r | r in rules :: r.outbound == outbound
    ensures BoxVerdict(rules, t) == if BoxMatchesAny(rules, t) then Some(outbound) else None
  {
    if rules != [] && !BoxMatches(rules[0], t) {
      var rest := rules[1..];
      BoxVerdictOfFew(rest, outbound, t);
      assert forall r | r in rules :: r == rules[0] || r in rest;
    } else if rules != [] {
      assert rules[0] in rules;
    }
  }

  lemma XrayVerdictOfFew(rules: seq<XrayRule>, tag: string, t: XrayTests)
    requires |rules| <= 2 && forall r | r in rules :: r.outboundTag == tag
    ensures XrayVerdict(rules, t) == if XrayMatchesAny(rules, t) then Some(tag) else None
  {
    if rules != [] && !XrayMatches(rules[0], t) {
      var rest := rules[1..];
      XrayVerdictOfFew(rest, tag, t);
      assert forall r | r in rules :: r == rules[0] || r in rest;
    } else if rules != [] {
      assert rules[0] in rules;
    }
  }

  lemma BoxRulesShareOutbound(r: Rule, server: string, t: BoxTests)
    ensures BoxVerdict(BoxRules(r, server), t) ==
            if BoxMatchesAny(BoxRules(r, server), t) then Some(BoxOutbound(r, server)) else None
  {
    BoxVerdictOfFew(BoxRules(r, server), BoxOutbound(r, server), t);
  }

  lemma XrayRulesShareTag(r: Rule, server: string, t: XrayTests)
    ensures XrayVerdict(XrayRules(r, server), t) ==
            if XrayMatchesAny(XrayRules(r, server), t) then Some(OutboundOf(r, server)) else None
  {
    XrayVerdictOfFew(XrayRules(r, server), OutboundOf(r, server), t);
  }

  /** The list for sing-box gives the verdict of the rule list, up to the name of the block
      outbound. */
  lemma {:induction false} BoxListKeepsVerdict(rules: seq<Rule>, server: string, t: BoxTests)
    requires forall r | r in rules :: BoxFaithful(r)
    ensures BoxVerdict(BoxList(rules, server), t) == Unblocked(ListVerdict(rules, server, BoxPacket(t)))
  {
    if rules != [] {
      var init, r := rules[..|rules| - 1], rules[|rules| - 1];
      BoxListKeepsVerdict(init, server, t);
      BoxVerdictOfConcat(BoxList(init, server), BoxRules(r, server), t);
      BoxRulesShareOutbound(r, server, t);
      assert BoxFaithful(r);
      BoxFaithfulSuffices(r, server, t);
      LastRuleDecides(rules, server, BoxPacket(t));
      OutboundIsDestination(r, server);
    }
  }

  lemma LastRuleDecides(rules: seq<Rule>, server: string, k: Packet)
    requires rules != []
    ensures var init, r := rules[..|rules| - 1], rules[|rules| - 1];
            ListVerdict(rules, server, k) ==
            if ListVerdict(init, server, k).Some? then ListVerdict(init, server, k)
            else if Matches(r, k) then Some(Destination(r, server)) else None
  {
    var init, r := rules[..|rules| - 1], rules[|rules| - 1];
    assert rules == init + [r] && [r][1..] == [];
    FirstMatchOfConcat(init, [r], k);
  }

  /** The list for Xray gives the verdict of the rule list. */
  lemma {:induction false} XrayListKeepsVerdict(rules: seq<Rule>, server: string, t: XrayTests,
                                                uid: string -> bool, process: string -> bool)
    requires t.Valid() && forall r | r in rules :: XrayFaithful(r)
    ensures XrayVerdict(XrayList(rules, server), t) == ListVerdict(rules, server, XrayPacket(t, uid, process))
  {
    if rules != [] {
      var init, r := rules[..|rules| - 1], rules[|rules| - 1];
      XrayListKeepsVerdict(init, server, t, uid, process);
      XrayVerdictOfConcat(XrayList(init, server), XrayRules(r, server), t);
      XrayRulesShareTag(r, server, t);
      assert XrayFaithful(r);
      XrayFaithfulSuffices(r, server, t, uid, process);
      LastRuleDecides(rules, server, XrayPacket(t, uid, process));
      OutboundIsDestination(r, server);
    }
  }

  // ---------------------------------------------------------------------------------------
  // The translation loops
  // ---------------------------------------------------------------------------------------

  method SplitProtocols(protocols: seq<string>) returns (networks: seq<string>, applications: seq<string>)
    ensures networks == Transports(protocols) && applications == Applications(protocols)
  {
    networks, applications := [], [];
    var i := 0;
    while i < |protocols|
      invariant 0 <= i <= |protocols|
      invariant networks == Transports(protocols[..i]) && applications == Applications(protocols[..i])
    {
      assert protocols[..i + 1][..i] == protocols[..i];
      var lower := ToLower(protocols[i]);
      if lower == "tcp" || lower == "udp" {
        networks := networks + [lower];
      } else {
        applications := applications + [lower];
      }
      i := i + 1;
    }
    assert protocols[..i] == protocols;
  }

  method TrimPorts(ports: seq<string>) returns (trimmed: seq<string>)
    ensures trimmed == NonBlank(ports)
  {
    trimmed := [];
    var i := 0;
    while i < |ports|
      invariant 0 <= i <= |ports|
      invariant trimmed == NonBlank(ports[..i])
    {
      assert ports[..i + 1][..i] == ports[..i];
      var p := TrimSpace(ports[i]);
      if p != "" {
        trimmed := trimmed + [p];
      }
      i := i + 1;
    }
    assert ports[..i] == ports;
  }

  // Sorts the domain entries of a rule into the core's keys.
  method SortDomains(base: BoxRule, domains: seq<string>) returns (rule: BoxRule)
    requires !HasDestination(base)
    ensures rule == base.(regex := Pick(domains, Regex), suffix := Pick(domains, Suffix),
                          exact := Pick(domains, Exact), keyword := Pick(domains, Keyword),
                          ruleSet := Pick(domains, Geosite))
  {
    var regexes, suffixes, exacts, keywords, sets: seq<string> := [], [], [], [], [];
    var i := 0;
    while i < |domains|
      invariant 0 <= i <= |domains|
      invariant regexes == Pick(domains[..i], Regex) && suffixes == Pick(domains[..i], Suffix)
      invariant exacts == Pick(domains[..i], Exact) && keywords == Pick(domains[..i], Keyword)
      invariant sets == Pick(domains[..i], Geosite)
    {
      assert domains[..i + 1][..i] == domains[..i];
      var d := domains[i];
      if HasPrefix(d, "geosite:") {
        sets := sets + ["geosite-" + TrimPrefix(d, "geosite:")];
      } else if HasPrefix(d, "regexp:") {
        regexes := regexes + [TrimPrefix(d, "regexp:")];
      } else if HasPrefix(d, "regex:") {
        regexes := regexes + [TrimPrefix(d, "regex:")];
      } else if HasPrefix(d, "domain:") {
        exacts := exacts + [TrimPrefix(d, "domain:")];
      } else if HasPrefix(d, "full:") {
        exacts := exacts + [TrimPrefix(d, "full:")];
      } else if HasPrefix(d, "suffix:") {
        suffixes := suffixes + [TrimPrefix(d, "suffix:")];
      } else if HasPrefix(d, "keyword:") {
        keywords := keywords + [TrimPrefix(d, "keyword:")];
      } else {
        suffixes := suffixes + [d];
      }
      i := i + 1;
    }
    assert domains[..i] == domains;
    rule := base.(regex := regexes, suffix := suffixes, exact := exacts, keyword := keywords, ruleSet := sets);
  }

  method ResolveIPs(ips: seq<string>) returns (nets: seq<string>, sets: seq<string>, allV6: bool)
    ensures nets == Nets(ips) && sets == Sets(ips) && (allV6 <==> ALL_V6 in ips)
  {
    nets, sets, allV6 := [], [], false;
    var i := 0;
    while i < |ips|
      invariant 0 <= i <= |ips|
      invariant nets == Nets(ips[..i]) && sets == Sets(ips[..i]) && (allV6 <==> ALL_V6 in ips[..i])
    {
      assert ips[..i + 1][..i] == ips[..i];
      assert !HasPrefix(ALL_V6, GEOIP);
      var ip := ips[i];
      if ip == ALL_V6 {
        allV6 := true;
      } else if HasPrefix(ip, GEOIP) {
        var country := TrimPrefix(ip, GEOIP);
        if country == "private" {
          nets := nets + PRIVATE_NETS;
        } else {
          sets := sets + ["geoip-" + country];
        }
      } else if HasPrefix(ip, "ip:") {
        nets := nets + [TrimPrefix(ip, "ip:")];
      } else {
        nets := nets + [ip];
      }
      i := i + 1;
    }
    assert ips[..i] == ips;
  }

  method ResolveOutbound(r: Rule, server: string) returns (tag: string)
    ensures tag == OutboundOf(r, server)
  {
    tag := r.action.Name();
    if r.outboundTag != "" {
      tag := r.outboundTag;
    } else if r.action == Proxy {
      tag := if server != "" then server else "proxy";
    }
  }

  // The matchers that all rules emitted for `r` share.
  method NewBoxBase(r: Rule, server: string) returns (base: BoxRule)
    ensures base == BoxBase(r, server)
  {
    var outbound := ResolveOutbound(r, server);
    if outbound == "blocked" {
      outbound := "block";
    }
    var ports := TrimPorts(r.ports);
    var networks, applications := SplitProtocols(r.protocols);
    base := BoxRule(outbound, r.ipVersion, r.inboundTags, ports, networks, applications, r.users,
                    r.packageUIDs, r.processNames, [], [], [], [], [], []);
  }

  method TranslateForBox(r: Rule, server: string) returns (rules: seq<BoxRule>)
    ensures rules == BoxRules(r, server)
  {
    var base := NewBoxBase(r, server);
    var dRule := SortDomains(base, r.domains);
    var nets, sets, allV6 := ResolveIPs(r.ips);
    allV6 := allV6 || r.ipVersion == 6;
    var iRule := base.(cidr := nets, ruleSet := sets);
    if allV6 {
      iRule := iRule.(ipVersion := 6);
    }
    var hasIPs := |nets| > 0 || |sets| > 0 || allV6;
    rules := [];
    if HasDestination(dRule) && hasIPs {
      rules := rules + [dRule];
      rules := rules + [iRule];
    } else if HasDestination(dRule) {
      rules := rules + [dRule];
    } else if hasIPs {
      rules := rules + [iRule];
    } else {
      rules := rules + [base];
    }
  }

  method BuildBoxRules(rules: seq<Rule>, server: string) returns (result: seq<BoxRule>)
    ensures result == BoxList(rules, server)
  {
    result := [];
    var i := 0;
    while i < |rules|
      invariant 0 <= i <= |rules|
      invariant result == BoxList(rules[..i], server)
    {
      assert rules[..i + 1][..i] == rules[..i];
      var translated := TranslateForBox(rules[i], server);
      result := result + translated;
      i := i + 1;
    }
    assert rules[..i] == rules;
  }

  method RenameDomains(domains: seq<string>) returns (result: seq<string>)
    ensures result == XrayDomains(domains)
  {
    result := [];
    var i := 0;
    while i < |domains|
      invariant 0 <= i <= |domains|
      invariant result == XrayDomains(domains[..i])
    {
      assert domains[..i + 1][..i] == domains[..i];
      if domains[i] == "geosite:ru" {
        result := result + ["geosite:category-ru"];
      } else {
        result := result + [domains[i]];
      }
      i := i + 1;
    }
    assert domains[..i] == domains;
  }

  method AddAllV6(r: Rule) returns (ips: seq<string>)
    ensures ips == XrayIPs(r)
  {
    ips := r.ips;
    if r.ipVersion == 6 {
      var hasV6, i := false, 0;
      while i < |ips| && !hasV6
        invariant 0 <= i <= |ips|
        invariant hasV6 <==> ALL_V6 in ips[..i]
      {
        hasV6 := ips[i] == ALL_V6;
        i := i + 1;
      }
      assert hasV6 ==> ALL_V6 in ips;
      if !hasV6 {
        assert ips[..i] == ips;
        ips := ips + [ALL_V6];
      }
    }
  }

  method NewXrayBase(r: Rule, server: string) returns (base: XrayRule)
    ensures base == XrayBase(r, server)
  {
    var tag := ResolveOutbound(r, server);
    var networks, applications := SplitProtocols(r.protocols);
    var user := r.processNames;
    if |r.users| > 0 {
      user := r.users;
    } else if |r.packageUIDs| > 0 {
      user := r.packageUIDs;
    }
    base := XrayRule(tag, [], [], r.ports, networks, applications, user, r.inboundTags);
  }

  method TranslateForXray(r: Rule, server: string) returns (rules: seq<XrayRule>)
    ensures rules == XrayRules(r, server)
  {
    var ips := AddAllV6(r);
    var base := NewXrayBase(r, server);
    ProtocolsSplit(r.protocols);
    var domains := RenameDomains(r.domains);
    rules := [];
    if |domains| > 0 && |ips| > 0 {
      rules := rules + [base.(domain := domains)];
      rules := rules + [base.(ip := ips)];
    } else if |domains| > 0 {
      rules := rules + [base.(domain := domains)];
    } else if |ips| > 0 {
      rules := rules + [base.(ip := ips)];
    } else if |base.ports| > 0 || |base.network| > 0 || |base.protocol| > 0 || |base.user| > 0 ||
              |base.inboundTag| > 0 {
      rules := rules + [base];
    }
  }

  method BuildXrayRules(rules: seq<Rule>, server: string) returns (result: seq<XrayRule>)
    ensures result == XrayList(rules, server)
  {
    result := [];
    var i := 0;
    while i < |rules|
      invariant 0 <= i <= |rules|
      invariant result == XrayList(rules[..i], server)
    {
      assert rules[..i + 1][..i] == rules[..i];
      var translated := TranslateForXray(rules[i], server);
      result := result + translated;
      i := i + 1;
    }
    assert rules[..i] == rules;
  }
}
