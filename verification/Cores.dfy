/** When the two cores treat the same traffic alike (pkg/compiler/singbox/routing.go,
    pkg/compiler/xray/routing.go).

    Traffic has a host, and both cores read the domain entries they are given over it: for sing-box
    `domain:` and `full:` are exact names and a bare entry a suffix; for Xray `domain:` covers
    subdomains, and an entry without a label it knows is a part of the host.  Other entries mean the
    same to both. */
module Cores {
  import opened Common
  import opened Text
  import opened RoutingAst
  import opened HostPatterns
  import Domains
  import opened Backends

  // ---------------------------------------------------------------------------------------
  // The readings
  // ---------------------------------------------------------------------------------------

  // The list one core calls ru is the other's category-ru.
  function ListNamed(name: string): Pattern { Tagged("geosite:" + if name == "ru" then "category-ru" else name) }

  function BoxPattern(d: string): Pattern {
    if HasPrefix(d, "geosite:") then ListNamed(d[|"geosite:"|..])
    else if HasPrefix(d, "regexp:") then Tagged(d)
    else if HasPrefix(d, "regex:") then Tagged("regexp:" + d[|"regex:"|..])
    else if HasPrefix(d, "domain:") then Exactly(d[|"domain:"|..])
    else if HasPrefix(d, "full:") then Exactly(d[|"full:"|..])
    else if HasPrefix(d, "suffix:") then Under(d[|"suffix:"|..])
    else if HasPrefix(d, "keyword:") then Containing(d[|"keyword:"|..])
    else Under(d)
  }

  // How an entry is read as it is written for Xray.
  function WrittenPattern(d: string): Pattern {
    if HasPrefix(d, "geosite:") then ListNamed(TrimPrefix(d, "geosite:"))
    else if HasPrefix(d, "regexp:") then Tagged(d)
    else if HasPrefix(d, "domain:") then Under(TrimPrefix(d, "domain:"))
    else if HasPrefix(d, "full:") then Exactly(TrimPrefix(d, "full:"))
    else if HasPrefix(d, "keyword:") then Containing(TrimPrefix(d, "keyword:"))
    else Containing(d)
  }

  function XrayPattern(d: string): Pattern { WrittenPattern(XrayDomain(d)) }

  function BoxPatterns(r: Rule): seq<Pattern> { Patterns(BoxPattern, r.domains) }

  function XrayPatterns(r: Rule): seq<Pattern> { Patterns(XrayPattern, r.domains) }

  ghost predicate Reads(test: string -> bool, read: string -> Pattern, tags: (string, string) -> bool, host: string,
                        ds: seq<string>) {
    forall d | d in ds :: test(d) <==> Fits(tags, read(d), host)
  }

  // Both cores look at the same traffic, as far as the rule asks.
  ghost predicate SameTraffic(r: Rule, b: BoxTests, x: XrayTests, tags: (string, string) -> bool, host: string) {
    && x.Valid() && OthersAlike(r, BoxPacket(b), XrayPacket(x, b.userId, b.processName))
    && Reads(BoxPacket(b).domain, BoxPattern, tags, host, r.domains)
    && Reads(DomainTests(x), XrayPattern, tags, host, r.domains)
  }

  lemma ReadPatterns(test: string -> bool, read: string -> Pattern, tags: (string, string) -> bool, host: string,
                     ds: seq<string>)
    requires Reads(test, read, tags, host, ds)
    ensures Any(test, ds) <==> AnyFits(tags, Patterns(read, ds), host)
  {
    var ps := Patterns(read, ds);
    if Any(test, ds) {
      var d :| d in ds && test(d);
      var i :| 0 <= i < |ds| && ds[i] == d;
      assert ps[i] in ps;
    }
    if AnyFits(tags, ps, host) {
      var p :| p in ps && Fits(tags, p, host);
      var i :| 0 <= i < |ps| && ps[i] == p;
      assert ds[i] in ds;
    }
  }

  // ---------------------------------------------------------------------------------------
  // Rules that both cores treat alike
  // ---------------------------------------------------------------------------------------

  // `::/0` stands alone, and an IP version meets no domains and no other address.
  predicate AddressesAlike(r: Rule) {
    if ALL_V6 in r.ips then OnlyAllV6(r.ips) && (r.domains == [] || r.ipVersion == 0)
    else r.ipVersion == 0 || (r.ipVersion == 6 && r.ips == [] && r.domains == [])
  }

  predicate HitsEveryHost(r: Rule) { Containing("") in BoxPatterns(r) }

  /** Some port survives, some matcher is written, nothing is asked of package ids and process names,
      addresses are harmless unless every host is hit anyway, and the two readings of the domains cover
      each other. */
  predicate TranslatedAlike(r: Rule) {
    && PortsSurvive(r) && HasMatcher(r) && r.packageUIDs == [] && r.processNames == []
    && (AddressesAlike(r) || (r.ipVersion == 0 && HitsEveryHost(r)))
    && CoverEachOther(BoxPatterns(r), XrayPatterns(r))
  }

  ghost predicate MatchedAlike(r: Rule, server: string, b: BoxTests, x: XrayTests) {
    BoxMatchesAny(BoxRules(r, server), b) <==> XrayMatchesAny(XrayRules(r, server), x)
  }

  ghost predicate AlwaysMatchedAlike(r: Rule, server: string) {
    forall b, x, tags, host | SameTraffic(r, b, x, tags, host) :: MatchedAlike(r, server, b, x)
  }

  // When the emitted rules match, as the domains do under their two readings.
  lemma MatchesByHost(r: Rule, server: string, b: BoxTests, x: XrayTests, tags: (string, string) -> bool, host: string)
    requires SameTraffic(r, b, x, tags, host)
    ensures BoxMatchesAny(BoxRules(r, server), b) <==> BoxAllows(r, b, AnyFits(tags, BoxPatterns(r), host))
    ensures XrayMatchesAny(XrayRules(r, server), x) <==>
            XrayOthers(r, x) && XrayAddressAllows(r, x, AnyFits(tags, XrayPatterns(r), host))
  {
    BoxRulesMatch(r, server, b);
    XrayRulesMatch(r, server, x);
    ReadPatterns(BoxPacket(b).domain, BoxPattern, tags, host, r.domains);
    ReadPatterns(DomainTests(x), XrayPattern, tags, host, r.domains);
  }

  predicate BoxAllows(r: Rule, b: BoxTests, hit: bool) { OthersButVersion(r, b) && BoxAddressAllows(r, b, hit) }

  predicate BoxAddressAllows(r: Rule, b: BoxTests, hit: bool) {
    || (VersionFits(r, b) && hit)
    || (HasIPMatchers(r) && (if AsksForV6(r) then b.ipVersion == 6 else VersionFits(r, b)) && IPListsAllow(r, b))
    || (VersionFits(r, b) && r.domains == [] && !HasIPMatchers(r))
  }

  predicate XrayAddressAllows(r: Rule, x: XrayTests, hit: bool) {
    hit || Any(x.ip, XrayIPs(r)) || (r.domains == [] && XrayIPs(r) == [] && HasBaseMatcher(r))
  }

  // The tests other than those on addresses agree.
  lemma OthersAgree(r: Rule, b: BoxTests, x: XrayTests, tags: (string, string) -> bool, host: string)
    requires SameTraffic(r, b, x, tags, host) && PortsSurvive(r) && r.packageUIDs == [] && r.processNames == []
    ensures OthersButVersion(r, b) <==> XrayOthers(r, x)
  {
    var k, l := BoxPacket(b), XrayPacket(x, b.userId, b.processName);
    TrimmedPorts(b.port, r.ports);
    var trimmed := (p: string) => PortTest(b.port, p);
    assert forall p :: trimmed(p) == k.port(p);
    assert Any(trimmed, r.ports) <==> Any(k.port, r.ports);
    PortsReadAlike(r, x, b.userId, b.processName);
    AnyAlike(k.port, l.port, r.ports);
    AnyAlike(k.network, l.network, Transports(r.protocols));
    AnyAlike(k.application, l.application, Applications(r.protocols));
    AnyAlike(k.user, l.user, r.users);
    AnyAlike(k.inbound, l.inbound, r.inboundTags);
  }

  lemma AddressesAgree(r: Rule, b: BoxTests, x: XrayTests, tags: (string, string) -> bool, host: string, hit: bool)
    requires SameTraffic(r, b, x, tags, host) && HasMatcher(r) && (r.domains == [] ==> !hit)
    requires AddressesAlike(r) || (r.ipVersion == 0 && hit)
    ensures BoxAddressAllows(r, b, hit) <==> XrayAddressAllows(r, x, hit)
  {
    ResolvedIPs(b, r.ips);
    EveryIPIsResolved(r.ips);
    AnyAlike(BoxPacket(b).ip, x.ip, r.ips);
    AnyOfConcat(x.ip, r.ips, [ALL_V6]);
    AnyOfOne(x.ip, ALL_V6);
    if r.ips != [] { assert r.ips[0] in r.ips; }
  }

  // The host is hit under both readings or under none.
  lemma HostIsHitAlike(r: Rule, tags: (string, string) -> bool, host: string)
    requires CoverEachOther(BoxPatterns(r), XrayPatterns(r))
    ensures AnyFits(tags, BoxPatterns(r), host) <==> AnyFits(tags, XrayPatterns(r), host)
    ensures HitsEveryHost(r) ==> AnyFits(tags, BoxPatterns(r), host)
    ensures r.domains == [] ==> !AnyFits(tags, BoxPatterns(r), host)
  {
    CoverEachOtherSuffices(tags, BoxPatterns(r), XrayPatterns(r), host);
    assert HoldsAt(host, "", 0) && Fits(tags, Containing(""), host);
  }

  lemma PartsAgree(r: Rule, b: BoxTests, x: XrayTests, tags: (string, string) -> bool, host: string, hit: bool)
    requires SameTraffic(r, b, x, tags, host) && (r.domains == [] ==> !hit) && (HitsEveryHost(r) ==> hit)
    requires PortsSurvive(r) && HasMatcher(r) && r.packageUIDs == [] && r.processNames == []
    requires AddressesAlike(r) || (r.ipVersion == 0 && HitsEveryHost(r))
    ensures BoxAllows(r, b, hit) <==> XrayOthers(r, x) && XrayAddressAllows(r, x, hit)
  {
    OthersAgree(r, b, x, tags, host);
    AddressesAgree(r, b, x, tags, host, hit);
  }

  lemma AlikeSuffices(r: Rule, server: string, b: BoxTests, x: XrayTests, tags: (string, string) -> bool, host: string)
    requires TranslatedAlike(r) && SameTraffic(r, b, x, tags, host)
    ensures MatchedAlike(r, server, b, x)
  {
    HostIsHitAlike(r, tags, host);
    PartsAgree(r, b, x, tags, host, AnyFits(tags, BoxPatterns(r), host));
    MatchesByHost(r, server, b, x, tags, host);
  }

  // ---------------------------------------------------------------------------------------
  // Traffic that tells the cores apart
  // ---------------------------------------------------------------------------------------

  // Traffic of this host and version that passes every other test, but perhaps those on addresses
  // and on package ids and process names.
  function BoxView(tags: (string, string) -> bool, host: string, version: int, net: bool, id: bool): BoxTests {
    var yes := (_: string) => true;
    BoxTests(version, yes, yes, yes, yes, yes, _ => id, _ => id,
             s => Fits(tags, Tagged("regexp:" + s), host), s => FitsName(Under(s), host),
             s => FitsName(Exactly(s), host), s => FitsName(Containing(s), host),
             s => if HasPrefix(s, "geosite-") then Fits(tags, ListNamed(TrimPrefix(s, "geosite-")), host) else net,
             _ => net)
  }

  function XrayView(tags: (string, string) -> bool, host: string, version: int, net: bool): XrayTests {
    var yes := (_: string) => true;
    XrayTests(version, d => Fits(tags, WrittenPattern(d), host), ip => if ip == ALL_V6 then version == 6 else net,
              yes, yes, yes, yes, yes)
  }

  lemma CountryIsNoSite(ip: string)
    ensures forall s | s in SetsOf(ip) :: !HasPrefix(s, "geosite-")
  {
    forall s | s in SetsOf(ip) ensures !HasPrefix(s, "geosite-") {
      assert s[3] == 'i' && "geosite-"[3] == 's';
    }
  }

  lemma {:induction false} SetsAreCountries(ips: seq<string>)
    ensures forall s | s in Sets(ips) :: !HasPrefix(s, "geosite-")
  {
    if ips != [] {
      SetsAreCountries(ips[..|ips| - 1]);
      CountryIsNoSite(ips[|ips| - 1]);
    }
  }

  lemma SiteIsNamed(name: string)
    ensures HasPrefix("geosite-" + name, "geosite-") && TrimPrefix("geosite-" + name, "geosite-") == name
  {}

  // The reading goes by the kind that the translation tells from the label.
  lemma PatternByKind(d: string)
    ensures BoxPattern(d) ==
            match KindOf(d)
            case Geosite => ListNamed(TrimPrefix(d, "geosite:"))
            case Regex => Tagged("regexp:" + ValueOf(d))
            case Exact => Exactly(ValueOf(d))
            case Suffix => Under(ValueOf(d))
            case Keyword => Containing(ValueOf(d))
  {
    if HasPrefix(d, "regexp:") { assert d == "regexp:" + d[|"regexp:"|..]; }
  }

  lemma ViewsReadDomain(tags: (string, string) -> bool, host: string, version: int, net: bool, id: bool, d: string)
    ensures DomainTest(BoxView(tags, host, version, net, id), d) <==> Fits(tags, BoxPattern(d), host)
  {
    SiteIsNamed(TrimPrefix(d, "geosite:"));
    PatternByKind(d);
  }

  lemma ViewsReadAddress(tags: (string, string) -> bool, host: string, version: int, net: bool, id: bool, ip: string)
    ensures IPTest(BoxView(tags, host, version, net, id), ip) <==> XrayView(tags, host, version, net).ip(ip)
  {
    CountryIsNoSite(ip);
    EntryIsResolved(BoxView(tags, host, version, net, id), ip);
    if ip != ALL_V6 {
      var b := BoxView(tags, host, version, net, id);
      if SetsOf(ip) != [] {
        assert SetsOf(ip)[0] in SetsOf(ip);
      } else {
        assert NetsOf(ip)[0] in NetsOf(ip);
      }
    }
  }

  lemma ViewsAreSameTraffic(r: Rule, tags: (string, string) -> bool, host: string, version: int, net: bool, id: bool)
    ensures SameTraffic(r, BoxView(tags, host, version, net, id), XrayView(tags, host, version, net), tags, host)
  {
    var b, x := BoxView(tags, host, version, net, id), XrayView(tags, host, version, net);
    forall d ensures BoxPacket(b).domain(d) <==> Fits(tags, BoxPattern(d), host) {
      ViewsReadDomain(tags, host, version, net, id, d);
    }
    forall ip ensures BoxPacket(b).ip(ip) <==> x.ip(ip) {
      ViewsReadAddress(tags, host, version, net, id, ip);
    }
  }

  // What the rules make of the views.
  predicate BoxSays(r: Rule, version: int, net: bool, id: bool, hit: bool) {
    var fits := r.ipVersion == 0 || r.ipVersion == version;
    && (id || (r.packageUIDs == [] && r.processNames == []))
    && (|| (fits && hit)
        || ((AsksForV6(r) || !OnlyAllV6(r.ips)) && (if AsksForV6(r) then version == 6 else fits)
            && (net || OnlyAllV6(r.ips)))
        || (fits && r.domains == [] && !AsksForV6(r) && OnlyAllV6(r.ips)))
  }

  predicate XraySays(r: Rule, version: int, net: bool, hit: bool) {
    && PortsSurvive(r)
    && (|| hit || (AsksForV6(r) && version == 6) || (!OnlyAllV6(r.ips) && net)
        || (r.domains == [] && XrayIPs(r) == [] && HasBaseMatcher(r)))
  }

  lemma BoxOthersPass(r: Rule, b: BoxTests, id: bool)
    requires forall s :: b.inbound(s) && b.port(s) && b.network(s) && b.protocol(s) && b.authUser(s)
    requires forall s :: b.userId(s) == b.processName(s) == id
    ensures OthersButVersion(r, b) <==> id || (r.packageUIDs == [] && r.processNames == [])
  {
    NoneAny(b.inbound, r.inboundTags, true);
    NoneAny(b.port, NonBlank(r.ports), true);
    NoneAny(b.network, Transports(r.protocols), true);
    NoneAny(b.protocol, Applications(r.protocols), true);
    NoneAny(b.authUser, r.users, true);
    NoneAny(b.userId, r.packageUIDs, id);
    NoneAny(b.processName, r.processNames, id);
  }

  lemma BoxListsPass(r: Rule, b: BoxTests, net: bool)
    requires forall s :: b.cidr(s) == net && (HasPrefix(s, "geosite-") || b.ruleSet(s) == net)
    ensures IPListsAllow(r, b) <==> net || OnlyAllV6(r.ips)
  {
    NoneAny(b.cidr, Nets(r.ips), net);
    SetsAreCountries(r.ips);
    EveryIPIsResolved(r.ips);
    if Sets(r.ips) != [] { assert Sets(r.ips)[0] in Sets(r.ips); }
  }

  lemma BoxSaysSo(r: Rule, server: string, tags: (string, string) -> bool, host: string, version: int, net: bool,
                  id: bool)
    ensures BoxMatchesAny(BoxRules(r, server), BoxView(tags, host, version, net, id)) <==>
            BoxSays(r, version, net, id, AnyFits(tags, BoxPatterns(r), host))
  {
    var b, x := BoxView(tags, host, version, net, id), XrayView(tags, host, version, net);
    ViewsAreSameTraffic(r, tags, host, version, net, id);
    MatchesByHost(r, server, b, x, tags, host);
    BoxOthersPass(r, b, id);
    BoxListsPass(r, b, net);
    EveryIPIsResolved(r.ips);
  }

  lemma XrayOthersPass(r: Rule, x: XrayTests)
    requires forall s :: x.inboundTag(s) && x.port(s) && x.network(s) && x.protocol(s) && x.user(s)
    ensures XrayOthers(r, x) <==> PortsSurvive(r)
  {
    NoneAny(x.inboundTag, r.inboundTags, true);
    NoneAny(x.network, Transports(r.protocols), true);
    NoneAny(x.protocol, Applications(r.protocols), true);
    NoneAny(x.user, Identities(r), true);
    XrayPortsPass(r, x);
  }

  lemma XrayListsPass(r: Rule, test: string -> bool, v6: bool, net: bool)
    requires forall ip :: test(ip) == if ip == ALL_V6 then v6 else net
    ensures Any(test, XrayIPs(r)) <==> (AsksForV6(r) && v6) || (!OnlyAllV6(r.ips) && net)
  {
    if AsksForV6(r) { assert ALL_V6 in XrayIPs(r); }
    if !OnlyAllV6(r.ips) {
      var ip :| ip in r.ips && ip != ALL_V6;
      assert ip in XrayIPs(r);
    }
  }

  lemma XraySaysSo(r: Rule, server: string, tags: (string, string) -> bool, host: string, version: int, net: bool)
    ensures XrayMatchesAny(XrayRules(r, server), XrayView(tags, host, version, net)) <==>
            XraySays(r, version, net, AnyFits(tags, XrayPatterns(r), host))
  {
    var b, x := BoxView(tags, host, version, net, true), XrayView(tags, host, version, net);
    ViewsAreSameTraffic(r, tags, host, version, net, true);
    MatchesByHost(r, server, b, x, tags, host);
    XrayOthersPass(r, x);
    XrayListsPass(r, x.ip, version == 6, net);
  }

  lemma XrayPortsPass(r: Rule, x: XrayTests)
    requires forall p :: x.port(p)
    ensures Allowed(p => PortTest(x.port, p), r.ports) <==> PortsSurvive(r)
  {
    var trimmed := (p: string) => PortTest(x.port, p);
    if r.ports != [] && PortsSurvive(r) {
      var p :| p in r.ports && TrimSpace(p) != "";
      assert trimmed(p);
    }
  }

  // These views tell the cores apart.
  ghost predicate Apart(r: Rule, tags: (string, string) -> bool, host: string, version: int, net: bool, id: bool) {
    BoxSays(r, version, net, id, AnyFits(tags, BoxPatterns(r), host)) !=
    XraySays(r, version, net, AnyFits(tags, XrayPatterns(r), host))
  }

  lemma ApartIsNotAlike(r: Rule, server: string, tags: (string, string) -> bool, host: string, version: int,
                        net: bool, id: bool)
    requires Apart(r, tags, host, version, net, id)
    ensures !AlwaysMatchedAlike(r, server)
  {
    var b, x := BoxView(tags, host, version, net, id), XrayView(tags, host, version, net);
    ViewsAreSameTraffic(r, tags, host, version, net, id);
    BoxSaysSo(r, server, tags, host, version, net, id);
    XraySaysSo(r, server, tags, host, version, net);
    assert SameTraffic(r, b, x, tags, host) && !MatchedAlike(r, server, b, x);
  }

  lemma AddressesAreAsked(r: Rule)
    ensures XrayIPs(r) == [] <==> !AsksForV6(r) && OnlyAllV6(r.ips)
  {
    if r.ips != [] { assert r.ips[0] in r.ips; }
  }

  // A host that the first of the patterns matches, if there is one.
  function HostFor(ps: seq<Pattern>): string { if ps == [] then "" else TextOf(ps[0]) }

  lemma HostFits(ps: seq<Pattern>)
    ensures var yes := (_: string, _: string) => true; AnyFits(yes, ps, HostFor(ps)) <==> ps != []
  {
    var yes := (_: string, _: string) => true;
    if ps != [] {
      var v := TextOf(ps[0]);
      assert HoldsAt(v, v, 0);
      assert ps[0] in ps && Fits(yes, ps[0], v);
    }
  }

  lemma BlankPortsTellApart(r: Rule, server: string)
    requires !PortsSurvive(r)
    ensures !AlwaysMatchedAlike(r, server)
  {
    var yes := (_: string, _: string) => true;
    var host := HostFor(BoxPatterns(r));
    HostFits(BoxPatterns(r));
    var version := if AsksForV6(r) || r.ipVersion == 0 then 6 else r.ipVersion;
    ApartIsNotAlike(r, server, yes, host, version, true, true);
  }

  lemma NoMatcherTellsApart(r: Rule, server: string)
    requires PortsSurvive(r) && !HasMatcher(r)
    ensures !AlwaysMatchedAlike(r, server)
  {
    var yes := (_: string, _: string) => true;
    assert BoxPatterns(r) == [] && XrayPatterns(r) == [];
    ApartIsNotAlike(r, server, yes, "", r.ipVersion, true, true);
  }

  lemma IdentitiesTellApart(r: Rule, server: string)
    requires PortsSurvive(r) && HasMatcher(r) && (r.packageUIDs != [] || r.processNames != [])
    ensures !AlwaysMatchedAlike(r, server)
  {
    var yes := (_: string, _: string) => true;
    HostFits(XrayPatterns(r));
    AddressesAreAsked(r);
    ApartIsNotAlike(r, server, yes, HostFor(XrayPatterns(r)), 6, true, false);
  }

  lemma VersionTellsApart(r: Rule, server: string)
    requires PortsSurvive(r) && HasMatcher(r) && r.packageUIDs == [] && r.processNames == []
    requires r.ipVersion != 0 && !AddressesAlike(r)
    ensures !AlwaysMatchedAlike(r, server)
  {
    var yes := (_: string, _: string) => true;
    HostFits(XrayPatterns(r));
    AddressesAreAsked(r);
    var version := if r.ipVersion == 4 then 5 else 4;
    assert r.ips != [] ==> r.ips[0] in r.ips;
    assert r.domains == [] ==> !OnlyAllV6(r.ips) || (XrayIPs(r) == [] && HasBaseMatcher(r));
    assert !BoxSays(r, version, true, true, AnyFits(yes, BoxPatterns(r), HostFor(XrayPatterns(r))));
    ApartIsNotAlike(r, server, yes, HostFor(XrayPatterns(r)), version, true, true);
  }

  // IPv6 alone does not open an address list that names other networks as well.
  lemma MixedAddressesTellApart(r: Rule, server: string, c: char)
    requires PortsSurvive(r) && HasMatcher(r) && r.packageUIDs == [] && r.processNames == []
    requires r.ipVersion == 0 && !AddressesAlike(r) && !HitsEveryHost(r) && FreshFor(c, BoxPatterns(r))
    ensures !AlwaysMatchedAlike(r, server)
  {
    var no := (_: string, _: string) => false;
    if AnyFits(no, BoxPatterns(r), [c]) {
      var p :| p in BoxPatterns(r) && Fits(no, p, [c]);
      FreshHostNeedsMore(c, p, "");
    }
    ApartIsNotAlike(r, server, no, [c], 6, false, true);
  }

  lemma HostTellsApart(r: Rule, server: string, tags: (string, string) -> bool, host: string)
    requires PortsSurvive(r) && HasMatcher(r) && r.packageUIDs == [] && r.processNames == []
    requires AddressesAlike(r) || r.ipVersion == 0
    requires AnyFits(tags, BoxPatterns(r), host) != AnyFits(tags, XrayPatterns(r), host)
    ensures !AlwaysMatchedAlike(r, server)
  {
    assert r.domains == [] ==> BoxPatterns(r) == XrayPatterns(r);
    ApartIsNotAlike(r, server, tags, host, 4, false, true);
  }

  /** The rules emitted for the two cores match the same traffic, for every host, whatever lists and
      regular expressions hold and whatever the other tests say, iff the rule is translated alike. */
  lemma RuleIsMatchedAlikeIffTranslatedAlike(r: Rule, server: string, c: char)
    requires FreshFor(c, BoxPatterns(r)) && FreshFor(c, XrayPatterns(r))
    ensures AlwaysMatchedAlike(r, server) <==> TranslatedAlike(r)
  {
    if TranslatedAlike(r) {
      forall b, x, tags, host | SameTraffic(r, b, x, tags, host) ensures MatchedAlike(r, server, b, x) {
        AlikeSuffices(r, server, b, x, tags, host);
      }
    } else if !PortsSurvive(r) {
      BlankPortsTellApart(r, server);
    } else if !HasMatcher(r) {
      NoMatcherTellsApart(r, server);
    } else if r.packageUIDs != [] || r.processNames != [] {
      IdentitiesTellApart(r, server);
    } else if r.ipVersion != 0 && !AddressesAlike(r) {
      VersionTellsApart(r, server);
    } else if !AddressesAlike(r) && !HitsEveryHost(r) {
      MixedAddressesTellApart(r, server, c);
    } else {
      SameHostsIffCoverEachOther(BoxPatterns(r), XrayPatterns(r), c);
      var tags, host :| AnyFits(tags, BoxPatterns(r), host) != AnyFits(tags, XrayPatterns(r), host);
      HostTellsApart(r, server, tags, host);
    }
  }

  // ---------------------------------------------------------------------------------------
  // Entries and lists
  // ---------------------------------------------------------------------------------------

  // The labels that mean the same to both cores.
  predicate SharedLabel(d: string) {
    HasPrefix(d, "full:") || HasPrefix(d, "keyword:") || HasPrefix(d, "regexp:") || HasPrefix(d, "geosite:")
  }

  lemma SharedLabelsReadAlike(d: string)
    ensures SharedLabel(d) ==> BoxPattern(d) == XrayPattern(d)
  {
    if HasPrefix(d, "geosite:") {
      assert "geosite:ru" == "geosite:" + "ru" && "geosite:category-ru" == "geosite:" + "category-ru";
    } else if HasPrefix(d, "regexp:") {
      assert d[0] == 'r' && d == "regexp:" + TrimPrefix(d, "regexp:");
    } else if HasPrefix(d, "full:") {
      assert d[0] == 'f' && KindOf(d) == Exact;
    } else if HasPrefix(d, "keyword:") {
      assert d[0] == 'k' && KindOf(d) == Keyword;
    }
  }

  lemma OthersReadApart(d: string)
    requires !SharedLabel(d)
    ensures !Covers([BoxPattern(d)], XrayPattern(d)) || !Covers([XrayPattern(d)], BoxPattern(d))
  {
    assert d != "geosite:ru" by { assert HasPrefix("geosite:ru", "geosite:"); }
    if HasPrefix(d, "domain:") {
      assert BoxPattern(d).Exactly? && XrayPattern(d).Under?;
    } else {
      assert XrayPattern(d) == Containing(d) && !BoxPattern(d).Containing?;
    }
  }

  /** An entry on its own is read alike by the cores iff it carries a label that both know: a bare name
      is a suffix to one core and a part of the host to the other, and `domain:` covers subdomains in
      one only. */
  lemma EntryIsReadAlikeIffLabelShared(d: string)
    ensures CoverEachOther([BoxPattern(d)], [XrayPattern(d)]) <==> SharedLabel(d)
  {
    if SharedLabel(d) {
      SharedLabelsReadAlike(d);
      OwnCover([BoxPattern(d)]);
    } else {
      OthersReadApart(d);
    }
  }

  /** Rules all of whose entries carry such labels are read alike. */
  lemma SharedLabelsSuffice(r: Rule)
    requires forall d | d in r.domains :: SharedLabel(d)
    ensures CoverEachOther(BoxPatterns(r), XrayPatterns(r))
  {
    forall i | 0 <= i < |r.domains| ensures BoxPatterns(r)[i] == XrayPatterns(r)[i] {
      SharedLabelsReadAlike(r.domains[i]);
    }
    assert BoxPatterns(r) == XrayPatterns(r);
    OwnCover(BoxPatterns(r));
  }

  ghost predicate SameTrafficForAll(rules: seq<Rule>, b: BoxTests, x: XrayTests, tags: (string, string) -> bool,
                                    host: string) {
    forall r | r in rules :: SameTraffic(r, b, x, tags, host)
  }

  // Up to the name of the block outbound.
  ghost predicate DecidedAlike(rules: seq<Rule>, server: string, b: BoxTests, x: XrayTests) {
    BoxVerdict(BoxList(rules, server), b) == Unblocked(XrayVerdict(XrayList(rules, server), x))
  }

  lemma LastRuleAgrees(rules: seq<Rule>, r: Rule, more: seq<Rule>, server: string, b: BoxTests, x: XrayTests)
    requires more == rules + [r] && DecidedAlike(rules, server, b, x) && MatchedAlike(r, server, b, x)
    ensures DecidedAlike(more, server, b, x)
  {
    assert more[..|more| - 1] == rules;
    BoxVerdictOfConcat(BoxList(rules, server), BoxRules(r, server), b);
    BoxRulesShareOutbound(r, server, b);
    XrayVerdictOfConcat(XrayList(rules, server), XrayRules(r, server), x);
    XrayRulesShareTag(r, server, x);
  }

  ghost predicate AllTranslatedAlike(rules: seq<Rule>) { forall r | r in rules :: TranslatedAlike(r) }

  lemma FrontIsAlike(rules: seq<Rule>, b: BoxTests, x: XrayTests, tags: (string, string) -> bool, host: string)
    requires rules != [] && SameTrafficForAll(rules, b, x, tags, host) && AllTranslatedAlike(rules)
    ensures var init, r := rules[..|rules| - 1], rules[|rules| - 1];
            && rules == init + [r] && SameTrafficForAll(init, b, x, tags, host) && AllTranslatedAlike(init)
            && SameTraffic(r, b, x, tags, host) && TranslatedAlike(r)
  {}

  /** Lists of rules that are translated alike send the same traffic to the same outbound, up to the
      name of the block outbound. */
  lemma {:induction false} CoresAgree(rules: seq<Rule>, server: string, b: BoxTests, x: XrayTests,
                                      tags: (string, string) -> bool, host: string)
    requires SameTrafficForAll(rules, b, x, tags, host) && AllTranslatedAlike(rules)
    ensures DecidedAlike(rules, server, b, x)
  {
    if rules != [] {
      FrontIsAlike(rules, b, x, tags, host);
      CoresAgree(rules[..|rules| - 1], server, b, x, tags, host);
      AlikeSuffices(rules[|rules| - 1], server, b, x, tags, host);
      LastRuleAgrees(rules[..|rules| - 1], rules[|rules| - 1], rules, server, b, x);
    }
  }

  // The cores agree on every list that can be made of the rules.
  ghost predicate AgreeOnLists(rules: seq<Rule>, server: string) {
    forall list: seq<Rule>, b, x, tags, host |
      (forall r | r in list :: r in rules) && SameTrafficForAll(list, b, x, tags, host) ::
      DecidedAlike(list, server, b, x)
  }

  lemma AloneIsDecided(r: Rule, server: string, b: BoxTests, x: XrayTests)
    ensures BoxVerdict(BoxList([r], server), b) ==
            if BoxMatchesAny(BoxRules(r, server), b) then Some(BoxOutbound(r, server)) else None
    ensures XrayVerdict(XrayList([r], server), x) ==
            if XrayMatchesAny(XrayRules(r, server), x) then Some(OutboundOf(r, server)) else None
  {
    var rules := [r];
    ListsOfOne(rules, r, server, rules[..0]);
    BoxRulesShareOutbound(r, server, b);
    XrayRulesShareTag(r, server, x);
  }

  lemma ListsOfOne(rules: seq<Rule>, r: Rule, server: string, none: seq<Rule>)
    requires rules == [r] && none == []
    ensures BoxList(rules, server) == BoxRules(r, server) && XrayList(rules, server) == XrayRules(r, server)
  {
    assert rules[..|rules| - 1] == none && rules[|rules| - 1] == r;
    assert BoxList(none, server) == [] && XrayList(none, server) == [];
    assert [] + BoxRules(r, server) == BoxRules(r, server);
    assert [] + XrayRules(r, server) == XrayRules(r, server);
  }

  lemma AloneMeansMatched(r: Rule, server: string, b: BoxTests, x: XrayTests)
    requires DecidedAlike([r], server, b, x)
    ensures MatchedAlike(r, server, b, x)
  {
    AloneIsDecided(r, server, b, x);
  }

  /** The cores agree on all lists made of some rules, for every host and all traffic, iff each of the
      rules is translated alike. */
  lemma CoresAgreeIffTranslatedAlike(rules: seq<Rule>, server: string, c: char)
    requires forall r | r in rules :: FreshFor(c, BoxPatterns(r)) && FreshFor(c, XrayPatterns(r))
    ensures AgreeOnLists(rules, server) <==> AllTranslatedAlike(rules)
  {
    if AllTranslatedAlike(rules) {
      forall list: seq<Rule>, b, x, tags, host |
        (forall r | r in list :: r in rules) && SameTrafficForAll(list, b, x, tags, host)
        ensures DecidedAlike(list, server, b, x)
      {
        CoresAgree(list, server, b, x, tags, host);
      }
    }
    if AgreeOnLists(rules, server) {
      forall r | r in rules ensures TranslatedAlike(r) {
        forall b, x, tags, host | SameTraffic(r, b, x, tags, host) ensures MatchedAlike(r, server, b, x) {
          assert SameTrafficForAll([r], b, x, tags, host);
          AloneMeansMatched(r, server, b, x);
        }
        RuleIsMatchedAlikeIffTranslatedAlike(r, server, c);
      }
    }
  }

  lemma LabelledReadings(n: string)
    ensures BoxPattern("domain:" + n) == Exactly(n) && XrayPattern("domain:" + n) == Under(n)
  {
    var d := "domain:" + n;
    assert d[0] == 'd' && d[..7] == "domain:" && d[7..] == n;
  }

  lemma LabelledHosts(r: Rule, name: string, tags: (string, string) -> bool, host: string)
    requires r.domains == ["domain:" + name]
    ensures AnyFits(tags, BoxPatterns(r), host) <==> host == name
    ensures AnyFits(tags, XrayPatterns(r), host) <==> Domains.Below(host, name)
  {
    LabelledReadings(name);
    assert BoxPatterns(r) == [Exactly(name)] && XrayPatterns(r) == [Under(name)];
    assert Fits(tags, Exactly(name), host) <==> host == name;
    assert Fits(tags, Under(name), host) <==> Domains.Below(host, name);
  }

  /** A name that is blocked under the label `domain:`, such as evil.com, is blocked with its subdomains
      by Xray and on its own by sing-box: www.evil.com tells the cores apart. */
  lemma DomainLabelTellsCoresApart(r: Rule, server: string, name: string, host: string, tags: (string, string) -> bool)
    requires r == Rule(Block, "block", ["domain:" + name], [], [], [], [], [], [], [], 0)
    requires HasSuffix(host, "." + name)
    ensures var b, x := BoxView(tags, host, 4, false, true), XrayView(tags, host, 4, false);
            && SameTraffic(r, b, x, tags, host)
            && XrayVerdict(XrayList([r], server), x) == Some("block") && BoxVerdict(BoxList([r], server), b) == None
  {
    ViewsAreSameTraffic(r, tags, host, 4, false, true);
    AloneIsDecided(r, server, BoxView(tags, host, 4, false, true), XrayView(tags, host, 4, false));
    BoxSaysSo(r, server, tags, host, 4, false, true);
    XraySaysSo(r, server, tags, host, 4, false);
    LabelledHosts(r, name, tags, host);
  }
}
