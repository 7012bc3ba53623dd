/** A policy that blocks host names, from end to end (pkg/routing/engine.go,
    pkg/compiler/singbox/routing.go). */
module BlockList {
  import opened Common
  import opened Text
  import opened RoutingAst
  import opened HostPatterns
  import opened Sanitize
  import opened Policy
  import opened TidyLists
  import Backends
  import Cidr
  import Cores
  import Domains
  import Lan
  import SecurityRules

  const NO_SECURITY := SecurityRules.Config(false, false, [], false, false, false, false, false, [], [])
  const NO_FEEDS := SecurityRules.Feeds([], [], [])

  function Blocking(names: seq<string>): RoutingPolicy {
    RoutingPolicy(GlobalProxy, [], map[], [], [], [], names, [], [], [], [], [], [], [])
  }

  predicate AreNames(names: seq<string>) { names != [] && forall n | n in names :: IsName(n) }

  // The texts of networks are not taken for anything else.
  ghost predicate PlainTexts(env: Env, addr: Cidr.Addr) {
    forall x | env.codec.parse(x).Some? ::
      && !HasPrefix(x, Backends.GEOIP) && !HasPrefix(x, "ip:")
      && (x == Backends.ALL_V6 ==> (env.codec.parse(x).value.Contains(addr) <==> addr.v6))
  }

  // Traffic to a host and an address, as sing-box sees it.
  function Traffic(env: Env, tags: (string, string) -> bool, host: string, addr: Cidr.Addr): Backends.BoxTests {
    Cores.BoxView(tags, host, if addr.v6 then 6 else 4, false, true).(
      cidr := s => env.codec.parse(s).Some? && env.codec.parse(s).value.Contains(addr))
  }

  function ViewOf(tags: (string, string) -> bool, host: string, addr: Cidr.Addr): View {
    View(Cores.BoxPattern, tags, host, addr)
  }

  lemma ReadsEveryDomain(env: Env, tags: (string, string) -> bool, host: string, addr: Cidr.Addr, ds: seq<string>)
    ensures ReadsDomains(Backends.BoxPacket(Traffic(env, tags, host, addr)), ViewOf(tags, host, addr), ds)
  {
    var t, version := Traffic(env, tags, host, addr), if addr.v6 then 6 else 4;
    forall d ensures Backends.DomainTest(t, d) <==> Fits(tags, Cores.BoxPattern(d), host) {
      Cores.ViewsReadDomain(tags, host, version, false, true, d);
    }
  }

  lemma ReadsEveryNet(env: Env, tags: (string, string) -> bool, host: string, addr: Cidr.Addr, ips: seq<string>)
    requires PlainTexts(env, addr)
    ensures ReadsNets(env, Backends.BoxPacket(Traffic(env, tags, host, addr)), ViewOf(tags, host, addr), ips)
  {
    var t := Traffic(env, tags, host, addr);
    forall x | x in ips && env.codec.parse(x).Some?
      ensures Backends.IPTest(t, x) <==> env.codec.parse(x).value.Contains(addr)
    {
      Backends.EntryIsResolved(t, x);
      if x != Backends.ALL_V6 {
        assert Backends.NetsOf(x) == [x] && Backends.SetsOf(x) == [];
        Backends.AnyOfOne(t.cidr, x);
      }
    }
  }

  lemma BareNameIsASuffix(n: string)
    requires IsName(n)
    ensures IsNameItem(n) && NameIn(n) == n && Cores.BoxPattern(n) == Under(n)
  {
    PrefixNeedsColon(n, "geosite:");
    PrefixNeedsColon(n, "regexp:");
    PrefixNeedsColon(n, "regex:");
    PrefixNeedsColon(n, "domain:");
    PrefixNeedsColon(n, "full:");
    PrefixNeedsColon(n, "suffix:");
    PrefixNeedsColon(n, "keyword:");
  }

  lemma NamesAreRead(names: seq<string>)
    requires AreNames(names)
    ensures AreTidy(names) && ReadsNames(Cores.BoxPattern, names)
  {
    forall n | n in names { BareNameIsASuffix(n); }
  }

  function BlockRow(names: seq<string>): Row { BLANK_ROW.(target := "block", domains := names) }

  lemma RowsOfBlocking(env: Env, names: seq<string>)
    requires names != []
    ensures PolicyRows(env, Blocking(names)) == [PRIVATE_ROW, BlockRow(names)]
  {
    var p := Blocking(names);
    assert ActivePresets(p) == [] && AllPresetRows(env, p, []) == [];
    assert FixedRows(p) == [PRIVATE_ROW, BlockRow(names)];
  }

  lemma PrivateRowIsSound(env: Env)
    requires env.Valid()
    ensures Sound(env, Cores.BoxPattern, PRIVATE_ROW)
  {
    PrivateIsOneEntry(env);
    OnlyEntry(env.CleanIP(), PRIVATE);
    EmptyListsStayEmpty(env);
    assert Domains.Texts([]) == [] && DomainsSurvive(env, Cores.BoxPattern, []);
  }

  lemma BlockRowIsSound(env: Env, names: seq<string>)
    requires AreNames(names)
    ensures Sound(env, Cores.BoxPattern, BlockRow(names))
  {
    NamesAreRead(names);
    NamesSurvive(env, Cores.BoxPattern, names);
    TidyRowIsSound(env, Cores.BoxPattern, BlockRow(names));
  }

  lemma SeesRow(env: Env, row: Row, tags: (string, string) -> bool, host: string, addr: Cidr.Addr)
    requires PlainTexts(env, addr)
    ensures Sees(env, Backends.BoxPacket(Traffic(env, tags, host, addr)), ViewOf(tags, host, addr), row)
  {
    var o := OptimizeRow(env, row);
    ReadsEveryDomain(env, tags, host, addr, CleanList(env.CleanDomain(), row.domains));
    ReadsEveryDomain(env, tags, host, addr, CleanList(env.CleanDomain(), o.domains));
    ReadsEveryNet(env, tags, host, addr, CleanList(env.CleanIP(), row.ips));
    ReadsEveryNet(env, tags, host, addr, CleanList(env.CleanIP(), o.ips));
  }

  lemma BlockingIsSound(env: Env, names: seq<string>)
    requires env.Valid() && AreNames(names)
    ensures AllSound(env, Cores.BoxPattern, PolicyRows(env, Blocking(names)))
  {
    RowsOfBlocking(env, names);
    PrivateRowIsSound(env);
    BlockRowIsSound(env, names);
  }

  /** The policy and its traffic meet what the theorems on compiled policies ask. */
  lemma BlockingIsClear(env: Env, names: seq<string>, tags: (string, string) -> bool, host: string, addr: Cidr.Addr)
    requires env.Valid() && PlainTexts(env, addr) && AreNames(names)
    ensures Clear(env, Backends.BoxPacket(Traffic(env, tags, host, addr)), ViewOf(tags, host, addr),
                  PolicyRows(env, Blocking(names)))
  {
    BlockingIsSound(env, names);
    forall row | row in PolicyRows(env, Blocking(names))
      ensures Sees(env, Backends.BoxPacket(Traffic(env, tags, host, addr)), ViewOf(tags, host, addr), row)
    {
      SeesRow(env, row, tags, host, addr);
    }
  }

  lemma PrivateRuleIsFaithful(env: Env)
    requires env.Valid()
    ensures SecurityRules.AllFaithful(Contribution(env, PRIVATE_ROW))
  {
    PrivateIsOneEntry(env);
    OnlyEntry(env.CleanIP(), PRIVATE);
  }

  lemma BlockRuleIsFaithful(env: Env, names: seq<string>)
    ensures SecurityRules.AllFaithful(Contribution(env, BlockRow(names)))
  {
    EmptyListsStayEmpty(env);
  }

  lemma FaithfulOfConcat(a: seq<Rule>, b: seq<Rule>)
    requires SecurityRules.AllFaithful(a) && SecurityRules.AllFaithful(b)
    ensures SecurityRules.AllFaithful(a + b)
  {}

  lemma TwoRowsAreFlat(f: Row -> seq<Rule>, a: Row, b: Row)
    ensures Flat(f, [a, b]) == f(a) + f(b)
  {
    assert [a] + [b] == [a, b];
    FlatOfConcat(f, [a], [b]);
    SingleIsFlat(f, [a]);
    SingleIsFlat(f, [b]);
  }

  lemma BlockingIsFaithful(env: Env, names: seq<string>)
    requires env.Valid() && AreNames(names)
    ensures SecurityRules.AllFaithful(Compiled(env, Blocking(names)).rules)
  {
    RowsOfBlocking(env, names);
    CompiledRules(env, Blocking(names));
    TwoRowsAreFlat(ContributionOf(env), PRIVATE_ROW, BlockRow(names));
    PrivateRuleIsFaithful(env);
    BlockRuleIsFaithful(env, names);
    FaithfulOfConcat(Contribution(env, PRIVATE_ROW), Contribution(env, BlockRow(names)));
  }

  lemma NothingInjected(base: Spec)
    ensures SecurityRules.Injected(Some(base), NO_SECURITY, NO_FEEDS, []) == base
  {
    assert SecurityRules.Rules(NO_SECURITY, NO_FEEDS, []) == [];
    assert [] + base.rules == base.rules;
  }

  predicate AtOrBelow(names: seq<string>, host: string) { exists n | n in names :: Domains.Below(host, n) }

  lemma NameMatches(env: Env, n: string, tags: (string, string) -> bool, host: string, addr: Cidr.Addr)
    requires IsName(n)
    ensures ItemMatches(env.CleanDomain(), Backends.BoxPacket(Traffic(env, tags, host, addr)).domain, n) <==>
            Domains.Below(host, n)
  {
    var test, one := Backends.BoxPacket(Traffic(env, tags, host, addr)).domain, [n];
    BareNameIsASuffix(n);
    NameItemIsOnePiece(env, n);
    ReadsEveryDomain(env, tags, host, addr, one);
    assert n in one && (test(n) <==> Fits(tags, Under(n), host));
  }

  lemma NamesMatch(env: Env, names: seq<string>, tags: (string, string) -> bool, host: string, addr: Cidr.Addr)
    requires AreNames(names)
    ensures ItemsMatch(env.CleanDomain(), Backends.BoxPacket(Traffic(env, tags, host, addr)).domain, names) <==>
            AtOrBelow(names, host)
  {
    var clean, test := env.CleanDomain(), Backends.BoxPacket(Traffic(env, tags, host, addr)).domain;
    forall n | n in names ensures ItemMatches(clean, test, n) <==> Domains.Below(host, n) {
      NameMatches(env, n, tags, host, addr);
    }
  }

  lemma LayersOfBlocking(env: Env, names: seq<string>, k: Packet)
    requires names != []
    ensures Layered(env, Blocking(names), k) ==
            if k.ip(PRIVATE) then Decided(Direct, "direct")
            else if ItemsMatch(env.CleanDomain(), k.domain, names) then Decided(Block, "block")
            else Default(Proxy)
  {
    var p := Blocking(names);
    assert InForce(p) == [] && FirstPreset(env, p, [], k) == None;
    assert Answer(env, [], "", k) == None;
  }

  lemma NoThreats(k: Packet)
    ensures !SecurityRules.IsThreat(NO_SECURITY, NO_FEEDS, [], k)
  {}

  lemma SeesItself(rules: seq<Rule>, t: Backends.BoxTests)
    ensures SecurityRules.SeenBy(rules, Backends.BoxPacket(t), t)
  {}

  // Without security rules the compiled policy reaches the core as it is.
  lemma CompiledReachesSingbox(env: Env, p: RoutingPolicy, server: string, v: View, t: Backends.BoxTests)
    requires env.Valid() && Clear(env, Backends.BoxPacket(t), v, PolicyRows(env, p))
    requires SecurityRules.AllFaithful(Compiled(env, p).rules)
    ensures Backends.BoxVerdict(Backends.BoxList(Compiled(env, p).rules, server), t) ==
            SecurityRules.TagOf(Layered(env, p, Backends.BoxPacket(t)))
  {
    NothingInjected(Compiled(env, p));
    SeesItself(Compiled(env, p).rules, t);
    NoThreats(Backends.BoxPacket(t));
    SecurityRules.PolicyReachesSingbox(env, p, NO_SECURITY, NO_FEEDS, [], server, Backends.BoxPacket(t), v, t);
  }

  /** Written policy to sing-box rules: traffic to an address outside the private networks is blocked iff
      its host is at or below a blocked name, for every list of names and every host. */
  lemma BlockedNamesReachSingbox(env: Env, names: seq<string>, server: string, tags: (string, string) -> bool,
                                 host: string, addr: Cidr.Addr)
    requires env.Valid() && PlainTexts(env, addr) && Lan.ReadsLan(env.codec) && AreNames(names)
    ensures var t := Traffic(env, tags, host, addr);
            Backends.BoxVerdict(Backends.BoxList(Compiled(env, Blocking(names)).rules, server), t) ==
            if Lan.IsLan(addr) then Some("direct") else if AtOrBelow(names, host) then Some("block") else None
  {
    var t := Traffic(env, tags, host, addr);
    Lan.PrivateIsTheLan(env.codec, t, addr);
    BlockingIsClear(env, names, tags, host, addr);
    BlockingIsFaithful(env, names);
    CompiledReachesSingbox(env, Blocking(names), server, ViewOf(tags, host, addr), t);
    LayersOfBlocking(env, names, Backends.BoxPacket(t));
    NamesMatch(env, names, tags, host, addr);
  }

  // ---------------------------------------------------------------------------------------
  // Some environment is valid
  // ---------------------------------------------------------------------------------------

  // A text form of networks: base and length in strokes.
  function Strokes(n: Cidr.Prefix): string {
    (if n.v6 then "s" else "f") + seq(n.base, _ => 'b') + seq(n.len, _ => 'l')
  }

  lemma StrokeAt(n: Cidr.Prefix, i: nat)
    ensures 1 <= i < |Strokes(n)| ==> Strokes(n)[i] == if i < 1 + n.base then 'b' else 'l'
  {}

  lemma StrokesAreApart(n: Cidr.Prefix, m: Cidr.Prefix)
    requires Strokes(n) == Strokes(m)
    ensures n == m
  {
    assert |Strokes(n)| == 1 + n.base + n.len && |Strokes(m)| == 1 + m.base + m.len;
    assert Strokes(n)[0] == Strokes(m)[0];
    StrokeAt(n, 1 + m.base);
    StrokeAt(m, 1 + m.base);
    StrokeAt(n, 1 + n.base);
    StrokeAt(m, 1 + n.base);
  }

  lemma StrokesArePlain(n: Cidr.Prefix)
    ensures var s := Strokes(n);
            && s != "" && IsUnsplit(s) && TrimSpace(s) == s
            && !HasPrefix(s, Backends.GEOIP) && !HasPrefix(s, "ip:") && s != Backends.ALL_V6
  {
    var s := Strokes(n);
    assert forall c | c in s :: c in "sfbl";
    assert s[0] in s && s[|s| - 1] in s;
    TightIsTrimmed(s);
  }

  ghost function ReadStrokes(s: string): (r: Option<Cidr.Net>)
    ensures r.Some? ==> Strokes(r.value) == s
    ensures r.None? ==> forall n: Cidr.Net :: Strokes(n) != s
  {
    if n: Cidr.Net :| Strokes(n) == s then Some(n) else None
  }

  lemma IsANetwork(v6: bool, base: nat, len: nat, size: nat, all: nat)
    requires len <= (if v6 then 128 else 32) && Cidr.Pow2((if v6 then 128 else 32) - len) == size
    requires Cidr.Pow2(if v6 then 128 else 32) == all && base < all && base % size == 0
    requires v6 ==> !Cidr.IsMapped(base)
    ensures Cidr.Prefix(v6, base, len).IsNetwork()
  {}

  lemma LanNetsAreNetworks()
    ensures Cidr.Prefix(false, 0x0A00_0000, 8).IsNetwork() && Cidr.Prefix(false, 0xAC10_0000, 12).IsNetwork()
    ensures Cidr.Prefix(false, 0xC0A8_0000, 16).IsNetwork() && Cidr.Prefix(false, 0x7F00_0000, 8).IsNetwork()
    ensures Cidr.Prefix(true, Lan.UNIQUE_LOCAL, 7).IsNetwork() && Cidr.Prefix(true, 1, 128).IsNetwork()
  {
    Lan.NetSizes();
    Lan.WideSizes();
    IsANetwork(false, 0x0A00_0000, 8, 0x100_0000, 0x1_0000_0000);
    IsANetwork(false, 0xAC10_0000, 12, 0x10_0000, 0x1_0000_0000);
    IsANetwork(false, 0xC0A8_0000, 16, 0x1_0000, 0x1_0000_0000);
    IsANetwork(false, 0x7F00_0000, 8, 0x100_0000, 0x1_0000_0000);
    IsANetwork(true, Lan.UNIQUE_LOCAL, 7, 0x200_0000_0000_0000_0000_0000_0000_0000,
               0x1_0000_0000_0000_0000_0000_0000_0000_0000);
    IsANetwork(true, 1, 128, 1, 0x1_0000_0000_0000_0000_0000_0000_0000_0000);
  }

  // The texts of the private networks are read as well.
  ghost function ReadText(s: string): Option<Cidr.Net> {
    LanNetsAreNetworks();
    if s == "10.0.0.0/8" then Some(Cidr.Prefix(false, 0x0A00_0000, 8))
    else if s == "172.16.0.0/12" then Some(Cidr.Prefix(false, 0xAC10_0000, 12))
    else if s == "192.168.0.0/16" then Some(Cidr.Prefix(false, 0xC0A8_0000, 16))
    else if s == "127.0.0.0/8" then Some(Cidr.Prefix(false, 0x7F00_0000, 8))
    else if s == "fc00::/7" then Some(Cidr.Prefix(true, Lan.UNIQUE_LOCAL, 7))
    else if s == "::1/128" then Some(Cidr.Prefix(true, 1, 128))
    else ReadStrokes(s)
  }

  predicate IsLanText(s: string) {
    s in ["10.0.0.0/8", "172.16.0.0/12", "192.168.0.0/16", "127.0.0.0/8", "fc00::/7", "::1/128"]
  }

  lemma LanTextsArePlain(s: string)
    requires IsLanText(s)
    ensures s != "" && IsUnsplit(s) && !HasPrefix(s, Backends.GEOIP) && !HasPrefix(s, "ip:") && s != Backends.ALL_V6
    ensures s[0] == '1' || s[0] == ':' || s[1] == 'c'
  {
    assert |s| > 4 && s[0] in "1f:";
    assert forall c | c in s :: c in "0123456789./:fc";
  }

  lemma StrokesAreNoLanText(n: Cidr.Prefix)
    ensures !IsLanText(Strokes(n))
  {
    var s := Strokes(n);
    assert s[0] in "sf" && (|s| > 1 ==> s[1] in "bl") by { StrokeAt(n, 1); }
    if IsLanText(s) { LanTextsArePlain(s); }
  }

  lemma PrintedIsRead(n: Cidr.Net)
    ensures ReadText(Strokes(n)) == Some(n)
  {
    StrokesAreNoLanText(n);
    assert ReadStrokes(Strokes(n)).Some?;
    StrokesAreApart(n, ReadStrokes(Strokes(n)).value);
  }

  lemma ReadTextsArePlain(t: string)
    requires ReadText(t).Some?
    ensures IsUnsplit(t) && t != "" && !HasPrefix(t, Backends.GEOIP) && !HasPrefix(t, "ip:") && t != Backends.ALL_V6
  {
    if IsLanText(t) { LanTextsArePlain(t); } else { StrokesArePlain(ReadStrokes(t).value); }
  }

  ghost function TextCodec(): Cidr.Codec { Cidr.Codec(s => ReadText(s), n => Strokes(n)) }

  lemma TextCodecIsValid()
    ensures TextCodec().Valid()
  {
    forall n: Cidr.Net
      ensures ReadText(Strokes(n)) == Some(n) && TrimSpace(Strokes(n)) == Strokes(n)
      ensures Strokes(n) != "" && !HasPrefix(Strokes(n), Cidr.GEOIP)
    {
      StrokesArePlain(n);
      PrintedIsRead(n);
    }
  }

  lemma LanTextsDiffer()
    ensures |"10.0.0.0/8"| == 10 && |"172.16.0.0/12"| == 13 && |"192.168.0.0/16"| == 14
    ensures |"127.0.0.0/8"| == 11 && |"fc00::/7"| == 8 && |"::1/128"| == 7
  {}

  lemma LanTextIsRead(text: string, n: Cidr.Prefix)
    requires ReadText(text) == Some(n)
    ensures Lan.ReadsAs(TextCodec(), text, n.v6, n.base, n.len)
  {}

  lemma TextCodecReadsLan()
    ensures Lan.ReadsLan(TextCodec())
  {
    LanTextsDiffer();
    LanTextIsRead("10.0.0.0/8", Cidr.Prefix(false, 0x0A00_0000, 8));
    LanTextIsRead("172.16.0.0/12", Cidr.Prefix(false, 0xAC10_0000, 12));
    LanTextIsRead("192.168.0.0/16", Cidr.Prefix(false, 0xC0A8_0000, 16));
    LanTextIsRead("127.0.0.0/8", Cidr.Prefix(false, 0x7F00_0000, 8));
    LanTextIsRead("fc00::/7", Cidr.Prefix(true, Lan.UNIQUE_LOCAL, 7));
    LanTextIsRead("::1/128", Cidr.Prefix(true, 1, 128));
  }

  lemma SameIsValid(env: Env)
    requires env.codec == TextCodec() && env.cleanIP == (s => s)
    ensures env.Valid()
  {
    TextCodecIsValid();
    forall t | env.codec.parse(t).Some? ensures IsUnsplit(t) && t != "" {
      ReadTextsArePlain(t);
    }
  }

  /** There is an environment as the theorems on policies ask for. */
  lemma EnvironmentsExist(addr: Cidr.Addr) returns (env: Env)
    ensures env.Valid() && PlainTexts(env, addr) && Lan.ReadsLan(env.codec)
  {
    var same := (s: string) => s;
    env := Env(TextCodec(), _ => None, same, same, _ => None);
    SameIsValid(env);
    TextCodecReadsLan();
    forall t | env.codec.parse(t).Some?
      ensures !HasPrefix(t, Backends.GEOIP) && !HasPrefix(t, "ip:") && t != Backends.ALL_V6
    {
      ReadTextsArePlain(t);
    }
  }
}
