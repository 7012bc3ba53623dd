/** Matching of destinations against the threat lists (pkg/security/filter/engine.go).

    The verdict with the Bloom pre-check is compared with the plain lookup.  Parsing of
    addresses and networks is a parameter. */
module ThreatFilter {
  import opened Common
  import opened Text
  import opened Bloom
  import Cidr

  datatype Category = Malware | Phishing | Miner | Adware | Custom

  datatype Reason = ListedAddress | ListedDomain | ListedParent(parent: string)

  datatype Verdict = Passed | Blocked(category: Category, reason: Reason)

  datatype Parsers = Parsers(ip: string -> Option<Cidr.Addr>, cidr: string -> Option<Cidr.Net>)

  // ---------------------------------------------------------------------------------------
  // Host names
  // ---------------------------------------------------------------------------------------

  // Without root dot, brackets and port.
  function BareHost(host: string): string {
    var h := TrimSuffix(host, ".");
    var name := if HasPrefix(h, "[") then (if ']' in h then Until(h, ']')[1..] else h)
                else if Count(h, ':') == 1 then Until(h, ':') else h;
    TrimSuffix(name, ".")
  }

  function CleanHost(host: string): string { BareHost(ToLower(TrimSpace(host))) }

  function Split(s: string): (parts: seq<string>)
    ensures parts != []
  {
    if s == "" then [""]
    else if s[0] == '.' then [""] + Split(s[1..])
    else var rest := Split(s[1..]); [[s[0]] + rest[0]] + rest[1..]
  }

  function Join(parts: seq<string>): string {
    if parts == [] then "" else if |parts| == 1 then parts[0] else parts[0] + "." + Join(parts[1..])
  }

  // The names a domain is below, nearest first; a top-level label alone is not consulted.
  function ParentsFrom(parts: seq<string>, i: nat): seq<string>
    decreases |parts| - i
  {
    if i >= |parts| - 1 then [] else [Join(parts[i..])] + ParentsFrom(parts, i + 1)
  }

  function Parents(h: string): seq<string> { ParentsFrom(Split(h), 1) }

  function AfterDot(s: string): string
    requires '.' in s
  {
    if s[0] == '.' then s[1..] else AfterDot(s[1..])
  }

  lemma {:induction false} JoinSplit(s: string)
    ensures Join(Split(s)) == s
  {
    if s != "" {
      JoinSplit(s[1..]);
      var rest := Split(s[1..]);
      if s[0] == '.' {
        assert ([""] + rest)[1..] == rest;
      } else if |rest| > 1 {
        assert ([[s[0]] + rest[0]] + rest[1..])[1..] == rest[1..];
        assert ([s[0]] + rest[0]) + "." + Join(rest[1..]) == [s[0]] + (rest[0] + "." + Join(rest[1..]));
      }
    }
  }

  lemma {:induction false} SplitAtDot(s: string)
    ensures '.' in s <==> |Split(s)| > 1
    ensures '.' in s ==> Split(s)[1..] == Split(AfterDot(s))
  {
    if s != "" {
      SplitAtDot(s[1..]);
      assert s == [s[0]] + s[1..];
      assert Split(s)[1..] == if s[0] == '.' then Split(s[1..]) else Split(s[1..])[1..];
    }
  }

  lemma {:induction false} SuffixAtOrAfterDot(s: string, d: string)
    requires '.' in s
    ensures HasSuffix(s, "." + d) <==> d == AfterDot(s) || HasSuffix(AfterDot(s), "." + d)
  {
    var t := s[1..];
    if s[0] != '.' {
      SuffixAtOrAfterDot(t, d);
      if HasSuffix(s, "." + d) {
        assert |s| > |d| + 1;
        assert t[|t| - |d| - 1..] == s[|s| - |d| - 1..];
      }
      if HasSuffix(t, "." + d) { assert s[|s| - |d| - 1..] == t[|t| - |d| - 1..]; }
    } else {
      if HasSuffix(s, "." + d) {
        if |s| == |d| + 1 { assert s == "." + d; } else { assert t[|t| - |d| - 1..] == s[|s| - |d| - 1..]; }
      }
      if d == t { assert s == "." + d; }
      if HasSuffix(t, "." + d) { assert s[|s| - |d| - 1..] == t[|t| - |d| - 1..]; }
    }
  }

  lemma {:induction false} ParentsShift(parts: seq<string>, i: nat)
    requires parts != []
    ensures ParentsFrom(parts, i + 1) == ParentsFrom(parts[1..], i)
    decreases |parts| - i
  {
    if i + 1 < |parts| - 1 {
      ParentsShift(parts, i + 1);
      assert parts[i + 1..] == parts[1..][i..];
    }
  }

  /** The names consulted for a host are exactly its proper suffixes at a dot that have a dot
      themselves. */
  lemma {:induction false} ParentsAreDottedSuffixes(h: string, d: string)
    ensures d in Parents(h) <==> HasSuffix(h, "." + d) && '.' in d
    decreases |h|
  {
    SplitAtDot(h);
    if '.' in h {
      var rest := AfterDot(h);
      AfterDotIsShorter(h);
      SplitAtDot(rest);
      JoinSplit(rest);
      ParentsAreDottedSuffixes(rest, d);
      SuffixAtOrAfterDot(h, d);
      ParentsShift(Split(h), 0);
      var parts := Split(rest);
      assert parts[0..] == parts;
    } else {
      SuffixHasDot(h, d);
    }
  }

  lemma SuffixHasDot(h: string, d: string)
    ensures HasSuffix(h, "." + d) ==> '.' in h
  {
    if HasSuffix(h, "." + d) {
      assert h[|h| - |d| - 1] == '.';
    }
  }

  lemma AfterDotIsShorter(s: string)
    requires '.' in s
    ensures |AfterDot(s)| < |s|
  {}

  // ---------------------------------------------------------------------------------------
  // The plain lookup
  // ---------------------------------------------------------------------------------------

  function FirstListed(domains: map<string, Category>, parents: seq<string>): Verdict {
    if parents == [] then Passed
    else if parents[0] in domains then Blocked(domains[parents[0]], ListedParent(parents[0]))
    else FirstListed(domains, parents[1..])
  }

  function LookupDomain(domains: map<string, Category>, h: string): Verdict {
    if h in domains then Blocked(domains[h], ListedDomain) else FirstListed(domains, Parents(h))
  }

  predicate AddressListed(nets: seq<Cidr.Prefix>, a: Cidr.Addr) {
    exists n | n in nets :: n.Contains(a)
  }

  function CheckAddress(nets: seq<Cidr.Prefix>, a: Cidr.Addr): Verdict {
    if AddressListed(nets, a) then Blocked(Custom, ListedAddress) else Passed
  }

  /** Whitelist, then addresses, then the domain itself, then its parents. */
  function Plain(parsers: Parsers, allowed: set<string>, nets: seq<Cidr.Prefix>, domains: map<string, Category>,
                 host: string): Verdict {
    var h := CleanHost(host);
    if h in allowed then Passed
    else if parsers.ip(h).Some? then CheckAddress(nets, parsers.ip(h).value)
    else LookupDomain(domains, h)
  }

  lemma {:induction false} FirstListedMeans(domains: map<string, Category>, parents: seq<string>)
    ensures FirstListed(domains, parents).Blocked? <==> exists d | d in parents :: d in domains
  {
    if parents != [] {
      FirstListedMeans(domains, parents[1..]);
      assert parents == [parents[0]] + parents[1..];
    }
  }

  /** A host that is neither allowed nor an address is blocked iff it is listed or lies below a
      listed name that has a dot. */
  lemma BlockedMeansListed(parsers: Parsers, allowed: set<string>, nets: seq<Cidr.Prefix>,
                           domains: map<string, Category>, host: string)
    requires CleanHost(host) !in allowed && parsers.ip(CleanHost(host)).None?
    ensures Plain(parsers, allowed, nets, domains, host).Blocked? <==>
            exists d | d in domains ::
              d == CleanHost(host) || (HasSuffix(CleanHost(host), "." + d) && '.' in d)
  {
    var h := CleanHost(host);
    FirstListedMeans(domains, Parents(h));
    forall d ensures d in Parents(h) <==> HasSuffix(h, "." + d) && '.' in d {
      ParentsAreDottedSuffixes(h, d);
    }
  }

  // ---------------------------------------------------------------------------------------
  // Building the lists
  // ---------------------------------------------------------------------------------------

  function AddDomain(domains: map<string, Category>, d: string, c: Category): map<string, Category> {
    var clean := ToLower(TrimSpace(d));
    if clean == "" then domains else domains[TrimPrefix(clean, ".") := c]
  }

  function AddDomains(domains: map<string, Category>, ds: seq<string>, c: Category): map<string, Category> {
    if ds == [] then domains else AddDomain(AddDomains(domains, ds[..|ds| - 1], c), ds[|ds| - 1], c)
  }

  datatype Feed = Feed(enabled: bool, category: Category, domains: seq<string>)

  function AddFeeds(feeds: seq<Feed>): map<string, Category> {
    if feeds == [] then map[]
    else
      var before, f := AddFeeds(feeds[..|feeds| - 1]), feeds[|feeds| - 1];
      if f.enabled then AddDomains(before, f.domains, f.category) else before
  }

  function AllowedNames(names: seq<string>): set<string> {
    set n | n in names && TrimSpace(n) != "" :: ToLower(TrimSpace(n))
  }

  function HostNet(a: Cidr.Addr): Cidr.Prefix { Cidr.Prefix(a.v6, a.value, if a.v6 then 128 else 32) }

  function ParseBlocked(parsers: Parsers, text: string): Option<Cidr.Prefix> {
    var clean := TrimSpace(text);
    if '/' in clean then
      match parsers.cidr(clean) case None => None case Some(n) => Some(n)
    else
      match parsers.ip(clean) case None => None case Some(a) => Some(HostNet(a))
  }

  function BlockedNets(parsers: Parsers, texts: seq<string>): seq<Cidr.Prefix> {
    if texts == [] then []
    else
      var before, parsed := BlockedNets(parsers, texts[..|texts| - 1]), ParseBlocked(parsers, texts[|texts| - 1]);
      if parsed.Some? then before + [parsed.value] else before
  }

  // ---------------------------------------------------------------------------------------
  // The engine
  // ---------------------------------------------------------------------------------------

  class ThreatEngine {
    const enabled: bool
    const parsers: Parsers
    const bloom: BloomFilter
    var exactDomains: map<string, Category>
    var suffixDomains: map<string, Category>
    var allowedDomains: set<string>
    var blockedNets: seq<Cidr.Prefix>

    // Every listed domain has all its bits set.
    ghost predicate Valid()
      reads this, bloom, bloom.bitset
    {
      && bloom.Valid() && exactDomains == suffixDomains
      && forall d | d in exactDomains :: Positions(d, bloom.numHash, bloom.sizeBits) <= bloom.Bits()
    }

    constructor (enabled: bool, parsers: Parsers, feeds: seq<Feed>, allowed: seq<string>, blockedIPs: seq<string>)
      ensures Valid() && this.enabled == enabled && this.parsers == parsers
      ensures exactDomains == AddFeeds(feeds) && allowedDomains == AllowedNames(allowed)
      ensures blockedNets == BlockedNets(parsers, blockedIPs)
    {
      this.enabled, this.parsers := enabled, parsers;
      bloom := new BloomFilter(131072, 4);
      exactDomains, suffixDomains, allowedDomains, blockedNets := map[], map[], {}, [];
      new;
      var i := 0;
      while i < |feeds|
        invariant 0 <= i <= |feeds| && fresh(bloom.bitset)
        invariant Valid() && exactDomains == AddFeeds(feeds[..i])
        invariant allowedDomains == {} && blockedNets == []
      {
        assert feeds[..i + 1][..i] == feeds[..i];
        if feeds[i].enabled {
          AddAll(feeds[i].domains, feeds[i].category);
        }
        i := i + 1;
      }
      assert feeds[..i] == feeds;
      Allow(allowed);
      Block(blockedIPs);
    }

    method Allow(names: seq<string>)
      requires allowedDomains == {}
      modifies this`allowedDomains
      ensures allowedDomains == AllowedNames(names)
    {
      var i := 0;
      while i < |names|
        invariant 0 <= i <= |names|
        invariant allowedDomains == AllowedNames(names[..i])
      {
        assert names[..i + 1] == names[..i] + [names[i]];
        var clean := ToLower(TrimSpace(names[i]));
        if clean != "" {
          allowedDomains := allowedDomains + {clean};
        }
        i := i + 1;
      }
      assert names[..i] == names;
    }

    method Block(texts: seq<string>)
      requires blockedNets == []
      modifies this`blockedNets
      ensures blockedNets == BlockedNets(parsers, texts)
    {
      var i := 0;
      while i < |texts|
        invariant 0 <= i <= |texts|
        invariant blockedNets == BlockedNets(parsers, texts[..i])
      {
        assert texts[..i + 1][..i] == texts[..i];
        var clean := TrimSpace(texts[i]);
        if '/' in clean {
          var net := parsers.cidr(clean);
          if net.Some? {
            blockedNets := blockedNets + [net.value];
          }
        } else {
          var ip := parsers.ip(clean);
          if ip.Some? {
            blockedNets := blockedNets + [HostNet(ip.value)];
          }
        }
        i := i + 1;
      }
      assert texts[..i] == texts;
    }

    method AddAll(ds: seq<string>, c: Category)
      requires Valid()
      modifies this`exactDomains, this`suffixDomains, bloom.bitset
      ensures Valid() && exactDomains == AddDomains(old(exactDomains), ds, c)
    {
      var i := 0;
      while i < |ds|
        invariant 0 <= i <= |ds|
        invariant Valid() && exactDomains == AddDomains(old(exactDomains), ds[..i], c)
      {
        assert ds[..i + 1][..i] == ds[..i];
        Add(ds[i], c);
        i := i + 1;
      }
      assert ds[..i] == ds;
    }

    method Add(domain: string, c: Category)
      requires Valid()
      modifies this`exactDomains, this`suffixDomains, bloom.bitset
      ensures Valid() && exactDomains == AddDomain(old(exactDomains), domain, c)
    {
      var clean := ToLower(TrimSpace(domain));
      if clean == "" {
        return;
      }
      clean := TrimPrefix(clean, ".");
      exactDomains := exactDomains[clean := c];
      suffixDomains := suffixDomains[clean := c];
      bloom.Add(clean);
    }

    method CheckHost(host: string) returns (v: Verdict)
      requires Valid()
      ensures v == if enabled then Plain(parsers, allowedDomains, blockedNets, exactDomains, host) else Passed
    {
      if !enabled {
        return Passed;
      }
      var h := CleanHost(host);
      if h in allowedDomains {
        return Passed;
      }
      var ip := parsers.ip(h);
      if ip.Some? {
        v := ScanNets(ip.value);
        return;
      }
      var candidate := bloom.MayContain(h);
      if !candidate {
        candidate := ParentMayBeListed(h);
        if !candidate {
          assert h !in exactDomains;
          FirstListedMeans(exactDomains, Parents(h));
          return Passed;
        }
      }
      if h in exactDomains {
        return Blocked(exactDomains[h], ListedDomain);
      }
      v := ScanParents(h);
    }

    method ScanNets(a: Cidr.Addr) returns (v: Verdict)
      ensures v == CheckAddress(blockedNets, a)
    {
      var i := 0;
      while i < |blockedNets|
        invariant 0 <= i <= |blockedNets|
        invariant forall j | 0 <= j < i :: !blockedNets[j].Contains(a)
      {
        if blockedNets[i].Contains(a) {
          return Blocked(Custom, ListedAddress);
        }
        i := i + 1;
      }
      return Passed;
    }

    // Whether the filter knows any parent; if not, none is listed.
    method ParentMayBeListed(h: string) returns (candidate: bool)
      requires Valid()
      ensures !candidate ==> forall d | d in Parents(h) :: d !in exactDomains
    {
      var parts := Split(h);
      var i := 1;
      assert ParentsFrom(parts, 1) == Parents(h);
      while i < |parts| - 1
        invariant 1 <= i
        invariant forall d | d in Parents(h) :: d in ParentsFrom(parts, i) || d !in exactDomains
      {
        candidate := bloom.MayContain(Join(parts[i..]));
        if candidate {
          return;
        }
        assert ParentsFrom(parts, i) == [Join(parts[i..])] + ParentsFrom(parts, i + 1);
        i := i + 1;
      }
      return false;
    }

    method ScanParents(h: string) returns (v: Verdict)
      requires Valid()
      ensures v == FirstListed(exactDomains, Parents(h))
    {
      var parts := Split(h);
      var i := 1;
      while i < |parts| - 1
        invariant 1 <= i
        invariant FirstListed(exactDomains, Parents(h)) == FirstListed(exactDomains, ParentsFrom(parts, i))
      {
        var parent := Join(parts[i..]);
        assert ParentsFrom(parts, i) == [parent] + ParentsFrom(parts, i + 1);
        if parent in suffixDomains {
          return Blocked(suffixDomains[parent], ListedParent(parent));
        }
        assert ([parent] + ParentsFrom(parts, i + 1))[1..] == ParentsFrom(parts, i + 1);
        i := i + 1;
      }
      return Passed;
    }
  }
}
