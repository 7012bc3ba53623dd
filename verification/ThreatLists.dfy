/** What the threat engine makes of the lists and hosts as they are written (pkg/security/filter/engine.go:43-180). */
module ThreatLists {
  import opened Common
  import opened Text
  import opened ThreatFilter
  import Cidr

  // ---------------------------------------------------------------------------------------
  // Hosts
  // ---------------------------------------------------------------------------------------

  // A host name as the lists hold it.
  predicate IsHostName(n: string) {
    n != "" && Tight(n) && ToLower(n) == n && ':' !in n && n[0] != '[' && n[|n| - 1] != '.'
  }

  predicate IsPort(p: string) { p != "" && forall c | c in p :: '0' <= c <= '9' }

  lemma PortIsPlain(p: string)
    requires IsPort(p)
    ensures ':' !in p && p[|p| - 1] != '.'
  {
    assert p[|p| - 1] in p;
  }

  lemma {:induction false} UntilConcat(a: string, c: char, b: string)
    requires c !in a
    ensures Until(a + [c] + b, c) == a
  {
    if a == "" {
      assert (a + [c] + b)[0] == c;
    } else {
      assert a[0] in a && forall x | x in a[1..] :: x in a;
      UntilConcat(a[1..], c, b);
      assert (a + [c] + b)[1..] == a[1..] + [c] + b;
    }
  }

  lemma {:induction false} CountConcat(a: string, b: string, c: char)
    ensures Count(a + b, c) == Count(a, c) + Count(b, c)
  {
    if a == "" {
      assert a + b == b;
    } else {
      CountConcat(a[1..], b, c);
      assert (a + b)[1..] == a[1..] + b;
    }
  }

  lemma {:induction false} NoneToCount(a: string, c: char)
    requires c !in a
    ensures Count(a, c) == 0
  {
    if a != "" {
      assert a[0] in a && forall x | x in a[1..] :: x in a;
      NoneToCount(a[1..], c);
    }
  }

  lemma OneColon(a: string, b: string)
    requires ':' !in a && ':' !in b
    ensures Count(a + ":" + b, ':') == 1 && Until(a + ":" + b, ':') == a
  {
    CountConcat(a + ":", b, ':');
    CountConcat(a, ":", ':');
    NoneToCount(a, ':');
    NoneToCount(b, ':');
    assert Count(":", ':') == 1 + Count(":"[1..], ':');
    UntilConcat(a, ':', b);
    assert a + [':'] + b == a + ":" + b;
  }

  // Left and right white space and capitals do not matter.
  lemma SpellingsAreCleanedAlike(left: string, host: string, right: string, lower: string)
    requires AllSpace(left) && AllSpace(right) && Tight(host) && ToLower(host) == lower
    ensures ToLower(TrimSpace(left + host + right)) == lower
  {
    TrimDropsSpace(left, host, right);
  }

  lemma DotGoes(n: string)
    requires n != "" && n[|n| - 1] != '.'
    ensures TrimSuffix(n + ".", ".") == n && TrimSuffix(n, ".") == n
  {
    assert (n + ".")[|n + "."| - 1..] == ".";
    assert n[|n| - 1..] == [n[|n| - 1]];
  }

  lemma DotOrNone(n: string, dot: string)
    requires n != "" && n[|n| - 1] != '.' && (dot == "" || dot == ".")
    ensures TrimSuffix(n + dot, ".") == n
  {
    DotGoes(n);
    assert n + "" == n;
  }

  lemma NoBracket(n: string, rest: string)
    requires n != "" && n[0] != '['
    ensures !HasPrefix(n + rest, "[")
  {
    assert (n + rest)[0] == n[0];
  }

  lemma BareName(n: string, dot: string)
    requires IsHostName(n) && (dot == "" || dot == ".")
    ensures BareHost(n + dot) == n
  {
    DotOrNone(n, dot);
    DotGoes(n);
    NoBracket(n, "");
    assert n + "" == n;
    NoneToCount(n, ':');
  }

  // The port goes with its colon, and a root dot before it.
  lemma BareNameWithPort(n: string, dot: string, port: string)
    requires IsHostName(n) && (dot == "" || dot == ".") && IsPort(port)
    ensures BareHost(n + dot + ":" + port) == n
  {
    var h := n + dot + ":" + port;
    PortIsPlain(port);
    NoDotAtTheEnd(n + dot + ":", port);
    NoBracket(n, dot + ":" + port);
    assert h == n + (dot + ":" + port);
    assert ':' !in n + dot;
    OneColon(n + dot, port);
    DotOrNone(n, dot);
  }

  lemma NoDotAtTheEnd(front: string, end: string)
    requires end != "" && end[|end| - 1] != '.'
    ensures TrimSuffix(front + end, ".") == front + end
  {
    assert (front + end)[|front + end| - 1..] == [end[|end| - 1]];
  }

  // Brackets hold an address; a port may follow.
  lemma BareAddress(a: string, tail: string)
    requires a != "" && ']' !in a && a[|a| - 1] != '.' && (tail == "" || tail[|tail| - 1] != '.')
    ensures BareHost("[" + a + "]" + tail) == a
  {
    var h := "[" + a + "]" + tail;
    assert h[|h| - 1] == if tail == "" then ']' else tail[|tail| - 1];
    assert h[|h| - 1..] == [h[|h| - 1]];
    assert HasPrefix(h, "[") && h[|a| + 1] == ']';
    UntilConcat("[" + a, ']', tail);
    assert "[" + a + [']'] + tail == h;
    assert ("[" + a)[1..] == a;
    DotGoes(a);
  }

  /** A host is looked up by its name, whatever its case, white space around it, a root dot and a port. */
  lemma HostsAreNamedAlike(n: string, host: string, left: string, right: string, dot: string, port: string)
    requires IsHostName(n) && AllSpace(left) && AllSpace(right) && Tight(host)
    requires (dot == "" || dot == ".") && IsPort(port)
    requires ToLower(host) == n + dot || ToLower(host) == n + dot + ":" + port
    ensures CleanHost(left + host + right) == n
  {
    SpellingsAreCleanedAlike(left, host, right, ToLower(host));
    BareName(n, dot);
    BareNameWithPort(n, dot, port);
  }

  /** An address in brackets is looked up by itself, whatever follows the brackets. */
  lemma AddressesAreUnbracketed(a: string, host: string, left: string, right: string, tail: string)
    requires AllSpace(left) && AllSpace(right) && Tight(host) && ToLower(host) == "[" + a + "]" + tail
    requires a != "" && ']' !in a && a[|a| - 1] != '.' && (tail == "" || tail[|tail| - 1] != '.')
    ensures CleanHost(left + host + right) == a
  {
    SpellingsAreCleanedAlike(left, host, right, ToLower(host));
    BareAddress(a, tail);
  }

  /** An address without brackets is looked up as it is; its colons are no ports. */
  lemma AddressesAreKept(a: string)
    requires a != "" && Tight(a) && ToLower(a) == a && a[0] != '[' && a[|a| - 1] != '.' && Count(a, ':') != 1
    ensures CleanHost(a) == a
  {
    TightIsTrimmed(a);
    DotGoes(a);
    NoBracket(a, "");
    assert a + "" == a;
  }

  // ---------------------------------------------------------------------------------------
  // Lists
  // ---------------------------------------------------------------------------------------

  // The name that a list item stands for: in lower case, without white space around it and a leading dot.
  function NameOf(item: string): string {
    var lower := ToLower(TrimSpace(item));
    if lower != "" && lower[0] == '.' then lower[1..] else lower
  }

  // Blank items name nothing.
  ghost predicate ItemsName(items: seq<string>, n: string) {
    exists d | d in items :: TrimSpace(d) != "" && NameOf(d) == n
  }

  ghost predicate FeedLists(f: Feed, n: string) { f.enabled && ItemsName(f.domains, n) }

  ghost predicate Listed(feeds: seq<Feed>, n: string) { exists f | f in feeds :: FeedLists(f, n) }

  lemma LeadingDotGoes(s: string)
    ensures TrimPrefix(s, ".") == if s != "" && s[0] == '.' then s[1..] else s
  {}

  lemma {:induction false} ItemsAreAdded(domains: map<string, Category>, items: seq<string>, c: Category, n: string)
    ensures n in AddDomains(domains, items, c) <==> n in domains || ItemsName(items, n)
    ensures n in AddDomains(domains, items, c) ==>
              AddDomains(domains, items, c)[n] == if ItemsName(items, n) then c else domains[n]
  {
    if items != [] {
      var init, d := items[..|items| - 1], items[|items| - 1];
      ItemsAreAdded(domains, init, c, n);
      LeadingDotGoes(ToLower(TrimSpace(d)));
      ItemsNameMore(init, d, items, n);
    }
  }

  lemma ItemsNameMore(init: seq<string>, d: string, items: seq<string>, n: string)
    requires items == init + [d]
    ensures ItemsName(items, n) <==> ItemsName(init, n) || (TrimSpace(d) != "" && NameOf(d) == n)
  {
    assert forall x :: x in items <==> x in init || x == d;
  }

  // The category of the last feed that lists the name.
  ghost predicate LastListed(feeds: seq<Feed>, n: string, c: Category) {
    exists i | 0 <= i < |feeds| ::
      FeedLists(feeds[i], n) && feeds[i].category == c && forall j | i < j < |feeds| :: !FeedLists(feeds[j], n)
  }

  /** The engine knows the names of the enabled feeds, each with the category of the last feed that has it. */
  lemma {:induction false} FeedsAreAdded(feeds: seq<Feed>, n: string)
    ensures n in AddFeeds(feeds) <==> Listed(feeds, n)
    ensures n in AddFeeds(feeds) ==> LastListed(feeds, n, AddFeeds(feeds)[n])
  {
    if feeds != [] {
      var init, f := feeds[..|feeds| - 1], feeds[|feeds| - 1];
      FeedsAreAdded(init, n);
      ItemsAreAdded(AddFeeds(init), f.domains, f.category, n);
      ListedMore(init, f, feeds, n);
      if FeedLists(f, n) {
        assert LastListed(feeds, n, f.category);
      } else if n in AddFeeds(init) {
        LastListedMore(init, f, feeds, n, AddFeeds(init)[n]);
      }
    }
  }

  lemma ListedMore(init: seq<Feed>, f: Feed, feeds: seq<Feed>, n: string)
    requires feeds == init + [f]
    ensures Listed(feeds, n) <==> Listed(init, n) || FeedLists(f, n)
  {
    assert forall x :: x in feeds <==> x in init || x == f;
  }

  lemma LastListedMore(init: seq<Feed>, f: Feed, feeds: seq<Feed>, n: string, c: Category)
    requires feeds == init + [f] && LastListed(init, n, c) && !FeedLists(f, n)
    ensures LastListed(feeds, n, c)
  {
    var i :| 0 <= i < |init| && FeedLists(init[i], n) && init[i].category == c &&
      forall j | i < j < |init| :: !FeedLists(init[j], n);
    assert feeds[i] == init[i];
  }

  // A blocked text that is a network, or a single address.
  predicate TextCovers(parsers: Parsers, text: string, a: Cidr.Addr) {
    var clean := TrimSpace(text);
    if '/' in clean then parsers.cidr(clean).Some? && parsers.cidr(clean).value.Contains(a)
    else parsers.ip(clean) == Some(a)
  }

  lemma OneAddress(a: Cidr.Addr, b: Cidr.Addr)
    ensures HostNet(b).Contains(a) <==> a == b
    ensures HostNet(b).len == if b.v6 then 128 else 32
  {
    assert HostNet(b).Size() == 1;
  }

  lemma {:induction false} TextsAreAdded(parsers: Parsers, texts: seq<string>, a: Cidr.Addr)
    ensures AddressListed(BlockedNets(parsers, texts), a) <==> exists t | t in texts :: TextCovers(parsers, t, a)
  {
    if texts != [] {
      var init, t := texts[..|texts| - 1], texts[|texts| - 1];
      TextsAreAdded(parsers, init, a);
      var parsed := ParseBlocked(parsers, t);
      if parsed.Some? {
        NetsMore(BlockedNets(parsers, init), parsed.value, a);
        if parsers.ip(TrimSpace(t)).Some? { OneAddress(a, parsers.ip(TrimSpace(t)).value); }
      }
      assert TextCovers(parsers, t, a) <==> parsed.Some? && parsed.value.Contains(a);
      TextsMore(parsers, init, t, texts, a);
    }
  }

  lemma NetsMore(nets: seq<Cidr.Prefix>, n: Cidr.Prefix, a: Cidr.Addr)
    ensures AddressListed(nets + [n], a) <==> AddressListed(nets, a) || n.Contains(a)
  {
    assert forall x :: x in nets + [n] <==> x in nets || x == n;
  }

  lemma TextsMore(parsers: Parsers, init: seq<string>, t: string, texts: seq<string>, a: Cidr.Addr)
    requires texts == init + [t]
    ensures (exists x | x in texts :: TextCovers(parsers, x, a)) <==>
            (exists x | x in init :: TextCovers(parsers, x, a)) || TextCovers(parsers, t, a)
  {
    assert forall x :: x in texts <==> x in init || x == t;
  }

  // What the lists as they are written say of a host.
  ghost predicate BlockedAsWritten(parsers: Parsers, feeds: seq<Feed>, allowed: seq<string>, texts: seq<string>,
                                   h: string) {
    && (forall n | n in allowed :: TrimSpace(n) != "" ==> ToLower(TrimSpace(n)) != h)
    && match parsers.ip(h)
       case Some(a) => exists t | t in texts :: TextCovers(parsers, t, a)
       case None => exists d :: Listed(feeds, d) && (d == h || (HasSuffix(h, "." + d) && '.' in d))
  }

  /** An engine made of these lists blocks a host iff it is not allowed and it is an address that some blocked
      text covers, or a name listed by an enabled feed or below such a name with a dot. */
  lemma EngineBlocksAsWritten(parsers: Parsers, feeds: seq<Feed>, allowed: seq<string>, texts: seq<string>,
                              host: string)
    ensures Plain(parsers, AllowedNames(allowed), BlockedNets(parsers, texts), AddFeeds(feeds), host).Blocked? <==>
            BlockedAsWritten(parsers, feeds, allowed, texts, CleanHost(host))
  {
    var h := CleanHost(host);
    forall d ensures d in AddFeeds(feeds) <==> Listed(feeds, d) {
      FeedsAreAdded(feeds, d);
    }
    if h !in AllowedNames(allowed) {
      if parsers.ip(h).Some? {
        TextsAreAdded(parsers, texts, parsers.ip(h).value);
      } else {
        BlockedMeansListed(parsers, AllowedNames(allowed), BlockedNets(parsers, texts), AddFeeds(feeds), host);
      }
    }
  }
}
