/** Compression of CIDR lists (pkg/routing/optimizer.go).

    A network is its version, base address and prefix length.  Printing and parsing of the text
    form is a parameter, as is the meaning of `geoip:` tags and of entries that do not parse. */
module Cidr {
  import opened Arithmetic
  import opened Common
  import opened Text
  import opened Sorting

  datatype Addr = Addr(v6: bool, value: nat)

  // ::ffff:a.b.c.d
  predicate IsMapped(value: nat) { value / 0x1_0000_0000 == 0xFFFF }

  datatype Prefix = Prefix(v6: bool, base: nat, len: nat) {
    function Width(): nat { if v6 then 128 else 32 }

    // The number of addresses.
    function Size(): (r: nat)
      ensures r > 0
    {
      if len <= Width() then Pow2(Width() - len) else 1
    }

    // IPv4-mapped IPv6 networks are excluded, as Go treats them as IPv4.
    predicate IsNetwork() {
      len <= Width() && base < Pow2(Width()) && base % Size() == 0 && (v6 ==> !IsMapped(base))
    }

    // The mask keeps the bits above the size.
    predicate Contains(a: Addr) {
      a.v6 == v6 && a.value / Size() == base / Size()
    }

    function First(): Addr { Addr(v6, base) }
  }

  // A prefix whose host bits are zero, as `net.ParseCIDR` returns it.
  type Net = p: Prefix | p.IsNetwork() witness Prefix(false, 0, 32)

  function Pow2(n: nat): (r: nat)
    ensures r > 0
  {
    if n == 0 then 1 else 2 * Pow2(n - 1)
  }

  lemma {:induction false} Pow2Splits(n: nat, k: nat)
    ensures Pow2(n + k) == Pow2(n) * Pow2(k)
  {
    if k > 0 {
      Pow2Splits(n, k - 1);
      assert Pow2(n) * (2 * Pow2(k - 1)) == 2 * (Pow2(n) * Pow2(k - 1));
    } else {
      assert Pow2(n) * 1 == Pow2(n);
    }
  }

  // ---------------------------------------------------------------------------------------
  // Subnets
  // ---------------------------------------------------------------------------------------

  predicate IsSubnet(parent: Net, child: Net)
  {
    parent.v6 == child.v6 && child.len >= parent.len && parent.Contains(child.First())
  }

  // A longer prefix refines a shorter one.
  lemma Coarser(parent: Net, child: Net, a: Addr, b: Addr)
    requires parent.v6 == child.v6 && child.len >= parent.len
    requires a.value / child.Size() == b.value / child.Size()
    ensures a.value / parent.Size() == b.value / parent.Size()
  {
    var w, d := parent.Width(), child.len - parent.len;
    Pow2Splits(w - child.len, d);
    DivideTwice(a.value, child.Size(), Pow2(d));
    DivideTwice(b.value, child.Size(), Pow2(d));
  }

  // Networks with a common address are nested.
  lemma MeetingMeansNested(parent: Net, child: Net, a: Addr)
    requires child.len >= parent.len
    requires parent.Contains(a) && child.Contains(a)
    ensures IsSubnet(parent, child)
  {
    Coarser(parent, child, a, child.First());
  }

  lemma SubnetIsCovered(parent: Net, child: Net, a: Addr)
    requires IsSubnet(parent, child) && child.Contains(a)
    ensures parent.Contains(a)
  {
    Coarser(parent, child, a, child.First());
  }

  // A shorter prefix reaches addresses outside the longer one.
  lemma BroaderReachesOut(parent: Net, child: Net) returns (a: Addr)
    requires parent.v6 == child.v6 && child.len < parent.len
    ensures child.Contains(a) && !parent.Contains(a)
  {
    var b, s, c := child.base, parent.Size(), child.Size();
    LongerIsSmaller(child, parent);
    NextIsInside(b, s, c);
    NextMultiple(b, s);
    a := if b / s == parent.base / s then Addr(child.v6, b + s) else child.First();
  }

  lemma NextIsInside(b: nat, s: nat, c: nat)
    requires 0 < s < c && b % c == 0
    ensures (b + s) / c == b / c
  {
    QuotientIs(b + s, c, b / c, s);
  }

  lemma LongerIsSmaller(short: Net, long: Net)
    requires short.v6 == long.v6 && short.len < long.len
    ensures long.Size() < short.Size()
  {
    var d := long.len - short.len;
    Pow2Splits(long.Width() - long.len, d);
    assert Pow2(d) == 2 * Pow2(d - 1) >= 2;
    AtLeast(Pow2(d), long.Size());
    Distributes(long.Size(), Pow2(d), 1);
    AtLeast(long.Size(), Pow2(d) - 1);
  }

  /** The containment test of the optimizer is exactly inclusion of address sets. */
  lemma SubnetIsInclusion(parent: Net, child: Net)
    ensures IsSubnet(parent, child) <==> forall a :: child.Contains(a) ==> parent.Contains(a)
  {
    if IsSubnet(parent, child) {
      forall a | child.Contains(a) ensures parent.Contains(a) { SubnetIsCovered(parent, child, a); }
    } else if forall a :: child.Contains(a) ==> parent.Contains(a) {
      assert child.Contains(child.First());
      if child.len < parent.len {
        var a := BroaderReachesOut(parent, child);
      }
    }
  }

  // ---------------------------------------------------------------------------------------
  // Merging
  // ---------------------------------------------------------------------------------------

  // Broadest prefix first, then by the bytes of the base address, as `bytes.Compare` orders
  // four-byte and sixteen-byte addresses.
  function ByteRank(n: Net): nat { if n.v6 then n.base else n.base * Pow2(96) }

  predicate NotAfter(n: Net, m: Net) {
    if n.len != m.len then n.len < m.len
    else if ByteRank(n) != ByteRank(m) then ByteRank(n) < ByteRank(m)
    else !n.v6 || m.v6
  }

  function IsCovered(nets: seq<Net>, n: Net): (r: bool)
    ensures r <==> exists m | m in nets :: IsSubnet(m, n)
  {
    exists m | m in nets :: IsSubnet(m, n)
  }

  ghost function Merge(nets: seq<Net>): (r: seq<Net>)
    ensures forall m | m in r :: m in nets
  {
    if nets == [] then []
    else
      var kept, n := Merge(nets[..|nets| - 1]), nets[|nets| - 1];
      if IsCovered(kept, n) then kept else kept + [n]
  }

  ghost predicate Covers(nets: seq<Net>, a: Addr)
  {
    exists n | n in nets :: n.Contains(a)
  }

  ghost predicate Disjoint(n: Net, m: Net)
  {
    forall a :: !(n.Contains(a) && m.Contains(a))
  }

  ghost predicate PairwiseDisjoint(nets: seq<Net>)
  {
    forall i, j | 0 <= i < j < |nets| :: Disjoint(nets[i], nets[j])
  }

  lemma {:induction false} MergeKeepsAParent(nets: seq<Net>, n: Net)
    requires n in nets
    ensures exists m | m in Merge(nets) :: IsSubnet(m, n)
  {
    var init, last := nets[..|nets| - 1], nets[|nets| - 1];
    var kept := Merge(init);
    if n != last {
      assert n in init;
      MergeKeepsAParent(init, n);
      var m :| m in kept && IsSubnet(m, n);
      assert m in Merge(nets);
    } else if !IsCovered(kept, n) {
      assert n in Merge(nets) && IsSubnet(n, n);
    }
  }

  /** Merging keeps the covered addresses. */
  lemma MergeKeepsCoverage(nets: seq<Net>, a: Addr)
    ensures Covers(Merge(nets), a) <==> Covers(nets, a)
  {
    if Covers(nets, a) {
      var n :| n in nets && n.Contains(a);
      MergeKeepsAParent(nets, n);
      var m :| m in Merge(nets) && IsSubnet(m, n);
      SubnetIsCovered(m, n, a);
    }
  }

  lemma BroaderIsNeverMet(n: Net, m: Net)
    requires n.len <= m.len && !IsSubnet(n, m)
    ensures Disjoint(n, m)
  {
    forall a | n.Contains(a) && m.Contains(a) ensures false { MeetingMeansNested(n, m, a); }
  }

  ghost predicate ByLength(nets: seq<Net>) {
    forall i, j | 0 <= i < j < |nets| :: nets[i].len <= nets[j].len
  }

  /** On networks ordered by length the kept ones share no address. */
  lemma {:induction false} MergeIsDisjoint(nets: seq<Net>)
    requires ByLength(nets)
    ensures PairwiseDisjoint(Merge(nets))
    ensures nets != [] ==> forall m | m in Merge(nets) :: m.len <= nets[|nets| - 1].len
  {
    if nets != [] {
      var init, n := nets[..|nets| - 1], nets[|nets| - 1];
      MergeIsDisjoint(init);
      var kept := Merge(init);
      forall m | m in kept ensures m.len <= n.len {}
      if !IsCovered(kept, n) {
        forall m | m in kept ensures Disjoint(m, n) { BroaderIsNeverMet(m, n); }
      }
    }
  }

  // ---------------------------------------------------------------------------------------
  // Minimality
  // ---------------------------------------------------------------------------------------

  // Every member of `ms` contains a member of `ts`, and members of `ms` do not meet.
  lemma {:induction false} DistinctRepresentatives(ms: set<Net>, ts: set<Net>)
    requires forall m, m' | m in ms && m' in ms && m != m' :: Disjoint(m, m')
    requires forall m | m in ms :: exists t | t in ts :: IsSubnet(m, t)
    ensures |ms| <= |ts|
    decreases |ms|
  {
    if m :| m in ms {
      var t :| t in ts && IsSubnet(m, t);
      forall m' | m' in ms - {m} ensures exists t' | t' in ts - {t} :: IsSubnet(m', t') {
        var t' :| t' in ts && IsSubnet(m', t');
        assert Disjoint(m, m') && !m'.Contains(t.First());
        assert t' in ts - {t};
      }
      DistinctRepresentatives(ms - {m}, ts - {t});
    }
  }

  function Elements(s: seq<Net>): set<Net> { set n | n in s }

  lemma {:induction false} ListIsNoShorter(s: seq<Net>)
    ensures |Elements(s)| <= |s|
    ensures (forall i, j | 0 <= i < j < |s| :: s[i] != s[j]) ==> |Elements(s)| == |s|
  {
    if s != [] {
      var init := s[..|s| - 1];
      ListIsNoShorter(init);
      assert s == init + [s[|s| - 1]];
      ElementsOfOneMore(init, s[|s| - 1]);
    }
  }

  lemma ElementsOfOneMore(s: seq<Net>, n: Net)
    ensures Elements(s + [n]) == Elements(s) + {n}
  {}

  lemma DisjointMeansDistinct(nets: seq<Net>)
    requires PairwiseDisjoint(nets)
    ensures |Elements(nets)| == |nets|
    ensures forall m, m' | m in nets && m' in nets && m != m' :: Disjoint(m, m')
  {
    forall i, j | 0 <= i < j < |nets| ensures nets[i] != nets[j] {
      assert nets[i].Contains(nets[i].First());
      assert Disjoint(nets[i], nets[j]);
    }
    ListIsNoShorter(nets);
    forall m, m' | m in nets && m' in nets && m != m' ensures Disjoint(m, m') {
      var i :| 0 <= i < |nets| && nets[i] == m;
      var j :| 0 <= j < |nets| && nets[j] == m';
      if i < j { assert Disjoint(m, m'); } else { assert Disjoint(m', m); }
    }
  }

  /** No list of the input's networks that covers as much is shorter than the merged list. */
  lemma MergeIsMinimal(nets: seq<Net>, others: seq<Net>)
    requires ByLength(nets)
    requires (forall n | n in others :: n in nets) && (forall a :: Covers(nets, a) ==> Covers(others, a))
    ensures |Merge(nets)| <= |others|
  {
    var merged := Merge(nets);
    MergeIsDisjoint(nets);
    DisjointMeansDistinct(merged);
    forall m | m in merged ensures exists t | t in others :: IsSubnet(m, t) {
      assert m.Contains(m.First()) && Covers(nets, m.First());
      var t :| t in others && t.Contains(m.First());
      MergeKeepsAParent(nets, t);
      var m' :| m' in merged && IsSubnet(m', t);
      SubnetIsCovered(m', t, m.First());
      assert m' == m by { assert m' != m ==> Disjoint(m', m); }
    }
    DistinctRepresentatives(Elements(merged), Elements(others));
    ListIsNoShorter(others);
  }

  // ---------------------------------------------------------------------------------------
  // Lists of entries
  // ---------------------------------------------------------------------------------------

  // The text form of networks.  `parse` also accepts a bare address or an `ip:` prefix.
  datatype Codec = Codec(parse: string -> Option<Net>, print_: Net -> string) {
    ghost predicate Valid() {
      forall n: Net ::
        && parse(print_(n)) == Some(n)
        && TrimSpace(print_(n)) == print_(n) && print_(n) != "" && !HasPrefix(print_(n), GEOIP)
    }
  }

  const GEOIP := "geoip:"

  // A tag, or an entry that is not a network, is kept as it is.
  predicate IsTag(c: Codec, e: string) {
    e != "" && (HasPrefix(e, GEOIP) || c.parse(e).None?)
  }

  predicate IsNet(c: Codec, e: string) {
    e != "" && !HasPrefix(e, GEOIP) && c.parse(e).Some?
  }

  function AddNew<T(==)>(s: seq<T>, x: T): seq<T> { if x in s then s else s + [x] }

  function Tags(c: Codec, ips: seq<string>): seq<string> {
    if ips == [] then []
    else
      var before, e := Tags(c, ips[..|ips| - 1]), TrimSpace(ips[|ips| - 1]);
      if IsTag(c, e) then AddNew(before, e) else before
  }

  function Nets(c: Codec, ips: seq<string>): seq<Net> {
    if ips == [] then []
    else
      var before, e := Nets(c, ips[..|ips| - 1]), TrimSpace(ips[|ips| - 1]);
      if IsNet(c, e) then before + [c.parse(e).value] else before
  }

  function Printed(c: Codec, nets: seq<Net>): seq<string> {
    if nets == [] then [] else Printed(c, nets[..|nets| - 1]) + [c.print_(nets[|nets| - 1])]
  }

  ghost function Merged(c: Codec, ips: seq<string>): seq<Net> {
    Merge(Sort(Nets(c, ips), NotAfter))
  }

  ghost function Optimized(c: Codec, ips: seq<string>): seq<string> {
    if |ips| <= 1 then ips else Tags(c, ips) + Printed(c, Merged(c, ips))
  }

  // Whether an entry matches an address; `tag` decides for everything but networks.
  predicate EntryHits(c: Codec, tag: (string, Addr) -> bool, entry: string, a: Addr) {
    var e := TrimSpace(entry);
    if IsTag(c, e) then tag(e, a) else IsNet(c, e) && c.parse(e).value.Contains(a)
  }

  ghost predicate ListHits(c: Codec, tag: (string, Addr) -> bool, ips: seq<string>, a: Addr) {
    exists e | e in ips :: EntryHits(c, tag, e, a)
  }

  ghost predicate TagHits(tag: (string, Addr) -> bool, tags: seq<string>, a: Addr) {
    exists e | e in tags :: tag(e, a)
  }

  lemma {:induction false} ListSplits(c: Codec, tag: (string, Addr) -> bool, ips: seq<string>, a: Addr)
    ensures ListHits(c, tag, ips, a) <==> TagHits(tag, Tags(c, ips), a) || Covers(Nets(c, ips), a)
  {
    if ips != [] {
      var init, entry := ips[..|ips| - 1], ips[|ips| - 1];
      ListSplits(c, tag, init, a);
      assert ips == init + [entry];
      var e := TrimSpace(entry);
      assert ListHits(c, tag, ips, a) <==> ListHits(c, tag, init, a) || EntryHits(c, tag, entry, a);
      if IsTag(c, e) {
        assert forall x :: x in Tags(c, ips) <==> x in Tags(c, init) || x == e;
      } else if IsNet(c, e) {
        assert forall n :: n in Nets(c, ips) <==> n in Nets(c, init) || n == c.parse(e).value;
      }
    }
  }

  // Distinct entries that are their own trimmed form and name no network.
  ghost predicate ProperTags(c: Codec, tags: seq<string>) {
    && (forall e | e in tags :: IsTag(c, e) && TrimSpace(e) == e)
    && (forall i, j | 0 <= i < j < |tags| :: tags[i] != tags[j])
  }

  lemma {:induction false} TagsAreTags(c: Codec, ips: seq<string>)
    ensures ProperTags(c, Tags(c, ips))
  {
    if ips != [] {
      TagsAreTags(c, ips[..|ips| - 1]);
      TrimIsTight(ips[|ips| - 1]);
      TightIsTrimmed(TrimSpace(ips[|ips| - 1]));
    }
  }

  lemma {:induction false} TagsReadBack(c: Codec, tags: seq<string>)
    requires ProperTags(c, tags)
    ensures Tags(c, tags) == tags && Nets(c, tags) == []
  {
    if tags != [] {
      var init, e := tags[..|tags| - 1], tags[|tags| - 1];
      TagsReadBack(c, init);
      assert IsTag(c, e) && !IsNet(c, e) && e !in init;
      assert tags == init + [e];
    }
  }

  lemma NetReadsBack(c: Codec, before: seq<string>, n: Net)
    requires c.Valid()
    ensures var out := before + [c.print_(n)];
            Tags(c, out) == Tags(c, before) && Nets(c, out) == Nets(c, before) + [n]
  {
    var text := c.print_(n);
    assert (before + [text])[..|before|] == before;
    assert IsNet(c, text) && !IsTag(c, text) && c.parse(text) == Some(n);
  }

  // Printed networks are read back; tags are read as themselves.
  lemma {:induction false} OutputReadsBack(c: Codec, tags: seq<string>, nets: seq<Net>)
    requires c.Valid() && ProperTags(c, tags)
    ensures Tags(c, tags + Printed(c, nets)) == tags && Nets(c, tags + Printed(c, nets)) == nets
  {
    if nets == [] {
      TagsReadBack(c, tags);
      assert tags + [] == tags;
    } else {
      var init, n := nets[..|nets| - 1], nets[|nets| - 1];
      OutputReadsBack(c, tags, init);
      NetReadsBack(c, tags + Printed(c, init), n);
      assert tags + Printed(c, nets) == (tags + Printed(c, init)) + [c.print_(n)];
      assert nets == init + [n];
    }
  }

  lemma SortedByLength(nets: seq<Net>)
    ensures ByLength(Sort(nets, NotAfter))
    ensures forall n :: n in Sort(nets, NotAfter) <==> n in nets
  {
    SortSorts(nets, NotAfter);
    SortPermutes(nets, NotAfter);
  }

  /** Optimizing a list keeps the addresses it matches, whatever its tags mean. */
  lemma OptimizeKeepsMatches(c: Codec, tag: (string, Addr) -> bool, ips: seq<string>, a: Addr)
    requires c.Valid()
    ensures ListHits(c, tag, Optimized(c, ips), a) <==> ListHits(c, tag, ips, a)
  {
    if |ips| > 1 {
      TagsAreTags(c, ips);
      OutputReadsBack(c, Tags(c, ips), Merged(c, ips));
      ListSplits(c, tag, ips, a);
      ListSplits(c, tag, Optimized(c, ips), a);
      var sorted := Sort(Nets(c, ips), NotAfter);
      SortedByLength(Nets(c, ips));
      MergeKeepsCoverage(sorted, a);
    }
  }

  /** The networks of an optimized list are disjoint, come from the input, and no list of input
      networks that covers as much is shorter. */
  lemma OptimizedIsDisjointAndMinimal(c: Codec, ips: seq<string>, others: seq<Net>)
    requires c.Valid() && |ips| > 1
    requires forall n | n in others :: n in Nets(c, ips)
    requires forall a :: Covers(Nets(c, ips), a) ==> Covers(others, a)
    ensures var nets := Nets(c, Optimized(c, ips));
            PairwiseDisjoint(nets) && (forall n | n in nets :: n in Nets(c, ips)) && |nets| <= |others|
  {
    TagsAreTags(c, ips);
    OutputReadsBack(c, Tags(c, ips), Merged(c, ips));
    var sorted := Sort(Nets(c, ips), NotAfter);
    SortedByLength(Nets(c, ips));
    MergeIsDisjoint(sorted);
    forall a | Covers(sorted, a) ensures Covers(others, a) { assert Covers(Nets(c, ips), a); }
    MergeIsMinimal(sorted, others);
  }

  /** A second pass changes nothing. */
  lemma OptimizeIsIdempotent(c: Codec, ips: seq<string>)
    requires c.Valid()
    ensures Optimized(c, Optimized(c, ips)) == Optimized(c, ips)
  {
    if |ips| > 1 && |Optimized(c, ips)| > 1 {
      TagsAreTags(c, ips);
      OutputReadsBack(c, Tags(c, ips), Merged(c, ips));
      MergedIsFixed(c, ips);
    }
  }

  lemma MergedIsFixed(c: Codec, ips: seq<string>)
    ensures Merge(Sort(Merged(c, ips), NotAfter)) == Merged(c, ips)
  {
    var sorted := Sort(Nets(c, ips), NotAfter);
    SortSorts(Nets(c, ips), NotAfter);
    SortedByLength(Nets(c, ips));
    MergeIsSorted(sorted, NotAfter);
    SortedIsFixed(Merge(sorted), NotAfter);
    MergeIsDisjoint(sorted);
    MergeOfDisjoint(Merge(sorted));
  }

  lemma {:induction false} MergeIsSorted(nets: seq<Net>, le: (Net, Net) -> bool)
    requires Sorted(nets, le)
    ensures Sorted(Merge(nets), le)
  {
    if nets != [] {
      var init, n := nets[..|nets| - 1], nets[|nets| - 1];
      MergeIsSorted(init, le);
      forall m | m in Merge(init) ensures le(m, n) { assert m in init; }
    }
  }

  lemma {:induction false} MergeOfDisjoint(nets: seq<Net>)
    requires PairwiseDisjoint(nets)
    ensures Merge(nets) == nets
  {
    if nets != [] {
      var init, n := nets[..|nets| - 1], nets[|nets| - 1];
      MergeOfDisjoint(init);
      forall m | m in init ensures !IsSubnet(m, n) {
        assert n.Contains(n.First());
        assert Disjoint(m, n);
      }
      assert nets == init + [n];
    }
  }

  // ---------------------------------------------------------------------------------------
  // When the merged list is the shortest of all
  // ---------------------------------------------------------------------------------------

  // The number of a network among those of its length.
  function Index(n: Net): nat { n.base / n.Size() }

  // Two networks that make up the one that is a bit shorter.
  predicate Halves(m: Net, n: Net) {
    m.v6 == n.v6 && m.len == n.len > 0 && m != n && Index(m) / 2 == Index(n) / 2
  }

  function Joined(m: Net, n: Net): Prefix
    requires Halves(m, n)
  {
    Prefix(m.v6, if m.base <= n.base then m.base else n.base, m.len - 1)
  }

  lemma BaseOfIndex(n: Net)
    ensures n.base == n.Size() * Index(n)
  {}

  // Half a step further down, an index is halved.
  lemma HalvedIndex(n: Net, value: nat)
    requires n.len > 0
    ensures Pow2(n.Width() - (n.len - 1)) == n.Size() * 2
    ensures value / (n.Size() * 2) == value / n.Size() / 2
  {
    DivideTwice(value, n.Size(), 2);
  }

  lemma EvenMultiple(s: nat, q: nat)
    requires s > 0
    ensures (s * (2 * q)) % (s * 2) == 0 && (s * (2 * q)) / (s * 2) == q
  {
    assert s * (2 * q) == s * 2 * q;
    QuotientIs(s * (2 * q), s * 2, q, 0);
  }

  // Of two halves the lower one has the even number.
  lemma LowerHalf(m: Net, n: Net)
    requires Halves(m, n) && m.base <= n.base
    ensures Index(m) == 2 * (Index(m) / 2) && Index(n) == Index(m) + 1
  {
    BaseOfIndex(m);
    BaseOfIndex(n);
    assert Index(m) != Index(n);
    if Index(m) > Index(n) {
      Monotone(m.Size(), Index(n) + 1, Index(m));
      Distributes(m.Size(), Index(n), 1);
    }
  }

  lemma JoinedIsNetwork(m: Net, n: Net)
    requires Halves(m, n)
    ensures Joined(m, n).IsNetwork() && Joined(m, n).Size() == m.Size() * 2
    ensures Joined(m, n).base / (m.Size() * 2) == Index(m) / 2
  {
    var low, high := if m.base <= n.base then m else n, if m.base <= n.base then n else m;
    LowerHalf(low, high);
    BaseOfIndex(low);
    HalvedIndex(low, low.base);
    EvenMultiple(low.Size(), Index(low) / 2);
  }

  lemma JoinedCoversBoth(m: Net, n: Net, a: Addr)
    requires Halves(m, n)
    ensures Joined(m, n).Contains(a) <==> m.Contains(a) || n.Contains(a)
  {
    JoinedIsNetwork(m, n);
    HalvedIndex(m, a.value);
    BaseOfIndex(m);
    BaseOfIndex(n);
    assert Index(m) != Index(n);
  }

  ghost predicate SameCoverage(nets: seq<Net>, others: seq<Net>) {
    forall a :: Covers(nets, a) <==> Covers(others, a)
  }

  ghost predicate HasHalves(nets: seq<Net>) { exists m, n | m in nets && n in nets :: Halves(m, n) }

  ghost predicate IsShortest(nets: seq<Net>) {
    forall others: seq<Net> | SameCoverage(nets, others) :: |nets| <= |others|
  }

  // Joining two halves gives a shorter list that covers the same.
  lemma HalvesCanBeJoined(nets: seq<Net>, i: nat, j: nat)
    requires i < j < |nets| && Halves(nets[i], nets[j])
    ensures !IsShortest(nets)
  {
    var m, n, rest := nets[i], nets[j], WithoutTwo(nets, i, j);
    JoinedIsNetwork(m, n);
    var joined: Net := Joined(m, n);
    MembersWithoutTwo(nets, i, j);
    forall a ensures Covers(nets, a) <==> Covers(rest + [joined], a) {
      JoinedCoversBoth(m, n, a);
      SplitCoverage(nets, rest, m, n, joined, a);
    }
    assert SameCoverage(nets, rest + [joined]);
  }

  function WithoutTwo(nets: seq<Net>, i: nat, j: nat): (r: seq<Net>)
    requires i < j < |nets|
    ensures |r| == |nets| - 2
  {
    nets[..i] + nets[i + 1..j] + nets[j + 1..]
  }

  lemma MembersWithoutTwo(nets: seq<Net>, i: nat, j: nat)
    requires i < j < |nets|
    ensures forall x | x in nets :: x == nets[i] || x == nets[j] || x in WithoutTwo(nets, i, j)
    ensures forall x | x in WithoutTwo(nets, i, j) :: x in nets
  {
    forall x | x in nets ensures x == nets[i] || x == nets[j] || x in WithoutTwo(nets, i, j) {
      var k :| 0 <= k < |nets| && nets[k] == x;
      assert k == i || k == j || x in nets[..i] || x in nets[i + 1..j] || x in nets[j + 1..];
    }
  }

  lemma SplitCoverage(nets: seq<Net>, rest: seq<Net>, m: Net, n: Net, joined: Net, a: Addr)
    requires m in nets && n in nets && forall x | x in nets :: x == m || x == n || x in rest
    requires forall x | x in rest :: x in nets
    requires joined.Contains(a) <==> m.Contains(a) || n.Contains(a)
    ensures Covers(nets, a) <==> Covers(rest + [joined], a)
  {
    if Covers(nets, a) {
      var x :| x in nets && x.Contains(a);
      assert if x in rest then x in rest + [joined] else joined in rest + [joined] && joined.Contains(a);
    }
    if Covers(rest + [joined], a) {
      var x :| x in rest + [joined] && x.Contains(a);
      assert x in rest || x == joined;
    }
  }

  // The first address of the other half of a network.
  function OtherHalf(n: Net): Addr
    requires n.len > 0
  {
    Addr(n.v6, n.Size() * (if Index(n) % 2 == 0 then Index(n) + 1 else Index(n) - 1))
  }

  lemma OtherHalfIndex(n: Net)
    requires n.len > 0
    ensures OtherHalf(n).value / n.Size() == (if Index(n) % 2 == 0 then Index(n) + 1 else Index(n) - 1)
  {
    var i := if Index(n) % 2 == 0 then Index(n) + 1 else Index(n) - 1;
    QuotientIs(n.Size() * i, n.Size(), i, 0);
  }

  // A network that is broader than `n` and contains part of it contains its other half.
  lemma BroaderHoldsOtherHalf(t: Net, n: Net)
    requires n.len > t.len && t.v6 == n.v6
    ensures t.Contains(n.First()) <==> t.Contains(OtherHalf(n))
  {
    OtherHalfIndex(n);
    HalvedIndex(n, n.base);
    HalvedIndex(n, OtherHalf(n).value);
    SameAtHalf(t, n, n.base, OtherHalf(n).value);
  }

  // Values that agree at twice the size of `n` agree at the size of any broader network.
  lemma SameAtHalf(t: Net, n: Net, x: nat, y: nat)
    requires n.len > t.len && t.v6 == n.v6 && x / (n.Size() * 2) == y / (n.Size() * 2)
    ensures x / t.Size() == y / t.Size()
  {
    HalvedIndex(n, x);
    var d := n.len - 1 - t.len;
    Pow2Splits(n.Width() - (n.len - 1), d);
    DivideTwice(x, n.Size() * 2, Pow2(d));
    DivideTwice(y, n.Size() * 2, Pow2(d));
  }

  lemma MeetingMembersAreOne(nets: seq<Net>, m: Net, n: Net, a: Addr)
    requires PairwiseDisjoint(nets) && m in nets && n in nets && m.Contains(a) && n.Contains(a)
    ensures m == n
  {
    DisjointMeansDistinct(nets);
    assert !Disjoint(m, n);
  }

  // A disjoint list in which `t`, covered by the list, properly contains a member, holds two halves.
  lemma DeepestHasItsHalf(nets: seq<Net>, t: Net, n: Net)
    requires PairwiseDisjoint(nets) && n in nets && IsSubnet(t, n) && t.len < n.len
    requires forall a | t.Contains(a) :: Covers(nets, a)
    ensures HasHalves(nets)
    decreases 128 - n.len
  {
    var a := OtherHalf(n);
    BroaderHoldsOtherHalf(t, n);
    var w :| w in nets && w.Contains(a);
    if w.len < n.len {
      BroaderHoldsOtherHalf(w, n);
      MeetingMembersAreOne(nets, w, n, n.First());
    } else if w.len == n.len {
      OtherHalfIndex(n);
      assert Halves(n, w);
    } else {
      MeetingMeansNested(t, w, a);
      DeepestHasItsHalf(nets, t, w);
    }
  }

  // Without halves every list with the same coverage has a member inside each network.
  lemma DisjointIsShortest(nets: seq<Net>, others: seq<Net>)
    requires PairwiseDisjoint(nets) && !HasHalves(nets) && SameCoverage(nets, others)
    ensures |nets| <= |others|
  {
    DisjointMeansDistinct(nets);
    forall m | m in nets ensures exists t | t in others :: IsSubnet(m, t) {
      assert m.Contains(m.First()) && Covers(nets, m.First());
      var t :| t in others && t.Contains(m.First());
      if t.len < m.len {
        MeetingMeansNested(t, m, m.First());
        forall a | t.Contains(a) ensures Covers(nets, a) { assert Covers(others, a); }
        DeepestHasItsHalf(nets, t, m);
      } else {
        MeetingMeansNested(m, t, m.First());
      }
    }
    DistinctRepresentatives(Elements(nets), Elements(others));
    ListIsNoShorter(others);
  }

  lemma DisjointIsShortestIffNoHalves(nets: seq<Net>)
    requires PairwiseDisjoint(nets)
    ensures IsShortest(nets) <==> !HasHalves(nets)
  {
    if HasHalves(nets) {
      var m, n :| m in nets && n in nets && Halves(m, n);
      var i :| 0 <= i < |nets| && nets[i] == m;
      var j :| 0 <= j < |nets| && nets[j] == n;
      if i < j {
        HalvesCanBeJoined(nets, i, j);
      } else {
        HalvesCanBeJoined(nets, j, i);
      }
    } else {
      forall others: seq<Net> | SameCoverage(nets, others) ensures |nets| <= |others| {
        DisjointIsShortest(nets, others);
      }
    }
  }

  // No other network of the list contains it.
  ghost predicate Uncontained(nets: seq<Net>, n: Net) {
    n in nets && forall m | m in nets && IsSubnet(m, n) :: m == n
  }

  ghost predicate HasUncontainedHalves(nets: seq<Net>) {
    exists m, n | Uncontained(nets, m) && Uncontained(nets, n) :: Halves(m, n)
  }

  // The merged networks are the uncontained ones.
  lemma MergedIsUncontained(nets: seq<Net>, n: Net)
    requires ByLength(nets)
    ensures n in Merge(nets) <==> Uncontained(nets, n)
  {
    MergeIsDisjoint(nets);
    DisjointMeansDistinct(Merge(nets));
    if n in nets {
      MergeKeepsAParent(nets, n);
    }
    if n in Merge(nets) {
      forall m | m in nets && IsSubnet(m, n) ensures m == n {
        MergeKeepsAParent(nets, m);
        var m' :| m' in Merge(nets) && IsSubnet(m', m);
        SubnetIsCovered(m', m, n.First());
        assert n.Contains(n.First());
        assert !Disjoint(m', n);
        assert m' == n;
        SubnetsOfEachOther(m, n);
      }
    }
  }

  lemma SubnetsOfEachOther(m: Net, n: Net)
    requires IsSubnet(m, n) && IsSubnet(n, m)
    ensures m == n
  {
    BaseOfIndex(m);
    BaseOfIndex(n);
  }

  lemma UncontainedHalvesAreMerged(nets: seq<Net>)
    requires ByLength(nets)
    ensures HasHalves(Merge(nets)) <==> HasUncontainedHalves(nets)
  {
    forall n ensures n in Merge(nets) <==> Uncontained(nets, n) { MergedIsUncontained(nets, n); }
  }

  /** Merging gives the shortest list of any networks with the same coverage iff no two uncontained
      networks are the halves of one: only containment is merged. */
  lemma MergeIsShortestIffNoHalves(nets: seq<Net>)
    requires ByLength(nets)
    ensures IsShortest(Merge(nets)) <==> !HasUncontainedHalves(nets)
  {
    MergeIsDisjoint(nets);
    DisjointIsShortestIffNoHalves(Merge(nets));
    UncontainedHalvesAreMerged(nets);
  }

  lemma SameMembersSameHalves(s: seq<Net>, t: seq<Net>)
    requires forall n :: n in s <==> n in t
    ensures HasUncontainedHalves(s) <==> HasUncontainedHalves(t)
  {
    forall n ensures Uncontained(s, n) <==> Uncontained(t, n) {}
  }

  /** The same for text lists, in any order. */
  lemma OptimizedIsShortestIffNoHalves(c: Codec, ips: seq<string>)
    requires c.Valid() && |ips| > 1
    ensures IsShortest(Nets(c, Optimized(c, ips))) <==> !HasUncontainedHalves(Nets(c, ips))
  {
    TagsAreTags(c, ips);
    OutputReadsBack(c, Tags(c, ips), Merged(c, ips));
    SortedByLength(Nets(c, ips));
    MergeIsShortestIffNoHalves(Sort(Nets(c, ips), NotAfter));
    SameMembersSameHalves(Sort(Nets(c, ips), NotAfter), Nets(c, ips));
  }

  // ---------------------------------------------------------------------------------------
  // The loops
  // ---------------------------------------------------------------------------------------

  method OptimizeCIDRs(c: Codec, ips: seq<string>) returns (result: seq<string>)
    ensures result == Optimized(c, ips)
  {
    if |ips| <= 1 {
      return ips;
    }
    var tags, nets := Classify(c, ips);
    var merged := MergeAll(Sort(nets, NotAfter));
    result := tags;
    var i := 0;
    while i < |merged|
      invariant 0 <= i <= |merged|
      invariant result == tags + Printed(c, merged[..i])
    {
      assert merged[..i + 1][..i] == merged[..i];
      result := result + [c.print_(merged[i])];
      i := i + 1;
    }
    assert merged[..i] == merged;
  }

  method Classify(c: Codec, ips: seq<string>) returns (tags: seq<string>, nets: seq<Net>)
    ensures tags == Tags(c, ips) && nets == Nets(c, ips)
  {
    tags, nets := [], [];
    var seen: set<string> := {};
    var i := 0;
    while i < |ips|
      invariant 0 <= i <= |ips|
      invariant tags == Tags(c, ips[..i]) && nets == Nets(c, ips[..i])
      invariant forall e :: e in seen <==> e in tags
    {
      assert ips[..i + 1][..i] == ips[..i];
      var e := TrimSpace(ips[i]);
      if e != "" {
        if HasPrefix(e, GEOIP) {
          if e !in seen {
            seen, tags := seen + {e}, tags + [e];
          }
        } else {
          var parsed := c.parse(e);
          if parsed.Some? {
            nets := nets + [parsed.value];
          } else if e !in seen {
            seen, tags := seen + {e}, tags + [e];
          }
        }
      }
      i := i + 1;
    }
    assert ips[..i] == ips;
  }

  method MergeAll(nets: seq<Net>) returns (merged: seq<Net>)
    ensures merged == Merge(nets)
  {
    merged := [];
    var i := 0;
    while i < |nets|
      invariant 0 <= i <= |nets|
      invariant merged == Merge(nets[..i])
    {
      assert nets[..i + 1][..i] == nets[..i];
      var contained := false;
      var j := 0;
      while j < |merged| && !contained
        invariant 0 <= j <= |merged|
        invariant contained ==> IsCovered(merged, nets[i])
        invariant !contained ==> forall k | 0 <= k < j :: !IsSubnet(merged[k], nets[i])
      {
        if IsSubnet(merged[j], nets[i]) {
          contained := true;
        }
        j := j + 1;
      }
      if !contained {
        merged := merged + [nets[i]];
      }
      i := i + 1;
    }
    assert nets[..i] == nets;
  }
}
