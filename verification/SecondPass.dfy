/** A second pass of the optimizer over its own output (pkg/routing/optimizer.go). */
module SecondPass {
  import opened Domains
  import opened Sorting
  import opened Text

  // ---------------------------------------------------------------------------------------
  // How printed texts are read again
  // ---------------------------------------------------------------------------------------

  // The texts a list begins with that read as tags.
  function LeadingTags(ts: seq<string>): (m: nat)
    ensures m <= |ts|
  {
    if ts != [] && IsSpecial(ts[0]) then 1 + LeadingTags(ts[1..]) else 0
  }

  // The names that texts without a tag are read as.
  function Names(ts: seq<string>): (r: seq<string>)
    ensures |r| == |ts| && forall i | 0 <= i < |ts| :: r[i] == Clean(ts[i])
  {
    seq(|ts|, i requires 0 <= i < |ts| => Clean(ts[i]))
  }

  predicate Increasing(s: seq<string>) { forall i, j | 0 <= i < j < |s| :: LexLe(s[i], s[j]) && s[i] != s[j] }

  // Names that a pass leaves in their order.
  ghost predicate ReadInOrder(ts: seq<string>) {
    && (forall t | t in ts :: !IsSpecial(t) && Clean(t) != "")
    && Increasing(Names(ts)) && Antichain(Names(ts))
  }

  ghost predicate InParts(tags: seq<string>, texts: seq<string>) { Increasing(tags) && ReadInOrder(texts) }

  ghost predicate ReadInPlace(ts: seq<string>) {
    InParts(ts[..LeadingTags(ts)], ts[LeadingTags(ts)..])
  }

  // What one pass prints.
  function TagsOf(ds: seq<string>): seq<string> { Sort(Specials(ds), LexLe) }

  function TopTexts(ds: seq<string>): seq<string> { Printed(Labels(ds), Sort(Tops(ds), LexLe)) }

  ghost predicate StableParts(tags: seq<string>, texts: seq<string>) {
    var m := LeadingTags(texts);
    |tags| + |texts| <= 1 || InParts(tags + texts[..m], texts[m..])
  }

  /** At most one text is printed; or those texts of topmost names that read as tags come first and
      continue the tags in strict order, and the others are read as names in strict order, none empty
      and none above another. */
  ghost predicate Stable(ds: seq<string>) { StableParts(TagsOf(ds), TopTexts(ds)) }

  lemma {:induction false} LeadingTagsAreTags(ts: seq<string>)
    ensures forall i | 0 <= i < LeadingTags(ts) :: IsSpecial(ts[i])
    ensures LeadingTags(ts) < |ts| ==> !IsSpecial(ts[LeadingTags(ts)])
  {
    if ts != [] && IsSpecial(ts[0]) { LeadingTagsAreTags(ts[1..]); }
  }

  lemma {:induction false} LeadingTagsOfConcat(tags: seq<string>, ts: seq<string>)
    requires forall t | t in tags :: IsSpecial(t)
    ensures LeadingTags(tags + ts) == |tags| + LeadingTags(ts)
  {
    if tags == [] {
      assert tags + ts == ts;
    } else {
      LeadingTagsOfConcat(tags[1..], ts);
      assert (tags + ts)[1..] == tags[1..] + ts;
    }
  }

  // The condition on the whole output.
  lemma StableIsInPlace(tags: seq<string>, texts: seq<string>)
    requires forall t | t in tags :: IsSpecial(t)
    ensures StableParts(tags, texts) <==> |tags + texts| <= 1 || ReadInPlace(tags + texts)
  {
    LeadingTagsOfConcat(tags, texts);
    PartsAgree(tags, texts, tags + texts, LeadingTags(texts), LeadingTags(tags + texts));
  }

  lemma PartsAgree(tags: seq<string>, texts: seq<string>, out: seq<string>, m: nat, n: nat)
    requires out == tags + texts && m <= |texts| && n == |tags| + m
    ensures InParts(out[..n], out[n..]) <==> InParts(tags + texts[..m], texts[m..])
  {
    assert out[..n] == tags + texts[..m] && out[n..] == texts[m..];
  }

  // ---------------------------------------------------------------------------------------
  // Reading a list that is in place
  // ---------------------------------------------------------------------------------------

  // Texts as a pass prints them: trimmed, in lower case where they are not tags.
  predicate IsText(t: string) { t != "" && TrimSpace(t) == t && (IsSpecial(t) || IsLower(t)) }

  lemma LowerTextIsItself(t: string)
    requires IsLower(t)
    ensures Label(t) + Clean(t) == t
  {
    LabelSplits(t);
    var rest := t[|Label(t)|..];
    assert ToLower(rest) == rest;
  }

  // A list of tags and of names with labels, all apart, is read as it is written.
  ghost predicate ReadsAs(out: seq<string>, tags: seq<string>, texts: seq<string>) {
    && Specials(out) == tags && Roots(out) == Names(texts)
    && (forall d :: d in Labels(out) <==> d in Names(texts))
    && (forall t | t in texts :: Clean(t) in Labels(out) && Labels(out)[Clean(t)] == Label(t))
  }

  predicate AreTags(tags: seq<string>) { forall t | t in tags :: IsTag(t) }

  ghost predicate Apart(texts: seq<string>) {
    NoDuplicates(Names(texts)) && forall t | t in texts :: TrimSpace(t) == t && IsDomain(t)
  }

  lemma FrontStaysApart(texts: seq<string>)
    requires texts != [] && Apart(texts)
    ensures var init, t := texts[..|texts| - 1], texts[|texts| - 1];
            && texts == init + [t] && Apart(init)
            && TrimSpace(t) == t && IsDomain(t) && Clean(t) !in Names(init)
  {
    var init, t := texts[..|texts| - 1], texts[|texts| - 1];
    NamesOfOneMore(init, t);
    assert texts == init + [t] && t in texts;
    FrontIsApart(Names(texts));
    assert Names(init) == Names(texts)[..|init|];
  }

  // What holds of no texts, and of one more text if it is good, holds of good texts.
  lemma {:induction false} HoldsByTexts(holds: seq<string> -> bool, good: string -> bool, ts: seq<string>)
    requires holds([]) && forall init, t :: holds(init) && good(t) ==> holds(init + [t])
    requires forall t | t in ts :: good(t)
    ensures holds(ts)
  {
    if ts != [] {
      var init, t := ts[..|ts| - 1], ts[|ts| - 1];
      HoldsByTexts(holds, good, init);
      assert ts == init + [t];
    }
  }

  ghost predicate ReadAsWritten(tags: seq<string>, texts: seq<string>) {
    Apart(texts) ==> ReadsAs(tags + texts, tags, texts)
  }

  lemma OneMoreAsWritten(tags: seq<string>, init: seq<string>, t: string, texts: seq<string>)
    requires ReadAsWritten(tags, init) && texts == init + [t]
    ensures ReadAsWritten(tags, texts)
  {
    if Apart(texts) {
      FrontStaysApart(texts);
      assert texts[..|texts| - 1] == init;
      assert tags + texts == (tags + init) + [t];
      OnePlaceMore(tags, init, t, texts, tags + texts);
    }
  }

  lemma PlacesAreRead(tags: seq<string>, texts: seq<string>)
    requires NoDuplicates(tags) && AreTags(tags) && Apart(texts)
    ensures ReadsAs(tags + texts, tags, texts)
  {
    OnlyTagsAreRead(tags, tags + [], []);
    forall init, t | ReadAsWritten(tags, init) ensures ReadAsWritten(tags, init + [t]) {
      OneMoreAsWritten(tags, init, t, init + [t]);
    }
    HoldsByTexts(xs => ReadAsWritten(tags, xs), _ => true, texts);
  }

  lemma OnlyTagsAreRead(tags: seq<string>, out: seq<string>, texts: seq<string>)
    requires NoDuplicates(tags) && AreTags(tags) && out == tags + texts && texts == []
    ensures ReadsAs(out, tags, texts)
  {
    TagsReadBack(tags);
    assert out == tags;
  }

  lemma OnePlaceMore(tags: seq<string>, init: seq<string>, t: string, texts: seq<string>, longer: seq<string>)
    requires ReadsAs(tags + init, tags, init) && texts == init + [t] && longer == (tags + init) + [t]
    requires TrimSpace(t) == t && IsDomain(t) && Clean(t) !in Names(init)
    ensures ReadsAs(longer, tags, texts)
  {
    assert longer[..|longer| - 1] == tags + init;
    OneMoreDomain(longer, Clean(t), Label(t));
    NamesOfOneMore(init, t);
    LabelsGrow(init, t, texts, Labels(tags + init), Labels(longer));
  }

  lemma LabelsGrow(init: seq<string>, t: string, texts: seq<string>, before: map<string, string>,
                   after: map<string, string>)
    requires texts == init + [t] && Clean(t) !in Names(init) && after == before[Clean(t) := Label(t)]
    requires forall d :: d in before <==> d in Names(init)
    requires forall x | x in init :: Clean(x) in before && before[Clean(x)] == Label(x)
    ensures forall d :: d in after <==> d in Names(texts)
    ensures forall x | x in texts :: Clean(x) in after && after[Clean(x)] == Label(x)
  {
    NamesOfOneMore(init, t);
    forall x | x in init ensures Clean(x) != Clean(t) { NameOfMember(init, x); }
  }

  lemma NamesOfOneMore(ts: seq<string>, t: string)
    ensures Names(ts + [t]) == Names(ts) + [Clean(t)]
  {}

  lemma NameOfMember(ts: seq<string>, t: string)
    requires t in ts
    ensures Clean(t) in Names(ts)
  {
    var i :| 0 <= i < |ts| && ts[i] == t;
    assert Names(ts)[i] == Clean(t);
  }

  // Names in order that lie apart are kept as they are.
  lemma KeptInOrder(out: seq<string>)
    requires Sorted(Roots(out), LexLe) && Antichain(Roots(out))
    ensures Kept(out) == Roots(out)
  {
    var names := Roots(out);
    var byDots := Sort(names, RootFirst);
    LexIsAnOrder();
    SortPermutes(names, RootFirst);
    AntichainOfPermutation(names, byDots);
    RetainOfAntichain(byDots);
    SortPermutes(byDots, LexLe);
    SortSorts(byDots, LexLe);
    SortedIsUnique(Sort(byDots, LexLe), names, LexLe);
  }

  lemma {:induction false} PrintedAsRead(labels: map<string, string>, texts: seq<string>)
    requires forall t | t in texts :: IsLower(t) && Clean(t) in labels && labels[Clean(t)] == Label(t)
    ensures Printed(labels, Names(texts)) == texts
  {
    if texts != [] {
      var init, t := texts[..|texts| - 1], texts[|texts| - 1];
      assert texts == init + [t] && Names(texts) == Names(init) + [Clean(t)];
      PrintedAsRead(labels, init);
      LowerTextIsItself(t);
      assert Names(texts)[..|texts| - 1] == Names(init);
    }
  }

  ghost predicate AreTexts(ts: seq<string>) { forall t | t in ts :: IsText(t) }

  // The two parts of a list that is in place.
  lemma PartsInPlace(out: seq<string>, tags: seq<string>, texts: seq<string>)
    requires ReadInPlace(out) && AreTexts(out) && tags == out[..LeadingTags(out)] && texts == out[LeadingTags(out)..]
    ensures out == tags + texts && NoDuplicates(tags) && Sorted(tags, LexLe) && AreTags(tags)
    ensures Apart(texts) && Sorted(Names(texts), LexLe) && Antichain(Names(texts))
    ensures forall t | t in texts :: IsLower(t)
  {
    LeadingTagsAreTags(out);
    forall t | t in texts ensures t in out {}
    forall t | t in tags ensures t in out && IsTag(t) {}
  }

  lemma PartsAreFixed(out: seq<string>, tags: seq<string>, texts: seq<string>)
    requires |out| > 1 && ReadsAs(out, tags, texts) && out == tags + texts
    requires Sorted(tags, LexLe) && Sorted(Names(texts), LexLe) && Antichain(Names(texts))
    requires forall t | t in texts :: IsLower(t)
    ensures Optimized(out) == out
  {
    KeptInOrder(out);
    PrintedAsRead(Labels(out), texts);
    SortedIsFixed(tags, LexLe);
  }

  lemma InPlaceIsFixed(out: seq<string>)
    requires |out| > 1 && ReadInPlace(out) && AreTexts(out)
    ensures Optimized(out) == out
  {
    var tags, texts := out[..LeadingTags(out)], out[LeadingTags(out)..];
    PartsInPlace(out, tags, texts);
    PlacesAreRead(tags, texts);
    PartsAreFixed(out, tags, texts);
  }

  // ---------------------------------------------------------------------------------------
  // What a fixed output looks like
  // ---------------------------------------------------------------------------------------

  lemma TextIsTight(ds: seq<string>, d: string)
    requires d in Kept(ds)
    ensures IsLower(OutputText(Labels(ds), d)) && OutputText(Labels(ds), d) != ""
    ensures TrimSpace(OutputText(Labels(ds), d)) == OutputText(Labels(ds), d)
  {
    OutputIsLower(ds, d);
    InRoots(ds, d);
    var entry := LabelComesFromAnEntry(ds, d);
    var e := TrimSpace(entry);
    TrimIsTight(entry);
    LabelSplits(e);
    OutputIsTight(Label(e), e[|Label(e)|..]);
    TightIsTrimmed(Label(e) + Clean(e));
  }

  lemma OutputIsText(ds: seq<string>)
    requires |ds| > 1
    ensures AreTexts(Optimized(ds))
  {
    forall t | t in Optimized(ds) ensures IsText(t) {
      if !IsTag(t) {
        var p := NameOfOutput(ds, t);
        TextIsTight(ds, p);
      }
    }
  }

  ghost predicate ReadBack(ts: seq<string>, names: seq<string>) {
    Names(ts) == names && forall t | t in ts :: !IsSpecial(t) && Clean(t) != ""
  }

  ghost predicate AllReadBack(labels: map<string, string>, names: seq<string>) {
    forall d | d in names :: ReadsBack(labels, d)
  }

  lemma OneMoreReadBack(labels: map<string, string>, init: seq<string>, d: string, names: seq<string>)
    requires ReadBack(Printed(labels, init), init) && ReadsBack(labels, d) && names == init + [d]
    ensures ReadBack(Printed(labels, names), names)
  {
    assert names[..|names| - 1] == init;
    NamesOfOneMore(Printed(labels, init), OutputText(labels, d));
  }

  lemma NothingReadBack(labels: map<string, string>, names: seq<string>)
    requires names == []
    ensures ReadBack(Printed(labels, names), names)
  {}

  lemma PrintedReadBack(labels: map<string, string>, names: seq<string>)
    requires AllReadBack(labels, names)
    ensures ReadBack(Printed(labels, names), names)
  {
    NothingReadBack(labels, []);
    forall init, d | ReadBack(Printed(labels, init), init) && ReadsBack(labels, d)
      ensures ReadBack(Printed(labels, init + [d]), init + [d])
    {
      OneMoreReadBack(labels, init, d, init + [d]);
    }
    HoldsByTexts(xs => ReadBack(Printed(labels, xs), xs), d => ReadsBack(labels, d), names);
  }

  // Where the topmost names read back, so does the whole output.
  lemma LegibleIsInPlace(ds: seq<string>)
    requires |ds| > 1 && Legible(ds)
    ensures ReadInPlace(Optimized(ds))
  {
    var tags, texts := Sort(Specials(ds), LexLe), Printed(Labels(ds), Kept(ds));
    SpecialsFacts(ds);
    LexIsAnOrder();
    SortPermutes(Specials(ds), LexLe);
    SortSorts(Specials(ds), LexLe);
    SortKeepsNoDuplicates(Specials(ds));
    KeptFacts(ds);
    AntichainHasNoDuplicates(Kept(ds));
    forall d | d in Kept(ds) ensures ReadsBack(Labels(ds), d) {
      KeptIsTop(ds, d);
      KeptReadsBack(ds, d);
    }
    PrintedReadBack(Labels(ds), Kept(ds));
    NoLeadingTag(texts);
    LeadingTagsOfConcat(tags, texts);
    assert (tags + texts)[..|tags|] == tags && (tags + texts)[|tags|..] == texts;
  }

  lemma NoLeadingTag(ts: seq<string>)
    requires forall t | t in ts :: !IsSpecial(t)
    ensures LeadingTags(ts) == 0
  {}

  /** On a list of more than one entry a second pass changes nothing iff the list is stable: at most one
      text is printed, or the texts are read again in their places. */
  lemma SecondPassKeepsIffStable(ds: seq<string>)
    requires |ds| > 1
    ensures Optimized(Optimized(ds)) == Optimized(ds) <==> Stable(ds)
  {
    var out := Optimized(ds);
    OutputIsTagsAndTops(ds);
    SpecialsFacts(ds);
    SortPermutes(Specials(ds), LexLe);
    StableIsInPlace(TagsOf(ds), TopTexts(ds));
    if |out| > 1 {
      OutputIsText(ds);
      OutputIsLegible(ds);
      if ReadInPlace(out) { InPlaceIsFixed(out); }
      if Optimized(out) == out { LegibleIsInPlace(out); }
    }
  }

  /** A second pass changes nothing when the topmost names read back. */
  lemma OptimizeIsIdempotent(ds: seq<string>)
    requires |ds| > 1 ==> Legible(ds)
    ensures Optimized(Optimized(ds)) == Optimized(ds)
  {
    if |ds| > 1 && |Optimized(ds)| > 1 {
      LegibleIsInPlace(ds);
      OutputIsText(ds);
      InPlaceIsFixed(Optimized(ds));
    }
  }

  /** On any list a third pass changes nothing. */
  lemma OptimizeSettles(ds: seq<string>)
    ensures var twice := Optimized(Optimized(ds)); Optimized(twice) == twice
  {
    if |ds| > 1 {
      if |Optimized(ds)| > 1 { OutputIsLegible(ds); }
      OptimizeIsIdempotent(Optimized(ds));
    }
  }

  // ---------------------------------------------------------------------------------------
  // Lists that are not stable
  // ---------------------------------------------------------------------------------------

  // A bare entry that is lowered to the label `domain:` and the name of the second entry.
  predicate LooksLabelled(a: string, b: string) {
    && TrimSpace(a) == a && TrimSpace(b) == b && IsDomain(a) && IsDomain(b) && Label(a) == "" && Label(b) == ""
    && Clean(a) == "domain:" + b && Clean(b) == b && TrimSpace(Clean(a)) == Clean(a)
  }

  lemma LabelIsNoParent(x: string, b: string)
    requires x == "domain:" + b && b != ""
    ensures !Below(x, b) && !Below(b, x)
  {
    assert x[6..][0] == ':' && ("." + b)[0] == '.' && |x| - |b| - 1 == 6;
  }

  lemma BothAreKept(a: string, b: string)
    requires LooksLabelled(a, b)
    ensures var ds := [a, b];
            && (forall d :: d in Kept(ds) <==> d == Clean(a) || d == b)
            && Specials(ds) == [] && Labels(ds) == map[Clean(a) := "", b := ""]
  {
    var ds, x := [a, b], Clean(a);
    OneMoreDomain([a], x, "");
    OneMoreDomain(ds, b, "");
    assert ds[..1] == [a] && [a][..0] == [];
    assert Roots(ds) == [x, b];
    KeptFacts(ds);
    LabelIsNoParent(x, b);
    assert x in Roots(ds) && b in Roots(ds);
    var p :| p in Kept(ds) && Below(x, p);
    var q :| q in Kept(ds) && Below(b, q);
  }

  lemma BothAreWritten(a: string, b: string)
    requires LooksLabelled(a, b)
    ensures forall t :: t in Optimized([a, b]) <==> t == Clean(a) || t == b
  {
    var ds := [a, b];
    BothAreKept(a, b);
    PrintedBare(Labels(ds), Kept(ds));
    assert Sort(Specials(ds), LexLe) + Kept(ds) == Kept(ds);
  }

  lemma {:induction false} PrintedBare(labels: map<string, string>, ds: seq<string>)
    requires forall d | d in ds :: d in labels && labels[d] == ""
    ensures Printed(labels, ds) == ds
  {
    if ds != [] {
      PrintedBare(labels, ds[..|ds| - 1]);
      assert "" + ds[|ds| - 1] == ds[|ds| - 1] && ds == ds[..|ds| - 1] + [ds[|ds| - 1]];
    }
  }

  lemma BothReadAlike(out: string, a: string, b: string)
    requires LooksLabelled(a, b) && (out == Clean(a) || out == b)
    ensures TrimSpace(out) == out && IsDomain(out) && Clean(out) == b
  {
    LabelReadsBack("domain:", b);
    LowerIsIdempotent(b);
    assert ToLower(b) == b by { assert b[0..] == b; }
  }

  lemma OneIsKept(out: seq<string>, b: string)
    requires out != [] && forall t | t in out :: TrimSpace(t) == t && IsDomain(t) && Clean(t) == b
    ensures |Kept(out)| == 1 && Specials(out) == []
  {
    RootsFacts(out);
    SpecialsFacts(out);
    KeptFacts(out);
    assert out[0] in out && b in Roots(out) && IsBelowSome(b, Kept(out));
    SomeMember(Specials(out));
    AntichainHasNoDuplicates(Kept(out));
    forall i | 0 <= i < |Kept(out)| ensures Kept(out)[i] == b { assert Kept(out)[i] in Kept(out); }
    assert Kept(out)[0] == b && Kept(out)[|Kept(out)| - 1] == b;
  }

  lemma {:induction false} PrintedIsAsLong(labels: map<string, string>, ds: seq<string>)
    ensures |Printed(labels, ds)| == |ds|
  {
    if ds != [] { PrintedIsAsLong(labels, ds[..|ds| - 1]); }
  }

  /** A second pass may drop an entry: "Domain:x.org" is put out as "domain:x.org", which the next pass
      takes for x.org with a label. */
  lemma SecondPassDropsAnEntry(a: string, b: string)
    requires LooksLabelled(a, b)
    ensures |Optimized(Optimized([a, b]))| < |Optimized([a, b])|
  {
    var out, x := Optimized([a, b]), Clean(a);
    BothAreWritten(a, b);
    assert x in out && b in out && x != b;
    TwoMembers(out, x, b);
    forall t | t in out ensures TrimSpace(t) == t && IsDomain(t) && Clean(t) == b { BothReadAlike(t, a, b); }
    OneIsKept(out, b);
    PrintedIsAsLong(Labels(out), Kept(out));
  }

  lemma SomeMember(s: seq<string>)
    ensures s != [] ==> exists x :: x in s
  {
    if s != [] { assert s[0] in s; }
  }

  lemma TwoMembers(s: seq<string>, x: string, y: string)
    requires x in s && y in s && x != y
    ensures |s| > 1
  {}

  // Two bare entries of which the first is lowered to the label `domain:` and a name apart from the
  // second, which it precedes with the label and follows without.
  predicate LooksLabelledApart(a: string, name: string, b: string) {
    && TrimSpace(a) == a && TrimSpace(b) == b && IsDomain(a) && IsDomain(b) && Label(a) == "" && Label(b) == ""
    && Clean(a) == "domain:" + name && Clean(b) == b && TrimSpace(Clean(a)) == Clean(a)
    && LexLe(Clean(a), b) && LexLe(b, name) && name != ""
    && !Below(name, b) && !Below(b, name) && !Below(Clean(a), b) && !Below(b, Clean(a))
  }

  lemma PairInOrder(s: seq<string>, pair: seq<string>, p: string, q: string)
    requires pair == [p, q] && p != q && LexLe(p, q)
    requires NoDuplicates(s) && Sorted(s, LexLe) && forall d :: d in s <==> d == p || d == q
    ensures s == pair
  {
    SameMembersSameBag(s, pair);
    LexIsAnOrder();
    SortedIsUnique(s, pair, LexLe);
  }

  lemma PairMembers(roots: seq<string>, kept: seq<string>, p: string, q: string)
    requires (forall d :: d in roots <==> d == p || d == q) && !Below(p, q) && !Below(q, p)
    requires (forall d | d in kept :: d in roots) && forall d | d in roots :: IsBelowSome(d, kept)
    ensures forall d :: d in kept <==> d == p || d == q
  {
    assert p in roots && q in roots && IsBelowSome(p, kept) && IsBelowSome(q, kept);
    var x :| x in kept && Below(p, x);
    var y :| y in kept && Below(q, y);
  }

  // A list that names two domains apart keeps both in order.
  lemma PairIsKept(ds: seq<string>, p: string, q: string)
    requires (forall d :: d in Roots(ds) <==> d == p || d == q) && !Below(p, q) && !Below(q, p) && LexLe(p, q)
    ensures Kept(ds) == [p, q]
  {
    KeptFacts(ds);
    PairMembers(Roots(ds), Kept(ds), p, q);
    AntichainHasNoDuplicates(Kept(ds));
    PairInOrder(Kept(ds), [p, q], p, q);
  }

  lemma PairIsPrinted(labels: map<string, string>, pair: seq<string>, p: string, q: string)
    requires pair == [p, q]
    ensures Printed(labels, pair) == [OutputText(labels, p), OutputText(labels, q)]
  {
    assert pair[..|pair| - 1] == [p];
    PrintOne(labels, p);
  }

  // What two bare or labelled names are read as.
  lemma PairIsRead(ds: seq<string>, a: string, b: string)
    requires ds == [a, b] && TrimSpace(a) == a && TrimSpace(b) == b && IsDomain(a) && IsDomain(b)
    requires Clean(a) != Clean(b)
    ensures Roots(ds) == [Clean(a), Clean(b)] && Specials(ds) == []
    ensures Labels(ds) == map[Clean(a) := Label(a), Clean(b) := Label(b)]
  {
    OneMoreDomain([a], Clean(a), Label(a));
    OneMoreDomain(ds, Clean(b), Label(b));
    assert ds[..|ds| - 1] == [a] && [a][..0] == [];
  }

  lemma FirstPassOfPair(ds: seq<string>, a: string, name: string, b: string)
    requires ds == [a, b] && LooksLabelledApart(a, name, b)
    ensures Optimized(ds) == [Clean(a), b]
  {
    var x := Clean(a);
    PairIsRead(ds, a, b);
    PairIsKept(ds, x, b);
    PairIsPrinted(Labels(ds), Kept(ds), x, b);
    assert "" + x == x && "" + b == b;
  }

  lemma SecondPassOfPair(out: seq<string>, x: string, name: string, b: string)
    requires out == [x, b] && x == "domain:" + name && name != "" && ToLower(name) == name && TrimSpace(x) == x
    requires TrimSpace(b) == b && IsDomain(b) && Label(b) == "" && Clean(b) == b
    requires !Below(name, b) && !Below(b, name) && LexLe(b, name)
    ensures Optimized(out) == [b, x]
  {
    LabelReadsBack("domain:", name);
    PairIsRead(out, x, b);
    PairIsKept(out, b, name);
    PairIsPrinted(Labels(out), Kept(out), b, name);
    assert "" + b == b;
  }

  /** Or move one: "Domain:z.org" and "y.org" are put out in this order, and then in the other. */
  lemma SecondPassMovesAnEntry(a: string, name: string, b: string)
    requires LooksLabelledApart(a, name, b)
    ensures Optimized([a, b]) == [Clean(a), b] && Optimized(Optimized([a, b])) == [b, Clean(a)]
  {
    FirstPassOfPair([a, b], a, name, b);
    var x := Clean(a);
    assert ToLower(x) == x by { assert a[0..] == a; LowerIsIdempotent(a); }
    assert ToLower(name) == name by { assert x[7..] == name; }
    SecondPassOfPair([x, b], x, name, b);
  }
}
