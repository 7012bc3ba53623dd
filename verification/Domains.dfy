/** Compression of domain lists (pkg/routing/optimizer.go).

    Entries are tags (`geosite:`, `regexp:`, `regex:`, `keyword:`, `full:`) or domains, which may
    carry a `domain:` or `suffix:` label.  The meaning of tags is a parameter.  A domain matches
    itself and its subdomains; sing-box reads the label `domain:` as an exact match, and that
    reading is treated separately. */
module Domains {
  import opened Text
  import opened Sorting

  predicate IsSpecial(e: string) {
    || HasPrefix(e, "geosite:") || HasPrefix(e, "regexp:") || HasPrefix(e, "regex:")
    || HasPrefix(e, "keyword:") || HasPrefix(e, "full:")
  }

  function Label(e: string): string {
    if HasPrefix(e, "domain:") then "domain:" else if HasPrefix(e, "suffix:") then "suffix:" else ""
  }

  // The domain named by a trimmed entry.
  function Clean(e: string): string { ToLower(e[|Label(e)|..]) }

  predicate IsDomain(e: string) {
    e != "" && !IsSpecial(e) && Clean(e) != ""
  }

  // `h` is `d` or one of its subdomains.
  predicate Below(h: string, d: string) {
    h == d || HasSuffix(h, "." + d)
  }

  function Dots(s: string): nat {
    if s == "" then 0 else (if s[0] == '.' then 1 else 0) + Dots(s[1..])
  }

  predicate LexLe(a: string, b: string) {
    a == "" || (b != "" && (a[0] < b[0] || (a[0] == b[0] && LexLe(a[1..], b[1..]))))
  }

  // Fewer labels first.
  predicate RootFirst(a: string, b: string) {
    if Dots(a) != Dots(b) then Dots(a) < Dots(b) else LexLe(a, b)
  }

  // ---------------------------------------------------------------------------------------
  // The optimized list
  // ---------------------------------------------------------------------------------------

  function AddNew(s: seq<string>, x: string): seq<string> { if x in s then s else s + [x] }

  function Specials(ds: seq<string>): seq<string> {
    if ds == [] then []
    else
      var before, e := Specials(ds[..|ds| - 1]), TrimSpace(ds[|ds| - 1]);
      if e != "" && IsSpecial(e) then AddNew(before, e) else before
  }

  function Roots(ds: seq<string>): seq<string> {
    if ds == [] then []
    else
      var before, e := Roots(ds[..|ds| - 1]), TrimSpace(ds[|ds| - 1]);
      if IsDomain(e) then before + [Clean(e)] else before
  }

  // The label of each domain's first entry.
  function Labels(ds: seq<string>): map<string, string> {
    if ds == [] then map[]
    else
      var before, e := Labels(ds[..|ds| - 1]), TrimSpace(ds[|ds| - 1]);
      if IsDomain(e) && Clean(e) !in before then before[Clean(e) := Label(e)] else before
  }

  predicate IsBelowSome(d: string, kept: seq<string>) {
    exists p | p in kept :: Below(d, p)
  }

  function Retain(ds: seq<string>): (r: seq<string>)
    ensures forall d | d in r :: d in ds
  {
    if ds == [] then []
    else
      var kept, d := Retain(ds[..|ds| - 1]), ds[|ds| - 1];
      if IsBelowSome(d, kept) then kept else kept + [d]
  }

  function Kept(ds: seq<string>): seq<string> {
    Sort(Retain(Sort(Roots(ds), RootFirst)), LexLe)
  }

  // A name that no other lies above.
  predicate IsTop(ds: seq<string>, d: string) {
    d in Roots(ds) && forall r | r in Roots(ds) && Below(d, r) :: r == d
  }

  // The text of a kept domain.
  function OutputText(labels: map<string, string>, d: string): string {
    (if d in labels then labels[d] else "") + d
  }

  function Printed(labels: map<string, string>, ds: seq<string>): seq<string> {
    if ds == [] then []
    else Printed(labels, ds[..|ds| - 1]) + [OutputText(labels, ds[|ds| - 1])]
  }

  function Optimized(ds: seq<string>): seq<string> {
    if |ds| <= 1 then ds else Sort(Specials(ds), LexLe) + Printed(Labels(ds), Kept(ds))
  }

  // ---------------------------------------------------------------------------------------
  // Orders
  // ---------------------------------------------------------------------------------------

  lemma LexIsTotal(a: string, b: string)
    ensures LexLe(a, b) || LexLe(b, a)
  {}

  lemma LexIsTransitive(a: string, b: string, c: string)
    requires LexLe(a, b) && LexLe(b, c)
    ensures LexLe(a, c)
  {}

  lemma {:induction false} LexIsAntisymmetric(a: string, b: string)
    requires LexLe(a, b) && LexLe(b, a)
    ensures a == b
  {
    if a != "" {
      LexIsAntisymmetric(a[1..], b[1..]);
      assert a == [a[0]] + a[1..] && b == [b[0]] + b[1..];
    }
  }

  lemma LexIsAnOrder()
    ensures Total(LexLe) && Transitive(LexLe) && Antisymmetric(LexLe)
  {
    forall a, b ensures LexLe(a, b) || LexLe(b, a) { LexIsTotal(a, b); }
    forall a, b, c | LexLe(a, b) && LexLe(b, c) ensures LexLe(a, c) { LexIsTransitive(a, b, c); }
    forall a, b | LexLe(a, b) && LexLe(b, a) ensures a == b { LexIsAntisymmetric(a, b); }
  }

  lemma RootFirstIsAnOrder()
    ensures Total(RootFirst) && Transitive(RootFirst)
  {
    LexIsAnOrder();
    forall a, b ensures RootFirst(a, b) || RootFirst(b, a) { LexIsTotal(a, b); }
    forall a, b, c | RootFirst(a, b) && RootFirst(b, c) ensures RootFirst(a, c) {
      if Dots(a) == Dots(b) == Dots(c) { LexIsTransitive(a, b, c); }
    }
  }

  // ---------------------------------------------------------------------------------------
  // Subdomains
  // ---------------------------------------------------------------------------------------

  lemma BelowIsTransitive(a: string, b: string, c: string)
    requires Below(a, b) && Below(b, c)
    ensures Below(a, c)
  {
    if a != b && b != c {
      var n := |b| - |c| - 1;
      assert b[n..] == "." + c;
      assert a[|a| - |b|..] == b;
      assert a[|a| - |c| - 1..] == b[n..];
    }
  }

  lemma {:induction false} DotsAdd(a: string, b: string)
    ensures Dots(a + b) == Dots(a) + Dots(b)
  {
    if a == "" {
      assert a + b == b;
    } else {
      DotsAdd(a[1..], b);
      assert (a + b)[1..] == a[1..] + b;
    }
  }

  lemma StrictlyBelowHasMoreDots(a: string, b: string)
    requires Below(a, b) && a != b
    ensures Dots(a) > Dots(b)
  {
    var n := |a| - |b| - 1;
    assert a == a[..n] + ("." + b);
    DotsAdd(a[..n], "." + b);
    assert ("." + b)[1..] == b;
  }

  // Two domains above the same host are comparable.
  lemma AboveIsAChain(h: string, p: string, q: string)
    requires Below(h, p) && Below(h, q)
    ensures Below(p, q) || Below(q, p)
  {
    if |p| < |q| { LongerIsBelow(h, q, p); } else { LongerIsBelow(h, p, q); }
  }

  lemma LongerIsBelow(h: string, p: string, q: string)
    requires Below(h, p) && Below(h, q) && |p| >= |q|
    ensures Below(p, q)
  {
    assert h[|h| - |p|..] == p && h[|h| - |q|..] == q;
    if |p| == |q| {
      assert p == q;
    } else {
      assert h[|h| - |q| - 1] == '.';
      assert p[|p| - |q| - 1..] == "." + q;
    }
  }

  ghost predicate Antichain(ds: seq<string>) {
    forall i, j | 0 <= i < |ds| && 0 <= j < |ds| && i != j :: !Below(ds[i], ds[j])
  }

  lemma {:induction false} RetainKeepsAParent(ds: seq<string>, d: string)
    requires d in ds
    ensures exists p | p in Retain(ds) :: Below(d, p)
  {
    var init, last := ds[..|ds| - 1], ds[|ds| - 1];
    if d != last {
      RetainKeepsAParent(init, d);
      var p :| p in Retain(init) && Below(d, p);
      assert p in Retain(ds);
    } else if !IsBelowSome(d, Retain(init)) {
      assert d in Retain(ds) && Below(d, d);
    }
  }

  lemma {:induction false} RetainIsAntichain(ds: seq<string>)
    requires Sorted(ds, RootFirst)
    ensures Antichain(Retain(ds))
  {
    if ds != [] {
      var init, d := ds[..|ds| - 1], ds[|ds| - 1];
      RetainIsAntichain(init);
      var kept := Retain(init);
      if !IsBelowSome(d, kept) {
        forall p | p in kept ensures !Below(p, d) && !Below(d, p) {
          assert p in init && RootFirst(p, d);
          if Below(p, d) && p != d { StrictlyBelowHasMoreDots(p, d); }
        }
      }
    }
  }

  lemma {:induction false} RetainOfAntichain(ds: seq<string>)
    requires Antichain(ds)
    ensures Retain(ds) == ds
  {
    if ds != [] {
      RetainOfAntichain(ds[..|ds| - 1]);
      assert ds == ds[..|ds| - 1] + [ds[|ds| - 1]];
    }
  }

  // Being an antichain does not depend on the order of the list.
  lemma AntichainOfPermutation(s: seq<string>, t: seq<string>)
    requires Antichain(s) && multiset(s) == multiset(t)
    ensures Antichain(t)
  {
    forall i, j | 0 <= i < |t| && 0 <= j < |t| && i != j ensures !Below(t[i], t[j]) {
      assert t[i] in multiset(s) && t[j] in multiset(s);
      var k :| 0 <= k < |s| && s[k] == t[i];
      var l :| 0 <= l < |s| && s[l] == t[j];
      if k == l { TwoOccurrences(t, i, j); TwoPlaces(s, k); }
    }
  }

  lemma TwoOccurrences(t: seq<string>, i: nat, j: nat)
    requires i < |t| && j < |t| && i != j && t[i] == t[j]
    ensures multiset(t)[t[i]] >= 2
  {
    var a, b := if i < j then i else j, if i < j then j else i;
    assert t == t[..a] + [t[a]] + t[a + 1..b] + [t[b]] + t[b + 1..];
  }

  // An element that occurs twice sits at another place as well.
  lemma TwoPlaces(s: seq<string>, k: nat)
    requires k < |s| && multiset(s)[s[k]] >= 2
    ensures exists l :: 0 <= l < |s| && l != k && s[l] == s[k]
  {
    assert s == s[..k] + [s[k]] + s[k + 1..];
    var others := s[..k] + s[k + 1..];
    assert multiset(s) == multiset(others) + multiset{s[k]};
    assert s[k] in multiset(others);
    var m :| 0 <= m < |others| && others[m] == s[k];
    var l := if m < k then m else m + 1;
    assert s[l] == s[k];
  }

  lemma KeptFacts(ds: seq<string>)
    ensures Antichain(Kept(ds)) && Sorted(Kept(ds), LexLe)
    ensures forall d | d in Kept(ds) :: d in Roots(ds)
    ensures forall d | d in Roots(ds) :: IsBelowSome(d, Kept(ds))
  {
    RootFirstIsAnOrder();
    LexIsAnOrder();
    var sorted := Sort(Roots(ds), RootFirst);
    SortSorts(Roots(ds), RootFirst);
    SortPermutes(Roots(ds), RootFirst);
    RetainIsAntichain(sorted);
    SortPermutes(Retain(sorted), LexLe);
    SortSorts(Retain(sorted), LexLe);
    AntichainOfPermutation(Retain(sorted), Kept(ds));
    forall d | d in Roots(ds) ensures IsBelowSome(d, Kept(ds)) {
      RetainKeepsAParent(sorted, d);
      var p :| p in Retain(sorted) && Below(d, p);
      assert p in Kept(ds);
    }
  }

  // ---------------------------------------------------------------------------------------
  // Matching
  // ---------------------------------------------------------------------------------------

  // Whether an entry matches a host; with `exact`, the label `domain:` asks for the very name.
  predicate EntryHits(tag: (string, string) -> bool, exact: bool, entry: string, h: string) {
    var e := TrimSpace(entry);
    if e != "" && IsSpecial(e) then tag(e, h)
    else IsDomain(e) && if exact && Label(e) == "domain:" then h == Clean(e) else Below(h, Clean(e))
  }

  predicate ListHits(tag: (string, string) -> bool, exact: bool, ds: seq<string>, h: string) {
    exists e | e in ds :: EntryHits(tag, exact, e, h)
  }

  // The entry reads back after it was lowered: its name does not itself start like a tag or a label.
  predicate Plain(entry: string) {
    var e := TrimSpace(entry);
    IsDomain(e) && Label(e) == "" ==> !IsSpecial(Clean(e)) && Label(Clean(e)) == ""
  }

  // Every topmost name that carries no label reads back.
  predicate Legible(ds: seq<string>) { forall d | d in Roots(ds) && IsTop(ds, d) :: LegibleName(Labels(ds), d) }

  predicate LegibleName(labels: map<string, string>, d: string) {
    d in labels && labels[d] == "" ==> !IsSpecial(d) && Label(d) == ""
  }

  lemma LowerIsIdempotent(s: string)
    ensures ToLower(ToLower(s)) == ToLower(s)
  {}

  lemma LowerKeepsSpaces(c: char)
    ensures IsSpace(LowerChar(c)) <==> IsSpace(c)
  {}

  lemma OutputIsTight(mark: string, name: string)
    requires Tight(mark + name) && name != ""
    ensures Tight(mark + ToLower(name))
  {
    var s, t := mark + name, mark + ToLower(name);
    LowerKeepsSpaces(name[|name| - 1]);
    LowerKeepsSpaces(name[0]);
    assert s[|s| - 1] == name[|name| - 1] && t[|t| - 1] == LowerChar(name[|name| - 1]);
    assert mark == "" ==> s[0] == name[0] && t[0] == LowerChar(name[0]);
    assert mark != "" ==> s[0] == t[0] == mark[0];
  }

  lemma LabelSplits(e: string)
    ensures e == Label(e) + e[|Label(e)|..]
  {}

  // Label and lowered name of a plain entry read back as themselves.
  lemma PrintedReadsBack(entry: string)
    requires Plain(entry) && IsDomain(TrimSpace(entry))
    ensures var e := TrimSpace(entry);
            var out := Label(e) + Clean(e);
            TrimSpace(out) == out && IsDomain(out) && Label(out) == Label(e) && Clean(out) == Clean(e)
  {
    var e := TrimSpace(entry);
    var l, d := Label(e), Clean(e);
    var out := l + d;
    TrimIsTight(entry);
    LabelSplits(e);
    OutputIsTight(l, e[|l|..]);
    TightIsTrimmed(out);
    LowerIsIdempotent(e[|l|..]);
    if l != "" {
      assert out[|l|..] == d;
      LabelReadsBack(l, d);
    } else {
      assert out == d;
    }
  }

  lemma LabelReadsBack(mark: string, name: string)
    requires mark == "domain:" || mark == "suffix:"
    ensures Label(mark + name) == mark && (mark + name)[|mark|..] == name && !IsSpecial(mark + name)
  {
    var s := mark + name;
    assert s[0] == mark[0] && s[1] == mark[1] && s[..7] == mark;
  }

  // A tag that reads back as itself.
  predicate IsTag(e: string) { e != "" && IsSpecial(e) && TrimSpace(e) == e }

  // A kept domain whose text reads back with its label.
  predicate ReadsBack(labels: map<string, string>, d: string) {
    var out := OutputText(labels, d);
    d in labels && TrimSpace(out) == out && IsDomain(out) && Label(out) == labels[d] && Clean(out) == d
  }

  ghost predicate NoDuplicates(s: seq<string>) {
    forall i, j | 0 <= i < j < |s| :: s[i] != s[j]
  }

  lemma {:induction false} SpecialsFacts(ds: seq<string>)
    ensures NoDuplicates(Specials(ds))
    ensures forall e | e in Specials(ds) :: IsTag(e)
    ensures forall x :: x in Specials(ds) <==> x != "" && IsSpecial(x) && exists e :: e in ds && TrimSpace(e) == x
  {
    if ds != [] {
      var init, entry := ds[..|ds| - 1], ds[|ds| - 1];
      SpecialsFacts(init);
      assert ds == init + [entry];
      TrimIsTight(entry);
      TightIsTrimmed(TrimSpace(entry));
    }
  }

  lemma {:induction false} RootsFacts(ds: seq<string>)
    ensures forall d :: d in Roots(ds) <==> exists e :: e in ds && IsDomain(TrimSpace(e)) && Clean(TrimSpace(e)) == d
    ensures Labels(ds).Keys == (set d | d in Roots(ds))
  {
    if ds != [] {
      var init, entry := ds[..|ds| - 1], ds[|ds| - 1];
      RootsFacts(init);
      assert ds == init + [entry];
    }
  }

  // A recorded label belongs to an entry of that name.
  lemma {:induction false} LabelComesFromAnEntry(ds: seq<string>, d: string) returns (e: string)
    requires d in Labels(ds)
    ensures e in ds && IsDomain(TrimSpace(e)) && Clean(TrimSpace(e)) == d && Label(TrimSpace(e)) == Labels(ds)[d]
  {
    var init := ds[..|ds| - 1];
    if d in Labels(init) {
      e := LabelComesFromAnEntry(init, d);
    } else {
      e := ds[|ds| - 1];
    }
  }

  lemma {:induction false} PrintedMembers(labels: map<string, string>, ds: seq<string>)
    ensures forall x :: x in Printed(labels, ds) <==> exists d :: d in ds && x == OutputText(labels, d)
  {
    if ds != [] {
      PrintedMembers(labels, ds[..|ds| - 1]);
      assert ds == ds[..|ds| - 1] + [ds[|ds| - 1]];
    }
  }

  // A kept domain reads back with the label of its first entry.
  lemma KeptReadsBack(ds: seq<string>, d: string)
    requires d in Roots(ds) && LegibleName(Labels(ds), d)
    ensures ReadsBack(Labels(ds), d)
  {
    RootsFacts(ds);
    var e := LabelComesFromAnEntry(ds, d);
    PrintedReadsBack(e);
  }

  // Whether a host is matched by a domain under its label.
  predicate DomainHits(exact: bool, labels: map<string, string>, d: string, h: string) {
    d in labels && if exact && labels[d] == "domain:" then h == d else Below(h, d)
  }

  // What an optimized list matches, in terms of the domains it keeps.
  lemma OutputHits(tag: (string, string) -> bool, exact: bool, ds: seq<string>, h: string)
    requires Legible(ds) && |ds| > 1
    ensures ListHits(tag, exact, Optimized(ds), h) <==>
            || (exists e | e in Specials(ds) :: tag(e, h))
            || (exists d | d in Kept(ds) :: DomainHits(exact, Labels(ds), d, h))
  {
    var labels, kept, out := Labels(ds), Kept(ds), Optimized(ds);
    SpecialsFacts(ds);
    KeptFacts(ds);
    PrintedMembers(labels, kept);
    LexIsAnOrder();
    SortPermutes(Specials(ds), LexLe);
    forall d | d in kept ensures OutputText(labels, d) in out { assert OutputText(labels, d) in Printed(labels, kept); }
    forall d | d in kept
      ensures d in labels
      ensures EntryHits(tag, exact, OutputText(labels, d), h) <==> DomainHits(exact, labels, d, h)
    {
      KeptIsTop(ds, d);
      KeptReadsBack(ds, d);
    }
    forall e | e in Specials(ds) ensures e in out && (EntryHits(tag, exact, e, h) <==> tag(e, h)) {}
    if ListHits(tag, exact, out, h) {
      var x :| x in out && EntryHits(tag, exact, x, h);
      if x !in Specials(ds) {
        assert x in Printed(labels, kept);
        var d :| d in kept && x == OutputText(labels, d);
      }
    }
  }

  lemma InputHitsTag(tag: (string, string) -> bool, exact: bool, ds: seq<string>, h: string)
    ensures (exists e | e in Specials(ds) :: tag(e, h)) ==> ListHits(tag, exact, ds, h)
  {
    SpecialsFacts(ds);
    if x :| x in Specials(ds) && tag(x, h) {
      var e :| e in ds && TrimSpace(e) == x;
      assert EntryHits(tag, exact, e, h);
    }
  }

  lemma TagOfEntry(ds: seq<string>, e: string)
    requires e in ds && TrimSpace(e) != "" && IsSpecial(TrimSpace(e))
    ensures TrimSpace(e) in Specials(ds)
  {
    SpecialsFacts(ds);
  }

  // A domain entry lies at or below a kept one.
  lemma KeptAbove(ds: seq<string>, e: string) returns (p: string)
    requires e in ds && IsDomain(TrimSpace(e))
    ensures p in Kept(ds) && p in Roots(ds) && p in Labels(ds) && Below(Clean(TrimSpace(e)), p)
  {
    var d := Clean(TrimSpace(e));
    RootsFacts(ds);
    assert d in Roots(ds);
    KeptFacts(ds);
    p :| p in Kept(ds) && Below(d, p);
  }

  // So does the text of an entry.
  lemma EntryAboveIsPrinted(ds: seq<string>, item: string) returns (e: string)
    requires |ds| > 1 && item in ds && IsDomain(TrimSpace(item))
    ensures e in ds && IsDomain(TrimSpace(e)) && Below(Clean(TrimSpace(item)), Clean(TrimSpace(e)))
    ensures Label(TrimSpace(e)) + Clean(TrimSpace(e)) in Optimized(ds)
  {
    var p := KeptAbove(ds, item);
    e := LabelComesFromAnEntry(ds, p);
    PrintedMembers(Labels(ds), Kept(ds));
    assert OutputText(Labels(ds), p) in Printed(Labels(ds), Kept(ds));
  }

  // Every text put out is a tag or the text of an entry.
  lemma OutputComesFromAnEntry(ds: seq<string>, x: string) returns (e: string)
    requires |ds| > 1 && x in Optimized(ds)
    ensures e in ds
    ensures if IsSpecial(TrimSpace(e)) then x == TrimSpace(e)
            else IsDomain(TrimSpace(e)) && x == Label(TrimSpace(e)) + Clean(TrimSpace(e))
  {
    SortPermutes(Specials(ds), LexLe);
    if x in Specials(ds) {
      SpecialsFacts(ds);
      e :| e in ds && TrimSpace(e) == x;
    } else {
      PrintedMembers(Labels(ds), Kept(ds));
      var d :| d in Kept(ds) && x == OutputText(Labels(ds), d);
      InRoots(ds, d);
      e := LabelComesFromAnEntry(ds, d);
    }
  }

  lemma OutputIsComplete(tag: (string, string) -> bool, ds: seq<string>, h: string)
    requires Legible(ds) && |ds| > 1 && ListHits(tag, false, ds, h)
    ensures ListHits(tag, false, Optimized(ds), h)
  {
    OutputHits(tag, false, ds, h);
    var e :| e in ds && EntryHits(tag, false, e, h);
    if IsSpecial(TrimSpace(e)) {
      TagOfEntry(ds, e);
    } else {
      var p := KeptAbove(ds, e);
      BelowIsTransitive(h, Clean(TrimSpace(e)), p);
    }
  }

  // The output never matches more than the input, under either reading.
  lemma OutputIsSound(tag: (string, string) -> bool, exact: bool, ds: seq<string>, h: string)
    requires Legible(ds) && |ds| > 1 && ListHits(tag, exact, Optimized(ds), h)
    ensures ListHits(tag, exact, ds, h)
  {
    OutputHits(tag, exact, ds, h);
    InputHitsTag(tag, exact, ds, h);
    if !(exists e | e in Specials(ds) :: tag(e, h)) {
      var d :| d in Kept(ds) && d in Labels(ds) &&
               if exact && Labels(ds)[d] == "domain:" then h == d else Below(h, d);
      var e := LabelComesFromAnEntry(ds, d);
      assert EntryHits(tag, exact, e, h);
    }
  }

  lemma LegibleKeepsMatches(tag: (string, string) -> bool, ds: seq<string>, h: string)
    requires Legible(ds) && |ds| > 1
    ensures ListHits(tag, false, Optimized(ds), h) <==> ListHits(tag, false, ds, h)
  {
    if ListHits(tag, false, ds, h) { OutputIsComplete(tag, ds, h); }
    if ListHits(tag, false, Optimized(ds), h) { OutputIsSound(tag, false, ds, h); }
  }

  // ---------------------------------------------------------------------------------------
  // Names that read back as something else
  // ---------------------------------------------------------------------------------------

  predicate Garbled(ds: seq<string>, d: string) { IsTop(ds, d) && !LegibleName(Labels(ds), d) }

  // The garbled name `d` has the fewest labels of its kind and, of these, the most characters.
  ghost predicate Extreme(ds: seq<string>, d: string) {
    && Garbled(ds, d)
    && forall g | Garbled(ds, g) :: Dots(d) < Dots(g) || (Dots(d) == Dots(g) && |g| <= |d|)
  }

  lemma {:induction false} ExtremeIn(ds: seq<string>, names: seq<string>) returns (d: string)
    requires exists g :: g in names && Garbled(ds, g)
    ensures d in names && Garbled(ds, d)
    ensures forall g | g in names && Garbled(ds, g) :: Dots(d) < Dots(g) || (Dots(d) == Dots(g) && |g| <= |d|)
  {
    var init, last := names[..|names| - 1], names[|names| - 1];
    assert names == init + [last];
    if exists g :: g in init && Garbled(ds, g) {
      d := ExtremeIn(ds, init);
      if Garbled(ds, last) && (Dots(last) < Dots(d) || (Dots(last) == Dots(d) && |d| < |last|)) {
        d := last;
      }
    } else {
      d := last;
    }
  }

  lemma LabelHasNoDots(g: string)
    ensures Dots(g[|Label(g)|..]) == Dots(g) && Dots(Clean(g)) == Dots(g)
  {
    var mark := Label(g);
    assert g == mark + g[|mark|..];
    DotsAdd(mark, g[|mark|..]);
    assert Dots(mark) == 0 by { DotsOfLabels(); }
    DotsOfLowered(g[|mark|..]);
  }

  lemma DotsOfLabels()
    ensures Dots("") == 0 && Dots("domain:") == 0 && Dots("suffix:") == 0
  {
    NoDots("domain:");
    NoDots("suffix:");
  }

  lemma {:induction false} NoDots(s: string)
    requires '.' !in s
    ensures Dots(s) == 0
  {
    if s != "" { NoDots(s[1..]); }
  }

  lemma {:induction false} DotsOfLowered(s: string)
    ensures Dots(ToLower(s)) == Dots(s)
  {
    if s != "" {
      DotsOfLowered(s[1..]);
      assert ToLower(s)[1..] == ToLower(s[1..]);
    }
  }

  lemma DotsGrow(h: string, d: string)
    requires Below(h, d)
    ensures h == d || Dots(d) < Dots(h)
  {
    if h != d { StrictlyBelowHasMoreDots(h, d); }
  }

  // A garbled name is printed as it is.
  lemma GarbledIsPrinted(ds: seq<string>, d: string)
    requires Garbled(ds, d)
    ensures OutputText(Labels(ds), d) == d && TrimSpace(d) == d
  {
    var e := LabelComesFromAnEntry(ds, d);
    var name := TrimSpace(e);
    TrimIsTight(e);
    assert name[0..] == name && ToLower(name) == d;
    assert "" + name == name && "" + d == d;
    OutputIsTight("", name);
    TightIsTrimmed(d);
  }

  // What an output text other than a tag names, and how it compares with the kept name.
  lemma OutputName(ds: seq<string>, d: string)
    requires d in Kept(ds) && d in Labels(ds)
    ensures var out := TrimSpace(OutputText(Labels(ds), d));
            IsDomain(out) ==> if LegibleName(Labels(ds), d) then Clean(out) == d
                              else Dots(Clean(out)) == Dots(d) && |Clean(out)| < |d|
  {
    KeptIsTop(ds, d);
    if LegibleName(Labels(ds), d) {
      KeptReadsBack(ds, d);
    } else {
      GarbledIsPrinted(ds, d);
      LabelHasNoDots(d);
    }
  }

  lemma InRoots(ds: seq<string>, d: string)
    requires d in Kept(ds)
    ensures d in Roots(ds) && d in Labels(ds)
  {
    KeptFacts(ds);
    RootsFacts(ds);
  }

  lemma ExtremeIsWritten(ds: seq<string>, d: string, exact: bool)
    requires Extreme(ds, d)
    ensures ListHits((_, _) => false, exact, ds, d)
  {
    var none := (_: string, _: string) => false;
    RootsFacts(ds);
    var e := LabelComesFromAnEntry(ds, d);
    assert EntryHits(none, exact, e, d);
  }

  // No output text matches the extreme garbled name.
  lemma ExtremeIsLost(ds: seq<string>, d: string, exact: bool)
    requires |ds| > 1 && Extreme(ds, d)
    ensures var none := (_: string, _: string) => false;
            ListHits(none, exact, ds, d) && !ListHits(none, exact, Optimized(ds), d)
  {
    var none := (_: string, _: string) => false;
    ExtremeIsWritten(ds, d, exact);
    forall x | x in Optimized(ds) ensures !EntryHits(none, exact, x, d) {
      if !IsTag(x) {
        var p := NameOfOutput(ds, x);
        OutputMissesExtreme(ds, p, d, exact);
      }
    }
  }

  lemma NameOfOutput(ds: seq<string>, x: string) returns (p: string)
    requires |ds| > 1 && x in Optimized(ds) && !IsTag(x)
    ensures p in Kept(ds) && p in Labels(ds) && x == OutputText(Labels(ds), p)
  {
    SortPermutes(Specials(ds), LexLe);
    SpecialsFacts(ds);
    PrintedMembers(Labels(ds), Kept(ds));
    p :| p in Kept(ds) && x == OutputText(Labels(ds), p);
    InRoots(ds, p);
  }

  lemma OutputMissesExtreme(ds: seq<string>, p: string, d: string, exact: bool)
    requires p in Kept(ds) && p in Labels(ds) && Extreme(ds, d)
    ensures !EntryHits((_, _) => false, exact, OutputText(Labels(ds), p), d)
  {
    var out := TrimSpace(OutputText(Labels(ds), p));
    OutputName(ds, p);
    KeptFacts(ds);
    if IsDomain(out) && Below(d, Clean(out)) {
      DotsGrow(d, Clean(out));
      KeptIsTop(ds, p);
      if LegibleName(Labels(ds), p) {
        TopIsKept(ds, d);
        AntichainMembers(Kept(ds), d, p);
      } else {
        assert Garbled(ds, p);
      }
    }
  }

  ghost predicate KeepsMatches(ds: seq<string>, exact: bool) {
    forall tag, h :: ListHits(tag, exact, Optimized(ds), h) <==> ListHits(tag, exact, ds, h)
  }

  lemma FindExtreme(ds: seq<string>) returns (d: string)
    requires !Legible(ds)
    ensures Extreme(ds, d)
  {
    var g :| g in Roots(ds) && IsTop(ds, g) && !LegibleName(Labels(ds), g);
    assert Garbled(ds, g);
    d := ExtremeIn(ds, Roots(ds));
  }

  lemma LostHostIsAMismatch(ds: seq<string>, h: string, exact: bool)
    requires ListHits((_, _) => false, exact, ds, h) && !ListHits((_, _) => false, exact, Optimized(ds), h)
    ensures !KeepsMatches(ds, exact)
  {}

  lemma GarbledListLosesAHost(ds: seq<string>, exact: bool)
    requires |ds| > 1 && !Legible(ds)
    ensures !KeepsMatches(ds, exact)
  {
    var d := FindExtreme(ds);
    ExtremeIsLost(ds, d, exact);
    LostHostIsAMismatch(ds, d, exact);
  }

  /** Optimizing keeps the hosts a list matches under suffix semantics, whatever its tags mean, iff no
      topmost name without a label starts like a tag or a label once it is lowered. */
  lemma OptimizeKeepsMatchesIffLegible(ds: seq<string>)
    requires |ds| > 1
    ensures KeepsMatches(ds, false) <==> Legible(ds)
  {
    if Legible(ds) {
      forall tag, h ensures ListHits(tag, false, Optimized(ds), h) <==> ListHits(tag, false, ds, h) {
        LegibleKeepsMatches(tag, ds, h);
      }
    } else {
      GarbledListLosesAHost(ds, false);
    }
  }

  /** The tags survive as a set and no kept domain lies below another. */
  lemma OptimizedIsAnAntichain(ds: seq<string>)
    requires Legible(ds) && |ds| > 1
    ensures forall x :: x in Specials(Optimized(ds)) <==> x in Specials(ds)
    ensures Antichain(Roots(Optimized(ds)))
    ensures forall d | d in Roots(Optimized(ds)) :: d in Roots(ds)
  {
    OutputLists(ds);
    KeptFacts(ds);
    SortPermutes(Specials(ds), LexLe);
  }

  lemma {:induction false} TagsReadBack(tags: seq<string>)
    requires NoDuplicates(tags) && forall e | e in tags :: IsTag(e)
    ensures Specials(tags) == tags && Roots(tags) == [] && Labels(tags) == map[]
  {
    if tags != [] {
      var init, e := tags[..|tags| - 1], tags[|tags| - 1];
      assert tags == init + [e];
      assert IsTag(e) && e !in init;
      TagsReadBack(init);
    }
  }

  // A list whose tags, domains and labels are the given ones.
  ghost predicate Yields(out: seq<string>, tags: seq<string>, labels: map<string, string>, kept: seq<string>) {
    && Specials(out) == tags && Roots(out) == kept
    && (forall d :: d in Labels(out) <==> d in kept)
    && (forall d | d in kept :: d in labels && Labels(out)[d] == labels[d])
  }

  lemma {:induction false} ListReadsBack(tags: seq<string>, labels: map<string, string>, kept: seq<string>)
    requires NoDuplicates(tags) && forall e | e in tags :: IsTag(e)
    requires NoDuplicates(kept) && forall d | d in kept :: ReadsBack(labels, d)
    ensures Yields(tags + Printed(labels, kept), tags, labels, kept)
  {
    if kept == [] {
      TagsReadBack(tags);
      assert tags + [] == tags;
    } else {
      var init, d := kept[..|kept| - 1], kept[|kept| - 1];
      FrontIsApart(kept);
      ListReadsBack(tags, labels, init);
      var before := tags + Printed(labels, init);
      assert tags + Printed(labels, kept) == before + [OutputText(labels, d)];
      YieldsOneMore(before, tags, labels, init, d);
    }
  }

  lemma FrontIsApart(s: seq<string>)
    requires s != [] && NoDuplicates(s)
    ensures var init, d := s[..|s| - 1], s[|s| - 1];
            s == init + [d] && d !in init && NoDuplicates(init) && (forall x | x in init :: x in s)
  {}

  lemma YieldsOneMore(out: seq<string>, tags: seq<string>, labels: map<string, string>, kept: seq<string>, d: string)
    requires Yields(out, tags, labels, kept) && d !in kept && ReadsBack(labels, d)
    ensures Yields(out + [OutputText(labels, d)], tags, labels, kept + [d])
  {
    var longer := out + [OutputText(labels, d)];
    assert longer[..|longer| - 1] == out;
    OneMoreDomain(longer, d, labels[d]);
  }

  // Reading a list that ends in a domain not named before.
  lemma OneMoreDomain(ds: seq<string>, d: string, mark: string)
    requires ds != []
    requires var e := ds[|ds| - 1]; TrimSpace(e) == e && IsDomain(e) && Clean(e) == d && Label(e) == mark
    ensures var init := ds[..|ds| - 1];
            && Specials(ds) == Specials(init) && Roots(ds) == Roots(init) + [d]
            && Labels(ds) == if d in Labels(init) then Labels(init) else Labels(init)[d := mark]
  {}

  lemma AntichainHasNoDuplicates(ds: seq<string>)
    requires Antichain(ds)
    ensures NoDuplicates(ds)
  {}

  lemma SortKeepsNoDuplicates(s: seq<string>)
    requires NoDuplicates(s)
    ensures NoDuplicates(Sort(s, LexLe))
  {
    var t := Sort(s, LexLe);
    SortPermutes(s, LexLe);
    forall i, j | 0 <= i < j < |t| ensures t[i] != t[j] {
      if t[i] == t[j] {
        TwoOccurrences(t, i, j);
        var k :| 0 <= k < |s| && s[k] == t[i];
        TwoPlaces(s, k);
      }
    }
  }

  lemma OutputLists(ds: seq<string>)
    requires Legible(ds) && |ds| > 1
    ensures Specials(Optimized(ds)) == Sort(Specials(ds), LexLe)
    ensures Roots(Optimized(ds)) == Kept(ds)
    ensures forall d | d in Kept(ds) :: d in Labels(ds) && d in Labels(Optimized(ds)) &&
              Labels(Optimized(ds))[d] == Labels(ds)[d]
  {
    SpecialsFacts(ds);
    SortPermutes(Specials(ds), LexLe);
    SortKeepsNoDuplicates(Specials(ds));
    KeptFacts(ds);
    AntichainHasNoDuplicates(Kept(ds));
    forall d | d in Kept(ds) ensures ReadsBack(Labels(ds), d) {
      KeptIsTop(ds, d);
      KeptReadsBack(ds, d);
    }
    ListReadsBack(Sort(Specials(ds), LexLe), Labels(ds), Kept(ds));
  }

  predicate IsLower(s: string) { forall i | 0 <= i < |s| :: LowerChar(s[i]) == s[i] }

  lemma {:induction false} TrimKeepsLower(s: string)
    requires IsLower(s)
    ensures IsLower(TrimSpace(s))
  {
    TrimLeftKeepsLower(s);
    TrimRightStops(TrimLeft(s));
  }

  lemma {:induction false} TrimLeftKeepsLower(s: string)
    requires IsLower(s)
    ensures IsLower(TrimLeft(s))
  {
    if s != "" && IsSpace(s[0]) { TrimLeftKeepsLower(s[1..]); }
  }

  lemma LoweredIsLower(mark: string, name: string)
    requires mark == "" || mark == "domain:" || mark == "suffix:"
    ensures IsLower(mark + ToLower(name))
  {
    assert IsLower(mark);
    var s := mark + ToLower(name);
    forall i | 0 <= i < |s| ensures LowerChar(s[i]) == s[i] {}
  }

  lemma OutputIsLower(ds: seq<string>, d: string)
    requires d in Kept(ds)
    ensures IsLower(OutputText(Labels(ds), d))
  {
    InRoots(ds, d);
    var entry := LabelComesFromAnEntry(ds, d);
    var e := TrimSpace(entry);
    LoweredIsLower(Label(e), e[|Label(e)|..]);
  }

  // Lowered names read back as they are.
  lemma OutputIsLegible(ds: seq<string>)
    requires |ds| > 1
    ensures Legible(Optimized(ds))
  {
    var out := Optimized(ds);
    SpecialsFacts(ds);
    SortPermutes(Specials(ds), LexLe);
    PrintedMembers(Labels(ds), Kept(ds));
    RootsFacts(out);
    forall d | d in Roots(out) && IsTop(out, d) ensures LegibleName(Labels(out), d) {
      var e := LabelComesFromAnEntry(out, d);
      if e !in Specials(ds) {
        var p :| p in Kept(ds) && e == OutputText(Labels(ds), p);
        OutputIsLower(ds, p);
        TrimKeepsLower(e);
        var t := TrimSpace(e);
        assert ToLower(t) == t && t[0..] == t;
      }
    }
  }

  // Of two entries, one named below the other, the upper one remains.
  lemma LowerEntryIsDropped(a: string, b: string)
    requires TrimSpace(a) == a && TrimSpace(b) == b && IsDomain(a) && IsDomain(b)
    requires Below(Clean(a), Clean(b)) && Clean(a) != Clean(b)
    ensures Optimized([a, b]) == [Label(b) + Clean(b)]
  {
    var ds, x, y := [a, b], Clean(a), Clean(b);
    OneMoreDomain([a], x, Label(a));
    OneMoreDomain(ds, y, Label(b));
    assert ds[..1] == [a] && [a][..0] == [];
    KeptIsTheUpper(ds, x, y);
    PrintOne(Labels(ds), y);
  }

  lemma PrintOne(labels: map<string, string>, d: string)
    ensures Printed(labels, [d]) == [OutputText(labels, d)]
  {
    assert [d][..0] == [];
  }

  lemma KeptIsTheUpper(ds: seq<string>, x: string, y: string)
    requires Roots(ds) == [x, y] && Below(x, y) && x != y
    ensures Kept(ds) == [y]
  {
    var kept := Kept(ds);
    KeptFacts(ds);
    DotsGrow(x, y);
    assert y in Roots(ds) && IsBelowSome(y, kept);
    var p :| p in kept && Below(y, p);
    DotsGrow(y, p);
    UpperAlone(kept, x, y);
  }

  lemma UpperAlone(kept: seq<string>, x: string, y: string)
    requires Antichain(kept) && Below(x, y) && x != y && y in kept && forall d | d in kept :: d == x || d == y
    ensures kept == [y]
  {
    if x in kept { AntichainMembers(kept, x, y); }
    AntichainHasNoDuplicates(kept);
    forall i | 0 <= i < |kept| ensures kept[i] == y { assert kept[i] in kept; }
    assert kept[0] == y && kept[|kept| - 1] == y;
  }

  // ---------------------------------------------------------------------------------------
  // The exact reading of `domain:`
  // ---------------------------------------------------------------------------------------

  // An entry at or below a topmost domain labelled `domain:` that is not that entry itself.
  ghost predicate Clashes(ds: seq<string>, d: string, e: string) {
    && IsTop(ds, d) && d in Labels(ds) && Labels(ds)[d] == "domain:"
    && e in ds && IsDomain(TrimSpace(e)) && Below(Clean(TrimSpace(e)), d)
    && !(Clean(TrimSpace(e)) == d && Label(TrimSpace(e)) == "domain:")
  }

  // Where a topmost domain is labelled `domain:` by its first entry, every entry at or below it
  // names that very domain with the same label.
  ghost predicate LabelsAgree(ds: seq<string>) {
    forall d, e :: !Clashes(ds, d, e)
  }

  lemma KeptIsTop(ds: seq<string>, d: string)
    requires d in Kept(ds)
    ensures IsTop(ds, d)
  {
    KeptFacts(ds);
    forall r | r in Roots(ds) && Below(d, r) ensures r == d {
      assert IsBelowSome(r, Kept(ds));
      var p :| p in Kept(ds) && Below(r, p);
      BelowIsTransitive(d, r, p);
      AntichainMembers(Kept(ds), d, p);
      MutuallyBelow(d, r);
    }
  }

  lemma AntichainMembers(ds: seq<string>, a: string, b: string)
    requires Antichain(ds) && a in ds && b in ds && Below(a, b)
    ensures a == b
  {}

  lemma MutuallyBelow(a: string, b: string)
    requires Below(a, b) && Below(b, a)
    ensures a == b
  {
    if a != b {
      StrictlyBelowHasMoreDots(a, b);
      StrictlyBelowHasMoreDots(b, a);
    }
  }

  lemma TopIsKept(ds: seq<string>, d: string)
    requires IsTop(ds, d)
    ensures d in Kept(ds)
  {
    KeptFacts(ds);
    assert IsBelowSome(d, Kept(ds));
    var p :| p in Kept(ds) && Below(d, p);
  }

  // ---------------------------------------------------------------------------------------
  // What is printed, without sorting and retaining
  // ---------------------------------------------------------------------------------------

  function TopsIn(ds: seq<string>, names: seq<string>): seq<string> {
    if names == [] then []
    else
      var before, d := TopsIn(ds, names[..|names| - 1]), names[|names| - 1];
      if IsTop(ds, d) then AddNew(before, d) else before
  }

  // The topmost names, each once.
  function Tops(ds: seq<string>): seq<string> { TopsIn(ds, Roots(ds)) }

  lemma {:induction false} TopsInFacts(ds: seq<string>, names: seq<string>)
    ensures NoDuplicates(TopsIn(ds, names))
    ensures forall d :: d in TopsIn(ds, names) <==> d in names && IsTop(ds, d)
  {
    if names != [] {
      TopsInFacts(ds, names[..|names| - 1]);
      assert names == names[..|names| - 1] + [names[|names| - 1]];
    }
  }

  lemma OccursOnce(s: seq<string>, x: string)
    requires NoDuplicates(s)
    ensures multiset(s)[x] == if x in s then 1 else 0
  {
    if x in s && multiset(s)[x] >= 2 {
      var k :| 0 <= k < |s| && s[k] == x;
      TwoPlaces(s, k);
    }
  }

  lemma SameMembersSameBag(s: seq<string>, t: seq<string>)
    requires NoDuplicates(s) && NoDuplicates(t) && forall x :: x in s <==> x in t
    ensures multiset(s) == multiset(t)
  {
    forall x ensures multiset(s)[x] == multiset(t)[x] {
      OccursOnce(s, x);
      OccursOnce(t, x);
    }
  }

  // The kept names are the topmost ones in order.
  lemma KeptAreTheTops(ds: seq<string>)
    ensures Kept(ds) == Sort(Tops(ds), LexLe)
  {
    KeptFacts(ds);
    TopsInFacts(ds, Roots(ds));
    forall d ensures d in Kept(ds) <==> d in Tops(ds) {
      if d in Kept(ds) { KeptIsTop(ds, d); }
      if d in Tops(ds) { TopIsKept(ds, d); }
    }
    AntichainHasNoDuplicates(Kept(ds));
    SameMembersSameBag(Kept(ds), Tops(ds));
    LexIsAnOrder();
    SortPermutes(Tops(ds), LexLe);
    SortSorts(Tops(ds), LexLe);
    SortedIsUnique(Kept(ds), Sort(Tops(ds), LexLe), LexLe);
  }

  /** A list of more than one entry is optimized into its trimmed tags in order, followed by its topmost
      names in order, each with the label of its first entry. */
  lemma OutputIsTagsAndTops(ds: seq<string>)
    requires |ds| > 1
    ensures Optimized(ds) == Sort(Specials(ds), LexLe) + Printed(Labels(ds), Sort(Tops(ds), LexLe))
  {
    KeptAreTheTops(ds);
  }

  // The same texts in the order in which they are first written.
  function Texts(ds: seq<string>): seq<string> {
    if |ds| <= 1 then ds else Specials(ds) + Printed(Labels(ds), Tops(ds))
  }

  lemma TextsAreOutput(ds: seq<string>)
    ensures forall x :: x in Texts(ds) <==> x in Optimized(ds)
  {
    if |ds| > 1 {
      OutputIsTagsAndTops(ds);
      SortPermutes(Specials(ds), LexLe);
      SortPermutes(Tops(ds), LexLe);
      PrintedMembers(Labels(ds), Tops(ds));
      PrintedMembers(Labels(ds), Sort(Tops(ds), LexLe));
    }
  }

  lemma AgreementKeepsExactMatches(tag: (string, string) -> bool, ds: seq<string>, h: string)
    requires Legible(ds) && |ds| > 1 && LabelsAgree(ds) && ListHits(tag, true, ds, h)
    ensures ListHits(tag, true, Optimized(ds), h)
  {
    OutputHits(tag, true, ds, h);
    var e :| e in ds && EntryHits(tag, true, e, h);
    if IsSpecial(TrimSpace(e)) {
      TagOfEntry(ds, e);
    } else {
      var p := KeptAbove(ds, e);
      KeptIsTop(ds, p);
      BelowIsTransitive(h, Clean(TrimSpace(e)), p);
      assert !Clashes(ds, p, e);
      assert DomainHits(true, Labels(ds), p, h);
    }
  }

  // A host at or below `e` but not `d`.
  function LostHost(d: string, c: string): string { if c == d then "x." + d else c }

  lemma LostHostIsBelow(d: string, c: string)
    requires Below(c, d)
    ensures Below(LostHost(d, c), d) && LostHost(d, c) != d && Below(LostHost(d, c), c)
  {
    var h := LostHost(d, c);
    if c == d { assert h[|h| - |d| - 1..] == "." + d; }
  }

  lemma NothingElseAbove(ds: seq<string>, d: string, h: string)
    requires IsTop(ds, d) && Below(h, d)
    ensures forall p | p in Kept(ds) && Below(h, p) :: p == d
  {
    KeptFacts(ds);
    TopIsKept(ds, d);
    forall p | p in Kept(ds) && Below(h, p) ensures p == d {
      AboveIsAChain(h, p, d);
    }
  }

  // A host the input matches and the output does not.
  lemma DisagreementLosesAHost(ds: seq<string>, d: string, e: string) returns (h: string)
    requires Legible(ds) && |ds| > 1 && Clashes(ds, d, e)
    ensures ListHits((_, _) => false, true, ds, h) && !ListHits((_, _) => false, true, Optimized(ds), h)
  {
    var none := (_: string, _: string) => false;
    var c := Clean(TrimSpace(e));
    h := LostHost(d, c);
    LostHostIsBelow(d, c);
    assert EntryHits(none, true, e, h);
    OutputHits(none, true, ds, h);
    NothingElseAbove(ds, d, h);
  }

  lemma AgreementKeepsMatches(tag: (string, string) -> bool, ds: seq<string>, h: string)
    requires Legible(ds) && |ds| > 1 && LabelsAgree(ds)
    ensures ListHits(tag, true, Optimized(ds), h) <==> ListHits(tag, true, ds, h)
  {
    if ListHits(tag, true, ds, h) {
      AgreementKeepsExactMatches(tag, ds, h);
    } else if ListHits(tag, true, Optimized(ds), h) {
      OutputIsSound(tag, true, ds, h);
    }
  }

  lemma ClashLosesAMatch(ds: seq<string>, d: string, e: string)
    requires Legible(ds) && |ds| > 1 && Clashes(ds, d, e)
    ensures !KeepsMatches(ds, true)
  {
    var h := DisagreementLosesAHost(ds, d, e);
    LostHostIsAMismatch(ds, h, true);
  }

  /** Under the exact reading of `domain:`, optimizing keeps a list's meaning exactly when its topmost
      names read back and their labels agree. */
  lemma ExactMatchesAreKeptIffLabelsAgree(ds: seq<string>)
    requires |ds| > 1
    ensures KeepsMatches(ds, true) <==> Legible(ds) && LabelsAgree(ds)
  {
    if !Legible(ds) {
      GarbledListLosesAHost(ds, true);
    } else if LabelsAgree(ds) {
      forall tag, h ensures ListHits(tag, true, Optimized(ds), h) <==> ListHits(tag, true, ds, h) {
        AgreementKeepsMatches(tag, ds, h);
      }
    } else {
      var d, e :| Clashes(ds, d, e);
      ClashLosesAMatch(ds, d, e);
    }
  }

  // ---------------------------------------------------------------------------------------
  // The loops
  // ---------------------------------------------------------------------------------------

  method OptimizeDomains(ds: seq<string>) returns (result: seq<string>)
    ensures result == Optimized(ds)
  {
    if |ds| <= 1 {
      return ds;
    }
    var specials, roots, labels := Classify(ds);
    var retained := RetainRoots(Sort(roots, RootFirst));
    var kept := Sort(retained, LexLe);
    result := Sort(specials, LexLe);
    result := Print(result, labels, kept);
  }

  method Print(start: seq<string>, labels: map<string, string>, kept: seq<string>) returns (result: seq<string>)
    ensures result == start + Printed(labels, kept)
  {
    result := start;
    var i := 0;
    while i < |kept|
      invariant 0 <= i <= |kept|
      invariant result == start + Printed(labels, kept[..i])
    {
      assert kept[..i + 1][..i] == kept[..i];
      result := result + [OutputText(labels, kept[i])];
      i := i + 1;
    }
    assert kept[..i] == kept;
  }

  method Classify(ds: seq<string>)
    returns (specials: seq<string>, roots: seq<string>, labels: map<string, string>)
    ensures specials == Specials(ds) && roots == Roots(ds) && labels == Labels(ds)
  {
    specials, roots, labels := [], [], map[];
    var seen: set<string> := {};
    var i := 0;
    while i < |ds|
      invariant 0 <= i <= |ds|
      invariant specials == Specials(ds[..i]) && roots == Roots(ds[..i]) && labels == Labels(ds[..i])
      invariant forall e :: e in seen <==> e in specials
    {
      assert ds[..i + 1][..i] == ds[..i];
      var e := TrimSpace(ds[i]);
      if e != "" {
        if IsSpecial(e) {
          if e !in seen {
            seen, specials := seen + {e}, specials + [e];
          }
        } else {
          var mark, clean := Strip(e);
          if clean != "" {
            roots := roots + [clean];
            if clean !in labels {
              labels := labels[clean := mark];
            }
          }
        }
      }
      i := i + 1;
    }
    assert ds[..i] == ds;
  }

  // Splits an entry into its label and its lowered name.
  method Strip(e: string) returns (mark: string, clean: string)
    ensures mark == Label(e) && clean == Clean(e)
  {
    mark, clean := "", e;
    if HasPrefix(e, "domain:") {
      mark, clean := "domain:", TrimPrefix(e, "domain:");
    } else if HasPrefix(e, "suffix:") {
      mark, clean := "suffix:", TrimPrefix(e, "suffix:");
    }
    clean := ToLower(clean);
  }

  // Drops every domain that is below an earlier one.
  method RetainRoots(ds: seq<string>) returns (retained: seq<string>)
    ensures retained == Retain(ds)
  {
    retained := [];
    var seen: set<string> := {};
    var i := 0;
    while i < |ds|
      invariant 0 <= i <= |ds|
      invariant retained == Retain(ds[..i])
      invariant forall d :: d in seen <==> d in retained
    {
      assert ds[..i + 1][..i] == ds[..i];
      var d := ds[i];
      if d in seen {
        assert Below(d, d);
      } else {
        var isSub := false;
        var j := 0;
        while j < |retained| && !isSub
          invariant 0 <= j <= |retained|
          invariant isSub ==> IsBelowSome(d, retained)
          invariant !isSub ==> forall k | 0 <= k < j :: !Below(d, retained[k])
        {
          if HasSuffix(d, "." + retained[j]) || d == retained[j] {
            assert Below(d, retained[j]);
            isSub := true;
          }
          j := j + 1;
        }
        if !isSub {
          retained, seen := retained + [d], seen + {d};
        }
      }
      i := i + 1;
    }
    assert ds[..i] == ds;
  }
}
