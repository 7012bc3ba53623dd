/** Which lists of tidy items survive being optimized before they are cleaned (pkg/routing/engine.go,
    pkg/routing/optimizer.go, presets/ru.json, presets/ip_checkers.json).

    A tidy item is a tag or a host name, perhaps with the label `domain:`, that cleaning leaves as it
    is.  For lists of them the condition on entries is worked out for the readings of both cores. */
module TidyLists {
  import opened Common
  import opened Text
  import opened HostPatterns
  import opened Sanitize
  import opened Policy
  import opened Cores
  import Backends
  import Domains

  // An item as a user should write it: a host name, perhaps with the label `domain:`.
  predicate IsNameItem(item: string) {
    if HasPrefix(item, "domain:") then IsName(TrimPrefix(item, "domain:")) else IsName(item)
  }

  function NameIn(item: string): string { TrimPrefix(item, "domain:") }

  // Names are read as covering what is below them.
  ghost predicate ReadsNames(read: string -> Pattern, domains: seq<string>) {
    forall item | item in domains && !Domains.IsSpecial(item) :: read(item) == Under(NameIn(item))
  }

  lemma NameItemIsOnePiece(env: Env, item: string)
    requires IsNameItem(item)
    ensures Pieces(env.CleanDomain(), item) == [item]
  {
    assert HasPrefix(item, "domain:") ==> item == "domain:" + NameIn(item);
    NamesAreKept(env.url, NameIn(item));
  }

  lemma NameItemIsKept(env: Env, item: string)
    requires IsNameItem(item)
    ensures Pieces(env.CleanDomain(), item) == [item] && item != ""
    ensures TrimSpace(item) == item && Domains.IsDomain(item) && Domains.Clean(item) == NameIn(item)
    ensures Domains.Label(item) + NameIn(item) == item
  {
    NameItemIsOnePiece(env, item);
    assert ToLower(NameIn(item)) == NameIn(item);
    NameItemIsTight(item);
    NameItemIsADomain(item);
  }

  lemma NameItemIsTight(item: string)
    requires IsNameItem(item)
    ensures TrimSpace(item) == item
  {
    var name := NameIn(item);
    if HasPrefix(item, "domain:") {
      assert item == "domain:" + name && item[0] == 'd' && item[|item| - 1] == name[|name| - 1];
    }
    TightIsTrimmed(item);
  }

  lemma NameItemIsADomain(item: string)
    requires IsNameItem(item)
    ensures !Domains.IsSpecial(item) && Domains.Label(item) == if HasPrefix(item, "domain:") then "domain:" else ""
  {
    if HasPrefix(item, "domain:") {
      assert item[0] == 'd';
    } else {
      PrefixNeedsColon(item, "geosite:");
      PrefixNeedsColon(item, "regexp:");
      PrefixNeedsColon(item, "regex:");
      PrefixNeedsColon(item, "keyword:");
      PrefixNeedsColon(item, "full:");
      PrefixNeedsColon(item, "suffix:");
    }
  }

  predicate IsTidyTag(item: string) {
    Domains.IsSpecial(item) && IsUnsplit(item) && IsSchemeless(item) && IsClean(item)
  }

  predicate IsTidy(item: string) { IsTidyTag(item) || IsNameItem(item) }

  predicate AreTidy(ds: seq<string>) { forall item | item in ds :: IsTidy(item) }

  // ---------------------------------------------------------------------------------------
  // Tidy items under optimizing and cleaning
  // ---------------------------------------------------------------------------------------

  lemma TidyTagIsKept(env: Env, item: string)
    requires IsTidyTag(item)
    ensures Pieces(env.CleanDomain(), item) == [item] && item != "" && TrimSpace(item) == item
  {
    TightIsTrimmed(item);
    KeptIffClean(env.url, item);
    UnsplitIsOneField(item);
  }

  lemma TidyIsKept(env: Env, item: string)
    requires IsTidy(item)
    ensures Pieces(env.CleanDomain(), item) == [item] && item != "" && TrimSpace(item) == item
    ensures if Domains.IsSpecial(item) then IsTidyTag(item) else IsNameItem(item)
    ensures !Domains.IsSpecial(item) ==> Domains.IsDomain(item) && Domains.Clean(item) == NameIn(item)
    ensures !Domains.IsSpecial(item) ==> Domains.Label(item) + NameIn(item) == item
  {
    if IsTidyTag(item) { TidyTagIsKept(env, item); } else { NameItemIsKept(env, item); }
  }

  // Every text that stays is an item.
  lemma TextsAreItems(env: Env, ds: seq<string>)
    requires AreTidy(ds)
    ensures forall t | t in Domains.Texts(ds) :: t in ds
  {
    if |ds| > 1 {
      Domains.TextsAreOutput(ds);
      forall t | t in Domains.Texts(ds) ensures t in ds {
        var e := Domains.OutputComesFromAnEntry(ds, t);
        TidyIsKept(env, e);
      }
    }
  }

  lemma TagsStay(env: Env, ds: seq<string>, item: string)
    requires AreTidy(ds) && item in ds && Domains.IsSpecial(item)
    ensures item in Domains.Texts(ds)
  {
    TidyIsKept(env, item);
    Domains.SpecialsFacts(ds);
  }

  // An item lies at or below one that stays.
  lemma StayingItemAbove(env: Env, ds: seq<string>, item: string) returns (e: string)
    requires AreTidy(ds) && item in ds && !Domains.IsSpecial(item)
    ensures e in ds && e in Domains.Texts(ds) && !Domains.IsSpecial(e) && IsNameItem(e)
    ensures Domains.Below(NameIn(item), NameIn(e))
  {
    TidyIsKept(env, item);
    if |ds| > 1 {
      e := Domains.EntryAboveIsPrinted(ds, item);
      TidyIsKept(env, e);
      Domains.TextsAreOutput(ds);
    } else {
      e := item;
    }
  }

  lemma TidyEntries(env: Env, items: seq<string>, x: string)
    requires AreTidy(items)
    ensures x in CleanList(env.CleanDomain(), items) <==> x in items
  {
    CleanListMembers(env.CleanDomain(), items, x);
    if x in items { TidyIsKept(env, x); }
    forall item | item in items && x in Pieces(env.CleanDomain(), item) ensures x == item { TidyIsKept(env, item); }
  }

  // The patterns of tidy items are those of the items themselves.
  lemma TidyPatterns(env: Env, read: string -> Pattern, items: seq<string>)
    requires AreTidy(items)
    ensures forall p :: p in Written(env, read, items) <==> p in Patterns(read, items)
  {
    var entries := CleanList(env.CleanDomain(), items);
    forall p ensures p in Patterns(read, entries) <==> p in Patterns(read, items) {
      if p in Patterns(read, entries) {
        var i :| 0 <= i < |entries| && p == read(entries[i]);
        TidyEntries(env, items, entries[i]);
        PatternOf(read, items, entries[i]);
      }
      if p in Patterns(read, items) {
        var i :| 0 <= i < |items| && p == read(items[i]);
        TidyEntries(env, items, items[i]);
        PatternOf(read, entries, items[i]);
      }
    }
  }

  // The item stays, or what stays covers it.
  predicate Safe(read: string -> Pattern, ds: seq<string>, item: string) {
    item in Domains.Texts(ds) || Covers(Patterns(read, Domains.Texts(ds)), read(item))
  }

  lemma TidyItemsCovered(env: Env, read: string -> Pattern, items: seq<string>, qs: seq<Pattern>)
    requires AreTidy(items)
    ensures ItemsCovered(env, read, items, qs) <==> forall item | item in items :: Covers(qs, read(item))
  {
    forall item | item in items ensures Pieces(env.CleanDomain(), item) == [item] && item != "" {
      TidyIsKept(env, item);
    }
    if ItemsCovered(env, read, items, qs) {
      forall item | item in items ensures Covers(qs, read(item)) {
        assert item in Pieces(env.CleanDomain(), item);
      }
    }
  }

  /** A list of tidy items survives iff each item that does not stay is covered by those that do. */
  lemma TidyListsSurviveIff(env: Env, read: string -> Pattern, ds: seq<string>)
    requires AreTidy(ds)
    ensures DomainsSurvive(env, read, ds) <==> forall item | item in ds :: Safe(read, ds, item)
  {
    var texts := Domains.Texts(ds);
    TextsAreItems(env, ds);
    TidyItemsCovered(env, read, ds, Written(env, read, texts));
    TidyItemsCovered(env, read, texts, Written(env, read, ds));
    TidyPatterns(env, read, ds);
    TidyPatterns(env, read, texts);
    forall t | t in texts ensures Covers(Written(env, read, ds), read(t)) {
      PatternOf(read, ds, t);
      MemberIsCovered(Written(env, read, ds), read(t));
    }
    forall item | item in ds
      ensures Covers(Written(env, read, texts), read(item)) <==> Safe(read, ds, item)
    {
      CoverAlike(Written(env, read, texts), Patterns(read, texts), read(item));
      if item in texts {
        PatternOf(read, texts, item);
        MemberIsCovered(Patterns(read, texts), read(item));
      }
    }
  }

  lemma CoverAlike(ps: seq<Pattern>, qs: seq<Pattern>, p: Pattern)
    requires forall q :: q in ps <==> q in qs
    ensures Covers(ps, p) <==> Covers(qs, p)
  {
    if Covers(ps, p) { MoreCover(ps, qs, p); }
    if Covers(qs, p) { MoreCover(qs, ps, p); }
  }

  // ---------------------------------------------------------------------------------------
  // The readings of the two cores
  // ---------------------------------------------------------------------------------------

  predicate IsBare(item: string) { !Domains.IsSpecial(item) && !HasPrefix(item, "domain:") }

  // A bare name that stays lies at or above the name, or is a part of it.
  predicate BareAbove(ds: seq<string>, v: string) {
    exists t | t in ds :: IsBare(t) && t in Domains.Texts(ds) && Domains.Below(v, t)
  }

  predicate BarePart(ds: seq<string>, v: string) {
    exists t | t in ds :: IsBare(t) && t in Domains.Texts(ds) && Contains(v, t)
  }

  predicate HasKeyword(ds: seq<string>, v: string) {
    exists t | t in ds :: HasPrefix(t, "keyword:") && Contains(v, TrimPrefix(t, "keyword:"))
  }

  // A tag names the very name.
  predicate NamedByTag(ds: seq<string>, v: string) {
    HasKeyword(ds, v) || exists t | t in ds :: HasPrefix(t, "full:") && TrimPrefix(t, "full:") == v
  }

  // For sing-box: the item stays, a bare name above it does, or tags make up for it.
  predicate BoxSafe(ds: seq<string>, item: string) {
    var v := NameIn(item);
    || item in Domains.Texts(ds) || BareAbove(ds, v)
    || (if IsBare(item) then HasKeyword(ds, "." + v) && (NamedByTag(ds, v) || "domain:" + v in Domains.Texts(ds))
        else NamedByTag(ds, v))
  }

  // For Xray: names under `domain:` are safe; a bare name needs one that stays, or a keyword, in it.
  predicate XraySafe(ds: seq<string>, item: string) {
    !IsBare(item) || item in Domains.Texts(ds) || BarePart(ds, item) || HasKeyword(ds, item)
  }

  lemma NameHasNoColon(item: string)
    requires IsNameItem(item)
    ensures ':' !in NameIn(item) && NameIn(item) != ""
    ensures IsBare(item) <==> !HasPrefix(item, "domain:")
    ensures IsBare(item) ==> NameIn(item) == item
  {
    NameItemIsADomain(item);
  }

  lemma ReadBox(item: string)
    requires IsTidy(item)
    ensures BoxPattern(item) ==
            if HasPrefix(item, "keyword:") then Containing(TrimPrefix(item, "keyword:"))
            else if HasPrefix(item, "full:") then Exactly(TrimPrefix(item, "full:"))
            else if Domains.IsSpecial(item) then BoxPattern(item)
            else if IsBare(item) then Under(item) else Exactly(NameIn(item))
    ensures Domains.IsSpecial(item) && !HasPrefix(item, "keyword:") && !HasPrefix(item, "full:") ==>
              BoxPattern(item).Tagged?
  {
    if Domains.IsSpecial(item) {
      TagLetters(item);
    } else {
      NameItemIsADomain(item);
      PlainLetters(item);
    }
  }

  lemma TagLetters(item: string)
    ensures HasPrefix(item, "keyword:") ==> Backends.KindOf(item) == Backends.Keyword
    ensures HasPrefix(item, "full:") ==> Backends.KindOf(item) == Backends.Exact && !HasPrefix(item, "domain:")
    ensures Domains.IsSpecial(item) && !HasPrefix(item, "keyword:") && !HasPrefix(item, "full:") ==>
              Backends.KindOf(item) == Backends.Geosite || Backends.KindOf(item) == Backends.Regex
  {
    if item != "" {
      assert HasPrefix(item, "keyword:") ==> item[0] == 'k';
      assert HasPrefix(item, "full:") ==> item[0] == 'f';
    }
  }

  lemma PlainLetters(item: string)
    requires IsNameItem(item)
    ensures HasPrefix(item, "domain:") ==> Backends.KindOf(item) == Backends.Exact && !HasPrefix(item, "full:")
    ensures !HasPrefix(item, "domain:") ==> Backends.KindOf(item) == Backends.Suffix && Backends.ValueOf(item) == item
    ensures !HasPrefix(item, "keyword:") && !HasPrefix(item, "full:")
  {
    if HasPrefix(item, "domain:") {
      assert item[0] == 'd';
    } else {
      PrefixNeedsColon(item, "geosite:");
      PrefixNeedsColon(item, "regexp:");
      PrefixNeedsColon(item, "regex:");
      PrefixNeedsColon(item, "full:");
      PrefixNeedsColon(item, "suffix:");
      PrefixNeedsColon(item, "keyword:");
    }
  }

  lemma ReadXray(item: string)
    requires IsTidy(item)
    ensures IsBare(item) ==> XrayPattern(item) == Containing(item)
    ensures !Domains.IsSpecial(item) && !IsBare(item) ==> XrayPattern(item) == Under(NameIn(item))
    ensures HasPrefix(item, "keyword:") ==> XrayPattern(item) == Containing(TrimPrefix(item, "keyword:"))
    ensures Domains.IsSpecial(item) && !HasPrefix(item, "keyword:") && XrayPattern(item).Containing? ==>
              XrayPattern(item) == Containing(item) && ':' in item
  {
    assert "geosite:ru"[0] == 'g';
    if Domains.IsSpecial(item) {
      TagColon(item);
    } else {
      NameItemIsADomain(item);
      PlainLetters(item);
      if !HasPrefix(item, "domain:") {
        PrefixNeedsColon(item, "geosite:");
        PrefixNeedsColon(item, "regexp:");
        assert ':' in "geosite:ru" && ':' !in item;
      } else {
        assert item[0] == 'd';
      }
    }
  }

  lemma TagColon(item: string)
    requires Domains.IsSpecial(item)
    ensures ':' in item
    ensures HasPrefix(item, "keyword:") ==> XrayPattern(item) == Containing(TrimPrefix(item, "keyword:"))
    ensures !HasPrefix(item, "keyword:") && XrayPattern(item).Containing? ==> XrayPattern(item) == Containing(item)
  {
    if HasPrefix(item, "geosite:") {
      assert item[7] == ':';
    } else if HasPrefix(item, "regexp:") {
      assert item[6] == ':';
    } else if HasPrefix(item, "regex:") {
      assert item[5] == ':' && item[0] == 'r';
    } else if HasPrefix(item, "keyword:") {
      assert item[7] == ':' && item[0] == 'k';
    } else {
      assert item[4] == ':' && item[0] == 'f';
    }
  }

  // A pattern of the texts that stay comes from one of them.
  lemma PatternComesFrom(env: Env, read: string -> Pattern, ds: seq<string>, q: Pattern) returns (t: string)
    requires AreTidy(ds) && q in Patterns(read, Domains.Texts(ds))
    ensures t in Domains.Texts(ds) && t in ds && IsTidy(t) && read(t) == q
  {
    var texts := Domains.Texts(ds);
    TextsAreItems(env, ds);
    var i :| 0 <= i < |texts| && Patterns(read, texts)[i] == q;
    t := texts[i];
  }

  lemma StayingPattern(env: Env, read: string -> Pattern, ds: seq<string>, t: string)
    requires AreTidy(ds) && t in ds && (Domains.IsSpecial(t) || t in Domains.Texts(ds))
    ensures read(t) in Patterns(read, Domains.Texts(ds))
  {
    if Domains.IsSpecial(t) { TagsStay(env, ds, t); }
    PatternOf(read, Domains.Texts(ds), t);
  }

  lemma BoxNameSources(env: Env, ds: seq<string>, v: string)
    requires AreTidy(ds) && CoversName(Patterns(BoxPattern, Domains.Texts(ds)), v)
    ensures BareAbove(ds, v) || NamedByTag(ds, v) || "domain:" + v in Domains.Texts(ds)
  {
    var q :| q in Patterns(BoxPattern, Domains.Texts(ds)) && FitsName(q, v);
    var t := PatternComesFrom(env, BoxPattern, ds, q);
    ReadBox(t);
    TidyIsKept(env, t);
    if !Domains.IsSpecial(t) && !IsBare(t) { assert t == "domain:" + NameIn(t); }
  }

  lemma BoxBelowSources(env: Env, ds: seq<string>, v: string)
    requires AreTidy(ds) && CoversBelow(Patterns(BoxPattern, Domains.Texts(ds)), v)
    ensures BareAbove(ds, v) || HasKeyword(ds, "." + v)
  {
    var q :| q in Patterns(BoxPattern, Domains.Texts(ds)) && HoldsBelow(q, v);
    var t := PatternComesFrom(env, BoxPattern, ds, q);
    ReadBox(t);
    TidyIsKept(env, t);
  }

  lemma BareAboveCovers(env: Env, ds: seq<string>, v: string)
    requires AreTidy(ds) && BareAbove(ds, v)
    ensures var qs := Patterns(BoxPattern, Domains.Texts(ds)); CoversName(qs, v) && CoversBelow(qs, v)
  {
    var t :| t in ds && IsBare(t) && t in Domains.Texts(ds) && Domains.Below(v, t);
    StayingPattern(env, BoxPattern, ds, t);
    ReadBox(t);
    TidyIsKept(env, t);
    NoTagLabels(t);
    assert FitsName(Under(t), v) && HoldsBelow(Under(t), v);
  }

  lemma NoTagLabels(t: string)
    requires !Domains.IsSpecial(t)
    ensures !HasPrefix(t, "keyword:") && !HasPrefix(t, "full:")
  {}

  lemma TagsCover(env: Env, ds: seq<string>, v: string)
    requires AreTidy(ds)
    ensures NamedByTag(ds, v) ==> CoversName(Patterns(BoxPattern, Domains.Texts(ds)), v)
    ensures HasKeyword(ds, "." + v) ==> CoversBelow(Patterns(BoxPattern, Domains.Texts(ds)), v)
  {
    var qs := Patterns(BoxPattern, Domains.Texts(ds));
    if HasKeyword(ds, v) {
      var t :| t in ds && HasPrefix(t, "keyword:") && Contains(v, TrimPrefix(t, "keyword:"));
      StayingPattern(env, BoxPattern, ds, t);
      ReadBox(t);
      assert FitsName(BoxPattern(t), v);
    } else if NamedByTag(ds, v) {
      var t :| t in ds && HasPrefix(t, "full:") && TrimPrefix(t, "full:") == v;
      StayingPattern(env, BoxPattern, ds, t);
      TagLetters(t);
      ReadBox(t);
      assert FitsName(BoxPattern(t), v);
    }
    if HasKeyword(ds, "." + v) {
      var t :| t in ds && HasPrefix(t, "keyword:") && Contains("." + v, TrimPrefix(t, "keyword:"));
      StayingPattern(env, BoxPattern, ds, t);
      ReadBox(t);
      assert HoldsBelow(BoxPattern(t), v);
    }
  }

  lemma OwnLabelCovers(env: Env, ds: seq<string>, v: string)
    requires AreTidy(ds) && "domain:" + v in Domains.Texts(ds)
    ensures CoversName(Patterns(BoxPattern, Domains.Texts(ds)), v)
  {
    LabelledReadings(v);
    PatternOf(BoxPattern, Domains.Texts(ds), "domain:" + v);
    assert FitsName(Exactly(v), v);
  }

  lemma BoxNames(env: Env, ds: seq<string>, v: string)
    requires AreTidy(ds)
    ensures CoversName(Patterns(BoxPattern, Domains.Texts(ds)), v) <==>
            BareAbove(ds, v) || NamedByTag(ds, v) || "domain:" + v in Domains.Texts(ds)
    ensures CoversBelow(Patterns(BoxPattern, Domains.Texts(ds)), v) <==> BareAbove(ds, v) || HasKeyword(ds, "." + v)
  {
    var qs := Patterns(BoxPattern, Domains.Texts(ds));
    TagsCover(env, ds, v);
    if CoversName(qs, v) { BoxNameSources(env, ds, v); }
    if CoversBelow(qs, v) { BoxBelowSources(env, ds, v); }
    if BareAbove(ds, v) { BareAboveCovers(env, ds, v); }
    if "domain:" + v in Domains.Texts(ds) { OwnLabelCovers(env, ds, v); }
  }

  lemma BoxSafeIff(env: Env, ds: seq<string>, item: string)
    requires AreTidy(ds) && item in ds && !Domains.IsSpecial(item)
    ensures Safe(BoxPattern, ds, item) <==> BoxSafe(ds, item)
  {
    var v := NameIn(item);
    TidyIsKept(env, item);
    NameHasNoColon(item);
    ReadBox(item);
    NoTagLabels(item);
    BoxNames(env, ds, v);
    assert !IsBare(item) ==> item == "domain:" + v;
  }

  /** For sing-box a list of tidy items survives iff every name stays or lies at or below a bare name
      that stays, or else a tag names it, and a keyword what is below it if it is bare. */
  lemma TidyListsSurviveForBoxIff(env: Env, ds: seq<string>)
    requires AreTidy(ds)
    ensures DomainsSurvive(env, BoxPattern, ds) <==>
            forall item | item in ds :: Domains.IsSpecial(item) || BoxSafe(ds, item)
  {
    TidyListsSurviveIff(env, BoxPattern, ds);
    forall item | item in ds
      ensures Safe(BoxPattern, ds, item) <==> Domains.IsSpecial(item) || BoxSafe(ds, item)
    {
      if Domains.IsSpecial(item) { TagsStay(env, ds, item); } else { BoxSafeIff(env, ds, item); }
    }
  }

  // Under `domain:` every name lies at or below one that stays.
  lemma LabelledIsSafeForXray(env: Env, ds: seq<string>, item: string)
    requires AreTidy(ds) && item in ds && !Domains.IsSpecial(item) && !IsBare(item)
    ensures Safe(XrayPattern, ds, item)
  {
    var t := StayingItemAbove(env, ds, item);
    ReadXray(item);
    StayingPattern(env, XrayPattern, ds, t);
    UpperReading(t, NameIn(item));
    OneCoversUnder(Patterns(XrayPattern, Domains.Texts(ds)), XrayPattern(t), NameIn(item));
  }

  lemma UpperReading(t: string, v: string)
    requires IsTidy(t) && !Domains.IsSpecial(t) && Domains.Below(v, NameIn(t))
    ensures FitsName(XrayPattern(t), v) && HoldsBelow(XrayPattern(t), v)
  {
    ReadXray(t);
    if IsBare(t) { NameHasNoColon(t); }
    UpperCovers(XrayPattern(t), NameIn(t), v);
  }

  lemma OneCoversUnder(qs: seq<Pattern>, q: Pattern, v: string)
    requires q in qs && FitsName(q, v) && HoldsBelow(q, v)
    ensures Covers(qs, Under(v))
  {}

  lemma UpperCovers(q: Pattern, p: string, v: string)
    requires (q == Under(p) || q == Containing(p)) && Domains.Below(v, p)
    ensures FitsName(q, v) && HoldsBelow(q, v)
  {
    if v == p {
      assert HoldsAt(v, p, 0) && HoldsAt("." + v, p, 1);
    } else {
      assert v[|v| - |p| - 1..] == "." + p;
      assert v[|v| - |p|..] == p;
      SuffixIsContained(v, p);
      assert ("." + v)[|v| + 1 - |p|..] == p;
      SuffixIsContained("." + v, p);
    }
  }

  lemma ContainedCharacters(v: string, part: string, c: char)
    requires Contains(v, part) && c in part
    ensures c in v
  {
    var i :| 0 <= i <= |v| && HoldsAt(v, part, i);
    assert c in v[i..i + |part|];
  }

  lemma XraySources(env: Env, ds: seq<string>, v: string)
    requires AreTidy(ds) && ':' !in v && CoversPart(Patterns(XrayPattern, Domains.Texts(ds)), v)
    ensures BarePart(ds, v) || HasKeyword(ds, v)
  {
    var q :| q in Patterns(XrayPattern, Domains.Texts(ds)) && q.Containing? && Contains(v, q.part);
    var t := PatternComesFrom(env, XrayPattern, ds, q);
    ReadXray(t);
    TidyIsKept(env, t);
    if Domains.IsSpecial(t) && !HasPrefix(t, "keyword:") { ContainedCharacters(v, t, ':'); }
  }

  lemma XrayParts(env: Env, ds: seq<string>, v: string)
    requires AreTidy(ds) && ':' !in v
    ensures CoversPart(Patterns(XrayPattern, Domains.Texts(ds)), v) <==> BarePart(ds, v) || HasKeyword(ds, v)
  {
    if BarePart(ds, v) || HasKeyword(ds, v) { PartsCover(env, ds, v); }
    if CoversPart(Patterns(XrayPattern, Domains.Texts(ds)), v) { XraySources(env, ds, v); }
  }

  lemma PartsCover(env: Env, ds: seq<string>, v: string)
    requires AreTidy(ds) && (BarePart(ds, v) || HasKeyword(ds, v))
    ensures CoversPart(Patterns(XrayPattern, Domains.Texts(ds)), v)
  {
    if BarePart(ds, v) {
      var t :| t in ds && IsBare(t) && t in Domains.Texts(ds) && Contains(v, t);
      StayingPattern(env, XrayPattern, ds, t);
      ReadXray(t);
    } else {
      var t :| t in ds && HasPrefix(t, "keyword:") && Contains(v, TrimPrefix(t, "keyword:"));
      StayingPattern(env, XrayPattern, ds, t);
      ReadXray(t);
    }
  }

  lemma BareIsSafeForXrayIff(env: Env, ds: seq<string>, item: string)
    requires AreTidy(ds) && XrayPattern(item) == Containing(item) && ':' !in item && IsBare(item)
    ensures Safe(XrayPattern, ds, item) <==> XraySafe(ds, item)
  {
    XrayParts(env, ds, item);
  }

  lemma BareReading(env: Env, item: string)
    requires IsTidy(item) && IsBare(item)
    ensures XrayPattern(item) == Containing(item) && ':' !in item
  {
    TidyIsKept(env, item);
    NameHasNoColon(item);
    ReadXray(item);
  }

  lemma XraySafeIff(env: Env, ds: seq<string>, item: string)
    requires AreTidy(ds) && item in ds && !Domains.IsSpecial(item)
    ensures Safe(XrayPattern, ds, item) <==> XraySafe(ds, item)
  {
    if IsBare(item) {
      BareReading(env, item);
      BareIsSafeForXrayIff(env, ds, item);
    } else {
      LabelledIsSafeForXray(env, ds, item);
    }
  }

  /** For Xray it survives iff every bare name stays, or holds a bare name that stays or a keyword. */
  lemma TidyListsSurviveForXrayIff(env: Env, ds: seq<string>)
    requires AreTidy(ds)
    ensures DomainsSurvive(env, XrayPattern, ds) <==>
            forall item | item in ds :: Domains.IsSpecial(item) || XraySafe(ds, item)
  {
    TidyListsSurviveIff(env, XrayPattern, ds);
    forall item | item in ds
      ensures Safe(XrayPattern, ds, item) <==> Domains.IsSpecial(item) || XraySafe(ds, item)
    {
      if Domains.IsSpecial(item) { TagsStay(env, ds, item); } else { XraySafeIff(env, ds, item); }
    }
  }

  // ---------------------------------------------------------------------------------------
  // Lists that survive
  // ---------------------------------------------------------------------------------------

  /** Lists of tags and names survive where `domain:` covers subdomains, as a bare name does. */
  lemma NamesSurvive(env: Env, read: string -> Pattern, ds: seq<string>)
    requires AreTidy(ds) && ReadsNames(read, ds)
    ensures DomainsSurvive(env, read, ds)
  {
    TidyListsSurviveIff(env, read, ds);
    forall item | item in ds ensures Safe(read, ds, item) {
      if Domains.IsSpecial(item) {
        TagsStay(env, ds, item);
      } else {
        var e := StayingItemAbove(env, ds, item);
        StayingPattern(env, read, ds, e);
        UpperCovers(read(e), NameIn(e), NameIn(item));
      }
    }
  }

  /** Of a tidy list exactly those names stay that no other lies above and that carry the label of the
      first item of that name. */
  lemma NameStaysIff(env: Env, ds: seq<string>, item: string)
    requires AreTidy(ds) && |ds| > 1 && item in ds && !Domains.IsSpecial(item)
    ensures NameIn(item) in Domains.Labels(ds)
    ensures item in Domains.Texts(ds) <==>
            Domains.IsTop(ds, NameIn(item)) && Domains.Labels(ds)[NameIn(item)] == Domains.Label(item)
  {
    var v := NameIn(item);
    TidyIsKept(env, item);
    Domains.RootsFacts(ds);
    Domains.TopsInFacts(ds, Domains.Roots(ds));
    Domains.PrintedMembers(Domains.Labels(ds), Domains.Tops(ds));
    if item in Domains.Texts(ds) { StayingNameIsTop(env, ds, item); }
    if Domains.IsTop(ds, v) && Domains.Labels(ds)[v] == Domains.Label(item) {
      assert item == Domains.OutputText(Domains.Labels(ds), v);
    }
  }

  lemma StayingNameIsTop(env: Env, ds: seq<string>, item: string)
    requires AreTidy(ds) && |ds| > 1 && item in Domains.Texts(ds) && item in ds && !Domains.IsSpecial(item)
    ensures var v := NameIn(item);
            Domains.IsTop(ds, v) && v in Domains.Labels(ds) && Domains.Labels(ds)[v] == Domains.Label(item)
  {
    Domains.SpecialsFacts(ds);
    Domains.TopsInFacts(ds, Domains.Roots(ds));
    Domains.RootsFacts(ds);
    Domains.PrintedMembers(Domains.Labels(ds), Domains.Tops(ds));
    var d :| d in Domains.Tops(ds) && item == Domains.OutputText(Domains.Labels(ds), d);
    var e := Domains.LabelComesFromAnEntry(ds, d);
    TidyIsKept(env, e);
    TidyIsKept(env, item);
  }

  // No name of the list is bare.
  predicate AllLabelled(ds: seq<string>) { forall item | item in ds :: !IsBare(item) }

  // No name of the list has fewer dots.
  predicate IsLevel(ds: seq<string>, v: string) {
    forall item | item in ds :: Domains.IsSpecial(item) || Domains.Dots(v) <= Domains.Dots(NameIn(item))
  }

  lemma LevelNameStays(env: Env, ds: seq<string>, item: string)
    requires AreTidy(ds) && AllLabelled(ds) && item in ds && !Domains.IsSpecial(item) && IsLevel(ds, NameIn(item))
    ensures item in Domains.Texts(ds)
  {
    if |ds| > 1 {
      var v := NameIn(item);
      TidyIsKept(env, item);
      Domains.RootsFacts(ds);
      forall r | r in Domains.Roots(ds) && Domains.Below(v, r) ensures r == v {
        var e :| e in ds && Domains.IsDomain(TrimSpace(e)) && Domains.Clean(TrimSpace(e)) == r;
        TidyIsKept(env, e);
        Domains.DotsGrow(v, r);
      }
      NameStaysIff(env, ds, item);
      var first := Domains.LabelComesFromAnEntry(ds, v);
      TidyIsKept(env, first);
      NameItemIsADomain(first);
      NameItemIsADomain(item);
    }
  }

  /** Where all names carry `domain:` and have as many dots, nothing is lost under any reading. */
  lemma LevelListsSurvive(env: Env, read: string -> Pattern, ds: seq<string>)
    requires AreTidy(ds) && AllLabelled(ds)
    requires forall item | item in ds && !Domains.IsSpecial(item) :: IsLevel(ds, NameIn(item))
    ensures DomainsSurvive(env, read, ds)
  {
    TidyListsSurviveIff(env, read, ds);
    forall item | item in ds ensures Safe(read, ds, item) {
      if Domains.IsSpecial(item) { TagsStay(env, ds, item); } else { LevelNameStays(env, ds, item); }
    }
  }

  /** Where all names carry `domain:`, nothing is lost for Xray, and nothing for sing-box if each name
      has the fewest dots or holds a keyword of the list. */
  lemma LabelledListsSurvive(env: Env, ds: seq<string>)
    requires AreTidy(ds) && AllLabelled(ds)
    ensures DomainsSurvive(env, XrayPattern, ds)
    ensures (forall item | item in ds && !Domains.IsSpecial(item) ::
               IsLevel(ds, NameIn(item)) || HasKeyword(ds, NameIn(item))) ==> DomainsSurvive(env, BoxPattern, ds)
  {
    TidyListsSurviveForXrayIff(env, ds);
    TidyListsSurviveForBoxIff(env, ds);
    if forall item | item in ds && !Domains.IsSpecial(item) ::
         IsLevel(ds, NameIn(item)) || HasKeyword(ds, NameIn(item))
    {
      forall item | item in ds && !Domains.IsSpecial(item) ensures BoxSafe(ds, item) {
        if IsLevel(ds, NameIn(item)) { LevelNameStays(env, ds, item); }
      }
    }
  }

  lemma LabelledNameIsTidy(n: string)
    requires IsName(n)
    ensures IsTidy("domain:" + n) && NameIn("domain:" + n) == n && !Domains.IsSpecial("domain:" + n)
    ensures !IsBare("domain:" + n)
  {
    assert ("domain:" + n)[7..] == n && ("domain:" + n)[..7] == "domain:";
    NameItemIsADomain("domain:" + n);
  }

  lemma TagTextIsTidy(t: string)
    requires IsTagText(t) && Tight(t) && IsUnsplit(t)
    ensures IsTidy(t) && Domains.IsSpecial(t)
  {}

  lemma ThreeEntries<T>(s: seq<T>)
    requires |s| == 3
    ensures s[0] in s && s[1] in s && s[2] in s && forall x | x in s :: x == s[0] || x == s[1] || x == s[2]
  {}

  /** A name under `domain:` below another one survives for sing-box iff it holds the keyword that the
      list has beside them. */
  lemma KeywordSavesASubdomain(env: Env, upper: string, lower: string, word: string, ds: seq<string>)
    requires IsName(upper) && IsName(lower) && Domains.Below(lower, upper) && lower != upper
    requires ds == ["domain:" + upper, "domain:" + lower, "keyword:" + word] && IsTidy(ds[2])
    ensures DomainsSurvive(env, BoxPattern, ds) <==> Contains(lower, word)
  {
    LabelledNameIsTidy(upper);
    LabelledNameIsTidy(lower);
    KeywordText(ds[2], word);
    TidyListsSurviveForBoxIff(env, ds);
    UpperStaysAlone(env, ds, upper, lower);
    OneKeyword(ds, lower, word);
    LowerIsSafeIff(ds, lower, word);
    ThreeEntries(ds);
  }

  lemma KeywordText(tag: string, word: string)
    requires tag == "keyword:" + word
    ensures HasPrefix(tag, "keyword:") && TrimPrefix(tag, "keyword:") == word && Domains.IsSpecial(tag)
    ensures !HasPrefix(tag, "full:") && !HasPrefix(tag, "domain:")
  {
    assert tag[8..] == word && tag[..8] == "keyword:" && tag[0] == 'k';
  }

  // The tags of a list with one keyword and no other tag.
  lemma OneKeyword(ds: seq<string>, v: string, word: string)
    requires |ds| == 3 && HasPrefix(ds[2], "keyword:") && TrimPrefix(ds[2], "keyword:") == word
    requires HasPrefix(ds[0], "domain:") && HasPrefix(ds[1], "domain:") && !HasPrefix(ds[2], "full:")
    ensures HasKeyword(ds, v) <==> Contains(v, word)
    ensures NamedByTag(ds, v) <==> Contains(v, word)
  {
    assert ds[2] in ds && forall item | item in ds :: item == ds[0] || item == ds[1] || item == ds[2];
    assert ds[0][0] == 'd' && ds[1][0] == 'd';
  }

  lemma LowerIsSafeIff(ds: seq<string>, lower: string, word: string)
    requires |ds| == 3 && ds[1] == "domain:" + lower && ds[1] !in Domains.Texts(ds) && Domains.IsSpecial(ds[2])
    requires !IsBare(ds[0]) && !IsBare(ds[1]) && NameIn(ds[1]) == lower
    requires NamedByTag(ds, lower) <==> Contains(lower, word)
    ensures BoxSafe(ds, ds[1]) <==> Contains(lower, word)
  {
    forall t | t in ds ensures !IsBare(t) {}
  }

  lemma UpperStaysAlone(env: Env, ds: seq<string>, upper: string, lower: string)
    requires IsName(upper) && IsName(lower) && Domains.Below(lower, upper) && lower != upper
    requires |ds| == 3 && ds[0] == "domain:" + upper && ds[1] == "domain:" + lower && IsTidy(ds[2])
    requires Domains.IsSpecial(ds[2])
    ensures ds[0] in Domains.Texts(ds) && ds[1] !in Domains.Texts(ds)
  {
    LabelledNameIsTidy(upper);
    LabelledNameIsTidy(lower);
    assert ds[0] in ds && ds[1] in ds && forall item :: item in ds <==> item == ds[0] || item == ds[1] || item == ds[2];
    Domains.DotsGrow(lower, upper);
    LevelNameStays(env, ds, ds[0]);
    NameStaysIff(env, ds, ds[1]);
    TidyIsKept(env, ds[0]);
    Domains.RootsFacts(ds);
    assert upper in Domains.Roots(ds);
  }

  /** Rows whose domains are tidy and survive keep their meaning, if their ports are not emptied. */
  lemma TidyRowIsSound(env: Env, read: string -> Pattern, row: Row)
    requires AreTidy(row.domains) && row.domains != [] && DomainsSurvive(env, read, row.domains)
    requires CleanList(env.cleanPort, row.ports) == [] ==> row.ports == []
    ensures Sound(env, read, row)
  {
    TidyEntries(env, row.domains, row.domains[0]);
  }
}
