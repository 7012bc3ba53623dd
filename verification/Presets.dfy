/** Two of the presets that come with the program (presets/ru.json, presets/ip_checkers.json). */
module Presets {
  import opened Text
  import opened HostPatterns
  import opened Sanitize
  import opened Policy
  import opened Cores
  import opened TidyLists
  import Domains

  // Host names of two labels.
  function Hosts(names: seq<string>, tops: seq<string>): (r: seq<string>)
    requires |names| == |tops|
    ensures |r| == |names| && forall i | 0 <= i < |names| :: r[i] == names[i] + "." + tops[i]
  {
    seq(|names|, i requires 0 <= i < |names| => names[i] + "." + tops[i])
  }

  function Marked(mark: string, names: seq<string>): (r: seq<string>)
    ensures |r| == |names| && forall i | 0 <= i < |names| :: r[i] == mark + names[i]
  {
    seq(|names|, i requires 0 <= i < |names| => mark + names[i])
  }

  const RU_SITES := ["category-ru", "category-gov-ru", "yandex", "vk", "mailru"]
  const RU_NAMES := ["sberbank", "tbank", "tinkoff", "ozon", "wildberries", "2gis", "avito"]
  const RU_TOPS := ["ru", "ru", "ru", "ru", "ru", "ru", "ru"]
  const RU_PATTERNS := [".*\\.ru$", ".*\\.su$", ".*\\.\U{0440}\U{0444}$", ".*\\.xn--p1ai$"]

  const RU_DOMAINS :=
    Marked("geosite:", RU_SITES) + Marked("domain:", Hosts(RU_NAMES, RU_TOPS)) + Marked("regexp:", RU_PATTERNS)

  const CHECKERS_1 := ["ifconfig", "ifconfig", "ifconfig", "telega", "ipinfo", "2ip"]
  const CHECKERS_2 := ["2ip", "2ip", "2ip", "myip", "myip", "icanhazip"]
  const CHECKERS_3 := ["wtfismyip", "ip", "ipapi", "ip-api", "ipapi", "db-ip"]
  const CHECKERS_4 := ["whoer", "ipwhois", "ipwho", "ipaddress", "ipaddress", "check-host"]
  const CHECKERS_5 := [
    "browserleaks", "ip2location", "ip2location", "showmyip", "whatsmyip", "whatismyip"]
  const CHECKERS_6 := ["whatsmyipaddress", "whatismyipaddress", "dnsleaktest", "ipleak", "ip", "ip"]
  const CHECKERS_7 := ["ip138", "ident", "curlmyip", "eth0", "myexternalip", "ip"]
  const CHECKERS_8 := ["trackip"]
  const CHECKERS :=
    CHECKERS_1 + CHECKERS_2 + CHECKERS_3 + CHECKERS_4
    + CHECKERS_5 + CHECKERS_6 + CHECKERS_7 + CHECKERS_8
  const CHECKER_TOPS := [
    "me", "co", "io", "me", "io", "ru", "io", "ua", "me", "ru", "com", "com", "com", "sb", "co", "com",
    "com", "com", "net", "io", "is", "my"]
    + [
    "com", "net", "com", "com", "io", "com", "org", "com", "com", "com", "com", "net", "me", "cn", "com",
    "me", "org", "me", "com", "nf", "net"]

  const FIRST_WORDS := ["ipify", "2ip", "ipwhois", "icanhazip", "ifconfig"]
  const MORE_WORDS := ["checkip", "browserleaks", "whoer", "ipleak"]
  const CHECKER_WORDS := FIRST_WORDS + MORE_WORDS

  // Three names have a third label.
  const CHECKER_NAMES :=
    ["ipify.org", "api.ipify.org", "checkip.amazonaws.com"] + Hosts(CHECKERS, CHECKER_TOPS) + ["checkip.dyndns.org"]

  const CHECKER_DOMAINS := Marked("domain:", CHECKER_NAMES) + Marked("keyword:", CHECKER_WORDS)

  // ---------------------------------------------------------------------------------------
  // Their items are tidy
  // ---------------------------------------------------------------------------------------

  predicate IsLabelChar(c: char) { 'a' <= c <= 'z' || '0' <= c <= '9' || c == '-' }

  predicate IsHostLabel(s: string) { s != "" && forall c | c in s :: IsLabelChar(c) }

  predicate AreLabels(labels: seq<string>) { forall s | s in labels :: IsHostLabel(s) }

  // A host name with one dot.
  predicate IsSecondLevel(n: string) { IsName(n) && Domains.Dots(n) == 1 }

  lemma JoinIsName(a: string, b: string, n: string)
    requires IsHostLabel(a) && IsName(b) && n == a + "." + b
    ensures IsName(n)
  {
    assert forall c | c in n :: c in a || c == '.' || c in b;
    assert n[0] == a[0] && a[0] in a && n[|n| - 1] == b[|b| - 1];
  }

  lemma LabelIsName(s: string)
    requires IsHostLabel(s)
    ensures IsName(s) && Domains.Dots(s) == 0
  {
    assert s[0] in s && s[|s| - 1] in s;
    Domains.NoDots(s);
  }

  lemma DotsOfJoin(a: string, b: string)
    requires IsHostLabel(a)
    ensures Domains.Dots(a + "." + b) == 1 + Domains.Dots(b)
  {
    assert a + "." + b == a + ("." + b);
    Domains.DotsAdd(a, "." + b);
    Domains.NoDots(a);
    assert ("." + b)[1..] == b;
  }

  lemma HostIsSecondLevel(a: string, b: string)
    requires IsHostLabel(a) && IsHostLabel(b)
    ensures IsSecondLevel(a + "." + b)
  {
    LabelIsName(b);
    JoinIsName(a, b, a + "." + b);
    DotsOfJoin(a, b);
  }

  lemma HostsAreSecondLevel(names: seq<string>, tops: seq<string>)
    requires |names| == |tops| && AreLabels(names) && AreLabels(tops)
    ensures forall n | n in Hosts(names, tops) :: IsSecondLevel(n)
  {
    forall n | n in Hosts(names, tops) ensures IsSecondLevel(n) {
      var i :| 0 <= i < |names| && Hosts(names, tops)[i] == n;
      assert names[i] in names && tops[i] in tops;
      HostIsSecondLevel(names[i], tops[i]);
    }
  }

  lemma RuLabels()
    ensures AreLabels(RU_NAMES)
  {}

  lemma RuTops()
    ensures AreLabels(RU_TOPS)
  {}

  lemma RuSites()
    ensures AreLabels(RU_SITES)
  {}

  predicate ArePatterns(ts: seq<string>) { forall t | t in ts :: t != "" && Tight(t) && IsUnsplit(t) }

  lemma RuPatterns()
    ensures ArePatterns(RU_PATTERNS)
  {}

  lemma Checkers1()
    ensures AreLabels(CHECKERS_1)
  {}

  lemma Checkers2()
    ensures AreLabels(CHECKERS_2)
  {}

  lemma Checkers3()
    ensures AreLabels(CHECKERS_3)
  {}

  lemma Checkers4()
    ensures AreLabels(CHECKERS_4)
  {}

  lemma Checkers5()
    ensures AreLabels(CHECKERS_5)
  {}

  lemma Checkers6()
    ensures AreLabels(CHECKERS_6)
  {}

  lemma Checkers7()
    ensures AreLabels(CHECKERS_7)
  {}

  lemma Checkers8()
    ensures AreLabels(CHECKERS_8)
  {}

  lemma CheckerTops()
    ensures AreLabels(CHECKER_TOPS)
  {}

  lemma FirstWords()
    ensures AreLabels(FIRST_WORDS)
  {}

  lemma MoreWords()
    ensures AreLabels(MORE_WORDS)
  {}

  // ---------------------------------------------------------------------------------------
  // They survive
  // ---------------------------------------------------------------------------------------

  lemma MarkedMember(mark: string, names: seq<string>, item: string) returns (n: string)
    requires item in Marked(mark, names)
    ensures n in names && item == mark + n
  {
    var i :| 0 <= i < |names| && Marked(mark, names)[i] == item;
    n := names[i];
  }

  lemma TagIsTidy(mark: string, t: string)
    requires mark == "geosite:" || mark == "regexp:" || mark == "keyword:"
    requires t != "" && Tight(t) && IsUnsplit(t)
    ensures IsTidy(mark + t) && Domains.IsSpecial(mark + t) && !IsBare(mark + t)
  {
    var s := mark + t;
    assert s[0] == mark[0] && s[|s| - 1] == t[|t| - 1] && s[..|mark|] == mark;
    assert IsUnsplit(mark) && forall c | c in s :: c in mark || c in t;
    TagTextIsTidy(s);
  }

  lemma LabelIsPattern(s: string)
    requires IsHostLabel(s)
    ensures s != "" && Tight(s) && IsUnsplit(s)
  {
    LabelIsName(s);
  }

  // A tag, or a labelled name with one dot or more.
  ghost predicate IsPresetItem(item: string) {
    && IsTidy(item) && !IsBare(item)
    && (!Domains.IsSpecial(item) ==> Domains.Dots(NameIn(item)) >= 1)
  }

  lemma NameIsPresetItem(n: string)
    requires IsName(n) && Domains.Dots(n) >= 1
    ensures IsPresetItem("domain:" + n) && NameIn("domain:" + n) == n && !Domains.IsSpecial("domain:" + n)
  {
    LabelledNameIsTidy(n);
  }

  lemma RuNameItems(item: string)
    requires item in Marked("domain:", Hosts(RU_NAMES, RU_TOPS))
    ensures IsPresetItem(item) && !Domains.IsSpecial(item) && Domains.Dots(NameIn(item)) == 1
  {
    var n := MarkedMember("domain:", Hosts(RU_NAMES, RU_TOPS), item);
    RuLabels();
    RuTops();
    HostsAreSecondLevel(RU_NAMES, RU_TOPS);
    NameIsPresetItem(n);
  }

  lemma RuTagItems(item: string)
    requires item in Marked("geosite:", RU_SITES) || item in Marked("regexp:", RU_PATTERNS)
    ensures IsPresetItem(item) && Domains.IsSpecial(item)
  {
    if item in Marked("geosite:", RU_SITES) {
      var t := MarkedMember("geosite:", RU_SITES, item);
      RuSites();
      LabelIsPattern(t);
      TagIsTidy("geosite:", t);
    } else {
      var t := MarkedMember("regexp:", RU_PATTERNS, item);
      RuPatterns();
      TagIsTidy("regexp:", t);
    }
  }

  /** The domains of the preset for Russia survive under any reading of the entries. */
  lemma RuPresetSurvives(env: Env, read: string -> Pattern)
    ensures AreTidy(RU_DOMAINS) && DomainsSurvive(env, read, RU_DOMAINS)
  {
    forall item | item in RU_DOMAINS
      ensures IsPresetItem(item) && (Domains.IsSpecial(item) || Domains.Dots(NameIn(item)) == 1)
    {
      if item in Marked("domain:", Hosts(RU_NAMES, RU_TOPS)) { RuNameItems(item); } else { RuTagItems(item); }
    }
    LevelListsSurvive(env, read, RU_DOMAINS);
  }

  lemma CheckersAreSecondLevel()
    ensures forall n | n in Hosts(CHECKERS, CHECKER_TOPS) :: IsSecondLevel(n)
  {
    Checkers1();
    Checkers2();
    Checkers3();
    Checkers4();
    Checkers5();
    Checkers6();
    Checkers7();
    Checkers8();
    CheckerTops();
    HostsAreSecondLevel(CHECKERS, CHECKER_TOPS);
  }

  lemma ThirdLevel(a: string, b: string, c: string, n: string)
    requires IsHostLabel(a) && IsHostLabel(b) && IsHostLabel(c) && n == a + "." + (b + "." + c)
    ensures IsName(n) && Domains.Dots(n) == 2
  {
    HostIsSecondLevel(b, c);
    JoinIsName(a, b + "." + c, n);
    DotsOfJoin(a, b + "." + c);
  }

  lemma LongCheckers(n: string)
    requires IsLongChecker(n)
    ensures IsName(n) && Domains.Dots(n) == 2
  {
    if n == "api.ipify.org" {
      assert n == "api" + "." + ("ipify" + "." + "org");
      ThirdLevel("api", "ipify", "org", n);
    } else if n == "checkip.amazonaws.com" {
      assert n == "checkip" + "." + ("amazonaws" + "." + "com");
      ThirdLevel("checkip", "amazonaws", "com", n);
    } else {
      assert n == "checkip" + "." + ("dyndns" + "." + "org");
      ThirdLevel("checkip", "dyndns", "org", n);
    }
  }

  predicate IsLongChecker(n: string) {
    n == "api.ipify.org" || n == "checkip.amazonaws.com" || n == "checkip.dyndns.org"
  }

  lemma LongCheckersHoldKeywords(n: string) returns (w: string)
    requires IsLongChecker(n)
    ensures (w == "ipify" || w == "checkip") && Contains(n, w)
  {
    if n == "api.ipify.org" {
      w := "ipify";
      assert n[4..9] == w && HoldsAt(n, w, 4);
    } else if n == "checkip.amazonaws.com" {
      w := "checkip";
      assert n[0..7] == w && HoldsAt(n, w, 0);
    } else {
      w := "checkip";
      assert n[0..7] == w && HoldsAt(n, w, 0);
    }
  }

  lemma WordIsListed(w: string)
    requires w == "ipify" || w == "checkip"
    ensures w in CHECKER_WORDS
  {
    assert FIRST_WORDS[0] == "ipify" && MORE_WORDS[0] == "checkip";
  }

  lemma KeywordIsThere(n: string, w: string)
    requires w in CHECKER_WORDS && Contains(n, w)
    ensures HasKeyword(CHECKER_DOMAINS, n)
  {
    var i :| 0 <= i < |CHECKER_WORDS| && CHECKER_WORDS[i] == w;
    var t := Marked("keyword:", CHECKER_WORDS)[i];
    KeywordText(t, w);
    assert t in CHECKER_DOMAINS;
  }

  lemma ShortChecker()
    ensures IsSecondLevel("ipify.org")
  {
    assert "ipify.org" == "ipify" + "." + "org";
    HostIsSecondLevel("ipify", "org");
  }

  lemma CheckerCases(n: string, hosts: seq<string>)
    requires n in ["ipify.org", "api.ipify.org", "checkip.amazonaws.com"] + hosts + ["checkip.dyndns.org"]
    ensures n == "ipify.org" || IsLongChecker(n) || n in hosts
  {}

  lemma CheckerName(n: string)
    requires n in CHECKER_NAMES
    ensures IsName(n) && Domains.Dots(n) >= 1 && (Domains.Dots(n) == 1 || HasKeyword(CHECKER_DOMAINS, n))
  {
    CheckerCases(n, Hosts(CHECKERS, CHECKER_TOPS));
    if IsLongChecker(n) {
      LongCheckers(n);
      var w := LongCheckersHoldKeywords(n);
      WordIsListed(w);
      KeywordIsThere(n, w);
    } else if n == "ipify.org" {
      ShortChecker();
    } else {
      CheckersAreSecondLevel();
    }
  }

  lemma CheckerItem(item: string)
    requires item in CHECKER_DOMAINS
    ensures IsPresetItem(item)
    ensures !Domains.IsSpecial(item) ==>
              Domains.Dots(NameIn(item)) == 1 || HasKeyword(CHECKER_DOMAINS, NameIn(item))
  {
    if item in Marked("domain:", CHECKER_NAMES) {
      var n := MarkedMember("domain:", CHECKER_NAMES, item);
      CheckerName(n);
      NameIsPresetItem(n);
    } else {
      var w := MarkedMember("keyword:", CHECKER_WORDS, item);
      FirstWords();
      MoreWords();
      LabelIsPattern(w);
      TagIsTidy("keyword:", w);
    }
  }

  /** So do those of the preset for address checkers under the readings of both cores: the names below
      others hold a keyword. */
  lemma CheckerPresetSurvives(env: Env)
    ensures AreTidy(CHECKER_DOMAINS)
    ensures DomainsSurvive(env, BoxPattern, CHECKER_DOMAINS) && DomainsSurvive(env, XrayPattern, CHECKER_DOMAINS)
  {
    forall item | item in CHECKER_DOMAINS
      ensures IsPresetItem(item)
      ensures !Domains.IsSpecial(item) ==>
                Domains.Dots(NameIn(item)) == 1 || HasKeyword(CHECKER_DOMAINS, NameIn(item))
    {
      CheckerItem(item);
    }
    LabelledListsSurvive(env, CHECKER_DOMAINS);
  }

  /** So the rows of both presets are sound for the theorems on compiled policies, whatever target they
      are given. */
  lemma PresetRowsAreSound(env: Env, row: Row)
    requires row.domains == RU_DOMAINS || row.domains == CHECKER_DOMAINS
    requires row.ports == []
    ensures Sound(env, BoxPattern, row) && Sound(env, XrayPattern, row)
  {
    RuPresetSurvives(env, BoxPattern);
    RuPresetSurvives(env, XrayPattern);
    CheckerPresetSurvives(env);
    assert |RU_DOMAINS| > 0 && |CHECKER_DOMAINS| > 0;
    TidyRowIsSound(env, BoxPattern, row);
    TidyRowIsSound(env, XrayPattern, row);
  }
}
