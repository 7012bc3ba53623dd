/** Compilation of a routing policy into a first-match rule list (pkg/routing/engine.go,
    pkg/routing/table.go, pkg/routing/optimizer.go, pkg/routing/preset_manager.go).

    A list item is split and cleaned into the entries it stands for, and that is what a written row
    means.  The optimizer works on the written items, before they are cleaned.  Cleaning of single
    addresses and ports, the registered presets and the text form of networks are parameters. */
module Policy {
  import opened Common
  import opened Text
  import opened Sorting
  import opened RoutingAst
  import opened HostPatterns
  import opened Sanitize
  import Cidr
  import Domains

  // `url` gives the host name of a URL, `cleanIP` the entry of a trimmed field, `cleanPort` that of a field.
  datatype Env = Env(codec: Cidr.Codec, url: string -> Option<string>, cleanIP: string -> string,
                     cleanPort: string -> string, preset: string -> Option<Preset>) {
    // A text that is a network is one field and is cleaned to that network.
    ghost predicate Valid() {
      && codec.Valid() && cleanIP("") == "" && cleanIP(PRIVATE) == PRIVATE
      && forall t | codec.parse(t).Some? ::
           IsUnsplit(t) && cleanIP(t) != "" && codec.parse(cleanIP(t)) == codec.parse(t)
    }

    function CleanDomain(): string -> string { p => SanitizeDomain(url, p) }

    function CleanIP(): string -> string { Trimmed(cleanIP) }
  }

  const PRIVATE := "geoip:private"

  datatype Row = Row(order: int, enabled: bool, target: string, inbounds: seq<string>, domains: seq<string>,
                     ips: seq<string>, protocols: seq<string>, ports: seq<string>, processNames: seq<string>,
                     packageUIDs: seq<string>, ipVersion: int)

  const BLANK_ROW := Row(0, true, "", [], [], [], [], [], [], [], 0)

  datatype Preset = Preset(defaultTarget: string, matchers: Row, rules: seq<Row>)

  datatype Mode = SmartRule | GlobalProxy | DirectAll | WhitelistOnly

  datatype RoutingPolicy = RoutingPolicy(
    mode: Mode, enabledPresets: seq<string>, presetTargets: map<string, string>, customRules: seq<Row>,
    proxyDomains: seq<string>, directDomains: seq<string>, blockDomains: seq<string>,
    proxyIPs: seq<string>, directIPs: seq<string>, blockIPs: seq<string>,
    processProxy: seq<string>, processDirect: seq<string>, blockedUIDs: seq<string>, blockedPorts: seq<string>)

  // ---------------------------------------------------------------------------------------
  // From rows to rules
  // ---------------------------------------------------------------------------------------

  function ResolveTarget(target: string): (Action, string) {
    var t := TrimSpace(target);
    var upper := ToUpper(t);
    if upper == "BLOCK" || upper == "BLOCKED" then (Block, "block")
    else if t == "" || upper == "DIRECT" then (Direct, "direct")
    else if upper == "PROXY" then (Proxy, "proxy")
    else (Proxy, t)
  }

  // The entries of a list, each once.
  function AddAll(s: seq<string>, xs: seq<string>): seq<string> {
    if xs == [] then s
    else
      var before, x := AddAll(s, xs[..|xs| - 1]), xs[|xs| - 1];
      if x == "" || x in before then before else before + [x]
  }

  function CleanList(clean: string -> string, list: seq<string>): seq<string> {
    if list == [] then [] else AddAll(CleanList(clean, list[..|list| - 1]), Pieces(clean, list[|list| - 1]))
  }

  function CompileRow(env: Env, row: Row): Rule {
    var (action, tag) := ResolveTarget(row.target);
    Rule(action, tag, CleanList(env.CleanDomain(), row.domains), CleanList(env.CleanIP(), row.ips),
         CleanList(env.cleanPort, row.ports), row.protocols, [], row.packageUIDs, row.processNames,
         row.inbounds, row.ipVersion)
  }

  function CompileRows(env: Env, rows: seq<Row>): seq<Rule> {
    if rows == [] then []
    else
      var before, row := CompileRows(env, rows[..|rows| - 1]), rows[|rows| - 1];
      if row.enabled then before + [CompileRow(env, row)] else before
  }

  predicate InOrder(a: Row, b: Row) { a.order <= b.order }

  function CompileTable(env: Env, defaultTarget: string, rows: seq<Row>): Spec {
    Spec(if ToUpper(defaultTarget) == "DIRECT" then Direct else Proxy, CompileRows(env, Sort(rows, InOrder)))
  }

  ghost function OptimizeRow(env: Env, row: Row): Row {
    row.(ips := Cidr.Optimized(env.codec, row.ips), domains := Domains.Optimized(row.domains))
  }

  // A row without matchers and without a target says nothing.
  predicate SaysNothing(row: Row) {
    && row.domains == [] && row.ips == [] && row.ports == [] && row.protocols == []
    && row.packageUIDs == [] && row.processNames == [] && row.target == ""
  }

  ghost function OptimizeRows(env: Env, rows: seq<Row>): seq<Row> {
    if rows == [] then []
    else
      var before, row := OptimizeRows(env, rows[..|rows| - 1]), OptimizeRow(env, rows[|rows| - 1]);
      if !row.enabled || SaysNothing(row) then before else before + [row]
  }

  // ---------------------------------------------------------------------------------------
  // The rows of a policy
  // ---------------------------------------------------------------------------------------

  function BlockedUIDsRows(p: RoutingPolicy): seq<Row> {
    if p.blockedUIDs == [] then [] else [BLANK_ROW.(target := "block", packageUIDs := p.blockedUIDs)]
  }

  function BlockedPortsRows(p: RoutingPolicy): seq<Row> {
    if p.blockedPorts == [] then [] else [BLANK_ROW.(target := "block", ports := p.blockedPorts)]
  }

  const PRIVATE_ROW := BLANK_ROW.(target := "direct", ips := [PRIVATE])

  function OverrideRows(target: string, domains: seq<string>, ips: seq<string>, processes: seq<string>): seq<Row> {
    if domains == [] && ips == [] && processes == [] then []
    else [BLANK_ROW.(target := target, domains := domains, ips := ips, processNames := processes)]
  }

  function Distinct(ids: seq<string>): seq<string> {
    if ids == [] then []
    else
      var before, id := Distinct(ids[..|ids| - 1]), ids[|ids| - 1];
      if id in before then before else before + [id]
  }

  function ActivePresets(p: RoutingPolicy): seq<string> {
    var ids := Distinct(p.enabledPresets);
    if ids == [] && p.mode == SmartRule then ["ads", "ru"] else ids
  }

  function Retargeted(rows: seq<Row>, target: string): seq<Row> {
    seq(|rows|, i requires 0 <= i < |rows| => if target != "" then rows[i].(target := target) else rows[i])
  }

  function PresetRules(preset: Preset, override_: string): seq<Row> {
    if preset.rules != [] then Retargeted(preset.rules, override_)
    else
      var target := if override_ != "" then override_ else preset.defaultTarget;
      [preset.matchers.(enabled := true, inbounds := [], order := 0,
                        target := if target == "" then "direct" else target)]
  }

  function Enabled(rows: seq<Row>): seq<Row> {
    if rows == [] then []
    else
      var before := Enabled(rows[..|rows| - 1]);
      if rows[|rows| - 1].enabled then before + [rows[|rows| - 1]] else before
  }

  function PresetRows(env: Env, p: RoutingPolicy, id: string): seq<Row> {
    match env.preset(id)
    case None => []
    case Some(preset) =>
      Enabled(PresetRules(preset, if id in p.presetTargets then p.presetTargets[id] else ""))
  }

  function AllPresetRows(env: Env, p: RoutingPolicy, ids: seq<string>): seq<Row> {
    if ids == [] then [] else AllPresetRows(env, p, ids[..|ids| - 1]) + PresetRows(env, p, ids[|ids| - 1])
  }

  function FixedRows(p: RoutingPolicy): seq<Row> {
    BlockedUIDsRows(p) + BlockedPortsRows(p) + [PRIVATE_ROW]
    + OverrideRows("block", p.blockDomains, p.blockIPs, [])
    + OverrideRows("direct", p.directDomains, p.directIPs, p.processDirect)
    + OverrideRows("proxy", p.proxyDomains, p.proxyIPs, p.processProxy)
  }

  function PolicyRows(env: Env, p: RoutingPolicy): seq<Row> {
    FixedRows(p) + p.customRules + AllPresetRows(env, p, ActivePresets(p))
  }

  // Rows are numbered in the order they are added.
  function Numbered(rows: seq<Row>): (r: seq<Row>)
    ensures |r| == |rows|
  {
    seq(|rows|, i requires 0 <= i < |rows| => rows[i].(order := i + 1))
  }

  function DefaultTarget(p: RoutingPolicy): string {
    if p.mode == DirectAll || p.mode == WhitelistOnly then "direct" else "proxy"
  }

  ghost function Compiled(env: Env, p: RoutingPolicy): Spec {
    CompileTable(env, DefaultTarget(p), OptimizeRows(env, Numbered(PolicyRows(env, p))))
  }

  // ---------------------------------------------------------------------------------------
  // What a row and a policy mean
  // ---------------------------------------------------------------------------------------

  // An item matches when one of the entries it is cleaned to does.
  predicate ItemMatches(clean: string -> string, test: string -> bool, item: string) {
    exists x | x in Pieces(clean, item) :: x != "" && test(x)
  }

  predicate ItemsMatch(clean: string -> string, test: string -> bool, list: seq<string>) {
    exists item | item in list :: ItemMatches(clean, test, item)
  }

  predicate ItemsAllow(clean: string -> string, test: string -> bool, list: seq<string>) {
    list == [] || ItemsMatch(clean, test, list)
  }

  // Domains and addresses as they were written.
  predicate DestinationAllowed(env: Env, k: Packet, domains: seq<string>, ips: seq<string>) {
    || (domains == [] && ips == [])
    || ItemsMatch(env.CleanDomain(), k.domain, domains) || ItemsMatch(env.CleanIP(), k.ip, ips)
  }

  predicate RowOthersAllow(env: Env, row: Row, k: Packet) {
    && (row.ipVersion == 0 || row.ipVersion == k.ipVersion)
    && Allowed(k.inbound, row.inbounds) && ItemsAllow(env.cleanPort, k.port, row.ports)
    && Allowed(k.network, Transports(row.protocols)) && Allowed(k.application, Applications(row.protocols))
    && Allowed(k.uid, row.packageUIDs) && Allowed(k.process, row.processNames)
  }

  // What the written row asks of a packet.
  predicate RowMatches(env: Env, row: Row, k: Packet) {
    RowOthersAllow(env, row, k) && DestinationAllowed(env, k, row.domains, row.ips)
  }

  // With a matcher or a target the row says something.
  predicate Speaks(row: Row) {
    row.target != "" ||
    0 < |row.domains| + |row.ips| + |row.ports| + |row.protocols| + |row.packageUIDs| + |row.processNames|
  }

  predicate Applies(env: Env, row: Row, k: Packet) {
    row.enabled && Speaks(row) && RowMatches(env, row, k)
  }

  // What a target asks for, however it is spelled; any other name is the tag of an outbound.
  function Asked(target: string): (Action, string) {
    var word := ToLower(TrimSpace(target));
    if word in ["block", "blocked"] then (Block, "block")
    else if word in ["", "direct"] then (Direct, "direct")
    else if word == "proxy" then (Proxy, "proxy")
    else (Proxy, TrimSpace(target))
  }

  function FirstRow(env: Env, rows: seq<Row>, k: Packet): Option<Row> {
    if rows == [] then None
    else if Applies(env, rows[0], k) then Some(rows[0])
    else FirstRow(env, rows[1..], k)
  }

  // The answer of the first row that applies once an override has replaced its target.
  function Answer(env: Env, rows: seq<Row>, over: string, k: Packet): Option<(Action, string)> {
    if rows == [] then None
    else
      var target := if over != "" then over else rows[0].target;
      if Applies(env, rows[0].(target := target), k) then Some(Asked(target)) else Answer(env, rows[1..], over, k)
  }

  // A preset without rows is a row for its matchers alone.
  function PresetAnswer(env: Env, preset: Preset, over: string, k: Packet): Option<(Action, string)> {
    if preset.rules != [] then Answer(env, preset.rules, over, k)
    else if !RowMatches(env, preset.matchers.(inbounds := []), k) then None
    else Some(Asked(if over != "" then over else preset.defaultTarget))
  }

  // The presets in force; in smart mode there are two if none is enabled.
  function InForce(p: RoutingPolicy): seq<string> {
    if p.enabledPresets == [] && p.mode == SmartRule then ["ads", "ru"] else p.enabledPresets
  }

  // The answer of one preset, if it is known.
  function AnswerOf(env: Env, p: RoutingPolicy, id: string, k: Packet): Option<(Action, string)> {
    match env.preset(id)
    case None => None
    case Some(preset) => PresetAnswer(env, preset, if id in p.presetTargets then p.presetTargets[id] else "", k)
  }

  function FirstPreset(env: Env, p: RoutingPolicy, ids: seq<string>, k: Packet): Option<(Action, string)> {
    if ids == [] then None
    else
      var here := AnswerOf(env, p, ids[0], k);
      if here.Some? then here else FirstPreset(env, p, ids[1..], k)
  }

  function ByAnswer(a: Option<(Action, string)>, otherwise: Outcome): Outcome {
    if a.None? then otherwise else Decided(a.value.0, a.value.1)
  }

  predicate Overridden(env: Env, domains: seq<string>, ips: seq<string>, processes: seq<string>, k: Packet) {
    && (domains != [] || ips != [] || processes != [])
    && Allowed(k.process, processes) && DestinationAllowed(env, k, domains, ips)
  }

  function DefaultAction(p: RoutingPolicy): Action {
    if p.mode == DirectAll || p.mode == WhitelistOnly then Direct else Proxy
  }

  predicate DestinationBlocked(env: Env, p: RoutingPolicy, k: Packet) {
    ItemsMatch(env.CleanDomain(), k.domain, p.blockDomains) || ItemsMatch(env.CleanIP(), k.ip, p.blockIPs)
  }

  /** The policy read layer by layer, without any table. */
  function Layered(env: Env, p: RoutingPolicy, k: Packet): Outcome {
    var custom := Answer(env, p.customRules, "", k);
    if Any(k.uid, p.blockedUIDs) || ItemsMatch(env.cleanPort, k.port, p.blockedPorts) then Decided(Block, "block")
    else if k.ip(PRIVATE) then Decided(Direct, "direct")
    else if DestinationBlocked(env, p, k) then Decided(Block, "block")
    else if Overridden(env, p.directDomains, p.directIPs, p.processDirect, k) then Decided(Direct, "direct")
    else if Overridden(env, p.proxyDomains, p.proxyIPs, p.processProxy, k) then Decided(Proxy, "proxy")
    else if custom.Some? then ByAnswer(custom, Default(Proxy))
    else ByAnswer(FirstPreset(env, p, InForce(p), k), Default(DefaultAction(p)))
  }

  // ---------------------------------------------------------------------------------------
  // Cleaning lists
  // ---------------------------------------------------------------------------------------

  lemma {:induction false} AddAllMembers(s: seq<string>, xs: seq<string>)
    ensures forall x :: x in AddAll(s, xs) <==> x in s || (x in xs && x != "")
  {
    if xs != [] {
      AddAllMembers(s, xs[..|xs| - 1]);
      assert xs == xs[..|xs| - 1] + [xs[|xs| - 1]];
    }
  }

  lemma AddedMatch(test: string -> bool, s: seq<string>, xs: seq<string>)
    ensures Any(test, AddAll(s, xs)) <==> Any(test, s) || exists x | x in xs :: x != "" && test(x)
  {
    AddAllMembers(s, xs);
  }

  lemma OneMoreItem(clean: string -> string, test: string -> bool, list: seq<string>, item: string)
    ensures ItemsMatch(clean, test, list + [item]) <==> ItemsMatch(clean, test, list) || ItemMatches(clean, test, item)
  {
    assert forall x :: x in list + [item] <==> x in list || x == item;
    if ItemsMatch(clean, test, list) {
      var x :| x in list && ItemMatches(clean, test, x);
      assert x in list + [item];
    }
    if ItemMatches(clean, test, item) {
      assert item in list + [item];
    }
  }

  lemma {:induction false} CleanListMatches(clean: string -> string, test: string -> bool, list: seq<string>)
    ensures Any(test, CleanList(clean, list)) <==> ItemsMatch(clean, test, list)
  {
    if list != [] {
      var init, item := list[..|list| - 1], list[|list| - 1];
      CleanListMatches(clean, test, init);
      AddedMatch(test, CleanList(clean, init), Pieces(clean, item));
      OneMoreItem(clean, test, init, item);
      assert list == init + [item];
    }
  }

  /** Cleaning a list keeps what its matcher allows exactly when it does not empty the list: an
      emptied list allows every packet where the written one allows none. */
  lemma CleaningKeepsMatcherIffNotEmptied(clean: string -> string, test: string -> bool, list: seq<string>)
    ensures (Allowed(test, CleanList(clean, list)) <==> ItemsAllow(clean, test, list)) <==>
            (CleanList(clean, list) == [] ==> list == [])
  {
    CleanListMatches(clean, test, list);
  }

  // ---------------------------------------------------------------------------------------
  // Optimizing before cleaning
  // ---------------------------------------------------------------------------------------

  // How entries are read, and what there is to read: rule sets, the host and its address.
  datatype View = View(read: string -> Pattern, tags: (string, string) -> bool, host: string, addr: Cidr.Addr)

  // The patterns of the entries that items are cleaned into.
  function Written(env: Env, read: string -> Pattern, items: seq<string>): seq<Pattern> {
    Patterns(read, CleanList(env.CleanDomain(), items))
  }

  // Every cleaned entry of the items is covered.
  predicate ItemsCovered(env: Env, read: string -> Pattern, items: seq<string>, qs: seq<Pattern>) {
    forall item | item in items ::
      forall x | x in Pieces(env.CleanDomain(), item) :: x != "" ==> Covers(qs, read(x))
  }

  // Of a list of more than one item the trimmed tags stay, and the topmost names with the label of their
  // first item.  The entries of the items are covered by those of the texts that stay, and conversely.
  predicate DomainsSurvive(env: Env, read: string -> Pattern, domains: seq<string>) {
    var texts := Domains.Texts(domains);
    && ItemsCovered(env, read, domains, Written(env, read, texts))
    && ItemsCovered(env, read, texts, Written(env, read, domains))
  }

  lemma {:induction false} CleanListMembers(clean: string -> string, list: seq<string>, x: string)
    ensures x in CleanList(clean, list) <==> x != "" && exists item :: item in list && x in Pieces(clean, item)
  {
    if list != [] {
      var init, last := list[..|list| - 1], list[|list| - 1];
      CleanListMembers(clean, init, x);
      AddAllMembers(CleanList(clean, init), Pieces(clean, last));
      assert list == init + [last];
    }
  }

  lemma PatternOf(read: string -> Pattern, ds: seq<string>, d: string)
    requires d in ds
    ensures read(d) in Patterns(read, ds)
  {
    var i :| 0 <= i < |ds| && ds[i] == d;
    assert Patterns(read, ds)[i] == read(d);
  }

  lemma CoveredIffItemsCovered(env: Env, read: string -> Pattern, items: seq<string>, qs: seq<Pattern>)
    ensures Covered(Written(env, read, items), qs) <==> ItemsCovered(env, read, items, qs)
  {
    var clean := env.CleanDomain();
    var entries := CleanList(clean, items);
    if Covered(Patterns(read, entries), qs) {
      forall item, x | item in items && x in Pieces(clean, item) && x != "" ensures Covers(qs, read(x)) {
        CleanListMembers(clean, items, x);
        PatternOf(read, entries, x);
      }
    }
    if ItemsCovered(env, read, items, qs) {
      forall p | p in Patterns(read, entries) ensures Covers(qs, p) {
        var i :| 0 <= i < |entries| && p == read(entries[i]);
        CleanListMembers(clean, items, entries[i]);
      }
    }
  }

  lemma MoreCover(ps: seq<Pattern>, qs: seq<Pattern>, p: Pattern)
    requires (forall q | q in ps :: q in qs) && Covers(ps, p)
    ensures Covers(qs, p)
  {}

  // Lists with the same items have the same patterns.
  lemma SameItemsSamePatterns(env: Env, read: string -> Pattern, a: seq<string>, b: seq<string>)
    requires forall x | x in a :: x in b
    ensures forall p | p in Written(env, read, a) :: p in Written(env, read, b)
  {
    var clean := env.CleanDomain();
    var entries, more := CleanList(clean, a), CleanList(clean, b);
    forall p | p in Patterns(read, entries) ensures p in Patterns(read, more) {
      var i :| 0 <= i < |entries| && p == read(entries[i]);
      CleanListMembers(clean, a, entries[i]);
      CleanListMembers(clean, b, entries[i]);
      PatternOf(read, more, entries[i]);
    }
  }

  lemma SamePatternsCoverAlike(ps: seq<Pattern>, qs: seq<Pattern>, rs: seq<Pattern>)
    requires forall p :: p in ps <==> p in qs
    ensures Covered(ps, rs) <==> Covered(qs, rs)
    ensures Covered(rs, ps) <==> Covered(rs, qs)
  {
    forall r ensures Covers(ps, r) <==> Covers(qs, r) {
      if Covers(ps, r) { MoreCover(ps, qs, r); }
      if Covers(qs, r) { MoreCover(qs, ps, r); }
    }
  }

  // What stays is what the optimizer prints.
  lemma SurvivingIsCovering(env: Env, read: string -> Pattern, domains: seq<string>)
    ensures DomainsSurvive(env, read, domains) <==>
            CoverEachOther(Written(env, read, domains), Written(env, read, Domains.Optimized(domains)))
  {
    var texts, out := Domains.Texts(domains), Domains.Optimized(domains);
    var written, kept, printed := Written(env, read, domains), Written(env, read, texts), Written(env, read, out);
    Domains.TextsAreOutput(domains);
    SameItemsSamePatterns(env, read, texts, out);
    SameItemsSamePatterns(env, read, out, texts);
    SamePatternsCoverAlike(kept, printed, written);
    CoveredIffItemsCovered(env, read, domains, kept);
    CoveredIffItemsCovered(env, read, texts, written);
  }

  /** Under any reading of the entries, optimizing before cleaning keeps the hosts of a domain list,
      whatever its tags mean, iff the entries of the written items and those of the tags and topmost
      names that stay cover each other. */
  lemma OptimizingFirstKeepsHostsIffCovered(env: Env, read: string -> Pattern, domains: seq<string>, c: char)
    requires FreshFor(c, Written(env, read, domains)) && FreshFor(c, Written(env, read, Domains.Texts(domains)))
    ensures SameHosts(Written(env, read, domains), Written(env, read, Domains.Optimized(domains))) <==>
            DomainsSurvive(env, read, domains)
  {
    var out := Domains.Optimized(domains);
    Domains.TextsAreOutput(domains);
    SameItemsSamePatterns(env, read, out, Domains.Texts(domains));
    SameHostsIffCoverEachOther(Written(env, read, domains), Written(env, read, out), c);
    SurvivingIsCovering(env, read, domains);
  }

  lemma FirstFieldIsAPiece(clean: string -> string, word: string, rest: string)
    requires Word(word) == word && word != "" && !IsSeparator(word[0]) && rest != "" && IsSeparator(rest[0])
    ensures clean(word) in Pieces(clean, word + rest)
  {
    var item := word + rest;
    WordStops(word, rest);
    assert item[0] == word[0];
    assert Fields(item)[0] == word;
    assert Pieces(clean, item)[0] == clean(word);
  }

  lemma OnlyEntry(clean: string -> string, item: string)
    requires Pieces(clean, item) == [item] && item != ""
    ensures CleanList(clean, [item]) == [item]
  {
    assert [item][..0] == [] && CleanList(clean, []) == [];
    assert AddAll([], [item]) == [item];
  }

  lemma LowerItemIsDropped(item: string, name: string)
    requires item != "" && ':' !in item && ToLower(item) == item && TrimSpace(item) == item
    requires name != "" && ':' !in name && ToLower(name) == name && TrimSpace(name) == name
    requires HasSuffix(item, "." + name) && item != name
    ensures Domains.Optimized([item, name]) == [name]
  {
    UnlabelledIsPlain(item);
    UnlabelledIsPlain(name);
    Domains.LowerEntryIsDropped(item, name);
    assert "" + name == name;
  }

  lemma CommaItemIsDropped(item: string, name: string)
    requires item == "a.com,b.org" && name == "org"
    ensures Domains.Optimized([item, name]) == [name]
  {
    TightIsTrimmed(item);
    TightIsTrimmed(name);
    assert item == "a.com,b" + ("." + name);
    assert ToLower(item) == item && ToLower(name) == name;
    LowerItemIsDropped(item, name);
  }

  lemma UnlabelledIsPlain(s: string)
    requires s != "" && ':' !in s && ToLower(s) == s
    ensures Domains.IsDomain(s) && Domains.Label(s) == "" && Domains.Clean(s) == s
  {
    PrefixNeedsColon(s, "geosite:");
    PrefixNeedsColon(s, "regexp:");
    PrefixNeedsColon(s, "regex:");
    PrefixNeedsColon(s, "keyword:");
    PrefixNeedsColon(s, "full:");
    PrefixNeedsColon(s, "domain:");
    PrefixNeedsColon(s, "suffix:");
    assert s[0..] == s;
  }

  lemma FirstNameMatches(env: Env, name: string, rest: string, test: string -> bool)
    requires IsName(name) && rest != "" && IsSeparator(rest[0]) && test(name)
    ensures ItemMatches(env.CleanDomain(), test, name + rest)
  {
    WordOfUnsplit(name);
    FirstFieldIsAPiece(env.CleanDomain(), name, rest);
    NamesAreKept(env.url, name);
  }

  lemma CommaItemMatches(env: Env, item: string, test: string -> bool)
    requires item == "a.com,b.org" && test("a.com")
    ensures ItemMatches(env.CleanDomain(), test, item)
  {
    assert item == "a.com" + ",b.org";
    FirstNameMatches(env, "a.com", ",b.org", test);
  }

  lemma CommaItemLeavesTheName(env: Env, item: string, name: string)
    requires item == "a.com,b.org" && name == "org"
    ensures CleanList(env.CleanDomain(), Domains.Optimized([item, name])) == [name]
  {
    CommaItemIsDropped(item, name);
    NamesAreKept(env.url, name);
    OnlyEntry(env.CleanDomain(), name);
  }

  lemma OneDomainDecides(env: Env, row: Row, domains: seq<string>, item: string, k: Packet)
    requires row == BLANK_ROW.(target := "block", domains := domains) && item in domains
    requires ItemMatches(env.CleanDomain(), k.domain, item)
    ensures RowMatches(env, row, k)
  {
    EmptyProtocols();
  }

  lemma EmptyProtocols()
    ensures Transports([]) == [] && Applications([]) == []
  {}

  lemma MissedDomainDecides(r: Rule, name: string, k: Packet)
    requires r.domains == [name] && r.ips == [] && !k.domain(name)
    ensures !Matches(r, k)
  {}

  /** Optimizing before cleaning loses hosts: an item that holds two names is dropped as a subdomain of
      a third, and the first name is not blocked. */
  lemma CommaItemLosesAHost(env: Env, item: string, name: string, row: Row, k: Packet)
    requires item == "a.com,b.org" && name == "org" && row == BLANK_ROW.(target := "block", domains := [item, name])
    requires k.domain("a.com") && !k.domain(name)
    ensures RowMatches(env, row, k) && !Matches(CompileRow(env, OptimizeRow(env, row)), k)
  {
    CommaItemMatches(env, item, k.domain);
    OneDomainDecides(env, row, row.domains, item, k);
    CommaItemLeavesTheName(env, item, name);
    EmptyListsStayEmpty(env);
    MissedDomainDecides(CompileRow(env, OptimizeRow(env, row)), name, k);
  }

  // The packet's tests read the entries of the row as the view does.
  ghost predicate ReadsDomains(k: Packet, v: View, entries: seq<string>) {
    forall x | x in entries :: k.domain(x) <==> Fits(v.tags, v.read(x), v.host)
  }

  ghost predicate ReadsNets(env: Env, k: Packet, v: View, entries: seq<string>) {
    forall x | x in entries && env.codec.parse(x).Some? :: k.ip(x) <==> env.codec.parse(x).value.Contains(v.addr)
  }

  ghost predicate Sees(env: Env, k: Packet, v: View, row: Row) {
    var o := OptimizeRow(env, row);
    && ReadsDomains(k, v, CleanList(env.CleanDomain(), row.domains))
    && ReadsDomains(k, v, CleanList(env.CleanDomain(), o.domains))
    && ReadsNets(env, k, v, CleanList(env.CleanIP(), row.ips)) && ReadsNets(env, k, v, CleanList(env.CleanIP(), o.ips))
  }

  lemma ReadPatterns(k: Packet, v: View, entries: seq<string>)
    requires ReadsDomains(k, v, entries)
    ensures Any(k.domain, entries) <==> AnyFits(v.tags, Patterns(v.read, entries), v.host)
  {
    var ps := Patterns(v.read, entries);
    if Any(k.domain, entries) {
      var x :| x in entries && k.domain(x);
      var i :| 0 <= i < |entries| && entries[i] == x;
      assert ps[i] in ps;
    }
    if AnyFits(v.tags, ps, v.host) {
      var p :| p in ps && Fits(v.tags, p, v.host);
      var i :| 0 <= i < |ps| && ps[i] == p;
      assert entries[i] in entries;
    }
  }

  lemma OptimizedDomainsMatchAlike(env: Env, row: Row, k: Packet, v: View)
    requires Sees(env, k, v, row) && DomainsSurvive(env, v.read, row.domains)
    ensures ItemsMatch(env.CleanDomain(), k.domain, OptimizeRow(env, row).domains) <==>
            ItemsMatch(env.CleanDomain(), k.domain, row.domains)
  {
    var clean, o := env.CleanDomain(), OptimizeRow(env, row).domains;
    ReadPatterns(k, v, CleanList(clean, row.domains));
    ReadPatterns(k, v, CleanList(clean, o));
    SurvivingIsCovering(env, v.read, row.domains);
    CoverEachOtherSuffices(v.tags, Written(env, v.read, row.domains), Written(env, v.read, o), v.host);
    CleanListMatches(clean, k.domain, row.domains);
    CleanListMatches(clean, k.domain, o);
  }

  // What an address tag stands for.
  function AddressTag(env: Env, k: Packet): (string, Cidr.Addr) -> bool {
    (t, _) => ItemMatches(env.CleanIP(), k.ip, t)
  }

  lemma ItemIsRead(env: Env, k: Packet, v: View, item: string)
    requires env.Valid()
    requires forall x | x in Pieces(env.CleanIP(), item) && x != "" && env.codec.parse(x).Some? ::
               k.ip(x) <==> env.codec.parse(x).value.Contains(v.addr)
    ensures ItemMatches(env.CleanIP(), k.ip, item) <==> Cidr.EntryHits(env.codec, AddressTag(env, k), item, v.addr)
  {
    var t := TrimSpace(item);
    TrimmedItemIsTheSame(env.cleanIP, item);
    if t != "" && !Cidr.IsTag(env.codec, t) {
      UnsplitIsOneField(t);
      TrimIsTight(item);
      TightIsTrimmed(t);
      assert Pieces(env.CleanIP(), t) == [env.cleanIP(t)];
      assert env.cleanIP(t) in Pieces(env.CleanIP(), t);
    }
  }

  lemma {:induction false} PiecesAreEntries(clean: string -> string, list: seq<string>, item: string, x: string)
    requires item in list && x in Pieces(clean, item) && x != ""
    ensures x in CleanList(clean, list)
  {
    var init, last := list[..|list| - 1], list[|list| - 1];
    AddAllMembers(CleanList(clean, init), Pieces(clean, last));
    if item != last {
      PiecesAreEntries(clean, init, item, x);
    }
  }

  lemma AddressesAreRead(env: Env, k: Packet, v: View, ips: seq<string>)
    requires env.Valid() && ReadsNets(env, k, v, CleanList(env.CleanIP(), ips))
    ensures ItemsMatch(env.CleanIP(), k.ip, ips) <==> Cidr.ListHits(env.codec, AddressTag(env, k), ips, v.addr)
  {
    forall item | item in ips
      ensures ItemMatches(env.CleanIP(), k.ip, item) <==> Cidr.EntryHits(env.codec, AddressTag(env, k), item, v.addr)
    {
      forall x | x in Pieces(env.CleanIP(), item) && x != "" ensures x in CleanList(env.CleanIP(), ips) {
        PiecesAreEntries(env.CleanIP(), ips, item, x);
      }
      ItemIsRead(env, k, v, item);
    }
  }

  lemma OptimizedIPsMatchAlike(env: Env, row: Row, k: Packet, v: View)
    requires env.Valid() && Sees(env, k, v, row)
    ensures ItemsMatch(env.CleanIP(), k.ip, OptimizeRow(env, row).ips) <==> ItemsMatch(env.CleanIP(), k.ip, row.ips)
  {
    AddressesAreRead(env, k, v, row.ips);
    AddressesAreRead(env, k, v, OptimizeRow(env, row).ips);
    Cidr.OptimizeKeepsMatches(env.codec, AddressTag(env, k), row.ips, v.addr);
  }

  lemma EmptyListsStayEmpty(env: Env)
    ensures CleanList(env.CleanDomain(), Domains.Optimized([])) == []
    ensures CleanList(env.CleanIP(), Cidr.Optimized(env.codec, [])) == []
  {}

  // Cleaning empties neither the ports nor the destination of the row.
  predicate KeepsLists(env: Env, row: Row) {
    && (CleanList(env.cleanPort, row.ports) == [] ==> row.ports == [])
    && (CleanList(env.CleanDomain(), row.domains) == [] && CleanList(env.CleanIP(), row.ips) == [] ==>
          row.domains == [] && row.ips == [])
  }

  lemma NothingCovers(qs: seq<Pattern>, p: Pattern)
    requires Covers(qs, p)
    ensures qs != []
  {}

  lemma CoveredListsAreEmptyAlike(ps: seq<Pattern>, qs: seq<Pattern>)
    requires CoverEachOther(ps, qs)
    ensures ps == [] <==> qs == []
  {
    if ps != [] { NothingCovers(qs, ps[0]); }
    if qs != [] { NothingCovers(ps, qs[0]); }
  }

  lemma DomainsAreEmptyAlike(env: Env, read: string -> Pattern, domains: seq<string>)
    requires DomainsSurvive(env, read, domains)
    ensures CleanList(env.CleanDomain(), Domains.Optimized(domains)) == [] <==>
            CleanList(env.CleanDomain(), domains) == []
  {
    var out := Domains.Optimized(domains);
    SurvivingIsCovering(env, read, domains);
    CoveredListsAreEmptyAlike(Written(env, read, domains), Written(env, read, out));
  }

  // Tags that stand for some entry.
  function SomeEntry(env: Env): (string, Cidr.Addr) -> bool {
    (t, _) => ItemMatches(env.CleanIP(), _ => true, t)
  }

  lemma HitMeansEntry(env: Env, item: string, a: Cidr.Addr)
    requires env.Valid() && Cidr.EntryHits(env.codec, SomeEntry(env), item, a)
    ensures ItemMatches(env.CleanIP(), _ => true, item)
  {
    var t := TrimSpace(item);
    TrimmedItemIsTheSame(env.cleanIP, item);
    TrimIsTight(item);
    TightIsTrimmed(t);
    if !Cidr.IsTag(env.codec, t) {
      UnsplitIsOneField(t);
      assert Pieces(env.CleanIP(), t) == [env.cleanIP(t)];
      assert env.cleanIP(t) in Pieces(env.CleanIP(), t);
    } else {
      var x :| x in Pieces(env.CleanIP(), t) && x != "";
      assert x in Pieces(env.CleanIP(), item);
    }
  }

  lemma EntryMeansHit(env: Env, item: string) returns (a: Cidr.Addr)
    requires env.Valid() && ItemMatches(env.CleanIP(), _ => true, item)
    ensures Cidr.EntryHits(env.codec, SomeEntry(env), item, a)
  {
    var t := TrimSpace(item);
    TrimmedItemIsTheSame(env.cleanIP, item);
    var x :| x in Pieces(env.CleanIP(), item) && x != "";
    assert x in Pieces(env.CleanIP(), t);
    a := Cidr.Addr(false, 0);
    if !Cidr.IsTag(env.codec, t) {
      a := env.codec.parse(t).value.First();
    }
  }

  lemma AddressesAreEmptyAlike(env: Env, ips: seq<string>)
    requires env.Valid()
    ensures CleanList(env.CleanIP(), Cidr.Optimized(env.codec, ips)) == [] <==> CleanList(env.CleanIP(), ips) == []
  {
    var clean, yes, out := env.CleanIP(), (_: string) => true, Cidr.Optimized(env.codec, ips);
    CleanListMatches(clean, yes, ips);
    CleanListMatches(clean, yes, out);
    SomeEntrySurvives(env, ips, out);
    assert Any(yes, CleanList(clean, ips)) <==> CleanList(clean, ips) != [] by { AnyOfAll(CleanList(clean, ips)); }
    assert Any(yes, CleanList(clean, out)) <==> CleanList(clean, out) != [] by { AnyOfAll(CleanList(clean, out)); }
  }

  lemma AnyOfAll(entries: seq<string>)
    ensures Any(_ => true, entries) <==> entries != []
  {
    if entries != [] { assert entries[0] in entries; }
  }

  lemma SomeEntrySurvives(env: Env, ips: seq<string>, out: seq<string>)
    requires env.Valid() && out == Cidr.Optimized(env.codec, ips)
    ensures ItemsMatch(env.CleanIP(), _ => true, out) <==> ItemsMatch(env.CleanIP(), _ => true, ips)
  {
    if ItemsMatch(env.CleanIP(), _ => true, ips) {
      var item :| item in ips && ItemMatches(env.CleanIP(), _ => true, item);
      var a := EntryMeansHit(env, item);
      Cidr.OptimizeKeepsMatches(env.codec, SomeEntry(env), ips, a);
      var e :| e in out && Cidr.EntryHits(env.codec, SomeEntry(env), e, a);
      HitMeansEntry(env, e, a);
    }
    if ItemsMatch(env.CleanIP(), _ => true, out) {
      var item :| item in out && ItemMatches(env.CleanIP(), _ => true, item);
      var a := EntryMeansHit(env, item);
      Cidr.OptimizeKeepsMatches(env.codec, SomeEntry(env), ips, a);
      var e :| e in ips && Cidr.EntryHits(env.codec, SomeEntry(env), e, a);
      HitMeansEntry(env, e, a);
    }
  }

  lemma DestinationIsEmptyAlike(env: Env, read: string -> Pattern, row: Row, r: Rule)
    requires env.Valid() && KeepsLists(env, row) && DomainsSurvive(env, read, row.domains)
    requires r == CompileRow(env, OptimizeRow(env, row))
    ensures r.domains == [] && r.ips == [] <==> row.domains == [] && row.ips == []
  {
    DomainsAreEmptyAlike(env, read, row.domains);
    AddressesAreEmptyAlike(env, row.ips);
    EmptyListsStayEmpty(env);
  }

  // The destination of the compiled row is that of the written one.
  lemma DestinationIsKept(env: Env, row: Row, k: Packet, v: View)
    requires env.Valid() && Sees(env, k, v, row) && KeepsLists(env, row) && DomainsSurvive(env, v.read, row.domains)
    ensures var r := CompileRow(env, OptimizeRow(env, row));
            AddressAllowed(k, r.domains, r.ips) <==> DestinationAllowed(env, k, row.domains, row.ips)
  {
    var o := OptimizeRow(env, row);
    OptimizedDomainsMatchAlike(env, row, k, v);
    CleanListMatches(env.CleanDomain(), k.domain, o.domains);
    OptimizedIPsMatchAlike(env, row, k, v);
    CleanListMatches(env.CleanIP(), k.ip, o.ips);
    DestinationIsEmptyAlike(env, v.read, row, CompileRow(env, o));
  }

  lemma OthersAreKept(env: Env, row: Row, k: Packet)
    requires KeepsLists(env, row)
    ensures OthersAllow(CompileRow(env, OptimizeRow(env, row)), k) <==> RowOthersAllow(env, row, k)
  {
    CleanListMatches(env.cleanPort, k.port, row.ports);
  }

  /** Optimizing, cleaning and compiling a row keeps the packets it matches if it empties no list and
      its domains survive. */
  lemma RowCompilationKeepsMeaning(env: Env, row: Row, k: Packet, v: View)
    requires env.Valid() && Sees(env, k, v, row) && KeepsLists(env, row) && DomainsSurvive(env, v.read, row.domains)
    ensures Matches(CompileRow(env, OptimizeRow(env, row)), k) <==> RowMatches(env, row, k)
  {
    DestinationIsKept(env, row, k, v);
    OthersAreKept(env, row, k);
  }

  // ---------------------------------------------------------------------------------------
  // From a table to its verdict
  // ---------------------------------------------------------------------------------------

  // A row that means the same after optimization, cleaning and compilation.
  ghost predicate Sound(env: Env, read: string -> Pattern, row: Row) {
    row.enabled ==> KeepsLists(env, row) && DomainsSurvive(env, read, row.domains)
  }

  ghost predicate AllSound(env: Env, read: string -> Pattern, rows: seq<Row>) {
    forall row | row in rows :: Sound(env, read, row)
  }

  ghost predicate SeesAll(env: Env, k: Packet, v: View, rows: seq<Row>) {
    forall row | row in rows :: Sees(env, k, v, row)
  }

  // The packet sees sound rows.
  ghost predicate Clear(env: Env, k: Packet, v: View, rows: seq<Row>) {
    AllSound(env, v.read, rows) && SeesAll(env, k, v, rows)
  }

  function RuleAnswer(r: Option<Rule>): Option<(Action, string)> {
    if r.None? then None else Some((r.value.action, r.value.outboundTag))
  }

  function RowAnswer(r: Option<Row>): Option<(Action, string)> {
    if r.None? then None else Some(Asked(r.value.target))
  }

  lemma {:induction false} FirstRowOfConcat(env: Env, a: seq<Row>, b: seq<Row>, k: Packet)
    ensures FirstRow(env, a + b, k) == if FirstRow(env, a, k).Some? then FirstRow(env, a, k) else FirstRow(env, b, k)
  {
    if a == [] {
      assert a + b == b;
    } else {
      FirstRowOfConcat(env, a[1..], b, k);
      assert (a + b)[1..] == a[1..] + b;
    }
  }

  lemma SilentRowsStaySilent(env: Env, read: string -> Pattern, row: Row)
    requires env.Valid() && KeepsLists(env, row) && DomainsSurvive(env, read, row.domains)
    ensures SaysNothing(OptimizeRow(env, row)) <==> SaysNothing(row)
  {
    var o := OptimizeRow(env, row);
    EmptyListsStayEmpty(env);
    DestinationIsEmptyAlike(env, read, row, CompileRow(env, o));
    assert o.domains == [] ==> CleanList(env.CleanDomain(), o.domains) == [];
    assert o.ips == [] ==> CleanList(env.CleanIP(), o.ips) == [];
  }

  // What one row contributes to the compiled list.
  ghost function Contribution(env: Env, row: Row): seq<Rule> {
    var o := OptimizeRow(env, row);
    if !row.enabled || SaysNothing(o) then [] else [CompileRow(env, o)]
  }

  lemma OneMoreRow(env: Env, rows: seq<Row>, row: Row)
    ensures CompileRows(env, OptimizeRows(env, rows + [row])) ==
            CompileRows(env, OptimizeRows(env, rows)) + Contribution(env, row)
  {
    assert (rows + [row])[..|rows|] == rows;
    var before, o := OptimizeRows(env, rows), OptimizeRow(env, row);
    assert (before + [o])[..|before|] == before;
  }

  /** A row's target is resolved to what it asks for. */
  lemma TargetIsResolved(target: string)
    ensures ResolveTarget(target) == Asked(target)
  {
    var t := TrimSpace(target);
    SameFold(t, "block", "BLOCK");
    SameFold(t, "blocked", "BLOCKED");
    SameFold(t, "direct", "DIRECT");
    SameFold(t, "proxy", "PROXY");
  }

  lemma ContributionDecides(env: Env, row: Row, k: Packet, v: View)
    requires env.Valid() && Sound(env, v.read, row) && Sees(env, k, v, row)
    ensures RuleAnswer(FirstMatch(Contribution(env, row), k)) == RowAnswer(FirstRow(env, [row], k))
  {
    var rule := CompileRow(env, OptimizeRow(env, row));
    assert [rule][1..] == [] && [row][1..] == [];
    TargetIsResolved(row.target);
    if row.enabled {
      SilentRowsStaySilent(env, v.read, row);
      RowCompilationKeepsMeaning(env, row, k, v);
    }
  }

  // The first answer of two lists.
  function Or(a: Option<(Action, string)>, b: Option<(Action, string)>): Option<(Action, string)> {
    if a.Some? then a else b
  }

  lemma AnswerOfConcat(env: Env, a: seq<Row>, b: seq<Row>, k: Packet)
    ensures RowAnswer(FirstRow(env, a + b, k)) == Or(RowAnswer(FirstRow(env, a, k)), RowAnswer(FirstRow(env, b, k)))
  {
    FirstRowOfConcat(env, a, b, k);
  }

  lemma RuleAnswerOfConcat(a: seq<Rule>, b: seq<Rule>, k: Packet)
    ensures RuleAnswer(FirstMatch(a + b, k)) == Or(RuleAnswer(FirstMatch(a, k)), RuleAnswer(FirstMatch(b, k)))
  {
    FirstMatchOfConcat(a, b, k);
  }

  // The compiled list decides as the rows do.
  ghost predicate DecidesAlike(env: Env, rows: seq<Row>, k: Packet) {
    RuleAnswer(FirstMatch(CompileRows(env, OptimizeRows(env, rows)), k)) == RowAnswer(FirstRow(env, rows, k))
  }

  lemma OneMoreDecidesAlike(env: Env, rows: seq<Row>, row: Row, more: seq<Row>, k: Packet, v: View)
    requires env.Valid() && more == rows + [row] && Sound(env, v.read, row) && Sees(env, k, v, row)
    requires DecidesAlike(env, rows, k)
    ensures DecidesAlike(env, more, k)
  {
    OneMoreRow(env, rows, row);
    RuleAnswerOfConcat(CompileRows(env, OptimizeRows(env, rows)), Contribution(env, row), k);
    AnswerOfConcat(env, rows, [row], k);
    ContributionDecides(env, row, k, v);
  }

  lemma NoRowsDecide(env: Env, rows: seq<Row>, k: Packet)
    requires rows == []
    ensures DecidesAlike(env, rows, k)
  {}

  // What holds of no rows, and of one more row if it is good, holds of good rows.
  lemma {:induction false} HoldsByRows(holds: seq<Row> -> bool, good: Row -> bool, rows: seq<Row>)
    requires holds([]) && forall init, row :: holds(init) && good(row) ==> holds(init + [row])
    requires forall row | row in rows :: good(row)
    ensures holds(rows)
  {
    if rows != [] {
      var init, row := rows[..|rows| - 1], rows[|rows| - 1];
      HoldsByRows(holds, good, init);
      assert rows == init + [row];
    }
  }

  /** The rule list compiled from optimized rows decides as the rows do. */
  lemma CompiledRowsDecide(env: Env, rows: seq<Row>, k: Packet, v: View)
    requires env.Valid() && Clear(env, k, v, rows)
    ensures DecidesAlike(env, rows, k)
  {
    ghost var holds := (xs: seq<Row>) => DecidesAlike(env, xs, k);
    ghost var good := (row: Row) => Sound(env, v.read, row) && Sees(env, k, v, row);
    NoRowsDecide(env, [], k);
    forall init, row | holds(init) && good(row) ensures holds(init + [row]) {
      OneMoreDecidesAlike(env, init, row, init + [row], k, v);
    }
    HoldsByRows(holds, good, rows);
  }

  lemma {:induction false} OptimizedStaysOrdered(env: Env, rows: seq<Row>)
    requires Sorted(rows, InOrder)
    ensures Sorted(OptimizeRows(env, rows), InOrder)
    ensures forall o | o in OptimizeRows(env, rows) :: exists row :: row in rows && o == OptimizeRow(env, row)
  {
    if rows != [] {
      var init, row := rows[..|rows| - 1], rows[|rows| - 1];
      OptimizedStaysOrdered(env, init);
      forall o | o in OptimizeRows(env, init) ensures o.order <= row.order {
        var r :| r in init && o == OptimizeRow(env, r);
        assert InOrder(r, row);
      }
    }
  }

  lemma {:induction false} NumberingKeepsDecision(env: Env, rows: seq<Row>, numbered: seq<Row>, k: Packet)
    requires |numbered| == |rows|
    requires forall i | 0 <= i < |rows| :: numbered[i] == rows[i].(order := numbered[i].order)
    ensures RowAnswer(FirstRow(env, numbered, k)) == RowAnswer(FirstRow(env, rows, k))
  {
    if rows != [] {
      assert Applies(env, numbered[0], k) <==> Applies(env, rows[0], k);
      NumberingKeepsDecision(env, rows[1..], numbered[1..], k);
    }
  }

  lemma NumberingKeepsSoundness(env: Env, row: Row, numbered: Row, n: int, k: Packet, v: View)
    requires numbered == row.(order := n) && Sound(env, v.read, row) && Sees(env, k, v, row)
    ensures Sound(env, v.read, numbered) && Sees(env, k, v, numbered)
  {
    assert OptimizeRow(env, numbered) == OptimizeRow(env, row).(order := n);
  }

  lemma NumberedIsSound(env: Env, rows: seq<Row>, k: Packet, v: View)
    requires Clear(env, k, v, rows)
    ensures Clear(env, k, v, Numbered(rows))
  {
    forall row | row in Numbered(rows) ensures Sound(env, v.read, row) && Sees(env, k, v, row) {
      var i :| 0 <= i < |rows| && row == rows[i].(order := i + 1);
      assert rows[i] in rows;
      NumberingKeepsSoundness(env, rows[i], row, i + 1, k, v);
    }
  }

  lemma CompiledDecides(env: Env, p: RoutingPolicy, k: Packet, v: View)
    requires env.Valid() && Clear(env, k, v, PolicyRows(env, p))
    ensures RuleAnswer(FirstMatch(Compiled(env, p).rules, k)) == RowAnswer(FirstRow(env, PolicyRows(env, p), k))
  {
    var rows := PolicyRows(env, p);
    var numbered := Numbered(rows);
    NumberedIsSound(env, rows, k, v);
    CompiledRowsDecide(env, numbered, k, v);
    NumberingKeepsDecision(env, rows, numbered, k);
    OptimizedStaysOrdered(env, numbered);
    SortedIsFixed(OptimizeRows(env, numbered), InOrder);
  }

  // ---------------------------------------------------------------------------------------
  // The layers
  // ---------------------------------------------------------------------------------------

  lemma SingleRow(env: Env, row: Row, k: Packet)
    ensures FirstRow(env, [row], k) == if Applies(env, row, k) then Some(row) else None
  {
    assert [row][1..] == [];
  }

  lemma TargetsOfFixedRows()
    ensures Asked("block") == (Block, "block") && Asked("direct") == (Direct, "direct")
    ensures Asked("proxy") == (Proxy, "proxy")
  {
    assert ToLower("block") == "block" && ToLower("direct") == "direct" && ToLower("proxy") == "proxy";
    assert TrimSpace("block") == "block" && TrimSpace("direct") == "direct" && TrimSpace("proxy") == "proxy";
  }

  lemma OverrideRowDecides(env: Env, target: string, domains: seq<string>, ips: seq<string>,
                           processes: seq<string>, k: Packet)
    ensures RowAnswer(FirstRow(env, OverrideRows(target, domains, ips, processes), k)) ==
            if Overridden(env, domains, ips, processes, k) then Some(Asked(target)) else None
  {
    if OverrideRows(target, domains, ips, processes) != [] {
      SingleRow(env, OverrideRows(target, domains, ips, processes)[0], k);
    }
  }

  lemma BlockedUIDsDecide(env: Env, p: RoutingPolicy, k: Packet)
    ensures RowAnswer(FirstRow(env, BlockedUIDsRows(p), k)) ==
            if Any(k.uid, p.blockedUIDs) then Some(Asked("block")) else None
  {
    if p.blockedUIDs != [] { SingleRow(env, BlockedUIDsRows(p)[0], k); }
  }

  lemma BlockedPortsDecide(env: Env, p: RoutingPolicy, k: Packet)
    ensures RowAnswer(FirstRow(env, BlockedPortsRows(p), k)) ==
            if ItemsMatch(env.cleanPort, k.port, p.blockedPorts) then Some(Asked("block")) else None
  {
    if p.blockedPorts != [] { SingleRow(env, BlockedPortsRows(p)[0], k); }
  }

  lemma PrivateIsOneEntry(env: Env)
    requires env.cleanIP(PRIVATE) == PRIVATE
    ensures Pieces(env.CleanIP(), PRIVATE) == [PRIVATE]
  {
    TightIsTrimmed(PRIVATE);
    UnsplitIsOneField(PRIVATE);
  }

  lemma PrivateMatches(env: Env, k: Packet)
    requires env.cleanIP(PRIVATE) == PRIVATE
    ensures ItemsMatch(env.CleanIP(), k.ip, [PRIVATE]) <==> k.ip(PRIVATE)
  {
    PrivateIsOneEntry(env);
    assert ItemMatches(env.CleanIP(), k.ip, PRIVATE) <==> k.ip(PRIVATE);
    OneMoreItem(env.CleanIP(), k.ip, [], PRIVATE);
    assert [] + [PRIVATE] == [PRIVATE];
  }

  lemma PrivateRowDecides(env: Env, k: Packet)
    requires env.cleanIP(PRIVATE) == PRIVATE
    ensures RowAnswer(FirstRow(env, [PRIVATE_ROW], k)) == if k.ip(PRIVATE) then Some(Asked("direct")) else None
  {
    SingleRow(env, PRIVATE_ROW, k);
    PrivateMatches(env, k);
    EmptyProtocols();
  }

  lemma {:induction false} PresetRowsFromFront(env: Env, p: RoutingPolicy, ids: seq<string>)
    requires ids != []
    ensures AllPresetRows(env, p, ids) == PresetRows(env, p, ids[0]) + AllPresetRows(env, p, ids[1..])
  {
    var init, last := ids[..|ids| - 1], ids[|ids| - 1];
    if init == [] {
      assert ids[1..] == [];
    } else {
      PresetRowsFromFront(env, p, init);
      assert ids[1..][..|ids| - 2] == init[1..];
    }
  }

  lemma FirstOfMore(env: Env, rows: seq<Row>, row: Row, k: Packet)
    ensures RowAnswer(FirstRow(env, rows + [row], k)) ==
            Or(RowAnswer(FirstRow(env, rows, k)), if Applies(env, row, k) then Some(Asked(row.target)) else None)
  {
    AnswerOfConcat(env, rows, [row], k);
    SingleRow(env, row, k);
  }

  // Disabled rows would not answer.
  lemma {:induction false} EnabledDecide(env: Env, rows: seq<Row>, k: Packet)
    ensures RowAnswer(FirstRow(env, Enabled(rows), k)) == RowAnswer(FirstRow(env, rows, k))
  {
    if rows != [] {
      var init, row := rows[..|rows| - 1], rows[|rows| - 1];
      EnabledDecide(env, init, k);
      FirstOfMore(env, init, row, k);
      FirstOfMore(env, Enabled(init), row, k);
      assert rows == init + [row];
    }
  }

  lemma {:induction false} RetargetedDecide(env: Env, rows: seq<Row>, over: string, k: Packet)
    ensures RowAnswer(FirstRow(env, Retargeted(rows, over), k)) == Answer(env, rows, over, k)
  {
    if rows != [] {
      assert Retargeted(rows, over)[1..] == Retargeted(rows[1..], over);
      RetargetedDecide(env, rows[1..], over, k);
    }
  }

  lemma RowsAnswer(env: Env, rows: seq<Row>, k: Packet)
    ensures RowAnswer(FirstRow(env, rows, k)) == Answer(env, rows, "", k)
  {
    RetargetedDecide(env, rows, "", k);
    assert Retargeted(rows, "") == rows;
  }

  lemma BlankTargetIsDirect(target: string)
    ensures Asked(if target == "" then "direct" else target) == Asked(target)
  {
    TargetsOfFixedRows();
  }

  lemma PresetRulesDecide(env: Env, preset: Preset, over: string, k: Packet)
    ensures RowAnswer(FirstRow(env, PresetRules(preset, over), k)) == PresetAnswer(env, preset, over, k)
  {
    if preset.rules != [] {
      RetargetedDecide(env, preset.rules, over, k);
    } else {
      SingleRow(env, PresetRules(preset, over)[0], k);
      BlankTargetIsDirect(if over != "" then over else preset.defaultTarget);
    }
  }

  lemma OnePresetDecides(env: Env, p: RoutingPolicy, id: string, k: Packet)
    ensures RowAnswer(FirstRow(env, PresetRows(env, p, id), k)) == AnswerOf(env, p, id, k)
  {
    var over := if id in p.presetTargets then p.presetTargets[id] else "";
    if env.preset(id).Some? {
      EnabledDecide(env, PresetRules(env.preset(id).value, over), k);
      PresetRulesDecide(env, env.preset(id).value, over, k);
    }
  }

  lemma {:induction false} PresetsDecide(env: Env, p: RoutingPolicy, ids: seq<string>, k: Packet)
    ensures RowAnswer(FirstRow(env, AllPresetRows(env, p, ids), k)) == FirstPreset(env, p, ids, k)
  {
    if ids != [] {
      PresetRowsFromFront(env, p, ids);
      AnswerOfConcat(env, PresetRows(env, p, ids[0]), AllPresetRows(env, p, ids[1..]), k);
      OnePresetDecides(env, p, ids[0], k);
      PresetsDecide(env, p, ids[1..], k);
    }
  }

  lemma {:induction false} OnePresetMore(env: Env, p: RoutingPolicy, ids: seq<string>, id: string, k: Packet)
    ensures FirstPreset(env, p, ids + [id], k) == Or(FirstPreset(env, p, ids, k), AnswerOf(env, p, id, k))
    ensures id in ids && FirstPreset(env, p, ids, k) == None ==> AnswerOf(env, p, id, k) == None
  {
    if ids == [] {
      assert FirstPreset(env, p, [id][1..], k) == None;
    } else {
      OnePresetMore(env, p, ids[1..], id, k);
      assert (ids + [id])[1..] == ids[1..] + [id];
    }
  }

  // A preset that is enabled twice has answered the first time.
  lemma {:induction false} RepeatedPresets(env: Env, p: RoutingPolicy, ids: seq<string>, k: Packet)
    ensures FirstPreset(env, p, Distinct(ids), k) == FirstPreset(env, p, ids, k)
    ensures forall id :: id in Distinct(ids) <==> id in ids
    ensures forall i, j | 0 <= i < j < |Distinct(ids)| :: Distinct(ids)[i] != Distinct(ids)[j]
  {
    if ids != [] {
      var init, id := ids[..|ids| - 1], ids[|ids| - 1];
      RepeatedPresets(env, p, init, k);
      OnePresetMore(env, p, init, id, k);
      OnePresetMore(env, p, Distinct(init), id, k);
      assert ids == init + [id];
    }
  }

  lemma PresetsInForce(env: Env, p: RoutingPolicy, k: Packet)
    ensures FirstPreset(env, p, ActivePresets(p), k) == FirstPreset(env, p, InForce(p), k)
  {
    RepeatedPresets(env, p, p.enabledPresets, k);
    if p.enabledPresets != [] { assert p.enabledPresets[0] in Distinct(p.enabledPresets); }
  }

  lemma FixedRowsDecide(env: Env, p: RoutingPolicy, k: Packet)
    requires env.cleanIP(PRIVATE) == PRIVATE
    ensures RowAnswer(FirstRow(env, FixedRows(p), k)) ==
            if Any(k.uid, p.blockedUIDs) || ItemsMatch(env.cleanPort, k.port, p.blockedPorts) then
              Some((Block, "block"))
            else if k.ip(PRIVATE) then Some((Direct, "direct"))
            else if DestinationBlocked(env, p, k) then Some((Block, "block"))
            else if Overridden(env, p.directDomains, p.directIPs, p.processDirect, k) then Some((Direct, "direct"))
            else if Overridden(env, p.proxyDomains, p.proxyIPs, p.processProxy, k) then Some((Proxy, "proxy"))
            else None
  {
    var uids, ports := BlockedUIDsRows(p), BlockedPortsRows(p);
    var block := OverrideRows("block", p.blockDomains, p.blockIPs, []);
    var direct := OverrideRows("direct", p.directDomains, p.directIPs, p.processDirect);
    var proxy := OverrideRows("proxy", p.proxyDomains, p.proxyIPs, p.processProxy);
    AnswerOfConcat(env, uids, ports, k);
    AnswerOfConcat(env, uids + ports, [PRIVATE_ROW], k);
    AnswerOfConcat(env, uids + ports + [PRIVATE_ROW], block, k);
    AnswerOfConcat(env, uids + ports + [PRIVATE_ROW] + block, direct, k);
    AnswerOfConcat(env, uids + ports + [PRIVATE_ROW] + block + direct, proxy, k);
    BlockedUIDsDecide(env, p, k);
    BlockedPortsDecide(env, p, k);
    PrivateRowDecides(env, k);
    OverrideRowDecides(env, "block", p.blockDomains, p.blockIPs, [], k);
    OverrideRowDecides(env, "direct", p.directDomains, p.directIPs, p.processDirect, k);
    OverrideRowDecides(env, "proxy", p.proxyDomains, p.proxyIPs, p.processProxy, k);
    TargetsOfFixedRows();
  }

  lemma VerdictOfCompiled(env: Env, p: RoutingPolicy, k: Packet)
    ensures Verdict(Compiled(env, p), k) ==
            ByAnswer(RuleAnswer(FirstMatch(Compiled(env, p).rules, k)), Default(DefaultAction(p)))
  {
    assert ToUpper("direct") == "DIRECT" && ToUpper("proxy") == "PROXY";
  }

  /** For every packet the compiled list gives the verdict of the layered policy, provided each enabled
      row keeps its lists and its domains survive. */
  lemma CompiledPolicyIsLayered(env: Env, p: RoutingPolicy, k: Packet, v: View)
    requires env.Valid() && Clear(env, k, v, PolicyRows(env, p))
    ensures Verdict(Compiled(env, p), k) == Layered(env, p, k)
  {
    VerdictOfCompiled(env, p, k);
    CompiledDecides(env, p, k, v);
    RowsAreLayered(env, p, k);
  }

  // No layer in front of the custom rows decides the packet.
  predicate ReachesCustomRows(env: Env, p: RoutingPolicy, k: Packet) {
    && !Any(k.uid, p.blockedUIDs) && !ItemsMatch(env.cleanPort, k.port, p.blockedPorts) && !k.ip(PRIVATE)
    && !DestinationBlocked(env, p, k) && !Overridden(env, p.directDomains, p.directIPs, p.processDirect, k)
    && !Overridden(env, p.proxyDomains, p.proxyIPs, p.processProxy, k)
  }

  lemma TailOfThree<T>(a: seq<T>, x: T, b: seq<T>)
    ensures a == [] ==> (a + [x] + b)[0] == x
    ensures a != [] ==> (a + [x] + b)[0] == a[0] && (a + [x] + b)[1..] == a[1..] + [x] + b
  {}

  lemma {:induction false} AnswerSkips(env: Env, before: seq<Row>, row: Row, after: seq<Row>, k: Packet)
    requires Applies(env, row, k) && forall r | r in before :: !Applies(env, r, k)
    ensures Answer(env, before + [row] + after, "", k) == Some(Asked(row.target))
  {
    TailOfThree(before, row, after);
    if before != [] {
      assert before[0] in before && forall r | r in before[1..] :: r in before;
      AnswerSkips(env, before[1..], row, after, k);
    }
  }

  lemma CustomRowsAnswer(env: Env, p: RoutingPolicy, k: Packet, answer: (Action, string))
    requires ReachesCustomRows(env, p, k) && Answer(env, p.customRules, "", k) == Some(answer)
    ensures Layered(env, p, k) == Decided(answer.0, answer.1)
  {}

  predicate LeavesAsAsked(target: string, out: Outcome) {
    var name := TrimSpace(target);
    && (ToLower(name) == "block" || ToLower(name) == "blocked" ==> out == Decided(Block, "block"))
    && (name == "" || ToLower(name) == "direct" ==> out == Decided(Direct, "direct"))
    && (ToLower(name) == "proxy" ==> out == Decided(Proxy, "proxy"))
    && (ToLower(name) !in ["block", "blocked", "", "direct", "proxy"] ==> out == Decided(Proxy, name))
  }

  lemma AskedIsSaid(target: string)
    ensures LeavesAsAsked(target, Decided(Asked(target).0, Asked(target).1))
  {}

  /** A custom row sends what it decides where its target says: `block` or `blocked` in any spelling to the
      block outbound, `direct` or nothing past the tunnel, `proxy` into it, and any other name to the
      outbound of that name. */
  lemma CustomRowsLeaveAsAsked(env: Env, p: RoutingPolicy, k: Packet, v: View, before: seq<Row>, row: Row,
                               after: seq<Row>)
    requires env.Valid() && Clear(env, k, v, PolicyRows(env, p)) && ReachesCustomRows(env, p, k)
    requires p.customRules == before + [row] + after
    requires Applies(env, row, k) && forall r | r in before :: !Applies(env, r, k)
    ensures LeavesAsAsked(row.target, Verdict(Compiled(env, p), k))
  {
    CompiledPolicyIsLayered(env, p, k, v);
    AnswerSkips(env, before, row, after, k);
    CustomRowsAnswer(env, p, k, Asked(row.target));
    AskedIsSaid(row.target);
  }

  ghost predicate HaveTags(rules: seq<Rule>) { forall r | r in rules :: r.outboundTag != "" }

  lemma {:induction false} CompiledRowsHaveTags(env: Env, rows: seq<Row>)
    ensures HaveTags(CompileRows(env, rows))
  {
    if rows != [] { CompiledRowsHaveTags(env, rows[..|rows| - 1]); }
  }

  // Every compiled rule names an outbound.
  lemma CompiledRulesHaveTags(env: Env, p: RoutingPolicy)
    ensures HaveTags(Compiled(env, p).rules)
  {
    CompiledRowsHaveTags(env, Sort(OptimizeRows(env, Numbered(PolicyRows(env, p))), InOrder));
  }

  lemma RowsAreLayered(env: Env, p: RoutingPolicy, k: Packet)
    requires env.cleanIP(PRIVATE) == PRIVATE
    ensures ByAnswer(RowAnswer(FirstRow(env, PolicyRows(env, p), k)), Default(DefaultAction(p))) == Layered(env, p, k)
  {
    var presets := AllPresetRows(env, p, ActivePresets(p));
    AnswerOfConcat(env, FixedRows(p), p.customRules, k);
    AnswerOfConcat(env, FixedRows(p) + p.customRules, presets, k);
    FixedRowsDecide(env, p, k);
    RowsAnswer(env, p.customRules, k);
    PresetsDecide(env, p, ActivePresets(p), k);
    PresetsInForce(env, p, k);
  }

  // ---------------------------------------------------------------------------------------
  // Tables in any order
  // ---------------------------------------------------------------------------------------

  // The enabled row that matches with the least order; the earliest of these on a tie.
  ghost predicate Decides(env: Env, rows: seq<Row>, k: Packet, i: int) {
    && 0 <= i < |rows| && rows[i].enabled && RowMatches(env, rows[i], k)
    && forall j | 0 <= j < |rows| && rows[j].enabled && RowMatches(env, rows[j], k) ::
         rows[i].order < rows[j].order || (rows[i].order == rows[j].order && i <= j)
  }

  function FirstEnabled(env: Env, rows: seq<Row>, k: Packet): Option<Row> {
    if rows == [] then None
    else if rows[0].enabled && RowMatches(env, rows[0], k) then Some(rows[0])
    else FirstEnabled(env, rows[1..], k)
  }

  lemma {:induction false} InsertedRowDecides(env: Env, x: Row, rows: seq<Row>, k: Packet)
    requires Sorted(rows, InOrder)
    ensures var next := FirstEnabled(env, rows, k);
            FirstEnabled(env, Insert(x, rows, InOrder), k) ==
            if x.enabled && RowMatches(env, x, k) && (next.None? || x.order <= next.value.order) then Some(x) else next
    ensures FirstEnabled(env, rows, k).Some? ==> FirstEnabled(env, rows, k).value in rows
  {
    if rows != [] {
      InsertedRowDecides(env, x, rows[1..], k);
      if InOrder(x, rows[0]) {
        assert ([x] + rows)[1..] == rows;
      } else {
        var rest := Insert(x, rows[1..], InOrder);
        assert ([rows[0]] + rest)[1..] == rest;
      }
    } else {
      assert [x][1..] == [];
    }
  }

  /** The sorted table is decided by the enabled matching row of least order, the earliest one
      among equals. */
  lemma {:induction false} LeastOrderDecides(env: Env, rows: seq<Row>, k: Packet)
    ensures var d := FirstEnabled(env, Sort(rows, InOrder), k);
            if d.None? then forall j | 0 <= j < |rows| :: !(rows[j].enabled && RowMatches(env, rows[j], k))
            else exists i :: Decides(env, rows, k, i) && rows[i] == d.value
  {
    if rows != [] {
      var x, rest := rows[0], rows[1..];
      LeastOrderDecides(env, rest, k);
      SortSorts(rest, InOrder);
      InsertedRowDecides(env, x, Sort(rest, InOrder), k);
      var next := FirstEnabled(env, Sort(rest, InOrder), k);
      if x.enabled && RowMatches(env, x, k) && (next.None? || x.order <= next.value.order) {
        assert Decides(env, rows, k, 0);
      } else if next.Some? {
        var i :| Decides(env, rest, k, i) && rest[i] == next.value;
        DecidesFurther(env, rows, k, i);
      }
    }
  }

  lemma DecidesFurther(env: Env, rows: seq<Row>, k: Packet, i: nat)
    requires rows != [] && Decides(env, rows[1..], k, i)
    requires !(rows[0].enabled && RowMatches(env, rows[0], k)) || rows[0].order > rows[1..][i].order
    ensures Decides(env, rows, k, i + 1) && rows[i + 1] == rows[1..][i]
  {}

  lemma NumberedIsSorted(rows: seq<Row>)
    ensures Sorted(Numbered(rows), InOrder)
  {}

  // The rules that each row contributes, in order.
  ghost function Flat(contribution: Row -> seq<Rule>, rows: seq<Row>): seq<Rule> {
    if rows == [] then [] else Flat(contribution, rows[..|rows| - 1]) + contribution(rows[|rows| - 1])
  }

  lemma {:induction false} FlatOfConcat(contribution: Row -> seq<Rule>, a: seq<Row>, b: seq<Row>)
    ensures Flat(contribution, a + b) == Flat(contribution, a) + Flat(contribution, b)
  {
    if b == [] {
      assert a + b == a;
    } else {
      FlatOfConcat(contribution, a, b[..|b| - 1]);
      assert (a + b)[..|a + b| - 1] == a + b[..|b| - 1];
    }
  }

  lemma {:induction false} FlatAlike(contribution: Row -> seq<Rule>, a: seq<Row>, b: seq<Row>)
    requires |a| == |b| && forall i | 0 <= i < |a| :: contribution(a[i]) == contribution(b[i])
    ensures Flat(contribution, a) == Flat(contribution, b)
  {
    if a != [] {
      FlatAlike(contribution, a[..|a| - 1], b[..|b| - 1]);
    }
  }

  ghost function ContributionOf(env: Env): Row -> seq<Rule> { row => Contribution(env, row) }

  // A list that grows by what each row contributes.
  lemma {:induction false} GrowsByRows(compiled: seq<Row> -> seq<Rule>, contribution: Row -> seq<Rule>, rows: seq<Row>)
    requires compiled([]) == []
    requires forall init, row :: compiled(init + [row]) == compiled(init) + contribution(row)
    ensures compiled(rows) == Flat(contribution, rows)
  {
    if rows != [] {
      var init, row := rows[..|rows| - 1], rows[|rows| - 1];
      GrowsByRows(compiled, contribution, init);
      assert rows == init + [row];
    }
  }

  lemma CompiledIsFlat(env: Env, rows: seq<Row>)
    ensures CompileRows(env, OptimizeRows(env, rows)) == Flat(ContributionOf(env), rows)
  {
    ghost var compiled := (xs: seq<Row>) => CompileRows(env, OptimizeRows(env, xs));
    forall init: seq<Row>, row ensures compiled(init + [row]) == compiled(init) + ContributionOf(env)(row) {
      OneMoreRow(env, init, row);
    }
    GrowsByRows(compiled, ContributionOf(env), rows);
  }

  lemma NumberedContribution(env: Env, row: Row, n: int)
    ensures Contribution(env, row.(order := n)) == Contribution(env, row)
  {
    var numbered := row.(order := n);
    assert OptimizeRow(env, numbered) == OptimizeRow(env, row).(order := n);
    assert CompileRow(env, OptimizeRow(env, numbered)) == CompileRow(env, OptimizeRow(env, row));
  }

  // The rules of a policy, row by row.
  lemma CompiledRules(env: Env, p: RoutingPolicy)
    ensures Compiled(env, p).rules == Flat(ContributionOf(env), PolicyRows(env, p))
  {
    var rows := PolicyRows(env, p);
    var numbered := Numbered(rows);
    NumberedIsSorted(rows);
    OptimizedIsInOrder(env, numbered);
    CompiledIsFlat(env, numbered);
    NumberedIsFlatAlike(env, rows);
  }

  lemma NumberedIsFlatAlike(env: Env, rows: seq<Row>)
    ensures Flat(ContributionOf(env), Numbered(rows)) == Flat(ContributionOf(env), rows)
  {
    forall i | 0 <= i < |rows| ensures ContributionOf(env)(Numbered(rows)[i]) == ContributionOf(env)(rows[i]) {
      NumberedContribution(env, rows[i], i + 1);
    }
    FlatAlike(ContributionOf(env), Numbered(rows), rows);
  }

  lemma OptimizedIsInOrder(env: Env, rows: seq<Row>)
    requires Sorted(rows, InOrder)
    ensures Sort(OptimizeRows(env, rows), InOrder) == OptimizeRows(env, rows)
  {
    OptimizedStaysOrdered(env, rows);
    SortedIsFixed(OptimizeRows(env, rows), InOrder);
  }

  lemma SingleIsFlat(contribution: Row -> seq<Rule>, rows: seq<Row>)
    requires |rows| == 1
    ensures Flat(contribution, rows) == contribution(rows[0])
  {
    assert rows[..0] == [];
  }

  // A row with this target is compiled to a rule that blocks.
  lemma BlockRowBlocks(env: Env, row: Row, target: string, answer: (Action, string))
    requires row.target == target && Asked(target) == answer
    ensures CompileRow(env, OptimizeRow(env, row)).action == answer.0
    ensures CompileRow(env, OptimizeRow(env, row)).outboundTag == answer.1
  {
    TargetIsResolved(target);
  }

  lemma UIDRulesBlock(env: Env, p: RoutingPolicy, k: Packet)
    ensures RuleAnswer(FirstMatch(Flat(ContributionOf(env), BlockedUIDsRows(p)), k)) in
              {None, Some((Block, "block"))}
  {
    TargetsOfFixedRows();
    if p.blockedUIDs != [] {
      var row := BlockedUIDsRows(p)[0];
      SingleIsFlat(ContributionOf(env), BlockedUIDsRows(p));
      SingleMatch(CompileRow(env, OptimizeRow(env, row)), k);
      BlockRowBlocks(env, row, "block", (Block, "block"));
    }
  }

  lemma SingleMatch(r: Rule, k: Packet)
    ensures FirstMatch([r], k) == if Matches(r, k) then Some(r) else None
  {
    assert [r][1..] == [];
  }

  lemma EmptiedPortRuleBlocks(env: Env, p: RoutingPolicy, k: Packet)
    requires p.blockedPorts != [] && CleanList(env.cleanPort, p.blockedPorts) == []
    ensures RuleAnswer(FirstMatch(Flat(ContributionOf(env), BlockedPortsRows(p)), k)) == Some((Block, "block"))
  {
    TargetsOfFixedRows();
    EmptyListsStayEmpty(env);
    var row := BlockedPortsRows(p)[0];
    SingleIsFlat(ContributionOf(env), BlockedPortsRows(p));
    SingleMatch(CompileRow(env, OptimizeRow(env, row)), k);
    BlockRowBlocks(env, row, "block", (Block, "block"));
    MatcherLessRuleMatches(CompileRow(env, OptimizeRow(env, row)), k);
  }

  lemma MatcherLessRuleMatches(r: Rule, k: Packet)
    requires r == Rule(r.action, r.outboundTag, [], [], [], [], [], [], [], [], 0)
    ensures Matches(r, k)
  {}

  /** A list of blocked ports of which nothing survives cleaning blocks every packet. */
  lemma EmptiedPortListBlocksEverything(env: Env, p: RoutingPolicy, k: Packet)
    requires p.blockedPorts != [] && CleanList(env.cleanPort, p.blockedPorts) == []
    ensures Verdict(Compiled(env, p), k) == Decided(Block, "block")
  {
    var uids, ports, all := BlockedUIDsRows(p), BlockedPortsRows(p), PolicyRows(env, p);
    var rest := all[|uids + ports|..];
    assert all == (uids + ports) + rest;
    var f := ContributionOf(env);
    CompiledRules(env, p);
    FlatOfConcat(f, uids + ports, rest);
    FlatOfConcat(f, uids, ports);
    UIDRulesBlock(env, p, k);
    EmptiedPortRuleBlocks(env, p, k);
    RuleAnswerOfConcat(Flat(f, uids), Flat(f, ports), k);
    RuleAnswerOfConcat(Flat(f, uids + ports), Flat(f, rest), k);
  }

  // ---------------------------------------------------------------------------------------
  // The table and the compilation loops
  // ---------------------------------------------------------------------------------------

  method CleanItems(clean: string -> string, list: seq<string>) returns (result: seq<string>)
    ensures result == CleanList(clean, list)
  {
    result := [];
    var seen: set<string> := {};
    var i := 0;
    while i < |list|
      invariant 0 <= i <= |list|
      invariant result == CleanList(clean, list[..i])
      invariant forall x :: x in seen <==> x in result
    {
      assert list[..i + 1][..i] == list[..i];
      var fields := Fields(list[i]);
      ghost var before, pieces := result, Pieces(clean, list[i]);
      var j := 0;
      while j < |fields|
        invariant 0 <= j <= |fields|
        invariant result == AddAll(before, pieces[..j])
        invariant forall x :: x in seen <==> x in result
      {
        assert pieces[..j + 1][..j] == pieces[..j];
        var cleaned := clean(fields[j]);
        if cleaned != "" && cleaned !in seen {
          seen, result := seen + {cleaned}, result + [cleaned];
        }
        j := j + 1;
      }
      assert pieces[..j] == pieces;
      i := i + 1;
    }
    assert list[..i] == list;
  }

  method CompileOne(env: Env, row: Row) returns (rule: Rule)
    ensures rule == CompileRow(env, row)
  {
    var target := TrimSpace(row.target);
    if target == "" {
      target := "direct";
    }
    var action, tag := Proxy, target;
    var upper := ToUpper(target);
    if upper == "BLOCK" || upper == "BLOCKED" {
      action, tag := Block, "block";
    } else if upper == "DIRECT" {
      action, tag := Direct, "direct";
    } else if upper == "PROXY" {
      action, tag := Proxy, "proxy";
    }
    assert ToUpper("direct") == "DIRECT" && ToUpper("") == "";
    var domains := CleanItems(env.CleanDomain(), row.domains);
    var ips := CleanItems(env.CleanIP(), row.ips);
    var ports := CleanItems(env.cleanPort, row.ports);
    rule := Rule(action, tag, domains, ips, ports, row.protocols, [], row.packageUIDs, row.processNames,
                 row.inbounds, row.ipVersion);
  }

  method OptimizeOne(env: Env, row: Row) returns (r: Row)
    ensures r == OptimizeRow(env, row)
  {
    var ips, domains := row.ips, row.domains;
    if |ips| > 0 {
      ips := Cidr.OptimizeCIDRs(env.codec, ips);
    }
    if |domains| > 0 {
      domains := Domains.OptimizeDomains(domains);
    }
    r := row.(ips := ips, domains := domains);
  }

  lemma OneMoreOptimized(env: Env, rows: seq<Row>, i: nat)
    requires i < |rows|
    ensures var row := OptimizeRow(env, rows[i]);
            OptimizeRows(env, rows[..i + 1]) ==
            if !row.enabled || SaysNothing(row) then OptimizeRows(env, rows[..i])
            else OptimizeRows(env, rows[..i]) + [row]
  {
    assert rows[..i + 1][..i] == rows[..i];
  }

  // Adds a row that is enabled and says something.
  method AddOptimized(env: Env, before: seq<Row>, row: Row) returns (after: seq<Row>)
    ensures var o := OptimizeRow(env, row);
            after == if !o.enabled || SaysNothing(o) then before else before + [o]
  {
    after := before;
    if row.enabled {
      var o := OptimizeOne(env, row);
      if |o.domains| > 0 || |o.ips| > 0 || |o.ports| > 0 || |o.protocols| > 0 ||
         |o.packageUIDs| > 0 || |o.processNames| > 0 || o.target != "" {
        after := after + [o];
      }
    }
  }

  // One turn of the loop.
  method AddNextOptimized(env: Env, rows: seq<Row>, i: nat, before: seq<Row>) returns (after: seq<Row>)
    requires i < |rows| && before == OptimizeRows(env, rows[..i])
    ensures after == OptimizeRows(env, rows[..i + 1])
  {
    OneMoreOptimized(env, rows, i);
    after := AddOptimized(env, before, rows[i]);
  }

  method OptimizeRules(env: Env, rows: seq<Row>) returns (result: seq<Row>)
    ensures result == OptimizeRows(env, rows)
  {
    result := [];
    var i := 0;
    while i < |rows|
      invariant 0 <= i <= |rows|
      invariant result == OptimizeRows(env, rows[..i])
    {
      result := AddNextOptimized(env, rows, i, result);
      i := i + 1;
    }
    assert rows[..i] == rows;
  }

  // One turn of the loop that compiles a table.
  method AddNextCompiled(env: Env, rows: seq<Row>, i: nat, before: seq<Rule>) returns (after: seq<Rule>)
    requires i < |rows| && before == CompileRows(env, rows[..i])
    ensures after == CompileRows(env, rows[..i + 1])
  {
    assert rows[..i + 1][..i] == rows[..i];
    after := before;
    if rows[i].enabled {
      var rule := CompileOne(env, rows[i]);
      after := after + [rule];
    }
  }

  class RoutingTable {
    const defaultTarget: string
    var rules: seq<Row>

    constructor (defaultTarget: string)
      ensures rules == []
      ensures this.defaultTarget == if defaultTarget == "" then "proxy" else defaultTarget
    {
      this.defaultTarget := if defaultTarget == "" then "proxy" else defaultTarget;
      rules := [];
    }

    method AddRule(row: Row)
      modifies this
      ensures rules == old(rules) + [row]
    {
      rules := rules + [row];
    }

    // Adds the row under the next order number.
    method AddNext(ghost rows: seq<Row>, order: nat, row: Row)
      requires rules == Numbered(rows) && order == |rows| + 1
      modifies this
      ensures rules == Numbered(rows + [row])
    {
      AddRule(row.(order := order));
      assert Numbered(rows + [row]) == Numbered(rows) + [row.(order := order)];
    }

    method CompileToAST(env: Env) returns (spec: Spec)
      ensures spec == CompileTable(env, defaultTarget, rules)
    {
      var sorted := Sort(rules, InOrder);
      var compiled: seq<Rule> := [];
      var i := 0;
      while i < |sorted|
        invariant 0 <= i <= |sorted|
        invariant compiled == CompileRows(env, sorted[..i])
      {
        compiled := AddNextCompiled(env, sorted, i, compiled);
        i := i + 1;
      }
      assert sorted[..i] == sorted;
      spec := Spec(if ToUpper(defaultTarget) == "DIRECT" then Direct else Proxy, compiled);
    }
  }

  method ActivePresetIDs(p: RoutingPolicy) returns (ids: seq<string>)
    ensures ids == ActivePresets(p)
  {
    ids := [];
    var seen: set<string> := {};
    var i := 0;
    while i < |p.enabledPresets|
      invariant 0 <= i <= |p.enabledPresets|
      invariant ids == Distinct(p.enabledPresets[..i])
      invariant forall id :: id in seen <==> id in ids
    {
      assert p.enabledPresets[..i + 1][..i] == p.enabledPresets[..i];
      if p.enabledPresets[i] !in seen {
        seen, ids := seen + {p.enabledPresets[i]}, ids + [p.enabledPresets[i]];
      }
      i := i + 1;
    }
    assert p.enabledPresets[..i] == p.enabledPresets;
    if |ids| == 0 && p.mode == SmartRule {
      ids := ids + ["ads", "ru"];
    }
  }

  // The rows every policy starts with, numbered from 1.
  method AddFixedRows(table: RoutingTable, p: RoutingPolicy) returns (order: nat)
    requires table.rules == []
    modifies table
    ensures table.rules == Numbered(FixedRows(p)) && order == |FixedRows(p)| + 1
  {
    order := 1;
    ghost var rows: seq<Row> := [];
    if |p.blockedUIDs| > 0 {
      var row := BLANK_ROW.(target := "block", packageUIDs := p.blockedUIDs);
      table.AddNext(rows, order, row);
      rows, order := rows + [row], order + 1;
    }
    if |p.blockedPorts| > 0 {
      var row := BLANK_ROW.(target := "block", ports := p.blockedPorts);
      table.AddNext(rows, order, row);
      rows, order := rows + [row], order + 1;
    }
    table.AddNext(rows, order, PRIVATE_ROW);
    rows, order := rows + [PRIVATE_ROW], order + 1;
    assert rows == BlockedUIDsRows(p) + BlockedPortsRows(p) + [PRIVATE_ROW];
    order := AddOverride(table, rows, order, "block", p.blockDomains, p.blockIPs, []);
    rows := rows + OverrideRows("block", p.blockDomains, p.blockIPs, []);
    order := AddOverride(table, rows, order, "direct", p.directDomains, p.directIPs, p.processDirect);
    rows := rows + OverrideRows("direct", p.directDomains, p.directIPs, p.processDirect);
    order := AddOverride(table, rows, order, "proxy", p.proxyDomains, p.proxyIPs, p.processProxy);
    rows := rows + OverrideRows("proxy", p.proxyDomains, p.proxyIPs, p.processProxy);
    assert rows == FixedRows(p);
  }

  method AddOverride(table: RoutingTable, ghost rows: seq<Row>, start: nat, target: string,
                     domains: seq<string>, ips: seq<string>, processes: seq<string>) returns (order: nat)
    requires table.rules == Numbered(rows) && start == |rows| + 1
    modifies table
    ensures var all := rows + OverrideRows(target, domains, ips, processes);
            table.rules == Numbered(all) && order == |all| + 1
  {
    order := start;
    if |domains| > 0 || |ips| > 0 || |processes| > 0 {
      var row := BLANK_ROW.(target := target, domains := domains, ips := ips, processNames := processes);
      table.AddNext(rows, order, row);
      order := order + 1;
      assert OverrideRows(target, domains, ips, processes) == [row];
    } else {
      assert rows + [] == rows;
    }
  }

  method AddPreset(env: Env, table: RoutingTable, p: RoutingPolicy, id: string, ghost rows: seq<Row>, start: nat)
    returns (order: nat)
    requires table.rules == Numbered(rows) && start == |rows| + 1
    modifies table
    ensures var all := rows + PresetRows(env, p, id);
            table.rules == Numbered(all) && order == |all| + 1
  {
    order := start;
    var found := env.preset(id);
    assert rows + [] == rows;
    if found.Some? {
      var override_ := if id in p.presetTargets then p.presetTargets[id] else "";
      var rules := PresetRules(found.value, override_);
      var i := 0;
      while i < |rules|
        invariant 0 <= i <= |rules|
        invariant table.rules == Numbered(rows + Enabled(rules[..i]))
        invariant order == |rows + Enabled(rules[..i])| + 1
      {
        assert rules[..i + 1][..i] == rules[..i];
        if rules[i].enabled {
          table.AddNext(rows + Enabled(rules[..i]), order, rules[i]);
          assert rows + Enabled(rules[..i]) + [rules[i]] == rows + Enabled(rules[..i + 1]);
          order := order + 1;
        }
        i := i + 1;
      }
      assert rules[..i] == rules;
    }
  }

  method AddCustomRows(table: RoutingTable, custom: seq<Row>, ghost rows: seq<Row>, start: nat) returns (order: nat)
    requires table.rules == Numbered(rows) && start == |rows| + 1
    modifies table
    ensures table.rules == Numbered(rows + custom) && order == |rows + custom| + 1
  {
    order := start;
    var i := 0;
    assert rows + custom[..0] == rows;
    while i < |custom|
      invariant 0 <= i <= |custom|
      invariant table.rules == Numbered(rows + custom[..i]) && order == |rows| + i + 1
    {
      table.AddNext(rows + custom[..i], order, custom[i]);
      assert rows + custom[..i] + [custom[i]] == rows + custom[..i + 1];
      order, i := order + 1, i + 1;
    }
    assert custom[..i] == custom;
  }

  lemma OneMorePreset(env: Env, p: RoutingPolicy, ids: seq<string>, j: nat, rows: seq<Row>)
    requires j < |ids|
    ensures rows + AllPresetRows(env, p, ids[..j]) + PresetRows(env, p, ids[j]) ==
            rows + AllPresetRows(env, p, ids[..j + 1])
  {
    assert ids[..j + 1][..j] == ids[..j];
  }

  method AddPresets(env: Env, table: RoutingTable, p: RoutingPolicy, ids: seq<string>, ghost rows: seq<Row>, start: nat)
    requires table.rules == Numbered(rows) && start == |rows| + 1
    modifies table
    ensures table.rules == Numbered(rows + AllPresetRows(env, p, ids))
  {
    var order, j := start, 0;
    assert rows + [] == rows;
    while j < |ids|
      invariant 0 <= j <= |ids|
      invariant table.rules == Numbered(rows + AllPresetRows(env, p, ids[..j]))
      invariant order == |rows + AllPresetRows(env, p, ids[..j])| + 1
    {
      ghost var before := rows + AllPresetRows(env, p, ids[..j]);
      order := AddPreset(env, table, p, ids[j], before, order);
      OneMorePreset(env, p, ids, j, rows);
      j := j + 1;
    }
    assert ids[..j] == ids;
  }

  method CompilePolicy(env: Env, p: RoutingPolicy) returns (spec: Spec)
    ensures spec == Compiled(env, p)
  {
    var table := new RoutingTable(if p.mode == DirectAll || p.mode == WhitelistOnly then "direct" else "proxy");
    var order := AddFixedRows(table, p);
    order := AddCustomRows(table, p.customRules, FixedRows(p), order);
    var ids := ActivePresetIDs(p);
    AddPresets(env, table, p, ids, FixedRows(p) + p.customRules, order);
    table.rules := OptimizeRules(env, table.rules);
    spec := table.CompileToAST(env);
  }
}
