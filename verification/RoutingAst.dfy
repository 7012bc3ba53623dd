/** Routing rules and their first-match meaning (pkg/ast/routing.go).

    A packet is characterised by the tests it passes: for every kind of matcher, the entries
    that match it. */
module RoutingAst {
  import opened Common
  import opened Text

  datatype Action = Proxy | Direct | Block {
    function Name(): string {
      match this
      case Proxy => "proxy"
      case Direct => "direct"
      case Block => "block"
    }
  }

  datatype Rule = Rule(action: Action, outboundTag: string, domains: seq<string>, ips: seq<string>,
                       ports: seq<string>, protocols: seq<string>, users: seq<string>,
                       packageUIDs: seq<string>, processNames: seq<string>, inboundTags: seq<string>,
                       ipVersion: int)

  datatype Packet = Packet(ipVersion: int, domain: string -> bool, ip: string -> bool, port: string -> bool,
                           network: string -> bool, application: string -> bool, user: string -> bool,
                           uid: string -> bool, process: string -> bool, inbound: string -> bool)

  predicate Any(test: string -> bool, entries: seq<string>) {
    exists e | e in entries :: test(e)
  }

  // A matcher without entries does not restrict the rule.
  predicate Allowed(test: string -> bool, entries: seq<string>) {
    entries == [] || Any(test, entries)
  }

  // Domains and addresses are alternatives of one matcher.
  predicate AddressAllowed(k: Packet, domains: seq<string>, ips: seq<string>) {
    (domains == [] && ips == []) || Any(k.domain, domains) || Any(k.ip, ips)
  }

  predicate IsTransport(protocol: string) { ToLower(protocol) == "tcp" || ToLower(protocol) == "udp" }

  // Transport and application protocols are two matchers that share one list.
  function Transports(protocols: seq<string>): seq<string> {
    if protocols == [] then []
    else
      var before, p := Transports(protocols[..|protocols| - 1]), protocols[|protocols| - 1];
      if IsTransport(p) then before + [ToLower(p)] else before
  }

  function Applications(protocols: seq<string>): seq<string> {
    if protocols == [] then []
    else
      var before, p := Applications(protocols[..|protocols| - 1]), protocols[|protocols| - 1];
      if IsTransport(p) then before else before + [ToLower(p)]
  }

  /** The transport matcher is made of the entries tcp and udp in any case, the application matcher of the
      others; both see them in lower case. */
  lemma {:induction false} ProtocolsAreSplit(test: string -> bool, protocols: seq<string>)
    ensures Any(test, Transports(protocols)) <==>
            exists p | p in protocols :: ToLower(p) in ["tcp", "udp"] && test(ToLower(p))
    ensures Any(test, Applications(protocols)) <==>
            exists p | p in protocols :: ToLower(p) !in ["tcp", "udp"] && test(ToLower(p))
    ensures Transports(protocols) == [] <==> forall p | p in protocols :: ToLower(p) !in ["tcp", "udp"]
    ensures Applications(protocols) == [] <==> forall p | p in protocols :: ToLower(p) in ["tcp", "udp"]
  {
    if protocols != [] {
      var init, p := protocols[..|protocols| - 1], protocols[|protocols| - 1];
      ProtocolsAreSplit(test, init);
      assert forall x :: x in protocols <==> x in init || x == p;
    }
  }

  // Every matcher but those on the address.
  predicate OthersAllow(r: Rule, k: Packet) {
    && (r.ipVersion == 0 || r.ipVersion == k.ipVersion)
    && Allowed(k.inbound, r.inboundTags) && Allowed(k.port, r.ports)
    && Allowed(k.network, Transports(r.protocols)) && Allowed(k.application, Applications(r.protocols))
    && Allowed(k.user, r.users) && Allowed(k.uid, r.packageUIDs) && Allowed(k.process, r.processNames)
  }

  predicate Matches(r: Rule, k: Packet) {
    OthersAllow(r, k) && AddressAllowed(k, r.domains, r.ips)
  }

  function FirstMatch(rules: seq<Rule>, k: Packet): Option<Rule> {
    if rules == [] then None
    else if Matches(rules[0], k) then Some(rules[0])
    else FirstMatch(rules[1..], k)
  }

  // The tests agree on the entries.
  ghost predicate SameOn(f: string -> bool, g: string -> bool, entries: seq<string>) {
    forall e | e in entries :: f(e) <==> g(e)
  }

  // The packets are alike in all the tests a rule makes, or in all but those on domains.
  ghost predicate OthersAlike(r: Rule, k: Packet, l: Packet) {
    && k.ipVersion == l.ipVersion
    && SameOn(k.ip, l.ip, r.ips) && SameOn(k.port, l.port, r.ports)
    && SameOn(k.network, l.network, Transports(r.protocols))
    && SameOn(k.application, l.application, Applications(r.protocols))
    && SameOn(k.user, l.user, r.users) && SameOn(k.uid, l.uid, r.packageUIDs)
    && SameOn(k.process, l.process, r.processNames) && SameOn(k.inbound, l.inbound, r.inboundTags)
  }

  ghost predicate Alike(r: Rule, k: Packet, l: Packet) {
    OthersAlike(r, k, l) && SameOn(k.domain, l.domain, r.domains)
  }

  lemma AnyAlike(f: string -> bool, g: string -> bool, entries: seq<string>)
    requires SameOn(f, g, entries)
    ensures Any(f, entries) <==> Any(g, entries)
  {}

  lemma OthersAllowAlike(r: Rule, k: Packet, l: Packet)
    requires OthersAlike(r, k, l)
    ensures OthersAllow(r, k) <==> OthersAllow(r, l)
  {
    AnyAlike(k.port, l.port, r.ports);
    AnyAlike(k.network, l.network, Transports(r.protocols));
    AnyAlike(k.application, l.application, Applications(r.protocols));
    AnyAlike(k.user, l.user, r.users);
    AnyAlike(k.uid, l.uid, r.packageUIDs);
    AnyAlike(k.process, l.process, r.processNames);
    AnyAlike(k.inbound, l.inbound, r.inboundTags);
  }

  lemma MatchesAlike(r: Rule, k: Packet, l: Packet)
    requires Alike(r, k, l)
    ensures Matches(r, k) <==> Matches(r, l)
  {
    OthersAllowAlike(r, k, l);
    AnyAlike(k.domain, l.domain, r.domains);
    AnyAlike(k.ip, l.ip, r.ips);
  }

  /** Only the tests on the entries of the rules matter. */
  lemma {:induction false} FirstMatchAlike(rules: seq<Rule>, k: Packet, l: Packet)
    requires forall r | r in rules :: Alike(r, k, l)
    ensures FirstMatch(rules, k) == FirstMatch(rules, l)
  {
    if rules != [] {
      assert rules[0] in rules && forall r | r in rules[1..] :: r in rules;
      MatchesAlike(rules[0], k, l);
      FirstMatchAlike(rules[1..], k, l);
    }
  }

  datatype Spec = Spec(defaultAction: Action, rules: seq<Rule>)

  // The outbound tag of the rule that decides; none when the default applies.
  datatype Outcome = Decided(action: Action, tag: string) | Default(action: Action)

  function Verdict(spec: Spec, k: Packet): Outcome {
    match FirstMatch(spec.rules, k)
    case Some(r) => Decided(r.action, r.outboundTag)
    case None => Default(spec.defaultAction)
  }

  lemma {:induction false} FirstMatchOfConcat(a: seq<Rule>, b: seq<Rule>, k: Packet)
    ensures FirstMatch(a + b, k) == if FirstMatch(a, k).Some? then FirstMatch(a, k) else FirstMatch(b, k)
  {
    if a == [] {
      assert a + b == b;
    } else {
      FirstMatchOfConcat(a[1..], b, k);
      assert (a + b)[1..] == a[1..] + b;
    }
  }
}
