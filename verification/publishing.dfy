/** Who may reach the published ports: the verdict of the generated port rules on
    every packet, in terms of the policy. */
module Publishing {
  import opened Nft
  import opened Names
  import opened Chains
  import opened Compiler
  import opened Config
  import opened Wrappers
  import opened Policy
  import opened Traffic
  import opened Scope
  import opened Generate
  import opened Outputs
  import opened Ports

  // ----- the first description that decides -----

  function Else(a: Outcome, b: Outcome): Outcome { if a.Ended? then b else a }

  /** The first outcome that is a decision. */
  function FirstOf(os: seq<Outcome>): Outcome
  {
    if os == [] then Ended else Else(FirstOf(os[..|os| - 1]), os[|os| - 1])
  }

  lemma {:induction false} FirstOfContents(os: seq<Outcome>)
    ensures FirstOf(os).Ended? <==> forall i :: 0 <= i < |os| ==> os[i].Ended?
    ensures !FirstOf(os).Ended? ==>
              exists i :: 0 <= i < |os| && os[i] == FirstOf(os) && forall j :: 0 <= j < i ==> os[j].Ended?
  {
    if os != [] {
      var n := |os| - 1;
      FirstOfContents(os[..n]);
      if FirstOf(os[..n]).Ended? {
        assert forall j :: 0 <= j < n ==> os[j] == os[..n][j];
      } else {
        var i :| 0 <= i < n && os[..n][i] == FirstOf(os) && forall j :: 0 <= j < i ==> os[..n][j].Ended?;
        assert os[i] == os[..n][i] && forall j :: 0 <= j < i ==> os[j] == os[..n][j];
      }
    }
  }

  function OutcomeOf(rd: RuleDetails): Outcome { if rd.cfg.verdict.drop then Dropped else Returned }

  ghost predicate DecidedBy(rd: RuleDetails, c: string, p: Packet)
  {
    (c == rd.chain && DecidesForward(rd, p)) || (c == ReplyChain(rd) && DecidesReply(rd, p))
  }

  ghost function VerdictOf(rd: RuleDetails, c: string, p: Packet): Outcome
  {
    if DecidedBy(rd, c, p) then OutcomeOf(rd) else Ended
  }

  ghost function ListVerdict(rds: seq<RuleDetails>, c: string, p: Packet): Outcome
  {
    if rds == [] then Ended else Else(ListVerdict(rds[..|rds| - 1], c, p), VerdictOf(rds[|rds| - 1], c, p))
  }

  lemma {:induction false} ListVerdictAppend(a: seq<RuleDetails>, b: seq<RuleDetails>, c: string, p: Packet)
    ensures ListVerdict(a + b, c, p) == Else(ListVerdict(a, c, p), ListVerdict(b, c, p))
  {
    if b == [] {
      assert a + b == a;
    } else {
      var n := |b| - 1;
      ListVerdictAppend(a, b[..n], c, p);
      assert (a + b)[..|a + b| - 1] == a + b[..n];
    }
  }

  lemma {:induction false} FirstVerdictAppend(a: seq<Rule>, b: seq<Rule>, p: Packet, am: AddrMap)
    ensures FirstVerdict(a + b, p, am) == Else(FirstVerdict(a, p, am), FirstVerdict(b, p, am))
  {
    if a == [] {
      assert a + b == b;
    } else {
      FirstVerdictAppend(a[1..], b, p, am);
      assert (a + b)[1..] == a[1..] + b;
    }
  }

  lemma {:induction false} UniformVerdict(rules: seq<Rule>, drop: bool, p: Packet, am: AddrMap)
    requires forall r :: r in rules && RunRule(r, p, am).Decided? ==> RunRule(r, p, am).kind == if drop then VDrop else VReturn
    ensures FirstVerdict(rules, p, am) == if !SomeDecides(rules, p, am) then Ended else if drop then Dropped else Returned
  {
    if rules != [] {
      UniformVerdict(rules[1..], drop, p, am);
      assert rules[0] in rules;
      assert SomeDecides(rules, p, am) <==> RunRule(rules[0], p, am).Decided? || SomeDecides(rules[1..], p, am);
    }
  }

  lemma PortRuleDecides(id: string, rd: RuleDetails, c: string, p: Packet, am: AddrMap)
    requires ValidID(id) && PortRule(id, rd)
    ensures DecidedAs(rd, c, p, am)
  {
    if IsLocalhostDrop(id, rd) {
      var proto: Protocol, port: nat :| port <= MAX_PORT && rd == LocalhostDrop(MAIN, proto, port, id);
      LocalhostDropDrops(proto, port, id, c, p, am);
      LocalhostFields(proto, port, id, p);
    } else {
      DescriptionDecides(rd, c, p, am);
    }
  }

  lemma OneVerdict(id: string, rd: RuleDetails, c: string, p: Packet, am: AddrMap)
    requires ValidID(id) && PortRule(id, rd)
    ensures FirstVerdict(PlacedIn(RulesOf(rd), c), p, am) == VerdictOf(rd, c, p)
  {
    var rules := PlacedIn(RulesOf(rd), c);
    PlacedInContents(RulesOf(rd), c);
    PortRuleDecides(id, rd, c, p, am);
    UniformVerdict(rules, rd.cfg.verdict.drop, p, am);
    if r :| r in rules && RunRule(r, p, am).Decided? {
      assert Placed(c, r) in RulesOf(rd) && Placed(c, r).chain == c;
    }
    if Decides(RulesOf(rd), c, p, am) {
      var q :| q in RulesOf(rd) && q.chain == c && RunRule(q.rule, p, am).Decided?;
      assert q == Placed(c, q.rule);
    }
  }

  lemma {:induction false} PlacedPartsDecide(parts: seq<seq<Placed>>, os: seq<Outcome>, c: string, p: Packet, am: AddrMap)
    requires |os| == |parts| && forall i :: 0 <= i < |parts| ==> os[i] == FirstVerdict(PlacedIn(parts[i], c), p, am)
    ensures FirstVerdict(PlacedIn(Concat(parts), c), p, am) == FirstOf(os)
  {
    if parts != [] {
      var n := |parts| - 1;
      PlacedPartsDecide(parts[..n], os[..n], c, p, am);
      PlacedInAppend(Concat(parts[..n]), parts[n], c);
      FirstVerdictAppend(PlacedIn(Concat(parts[..n]), c), PlacedIn(parts[n], c), p, am);
    }
  }

  lemma {:induction false} ListVerdictIsFirst(rds: seq<RuleDetails>, os: seq<Outcome>, c: string, p: Packet)
    requires |os| == |rds| && forall i :: 0 <= i < |rds| ==> os[i] == VerdictOf(rds[i], c, p)
    ensures ListVerdict(rds, c, p) == FirstOf(os)
  {
    if rds != [] { ListVerdictIsFirst(rds[..|rds| - 1], os[..|rds| - 1], c, p); }
  }

  /** What a list of port rules does to a packet in a chain. */
  lemma PortRulesDecide(id: string, rds: seq<RuleDetails>, c: string, p: Packet, am: AddrMap)
    requires ValidID(id) && forall i :: 0 <= i < |rds| ==> PortRule(id, rds[i])
    ensures FirstVerdict(PlacedIn(Compiled(rds), c), p, am) == ListVerdict(rds, c, p)
  {
    var os := seq(|rds|, i requires 0 <= i < |rds| => VerdictOf(rds[i], c, p));
    forall i | 0 <= i < |rds| ensures os[i] == FirstVerdict(PlacedIn(Map(RulesOf, rds)[i], c), p, am) { OneVerdict(id, rds[i], c, p, am); }
    PlacedPartsDecide(Map(RulesOf, rds), os, c, p, am);
    ListVerdictIsFirst(rds, os, c, p);
  }

  // ----- the policy -----

  /** The protocols that ports are published for. */
  predicate OverTcpOrUdp(proto: string, p: Packet)
  {
    (proto == "tcp" && p.l4proto == 6) || (proto == "udp" && p.l4proto == 17)
  }

  /** To this port of this address. */
  predicate Inward(own: nat, proto: string, num: nat, p: Packet)
  {
    DstAddr(p) == Some(own) && OverTcpOrUdp(proto, p) && DstPort(p) == Some(num)
  }

  /** From it. */
  predicate Outward(own: nat, proto: string, num: nat, p: Packet)
  {
    SrcAddr(p) == Some(own) && OverTcpOrUdp(proto, p) && SrcPort(p) == Some(num)
  }

  ghost predicate PeerAllowed(ips: Option<seq<AddrOrRange>>, x: Option<nat>)
  {
    ips.None? || ips.value == [] || AddrIn(ips.value, x)
  }

  /** The host can reach the port on one of its own addresses. */
  predicate LocallyBound(port: PublishedPort)
  {
    exists i :: 0 <= i < |port.hostPorts| && OnHost(port.hostPorts[i].ip)
  }

  /** What comes from the host itself arrives from the gateway. */
  predicate IsGateway(m: PortPolicy, net: string, x: Option<nat>)
  {
    && net in m.self.networks && m.self.networks[net].Some? && m.self.networks[net].value.gateway.V4?
    && x == Some(m.self.networks[net].value.gateway.addr)
  }

  /** A peer may use a published port if external access is allowed for it, or if it
      is the host and local access is allowed. */
  ghost predicate Grants(m: PortPolicy, net: string, port: PublishedPort, x: Option<nat>)
  {
    || (m.external.allow && port.hostPorts != [] && PeerAllowed(m.external.ips, x))
    || (m.localhost.allow && LocallyBound(port) && IsGateway(m, net, x))
  }

  /** The host is turned away if local access is not allowed. */
  predicate Bars(m: PortPolicy, net: string, port: PublishedPort, x: Option<nat>)
  {
    !m.localhost.allow && LocallyBound(port) && IsGateway(m, net, x)
  }

  /** The policy on one packet, for one port on one network. */
  ghost function PortDecision(m: PortPolicy, net: string, port: PublishedPort, p: Packet): Outcome
  {
    if !HasV4(m.self.networks, net) then Ended
    else
      var own, proto := m.self.networks[net].value.ip.addr, port.proto;
      if p.ct.CtNew? && Inward(own, proto, port.num, p) then
        (if Bars(m, net, port, SrcAddr(p)) then Dropped else if Grants(m, net, port, SrcAddr(p)) then Returned else Ended)
      else if Ongoing(p) && (|| (Inward(own, proto, port.num, p) && Grants(m, net, port, SrcAddr(p)))
                             || (Outward(own, proto, port.num, p) && Grants(m, net, port, DstAddr(p)))) then Returned
      else Ended
  }

  // ----- one inbound description -----

  /** The packets of an inbound description of this port and these peers. */
  ghost predicate Concerned(own: nat, proto: string, num: nat, ips: Option<seq<AddrOrRange>>, drop: bool, p: Packet)
  {
    || ((p.ct.CtNew? || (Ongoing(p) && !drop)) && Inward(own, proto, num, p) && PeerAllowed(ips, SrcAddr(p)))
    || (Ongoing(p) && !drop && Outward(own, proto, num, p) && PeerAllowed(ips, DstAddr(p)))
  }

  lemma OnePort(num: nat, x: Option<nat>)
    requires num != 0
    ensures PortIn([RulePorts(num, 0, 0)], x) <==> x == Some(num)
  {
    assert [RulePorts(num, 0, 0)][0] == RulePorts(num, 0, 0);
  }

  lemma InboundFields(m: PortPolicy, net: string, a: Access, ips: Option<seq<AddrOrRange>>, proto: Protocol, text: string, num: nat,
                      drop: bool, p: Packet)
    requires HasV4(m.self.networks, net) && num != 0 && ParseProtocol(text) == Some(proto)
    ensures var rd, own := Inbound(m, net, a, ips, proto, num, drop), m.self.networks[net].value.ip.addr;
            && (SentTo(rd.addr, rd.cfg, p) <==> Inward(own, text, num, p) && PeerAllowed(ips, SrcAddr(p)))
            && (ReturnedBy(rd.addr, rd.cfg, p) <==> Outward(own, text, num, p) && PeerAllowed(ips, DstAddr(p)))
  {
    var own := m.self.networks[net].value.ip.addr;
    KeyIsAddress(own, SrcAddr(p));
    KeyIsAddress(own, DstAddr(p));
    OnePort(num, DstPort(p));
    OnePort(num, SrcPort(p));
  }

  lemma InboundDecides(m: PortPolicy, net: string, a: Access, ips: Option<seq<AddrOrRange>>, proto: Protocol, text: string, num: nat,
                       drop: bool, p: Packet)
    requires HasV4(m.self.networks, net) && num != 0 && ParseProtocol(text) == Some(proto)
    ensures VerdictOf(Inbound(m, net, a, ips, proto, num, drop), ChainName(m.self.id), p) ==
            if !Concerned(m.self.networks[net].value.ip.addr, text, num, ips, drop, p) then Ended else if drop then Dropped else Returned
  {
    InboundFields(m, net, a, ips, proto, text, num, drop, p);
  }

  // ----- one port -----

  /** What the bindings that the host can reach contribute. */
  ghost function HostVerdict(m: PortPolicy, net: string, proto: string, num: nat, p: Packet): Outcome
    requires HasV4(m.self.networks, net)
  {
    var own, g := m.self.networks[net].value.ip.addr, GatewayOf(m, net);
    if g.None? || !NeedsGatewayRule(m) || !Concerned(own, proto, num, Some([Addr(g.value)]), !m.localhost.allow, p) then Ended
    else if m.localhost.allow then Returned else Dropped
  }

  lemma SingleVerdict(rd: RuleDetails, c: string, p: Packet)
    ensures ListVerdict([rd], c, p) == VerdictOf(rd, c, p)
  {
    assert [rd][..0] == [];
  }

  lemma BindingVerdict(m: PortPolicy, net: string, proto: Protocol, text: string, num: nat, hp: HostPort, p: Packet)
    requires HasV4(m.self.networks, net) && num != 0 && ParseProtocol(text) == Some(proto) && BindingRules(m, net, proto, num, hp).Some?
    ensures ListVerdict(BindingRules(m, net, proto, num, hp).value, ChainName(m.self.id), p) ==
            if OnHost(hp.ip) then HostVerdict(m, net, text, num, p) else Ended
  {
    var c, g := ChainName(m.self.id), GatewayOf(m, net);
    if ReachableLocally(hp.ip) {
      var first := if g.Some? && NeedsGatewayRule(m)
                   then [Inbound(m, net, m.localhost, Some([Addr(g.value)]), proto, num, !m.localhost.allow)] else [];
      if first != [] {
        InboundDecides(m, net, m.localhost, Some([Addr(g.value)]), proto, text, num, !m.localhost.allow, p);
        SingleVerdict(first[0], c, p);
      }
      if DropsLocalhost(m, net) {
        var last := LocalhostDrop(MAIN, proto, ParseUint16(hp.port).value, m.self.id);
        ChainNameDeterminesID(MAIN, m.self.id);
        SingleVerdict(last, c, p);
        ListVerdictAppend(first, [last], c, p);
      }
    }
  }

  /** The verdict of all parts is the first verdict of a part. */
  lemma {:induction false} PartsVerdict(parts: seq<Option<seq<RuleDetails>>>, os: seq<Outcome>, c: string, p: Packet)
    requires ConcatAll(parts).Some? && |os| == |parts|
    requires forall i :: 0 <= i < |parts| && parts[i].Some? ==> os[i] == ListVerdict(parts[i].value, c, p)
    ensures ListVerdict(ConcatAll(parts).value, c, p) == FirstOf(os)
  {
    if parts != [] {
      var n := |parts| - 1;
      PartsVerdict(parts[..n], os[..n], c, p);
      ListVerdictAppend(ConcatAll(parts[..n]).value, parts[n].value, c, p);
    }
  }

  lemma BindingsVerdict(m: PortPolicy, net: string, proto: Protocol, port: PublishedPort, p: Packet)
    requires HasV4(m.self.networks, net) && port.num != 0 && ParseProtocol(port.proto) == Some(proto) && ConcatAll(BindingParts(m, net, proto, port)).Some?
    ensures ListVerdict(ConcatAll(BindingParts(m, net, proto, port)).value, ChainName(m.self.id), p) ==
            if LocallyBound(port) then HostVerdict(m, net, port.proto, port.num, p) else Ended
  {
    var parts, host := BindingParts(m, net, proto, port), HostVerdict(m, net, port.proto, port.num, p);
    var os := seq(|parts|, i requires 0 <= i < |parts| => if OnHost(port.hostPorts[i].ip) then host else Ended);
    forall i | 0 <= i < |parts| && parts[i].Some? ensures os[i] == ListVerdict(parts[i].value, ChainName(m.self.id), p) {
      BindingVerdict(m, net, proto, port.proto, port.num, port.hostPorts[i], p);
    }
    PartsVerdict(parts, os, ChainName(m.self.id), p);
    FirstOfContents(os);
    if LocallyBound(port) && !host.Ended? {
      var i :| 0 <= i < |port.hostPorts| && OnHost(port.hostPorts[i].ip);
      assert os[i] == host;
    }
  }

  /** What external access contributes. */
  ghost function OutsideVerdict(m: PortPolicy, net: string, port: PublishedPort, p: Packet): Outcome
    requires HasV4(m.self.networks, net)
  {
    if m.external.allow && port.hostPorts != []
       && Concerned(m.self.networks[net].value.ip.addr, port.proto, port.num, m.external.ips, false, p) then Returned else Ended
  }

  lemma ExternalVerdict(m: PortPolicy, net: string, proto: Protocol, port: PublishedPort, p: Packet)
    requires ProperPorts(m) && HasV4(m.self.networks, net) && port.num != 0 && ParseProtocol(port.proto) == Some(proto)
    ensures ListVerdict(ExternalRules(m, net, proto, port), ChainName(m.self.id), p) ==
            OutsideVerdict(m, net, port, p)
  {
    if ExternalRules(m, net, proto, port) != [] {
      InboundDecides(m, net, m.external, m.external.ips, proto, port.proto, port.num, false, p);
      SingleVerdict(ExternalRules(m, net, proto, port)[0], ChainName(m.self.id), p);
    }
  }

  lemma GatewayPeer(m: PortPolicy, net: string, x: Option<nat>)
    requires GatewayOf(m, net).Some?
    ensures PeerAllowed(Some([Addr(GatewayOf(m, net).value)]), x) <==> IsGateway(m, net, x)
  {
    OnePeer(GatewayOf(m, net).value, x);
  }

  /** Where local access is denied, the host meets the drop before anything else. */
  lemma DeniedDecision(m: PortPolicy, net: string, port: PublishedPort, p: Packet)
    requires HasV4(m.self.networks, net) && !m.localhost.allow
    ensures Else(if LocallyBound(port) then HostVerdict(m, net, port.proto, port.num, p) else Ended, OutsideVerdict(m, net, port, p))
            == PortDecision(m, net, port, p)
  {
    if GatewayOf(m, net).Some? { GatewayPeer(m, net, SrcAddr(p)); }
  }

  /** Where it is allowed, the rule for the gateway is left out only if external
      access covers the gateway as well. */
  lemma AllowedDecision(m: PortPolicy, net: string, port: PublishedPort, p: Packet)
    requires HasV4(m.self.networks, net) && m.localhost.allow
    ensures Else(if LocallyBound(port) then HostVerdict(m, net, port.proto, port.num, p) else Ended, OutsideVerdict(m, net, port, p))
            == PortDecision(m, net, port, p)
  {
    if GatewayOf(m, net).Some? {
      GatewayPeer(m, net, SrcAddr(p));
      GatewayPeer(m, net, DstAddr(p));
    }
  }

  lemma PortVerdict(m: PortPolicy, net: string, port: PublishedPort, p: Packet)
    requires ProperPorts(m) && HasV4(m.self.networks, net) && port.num != 0 && RulesForPort(m, net, port).Some?
    ensures ListVerdict(RulesForPort(m, net, port).value, ChainName(m.self.id), p) == PortDecision(m, net, port, p)
  {
    var proto := ParseProtocol(port.proto).value;
    BindingsVerdict(m, net, proto, port, p);
    ExternalVerdict(m, net, proto, port, p);
    ListVerdictAppend(ConcatAll(BindingParts(m, net, proto, port)).value, ExternalRules(m, net, proto, port), ChainName(m.self.id), p);
    if m.localhost.allow { AllowedDecision(m, net, port, p); } else { DeniedDecision(m, net, port, p); }
  }

  // ----- all published ports -----

  ghost function PortDecisions(m: PortPolicy, net: string, p: Packet): (os: seq<Outcome>)
    ensures |os| == |m.ports| && forall k :: 0 <= k < |os| ==> os[k] == PortDecision(m, net, m.ports[k], p)
  {
    seq(|m.ports|, k requires 0 <= k < |m.ports| => PortDecision(m, net, m.ports[k], p))
  }

  ghost function NetDecision(m: PortPolicy, net: string, p: Packet): Outcome
  {
    FirstOf(PortDecisions(m, net, p))
  }

  ghost function NetDecisions(m: PortPolicy, p: Packet): (os: seq<Outcome>)
    ensures |os| == |m.nets| && forall i :: 0 <= i < |os| ==> os[i] == NetDecision(m, m.nets[i], p)
  {
    seq(|m.nets|, i requires 0 <= i < |m.nets| => NetDecision(m, m.nets[i], p))
  }

  ghost function PolicyDecision(m: PortPolicy, p: Packet): Outcome
  {
    FirstOf(NetDecisions(m, p))
  }

  lemma NetVerdict(m: PortPolicy, net: string, p: Packet)
    requires ProperPorts(m) && HasV4(m.self.networks, net) && ConcatAll(PortParts(m, net)).Some?
    ensures ListVerdict(ConcatAll(PortParts(m, net)).value, ChainName(m.self.id), p) == NetDecision(m, net, p)
  {
    var parts := PortParts(m, net);
    var os := PortDecisions(m, net, p);
    forall i | 0 <= i < |parts| && parts[i].Some? ensures os[i] == ListVerdict(parts[i].value, ChainName(m.self.id), p) {
      PortVerdict(m, net, m.ports[i], p);
    }
    PartsVerdict(parts, os, ChainName(m.self.id), p);
  }

  lemma NothingIsDecided(m: PortPolicy, p: Packet)
    requires NothingPublished(m.ports)
    ensures PolicyDecision(m, p) == Ended
  {
    forall i | 0 <= i < |m.nets| ensures NetDecision(m, m.nets[i], p) == Ended {
      FirstOfContents(PortDecisions(m, m.nets[i], p));
    }
    FirstOfContents(NetDecisions(m, p));
  }

  lemma MappingVerdict(m: PortPolicy, p: Packet)
    requires ProperPorts(m) && MappingRules(m).Some? && forall i :: 0 <= i < |m.nets| ==> HasV4(m.self.networks, m.nets[i])
    ensures ListVerdict(MappingRules(m).value, ChainName(m.self.id), p) == PolicyDecision(m, p)
  {
    if NothingPublished(m.ports) {
      NothingIsDecided(m, p);
    } else {
      var parts := NetworkParts(m);
      var os := NetDecisions(m, p);
      forall i | 0 <= i < |parts| && parts[i].Some? ensures os[i] == ListVerdict(parts[i].value, ChainName(m.self.id), p) {
        NetVerdict(m, m.nets[i], p);
      }
      PartsVerdict(parts, os, ChainName(m.self.id), p);
    }
  }

  /** The networks whose addresses published ports are reached at, in their order. */
  function RoutedNets(self: Self, pub: Publication): seq<string>
  {
    if !NothingPublished(pub.ports) && ChosenNets(pub, self.networks).Some? then ChosenNets(pub, self.networks).value else []
  }

  /** Port by port on one network after the other, the generated port rules decide
      every packet as the policy says: the host is turned away where local access is
      denied, else let in whoever has access, and answers go back. */
  lemma PublishedVerdict(self: Self, pub: Publication, p: Packet, am: AddrMap)
    requires ValidID(self.id) && AllV4(self.networks) && PublishedRules(self, pub).Some?
    ensures FirstVerdict(PlacedIn(Compiled(PublishedRules(self, pub).value), ChainName(self.id)), p, am)
            == PolicyDecision(PolicyOn(self, pub, RoutedNets(self, pub)), p)
  {
    PublishedArePortRules(self, pub);
    PortRulesDecide(self.id, PublishedRules(self, pub).value, ChainName(self.id), p, am);
    var m := PolicyOn(self, pub, RoutedNets(self, pub));
    ProperPolicyOn(self, pub, m.nets);
    MappingVerdict(m, p);
  }

  /** A packet is let in, or turned away, for some port on some network; and it is
      not decided only if no port decides it. */
  lemma DecidedForSomePort(m: PortPolicy, p: Packet)
    ensures PolicyDecision(m, p).Ended? <==>
              forall i, k :: 0 <= i < |m.nets| && 0 <= k < |m.ports| ==> PortDecision(m, m.nets[i], m.ports[k], p).Ended?
    ensures !PolicyDecision(m, p).Ended? ==>
              exists i, k :: 0 <= i < |m.nets| && 0 <= k < |m.ports| && PortDecision(m, m.nets[i], m.ports[k], p) == PolicyDecision(m, p)
  {
    var os := NetDecisions(m, p);
    FirstOfContents(os);
    forall i | 0 <= i < |m.nets| ensures os[i] == FirstOf(PortDecisions(m, m.nets[i], p)) { }
    forall i | 0 <= i < |m.nets|
      ensures FirstOf(PortDecisions(m, m.nets[i], p)).Ended? <==> forall k :: 0 <= k < |m.ports| ==> PortDecision(m, m.nets[i], m.ports[k], p).Ended?
    {
      var ks := PortDecisions(m, m.nets[i], p);
      FirstOfContents(ks);
      assert forall k :: 0 <= k < |ks| ==> ks[k] == PortDecision(m, m.nets[i], m.ports[k], p);
    }
    if !PolicyDecision(m, p).Ended? {
      var i :| 0 <= i < |os| && os[i] == PolicyDecision(m, p);
      var ks := PortDecisions(m, m.nets[i], p);
      FirstOfContents(ks);
      var k :| 0 <= k < |ks| && ks[k] == FirstOf(ks);
      assert PortDecision(m, m.nets[i], m.ports[k], p) == PolicyDecision(m, p);
    }
  }

  // ----- localhost, in the main chain -----

  /** Local access to this host port is denied, and Docker would serve it. */
  ghost predicate KeptOut(self: Self, pub: Publication, proto: Protocol, hostPort: nat)
  {
    !pub.localhost.allow && ServedLocally(self, pub, proto, hostPort)
  }

  ghost predicate IsDropFor(id: string, rd: RuleDetails, proto: Protocol, hostPort: nat, p: Packet)
  {
    hostPort <= MAX_PORT && rd == LocalhostDrop(MAIN, proto, hostPort, id) && FromLocalhost(proto, hostPort, p)
  }

  lemma OnlyDropsInMain(id: string, rd: RuleDetails, p: Packet, am: AddrMap) returns (proto: Protocol, hostPort: nat)
    requires ValidID(id) && PortRule(id, rd) && Decides(RulesOf(rd), MAIN, p, am)
    ensures IsDropFor(id, rd, proto, hostPort, p)
  {
    ChainNameDeterminesID(MAIN, id);
    PortRuleDecides(id, rd, MAIN, p, am);
    proto, hostPort :| hostPort <= MAX_PORT && rd == LocalhostDrop(MAIN, proto, hostPort, id);
    LocalhostDropDrops(proto, hostPort, id, MAIN, p, am);
  }

  lemma DroppedIsKeptOut(self: Self, pub: Publication, p: Packet, am: AddrMap) returns (proto: Protocol, hostPort: nat)
    requires ValidID(self.id) && PublishedRules(self, pub).Some? && Decides(Compiled(PublishedRules(self, pub).value), MAIN, p, am)
    ensures KeptOut(self, pub, proto, hostPort) && FromLocalhost(proto, hostPort, p)
  {
    var rds := PublishedRules(self, pub).value;
    CompiledDecides(rds, MAIN, p, am);
    PublishedArePortRules(self, pub);
    var rd :| rd in rds && Decides(RulesOf(rd), MAIN, p, am);
    proto, hostPort := OnlyDropsInMain(self.id, rd, p, am);
    PublishedDropsAreExact(self, pub, proto, hostPort);
  }

  lemma KeptOutIsDropped(self: Self, pub: Publication, proto: Protocol, hostPort: nat, p: Packet, am: AddrMap)
    requires ValidID(self.id) && PublishedRules(self, pub).Some? && KeptOut(self, pub, proto, hostPort) && FromLocalhost(proto, hostPort, p)
    ensures Decides(Compiled(PublishedRules(self, pub).value), MAIN, p, am)
  {
    PublishedDropsAreExact(self, pub, proto, hostPort);
    LocalhostDropDrops(proto, hostPort, self.id, MAIN, p, am);
    CompiledDecides(PublishedRules(self, pub).value, MAIN, p, am);
  }

  /** In the main chain the generated rules drop exactly the new connections from
      127.0.0.1 to a host port that is to be kept from the host. */
  lemma LocalhostIsKeptOut(self: Self, pub: Publication, p: Packet, am: AddrMap)
    requires ValidID(self.id) && PublishedRules(self, pub).Some?
    ensures Decides(Compiled(PublishedRules(self, pub).value), MAIN, p, am) <==>
              exists proto: Protocol, hostPort: nat :: KeptOut(self, pub, proto, hostPort) && FromLocalhost(proto, hostPort, p)
  {
    if Decides(Compiled(PublishedRules(self, pub).value), MAIN, p, am) { var proto, hostPort := DroppedIsKeptOut(self, pub, p, am); }
    if proto: Protocol, hostPort: nat :| KeptOut(self, pub, proto, hostPort) && FromLocalhost(proto, hostPort, p) {
      KeptOutIsDropped(self, pub, proto, hostPort, p, am);
    }
  }
}
