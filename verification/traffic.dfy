/** Which packets the rules of a description decide, in terms of header fields: the
    octets of addresses in the network header and of ports in the transport header. */
module Traffic {
  import opened Nft
  import opened Names
  import opened Bytes
  import opened Compiler
  import opened Config
  import opened Wrappers
  import opened Policy

  function SrcAddr(p: Packet): Option<nat> { Field(p, NetworkHeader, 12, 4) }
  function DstAddr(p: Packet): Option<nat> { Field(p, NetworkHeader, 16, 4) }
  function SrcPort(p: Packet): Option<nat> { Field(p, TransportHeader, 0, 2) }
  function DstPort(p: Packet): Option<nat> { Field(p, TransportHeader, 2, 2) }

  predicate Ongoing(p: Packet) { p.ct.CtEstablished? || p.ct.CtRelated? }

  predicate OnProtocol(proto: Protocol, p: Packet)
  {
    (proto.Tcp? ==> p.l4proto == 6) && (proto.Udp? ==> p.l4proto == 17)
  }

  ghost predicate ToPorts(r: RuleConfig, from: Option<nat>, to: Option<nat>)
  {
    (r.srcPorts != [] ==> PortIn(r.srcPorts, from)) && (r.dstPorts != [] ==> PortIn(r.dstPorts, to))
  }

  ghost predicate IsPeer(r: RuleConfig, x: Option<nat>) { Ips(r) != [] ==> AddrIn(Ips(r), x) }

  predicate IsOwn(addr: seq<byte>, x: Option<nat>) { addr != [] ==> x == Some(Val(addr)) }

  /** Sent from the own address to a peer of the rule, between its ports. */
  ghost predicate SentBy(addr: seq<byte>, r: RuleConfig, p: Packet)
  {
    && IsOwn(addr, SrcAddr(p)) && IsPeer(r, DstAddr(p))
    && OnProtocol(r.proto, p) && ToPorts(r, SrcPort(p), DstPort(p))
  }

  /** Sent to the own address by a peer. */
  ghost predicate SentTo(addr: seq<byte>, r: RuleConfig, p: Packet)
  {
    && IsOwn(addr, DstAddr(p)) && IsPeer(r, SrcAddr(p))
    && OnProtocol(r.proto, p) && ToPorts(r, SrcPort(p), DstPort(p))
  }

  /** The way back of what the own address sent. */
  ghost predicate ReturnedTo(addr: seq<byte>, r: RuleConfig, p: Packet)
  {
    && IsOwn(addr, DstAddr(p)) && IsPeer(r, SrcAddr(p))
    && OnProtocol(r.proto, p) && ToPorts(r, DstPort(p), SrcPort(p))
  }

  /** The way back of what was sent to the own address. */
  ghost predicate ReturnedBy(addr: seq<byte>, r: RuleConfig, p: Packet)
  {
    && IsOwn(addr, SrcAddr(p)) && IsPeer(r, DstAddr(p))
    && OnProtocol(r.proto, p) && ToPorts(r, DstPort(p), SrcPort(p))
  }

  /** Some rule among these in chain `c` decides the packet. */
  ghost predicate Decides(rules: seq<Placed>, c: string, p: Packet, m: AddrMap)
  {
    exists q :: q in rules && q.chain == c && RunRule(q.rule, p, m).Decided?
  }

  ghost predicate Carried(inbound: bool, inverse: bool, addr: seq<byte>, cfg: RuleConfig, p: Packet)
  {
    if inverse then (if inbound then ReturnedTo(addr, cfg, p) else ReturnedBy(addr, cfg, p))
    else (if inbound then SentTo(addr, cfg, p) else SentBy(addr, cfg, p))
  }

  lemma FieldsMatch(inbound: bool, inverse: bool, addr: seq<byte>, cfg: RuleConfig, p: Packet)
    ensures Matches(inbound, inverse, addr, cfg, p) <==> Carried(inbound, inverse, addr, cfg, p)
  {
  }

  /** The one rule decides exactly these packets. */
  lemma RuleDecides(inbound: bool, inverse: bool, state: byte, addr: seq<byte>, cfg: RuleConfig, tag: string, p: Packet, m: AddrMap)
    requires ValidAddrBytes(addr) && ValidParts(cfg) && PlainVerdict(cfg.verdict) && KnownState(state)
    ensures CreateNFTRule(inbound, inverse, state, addr, cfg, 0, tag).Some?
    ensures var run := RunRule(CreateNFTRule(inbound, inverse, state, addr, cfg, 0, tag).value, p, m);
            && (run.Decided? <==> StateMatches(state, p.ct) && Carried(inbound, inverse, addr, cfg, p))
            && (run.Decided? ==> run.kind == if cfg.verdict.drop then VDrop else VReturn)
  {
    FieldsMatch(inbound, inverse, addr, cfg, p);
    CompiledRuleMeansConfig(inbound, inverse, state, addr, cfg, tag, p, m);
  }

  ghost predicate IsMeant(rd: RuleDetails, p: Packet)
  {
    if rd.inbound then SentTo(rd.addr, rd.cfg, p) else SentBy(rd.addr, rd.cfg, p)
  }

  /** What the forward rules of a description decide, and what its reply rule does. */
  ghost predicate DecidesForward(rd: RuleDetails, p: Packet)
  {
    (p.ct.CtNew? || (Ongoing(p) && !rd.cfg.verdict.drop)) && IsMeant(rd, p)
  }

  ghost predicate DecidesReply(rd: RuleDetails, p: Packet)
  {
    && Ongoing(p) && !rd.cfg.verdict.drop
    && if rd.inbound then ReturnedBy(rd.addr, rd.cfg, p) else ReturnedTo(rd.addr, rd.cfg, p)
  }

  ghost predicate InChain(q: Placed, c: string, p: Packet, m: AddrMap)
  {
    q.chain == c && RunRule(q.rule, p, m).Decided?
  }

  lemma ListDecides(rules: seq<Placed>, c: string, p: Packet, m: AddrMap)
    requires 1 <= |rules| <= 3
    ensures Decides(rules, c, p, m) <==>
              InChain(rules[0], c, p, m) || (|rules| > 1 && InChain(rules[1], c, p, m)) || (|rules| > 2 && InChain(rules[2], c, p, m))
    ensures forall q :: q in rules ==> q == rules[0] || (|rules| > 1 && q == rules[1]) || (|rules| > 2 && q == rules[2])
  {
    if q :| q in rules && q.chain == c && RunRule(q.rule, p, m).Decided? {
      var i :| 0 <= i < |rules| && rules[i] == q;
    }
  }

  lemma ForwardDecides(rd: RuleDetails, state: byte, p: Packet, m: AddrMap)
    requires ValidDetails(rd) && KnownState(state)
    ensures ForwardRule(rd, state).Some?
    ensures var run := RunRule(ForwardRule(rd, state).value, p, m);
            && (run.Decided? <==> StateMatches(state, p.ct) && IsMeant(rd, p))
            && (run.Decided? ==> run.kind == if rd.cfg.verdict.drop then VDrop else VReturn)
  {
    RuleDecides(rd.inbound, false, state, rd.addr, rd.cfg, rd.contID, p, m);
  }

  lemma ReplyDecides(rd: RuleDetails, p: Packet, m: AddrMap)
    requires ValidDetails(rd) && !rd.cfg.verdict.drop
    ensures ReplyRule(rd).Some?
    ensures var run := RunRule(ReplyRule(rd).value, p, m); (run.Decided? <==> DecidesReply(rd, p)) && (run.Decided? ==> run.kind == VReturn)
  {
    RuleDecides(!rd.inbound, true, STATE_EST, rd.addr, rd.cfg, ReplyTag(rd), p, m);
  }

  ghost predicate DecidedAs(rd: RuleDetails, c: string, p: Packet, m: AddrMap)
  {
    && (Decides(RulesOf(rd), c, p, m) <==>
          (c == rd.chain && DecidesForward(rd, p)) || (c == ReplyChain(rd) && DecidesReply(rd, p)))
    && forall q :: q in RulesOf(rd) && RunRule(q.rule, p, m).Decided? ==>
         RunRule(q.rule, p, m).kind == if rd.cfg.verdict.drop then VDrop else VReturn
  }

  lemma DropDecides(rd: RuleDetails, c: string, p: Packet, m: AddrMap)
    requires ValidDetails(rd) && rd.cfg.verdict.drop
    ensures DecidedAs(rd, c, p, m)
  {
    ForwardDecides(rd, STATE_NEW, p, m);
    ListDecides(RulesOf(rd), c, p, m);
  }

  lemma AllowDecides(rd: RuleDetails, c: string, p: Packet, m: AddrMap)
    requires ValidDetails(rd) && !rd.cfg.verdict.drop && rd.cfg.logPrefix == ""
    ensures DecidedAs(rd, c, p, m)
  {
    ForwardDecides(rd, STATE_NEW_EST, p, m);
    ReplyDecides(rd, p, m);
    ListDecides(RulesOf(rd), c, p, m);
  }

  lemma LoggedDecides(rd: RuleDetails, c: string, p: Packet, m: AddrMap)
    requires ValidDetails(rd) && !rd.cfg.verdict.drop && rd.cfg.logPrefix != ""
    ensures DecidedAs(rd, c, p, m)
  {
    ForwardDecides(rd, STATE_NEW, p, m);
    ForwardDecides(rd, STATE_EST, p, m);
    ReplyDecides(rd, p, m);
    ListDecides(RulesOf(rd), c, p, m);
  }

  /** All rules of a description together: in its chain they decide the connections
      it speaks of, in the chain for replies their way back, and nothing else. */
  lemma DescriptionDecides(rd: RuleDetails, c: string, p: Packet, m: AddrMap)
    requires ValidDetails(rd)
    ensures DecidedAs(rd, c, p, m)
  {
    if rd.cfg.verdict.drop { DropDecides(rd, c, p, m); }
    else if rd.cfg.logPrefix == "" { AllowDecides(rd, c, p, m); }
    else { LoggedDecides(rd, c, p, m); }
  }

  // ----- the localhost drop -----

  lemma PortZeroGuard(cfg: RuleConfig, p: Packet, m: AddrMap)
    requires cfg.srcPorts == [] && cfg.dstPorts == [RulePorts(0, 0, 0)]
    ensures IsGuard(PortPart(false, cfg), p, m, PortsMatch(false, cfg, p))
  {
    WidthBound(MAX_PORT, 2);
    BigRoundTrip(0, 2);
    RangeGuard(TransportHeader, DST_PORT_OFFSET, Big(0, 2), Big(0, 2), p, m);
    assert PortPart(false, cfg) == [LoadPort(DST_PORT_OFFSET), Cmp(CmpGte, 1, Big(0, 2)), Cmp(CmpLte, 1, Big(0, 2))];
    assert cfg.dstPorts[0] == RulePorts(0, 0, 0);
  }

  /** Port 0 is not a valid port of a rule, but the drop of host port 0 means it. */
  lemma DropOfPortZero(proto: Protocol, id: string, p: Packet, m: AddrMap)
    ensures var rd := LocalhostDrop(MAIN, proto, 0, id);
            && ForwardRule(rd, STATE_NEW).Some?
            && RunRule(ForwardRule(rd, STATE_NEW).value, p, m) ==
               if Matches(true, false, [], rd.cfg, p) && p.ct.CtNew? then Decided(VDrop, "", p) else Broke(p)
  {
    var cfg := LocalhostDrop(MAIN, proto, 0, id).cfg;
    var portless := cfg.(dstPorts := []);
    assert Ips(portless) == Ips(cfg) == [Addr(LOCALHOST)];
    AddrPartGuard(true, [], portless, p, m);
    ProtoGuard(cfg, p, m);
    PortZeroGuard(cfg, p, m);
    StateGuard(STATE_NEW, p, m);
    LogGuard(STATE_NEW, cfg, p, m);
    FivePartRule(AddrPart(true, [], cfg).value, AddrsMatch(true, [], cfg, p), ProtoPart(cfg), ProtoMatches(cfg, p),
                 PortPart(false, cfg), PortsMatch(false, cfg, p), MatchStateExprs(STATE_NEW), StateMatches(STATE_NEW, p.ct),
                 LogPart(STATE_NEW, cfg), VerdictExpr(cfg, 0).kind, id, p, m);
  }

  /** A new connection from localhost to this host port. */
  predicate FromLocalhost(proto: Protocol, hostPort: nat, p: Packet)
  {
    p.ct.CtNew? && SrcAddr(p) == Some(0x7F00_0001) && OnProtocol(proto, p) && DstPort(p) == Some(hostPort)
  }

  lemma LocalhostFields(proto: Protocol, hostPort: nat, id: string, p: Packet)
    ensures var rd := LocalhostDrop(MAIN, proto, hostPort, id);
            SentTo([], rd.cfg, p) && p.ct.CtNew? <==> FromLocalhost(proto, hostPort, p)
  {
    var cfg := LocalhostDrop(MAIN, proto, hostPort, id).cfg;
    assert Ips(cfg)[0] == Addr(LOCALHOST) && cfg.dstPorts[0] == RulePorts(hostPort, 0, 0);
  }

  /** The localhost drop drops exactly the new connections from 127.0.0.1 to the host port. */
  lemma LocalhostDropDrops(proto: Protocol, hostPort: nat, id: string, c: string, p: Packet, m: AddrMap)
    requires hostPort <= MAX_PORT && id != ""
    ensures var rules := RulesOf(LocalhostDrop(MAIN, proto, hostPort, id));
            && (Decides(rules, c, p, m) <==> c == MAIN && FromLocalhost(proto, hostPort, p))
            && forall q :: q in rules && RunRule(q.rule, p, m).Decided? ==> RunRule(q.rule, p, m).kind == VDrop
  {
    var rd := LocalhostDrop(MAIN, proto, hostPort, id);
    LocalhostFields(proto, hostPort, id, p);
    if hostPort == 0 {
      DropOfPortZero(proto, id, p, m);
      FieldsMatch(true, false, [], rd.cfg, p);
      ListDecides(RulesOf(rd), c, p, m);
    } else {
      DescriptionDecides(rd, c, p, m);
    }
  }
}
