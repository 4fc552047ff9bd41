/** What is let through after any history, in terms of the configuration: the rules
    that containers list, the addresses Docker gave them, and the published ports. */
module Admission {
  import opened Nft
  import opened Names
  import opened Chains
  import opened Compiler
  import opened Config
  import opened Wrappers
  import opened Policy
  import opened Traffic
  import opened Scope
  import opened Store
  import opened Outputs
  import opened Publishing
  import opened Ports
  import opened Manager
  import opened Order
  import opened Independence
  import opened Canonical
  import opened Packets

  /** The address of a container on the network it knows by this name. */
  function AddressOf(w: World, id: string, network: string): Option<nat>
    requires id in w.conts
  {
    AddressOn(SelfOf(w.conts[id]).networks, w.conts[id].project, network)
  }

  // ----- own rules -----

  /** A rule that names no container, at the container's address on its network, or
      at any of its addresses. */
  ghost predicate OwnAdmits(w: World, id: string, r: RuleConfig, p: Packet)
    requires id in w.conts
  {
    exists n :: n in SelfOf(w.conts[id]).networks && OwnAdmitsOn(w, id, r, n, p)
  }

  ghost predicate OwnAdmitsOn(w: World, id: string, r: RuleConfig, n: string, p: Packet)
    requires id in w.conts
  {
    var S := SelfOf(w.conts[id]);
    && HasV4(S.networks, n) && (r.network == "" || FindNetwork(r.network, S.project, S.networks) == Some(n))
    && var a := Some(S.networks[n].value.ip.addr);
       || (&& (p.ct.CtNew? || Ongoing(p)) && SrcAddr(p) == a && IsPeer(r, DstAddr(p))
           && OnProtocol(r.proto, p) && ToPorts(r, SrcPort(p), DstPort(p)))
       || (&& Ongoing(p) && DstAddr(p) == a && IsPeer(r, SrcAddr(p))
           && OnProtocol(r.proto, p) && ToPorts(r, DstPort(p), SrcPort(p)))
  }

  lemma OwnRuleAdmits(w: World, id: string, r: RuleConfig, p: Packet)
    requires ValidWorld(w) && id in w.conts && r in RulesFor(w, id) && r.container == ""
    ensures RuleAdmits(SelfOf(w.conts[id]), Collected(SelfOf(w.conts[id]).networks), r, ChainName(id), p) <==> OwnAdmits(w, id, r, p)
  {
    var S := SelfOf(w.conts[id]);
    var addrs := Collected(S.networks);
    ManagedIsSelf(w, id);
    CollectedNames(S.networks, r.network, S.project);
    forall n | n in S.networks
      ensures HasV4(S.networks, n) && n in addrs
      ensures IsOwn(addrs[n], SrcAddr(p)) <==> SrcAddr(p) == Some(S.networks[n].value.ip.addr)
      ensures IsOwn(addrs[n], DstAddr(p)) <==> DstAddr(p) == Some(S.networks[n].value.ip.addr)
    {
      assert HasV4(S.networks, n) && addrs[n] == KeyOf(S.networks[n].value.ip.addr);
      KeyIsAddress(S.networks[n].value.ip.addr, SrcAddr(p));
      KeyIsAddress(S.networks[n].value.ip.addr, DstAddr(p));
    }
    forall n ensures (n in addrs <==> n in S.networks) && (IsFor(S, addrs, r, n) ==> n in S.networks) {}
  }

  lemma OwnDetailAdmits(w: World, id: string, p: Packet, m: AddrMap)
    requires ValidWorld(w) && id in w.conts
    ensures (exists rd :: OwnDetail(w, id, rd) && Decides(RulesOf(rd), ChainName(id), p, m)) <==>
            exists r :: r in RulesFor(w, id) && r.container == "" && OwnAdmits(w, id, r, p)
  {
    var S, c := SelfOf(w.conts[id]), ChainName(id);
    var addrs := Collected(S.networks);
    ManagedIsSelf(w, id);
    if rd :| OwnDetail(w, id, rd) && Decides(RulesOf(rd), c, p, m) {
      var r :| r in RulesFor(w, id) && OwnRule(S, r, rd);
      RuleOf(w, id, r);
      OutputDetailsAdmit(S, addrs, r, c, p, m);
      OwnRuleAdmits(w, id, r, p);
    }
    if r :| r in RulesFor(w, id) && r.container == "" && OwnAdmits(w, id, r, p) {
      RuleOf(w, id, r);
      OwnIsPossible(w, id, r);
      OwnRuleAdmits(w, id, r, p);
      OutputDetailsAdmit(S, addrs, r, c, p, m);
      var rd :| rd in OutputDetails(S, addrs, r).value && Decides(RulesOf(rd), c, p, m);
      assert OwnRule(S, r, rd) && OwnDetail(w, id, rd);
    }
  }

  lemma OwnIsPossible(w: World, id: string, r: RuleConfig)
    requires ValidWorld(w) && id in w.conts && r in RulesFor(w, id) && r.container == "" && OwnAdmitsSomewhere(w, id, r)
    ensures OutputDetails(SelfOf(w.conts[id]), Collected(SelfOf(w.conts[id]).networks), r).Some?
  {
    var S := SelfOf(w.conts[id]);
    ManagedIsSelf(w, id);
    CollectedNames(S.networks, r.network, S.project);
  }

  predicate OwnAdmitsSomewhere(w: World, id: string, r: RuleConfig)
    requires id in w.conts
  {
    r.network == "" || FindNetwork(r.network, SelfOf(w.conts[id]).project, SelfOf(w.conts[id]).networks).Some?
  }

  // ----- edges -----

  /** The rule finds its destination. */
  predicate FindsDestination(w: World, s: string, d: string, r: RuleConfig)
    requires s in w.conts
  {
    var dest := DestinationOf(w.now, SelfOf(w.conts[s]), r); dest.Chosen? && dest.cont.id == d
  }

  /** The destination takes up the row that the rule left. */
  ghost predicate TakesUp(w: World, s: string, d: string, r: RuleConfig)
    requires s in w.conts && d in w.conts
  {
    exists row :: row in RowsOf(w.now, SelfOf(w.conts[s]), r) && Aliased(SelfOf(w.conts[d]), row) && WaitOn(w.now, SelfOf(w.conts[d]), row).Edge?
  }

  /** The edge of a rule of `s` to `d`, as the later of the two sees it. */
  ghost predicate IsLinked(w: World, order: seq<string>, s: string, d: string, r: RuleConfig)
  {
    && s in w.conts && d in w.conts && r in RulesFor(w, s) && r.container != ""
    && ((Later(order, s, d) && FindsDestination(w, s, d, r)) || (Later(order, d, s) && TakesUp(w, s, d, r)))
  }

  ghost predicate LinkAdmits(w: World, s: string, d: string, r: RuleConfig, c: string, p: Packet)
    requires s in w.conts && d in w.conts
  {
    EdgeAdmits(s, AddressOf(w, s, r.network), d, AddressOf(w, d, r.network), r, c, p)
  }

  lemma FoundEdgeAdmits(w: World, s: string, d: string, r: RuleConfig, rd: RuleDetails, c: string, p: Packet, m: AddrMap)
    requires ValidWorld(w) && s in w.conts && d in w.conts && r in RulesFor(w, s) && EdgeRule(w.now, SelfOf(w.conts[s]), r, d, rd)
    ensures Decides(RulesOf(rd), c, p, m) <==> LinkAdmits(w, s, d, r, c, p)
  {
    var S := SelfOf(w.conts[s]);
    var dest := DestinationOf(w.now, S, r);
    RuleOf(w, s, r);
    ManagedIsSelf(w, s);
    ChosenFacts(w, S, r);
    SourceFacts(w, s, r);
    EdgeRuleIsEdge(w.now, S, r, d, rd);
    var a, b := AddressOf(w, s, r.network), AddressOf(w, d, r.network);
    assert HasV4(S.networks, SourceEndpoint(S, r).0) && a == Some(SourceEndpoint(S, r).1.value.ip.addr);
    assert b == Some(dest.endpoint.ip.addr);
    assert Ips(rd.cfg) == [Addr(b.value)];
    EdgeDecides(rd, s, a.value, d, b.value, c, p, m);
    SameTrafficAdmits(r, rd.cfg, s, a, d, b, c, p);
  }

  /** Only the protocol and the ports of an edge matter. */
  lemma SameTrafficAdmits(x: RuleConfig, y: RuleConfig, s: string, a: Option<nat>, d: string, b: Option<nat>, c: string, p: Packet)
    requires x.proto == y.proto && x.srcPorts == y.srcPorts && x.dstPorts == y.dstPorts
    ensures EdgeAdmits(s, a, d, b, x, c, p) <==> EdgeAdmits(s, a, d, b, y, c, p)
  {
  }

  lemma RowOfRule(w: World, s: string, r: RuleConfig, row: Waiting)
    requires ValidWorld(w) && s in w.conts && row in RowsOf(w.now, SelfOf(w.conts[s]), r)
    ensures row.src == s && row.rule.network == r.network
    ensures row.rule.proto == r.proto && row.rule.srcPorts == r.srcPorts && row.rule.dstPorts == r.dstPorts
    ensures !row.rule.verdict.drop && r.container != ""
  {
    ManagedIsSelf(w, s);
  }

  lemma TakenUpEdgeAdmits(w: World, s: string, d: string, r: RuleConfig, row: Waiting, c: string, p: Packet, m: AddrMap)
    requires ValidWorld(w) && s in w.conts && d in w.conts && row in RowsOf(w.now, SelfOf(w.conts[s]), r)
    requires WaitOn(w.now, SelfOf(w.conts[d]), row).Edge?
    ensures Decides(RulesOf(WaitOn(w.now, SelfOf(w.conts[d]), row).rd), c, p, m) <==> LinkAdmits(w, s, d, r, c, p)
  {
    RowOfRule(w, s, r, row);
    RowDecides(w.now, SelfOf(w.conts[d]), row, c, p, m);
    ManagedIsSelf(w, s);
    ManagedIsSelf(w, d);
    SameTrafficAdmits(r, row.rule, s, AddressOf(w, s, r.network), d, AddressOf(w, d, r.network), c, p);
  }

  /** Among the rules that the later of two containers installed, some decides the
      packet exactly if it belongs to an edge between them. */
  lemma LinksDecide(w: World, order: seq<string>, c: string, p: Packet, m: AddrMap)
    requires ValidWorld(w)
    ensures (exists x, y, rd :: Later(order, x, y) && Between(w, x, y, rd) && Decides(RulesOf(rd), c, p, m)) <==>
            exists s, d, r :: IsLinked(w, order, s, d, r) && LinkAdmits(w, s, d, r, c, p)
  {
    if x, y, rd :| Later(order, x, y) && Between(w, x, y, rd) && Decides(RulesOf(rd), c, p, m) {
      if OutDetail(w, x, y, rd) {
        var r :| r in RulesFor(w, x) && EdgeRule(w.now, SelfOf(w.conts[x]), r, y, rd);
        FoundEdgeAdmits(w, x, y, r, rd, c, p, m);
        assert IsLinked(w, order, x, y, r);
      } else {
        var row :| RowOf(w, y, row) && Aliased(SelfOf(w.conts[x]), row) && WaitOn(w.now, SelfOf(w.conts[x]), row) == Edge(rd);
        var r :| r in RulesFor(w, y) && row in RowsOf(w.now, SelfOf(w.conts[y]), r);
        TakenUpEdgeAdmits(w, y, x, r, row, c, p, m);
        assert TakesUp(w, y, x, r) && IsLinked(w, order, y, x, r);
      }
    }
    if s, d, r :| IsLinked(w, order, s, d, r) && LinkAdmits(w, s, d, r, c, p) {
      if Later(order, s, d) && FindsDestination(w, s, d, r) {
        var rd := FoundIsOut(w, s, d, r);
        FoundEdgeAdmits(w, s, d, r, rd, c, p, m);
        assert OutDetail(w, s, d, rd) && Between(w, s, d, rd);
      } else {
        var row :| row in RowsOf(w.now, SelfOf(w.conts[s]), r) && Aliased(SelfOf(w.conts[d]), row) && WaitOn(w.now, SelfOf(w.conts[d]), row).Edge?;
        TakenUpEdgeAdmits(w, s, d, r, row, c, p, m);
        var rd := WaitOn(w.now, SelfOf(w.conts[d]), row).rd;
        assert RowOf(w, s, row);
        assert InDetail(w, s, d, rd) && Between(w, d, s, rd);
      }
    }
  }

  lemma FoundIsOut(w: World, s: string, d: string, r: RuleConfig) returns (rd: RuleDetails)
    requires ValidWorld(w) && s in w.conts && d in w.conts && r in RulesFor(w, s) && r.container != "" && FindsDestination(w, s, d, r)
    ensures EdgeRule(w.now, SelfOf(w.conts[s]), r, d, rd)
  {
    var row;
    row, rd := ResolvedRowIsEdge(w, s, d, r);
  }

  // ----- the front of a chain -----

  ghost predicate FrontAdmits(w: World, order: seq<string>, id: string, p: Packet)
  {
    || (id in w.conts && exists r :: r in RulesFor(w, id) && r.container == "" && OwnAdmits(w, id, r, p))
    || exists s, d, r :: IsLinked(w, order, s, d, r) && LinkAdmits(w, s, d, r, ChainName(id), p)
  }

  lemma ContributedDecides(rd: RuleDetails, c: string, p: Packet, m: AddrMap)
    ensures Decides(RulesOf(rd), c, p, m) <==> exists r :: Contributes(rd, c, r) && RunRule(r, p, m).Decided?
  {
    forall q | q in RulesOf(rd) ensures RunRule(StripRule(q.rule), p, m) == RunRule(q.rule, p, m) { StrippedDecides(q.rule, p, m); }
    if q :| q in RulesOf(rd) && q.chain == c && RunRule(q.rule, p, m).Decided? {
      assert Contributes(rd, c, StripRule(q.rule));
    }
    if r :| Contributes(rd, c, r) && RunRule(r, p, m).Decided? {
      var q :| q in RulesOf(rd) && q.chain == c && StripRule(q.rule) == r;
    }
  }

  lemma StrippedDecides(x: Rule, p: Packet, m: AddrMap)
    ensures RunRule(StripRule(x), p, m) == RunRule(x, p, m)
  {
    StrippedRuns(x.exprs, map[], p, m);
  }

  lemma FrontRulesDecide(w: World, order: seq<string>, id: string, front: seq<Rule>, p: Packet, m: AddrMap)
    requires IsFront(w, order, id, front)
    ensures SomeDecides(front, p, m) <==> exists r :: FrontRule(w, order, ChainName(id), r) && RunRule(r, p, m).Decided?
  {
    if x :| x in front && RunRule(x, p, m).Decided? {
      StrippedDecides(x, p, m);
      assert Has(front, StripRule(x));
    }
    if r :| FrontRule(w, order, ChainName(id), r) && RunRule(r, p, m).Decided? {
      assert Has(front, r);
      var x :| x in front && StripRule(x) == r;
      StrippedDecides(x, p, m);
    }
  }

  ghost predicate SomeOwn(w: World, id: string, p: Packet, m: AddrMap)
  {
    exists rd :: OwnDetail(w, id, rd) && Decides(RulesOf(rd), ChainName(id), p, m)
  }

  ghost predicate SomeLink(w: World, order: seq<string>, c: string, p: Packet, m: AddrMap)
  {
    exists x, y, rd :: Later(order, x, y) && Between(w, x, y, rd) && Decides(RulesOf(rd), c, p, m)
  }

  lemma FrontNeedsDetail(w: World, order: seq<string>, id: string, r: Rule, p: Packet, m: AddrMap)
    requires ValidWorld(w) && id in Processed(order) && id in w.conts
    requires FrontRule(w, order, ChainName(id), r) && RunRule(r, p, m).Decided?
    ensures SomeOwn(w, id, p, m) || SomeLink(w, order, ChainName(id), p, m)
  {
    var c := ChainName(id);
    if OwnFront(w, Processed(order), c, r) {
      var u, rd :| u in Processed(order) && OwnDetail(w, u, rd) && Contributes(rd, c, r);
      OwnTags(w, u, rd, c, r);
      ManagedIsSelf(w, id);
      ChainNameInjective(u, id);
      ContributedDecides(rd, c, p, m);
    } else {
      var x, y :| Later(order, x, y) && BetweenRule(w, x, y, c, r);
      var rd :| Between(w, x, y, rd) && Contributes(rd, c, r);
      ContributedDecides(rd, c, p, m);
    }
  }

  lemma OwnIsInFront(w: World, order: seq<string>, id: string, p: Packet, m: AddrMap) returns (r: Rule)
    requires id in Processed(order) && SomeOwn(w, id, p, m)
    ensures FrontRule(w, order, ChainName(id), r) && RunRule(r, p, m).Decided?
  {
    var rd :| OwnDetail(w, id, rd) && Decides(RulesOf(rd), ChainName(id), p, m);
    ContributedDecides(rd, ChainName(id), p, m);
    r :| Contributes(rd, ChainName(id), r) && RunRule(r, p, m).Decided?;
    assert OwnFront(w, Processed(order), ChainName(id), r);
  }

  lemma LinkIsInFront(w: World, order: seq<string>, c: string, p: Packet, m: AddrMap) returns (r: Rule)
    requires SomeLink(w, order, c, p, m)
    ensures FrontRule(w, order, c, r) && RunRule(r, p, m).Decided?
  {
    var x, y, rd :| Later(order, x, y) && Between(w, x, y, rd) && Decides(RulesOf(rd), c, p, m);
    ContributedDecides(rd, c, p, m);
    r :| Contributes(rd, c, r) && RunRule(r, p, m).Decided?;
    assert BetweenRule(w, x, y, c, r);
  }

  lemma FrontByDetails(w: World, order: seq<string>, id: string, p: Packet, m: AddrMap)
    requires ValidWorld(w) && id in Processed(order) && id in w.conts
    ensures (exists r :: FrontRule(w, order, ChainName(id), r) && RunRule(r, p, m).Decided?) <==>
            SomeOwn(w, id, p, m) || SomeLink(w, order, ChainName(id), p, m)
  {
    if r :| FrontRule(w, order, ChainName(id), r) && RunRule(r, p, m).Decided? { FrontNeedsDetail(w, order, id, r, p, m); }
    if SomeOwn(w, id, p, m) { var r := OwnIsInFront(w, order, id, p, m); }
    if SomeLink(w, order, ChainName(id), p, m) { var r := LinkIsInFront(w, order, ChainName(id), p, m); }
  }

  lemma FrontDecides(w: World, order: seq<string>, id: string, front: seq<Rule>, p: Packet, m: AddrMap)
    requires ValidWorld(w) && id in Processed(order) && id in w.conts && IsFront(w, order, id, front)
    ensures SomeDecides(front, p, m) <==> FrontAdmits(w, order, id, p)
  {
    FrontRulesDecide(w, order, id, front, p, m);
    FrontByDetails(w, order, id, p, m);
    OwnDetailAdmits(w, id, p, m);
    LinksDecide(w, order, ChainName(id), p, m);
  }

  // ----- the whole chain -----

  /** What the published ports of a container say. */
  ghost function PublishedDecision(w: World, id: string, p: Packet): Outcome
    requires id in w.conts
  {
    var c := w.conts[id];
    if c.policy.Rules? then PolicyDecision(PolicyOn(SelfOf(c), c.policy.published, RoutedNets(SelfOf(c), c.policy.published)), p) else Ended
  }

  lemma TailVerdict(w: World, id: string, p: Packet, m: AddrMap)
    requires ValidWorld(w) && id in w.conts
    ensures FirstVerdict(Tail(w, id), p, m) == Else(PublishedDecision(w, id, p), Dropped)
  {
    var c, rules := w.conts[id], PortRules(w, id, ChainName(id));
    assert Described(w, id);
    ManagedIsSelf(w, id);
    FirstVerdictAppend(rules, [DropRule(id)], p, m);
    DropAtHeadQuarantines([DropRule(id)], id, p, m);
    if c.policy.Rules? {
      PublishedVerdict(SelfOf(c), c.policy.published, p, m);
    } else {
      assert Compiled(PortsFor(w, id)) == [];
    }
  }

  /** What becomes of a packet that is dispatched to a container. */
  ghost function Decision(w: World, order: seq<string>, id: string, p: Packet): Outcome
    requires id in w.conts
  {
    if FrontAdmits(w, order, id, p) then Returned else Else(PublishedDecision(w, id, p), Dropped)
  }

  /** After any history, the chain of a processed container lets through exactly what
      its own rules and its edges let through, decides the rest as the published
      ports say, and drops everything else. */
  lemma ChainVerdict(w: World, order: seq<string>, id: string, fw: Fw, t: Tables, p: Packet)
    requires ValidWorld(w) && StateAfter(w, order, fw, t) && id in Processed(order)
    ensures ChainName(id) in fw.chains && FirstVerdict(fw.chains[ChainName(id)], p, Mapping(fw)) == Decision(w, order, id, p)
  {
    assert HasShape(w, order, id, fw);
    var front := ShapeDecides(w, order, id, fw, p, Mapping(fw));
    FrontDecides(w, order, id, front, p, Mapping(fw));
    TailVerdict(w, id, p, Mapping(fw));
  }

  /** Through the dispatcher: a packet from a container's address is decided for that
      container; one to a container's address, from none, for the destination. */
  lemma DispatchedVerdict(w: World, order: seq<string>, as_: seq<Moment>, id: string, p: Packet, depth: nat)
    requires ValidWorld(w) && IsHistory(w, order, as_) && id in Processed(order) && depth >= 1
    requires var fw := as_[|order|].fw;
             || (Slice(p, 12).Some? && HasAddress(w, id, Slice(p, 12).value))
             || (!Mapped(fw, Slice(p, 12)) && Slice(p, 16).Some? && HasAddress(w, id, Slice(p, 16).value))
    ensures var fw := as_[|order|].fw;
            id in w.conts && MAIN in fw.chains && Walk(fw, fw.chains[MAIN], p, depth) == Decision(w, order, id, p)
  {
    var fw, t := as_[|order|].fw, as_[|order|].t;
    HistoryIsCanonical(w, order, as_);
    MatchesIsPlain(w, order, fw, t);
    DispatchRefinesSpec(fw, fw.chains[MAIN], p, depth);
    ChainVerdict(w, order, id, fw, t, p);
  }

  // ----- new connections, in terms of what the labels list -----

  /** The output rules of a container's label. */
  function RulesListed(w: World, id: string): seq<RuleConfig>
    requires id in w.conts
  {
    if w.conts[id].policy.Rules? then w.conts[id].policy.output else []
  }

  /** `r` is a listed rule of the container, for one of the names it gives. */
  ghost predicate InstanceOf(w: World, id: string, l: RuleConfig, r: RuleConfig)
    requires id in w.conts
  {
    l in RulesListed(w, id) && IsInstance(l, r)
  }

  /** The rules in force are the listed ones, one for each name. */
  lemma RulesAreInstances(w: World, id: string, r: RuleConfig)
    requires id in w.conts
    ensures r in RulesFor(w, id) <==> exists l :: InstanceOf(w, id, l, r)
  {
    var rules := RulesListed(w, id);
    if w.conts[id].policy.Rules? {
      FlattenIsNormal(rules);
      NormalFormContents(rules, Flatten(rules), r);
      if r in RulesFor(w, id) {
        var l :| l in rules && IsInstance(l, r);
        assert InstanceOf(w, id, l, r);
      }
    }
  }

  /** A new connection that a listed rule without a container speaks of. */
  ghost predicate OpensAsListed(w: World, id: string, l: RuleConfig, p: Packet)
    requires id in w.conts
  {
    && l in RulesListed(w, id) && l.container == "" && l.containers.None?
    && exists n :: n in SelfOf(w.conts[id]).networks && SentFrom(w, id, l, n, p)
  }

  ghost predicate SentFrom(w: World, id: string, l: RuleConfig, n: string, p: Packet)
    requires id in w.conts
  {
    var S := SelfOf(w.conts[id]);
    && HasV4(S.networks, n) && (l.network == "" || FindNetwork(l.network, S.project, S.networks) == Some(n))
    && SrcAddr(p) == Some(S.networks[n].value.ip.addr) && IsPeer(l, DstAddr(p))
    && OnProtocol(l.proto, p) && ToPorts(l, SrcPort(p), DstPort(p))
  }

  /** A new connection to the container `d` that a listed rule names. */
  ghost predicate OpensToNamed(w: World, order: seq<string>, id: string, l: RuleConfig, r: RuleConfig, d: string, p: Packet)
    requires id in w.conts
  {
    && InstanceOf(w, id, l, r) && IsLinked(w, order, id, d, r)
    && Opens(AddressOf(w, id, l.network), AddressOf(w, d, l.network), l, p)
  }

  lemma OwnInstance(w: World, id: string, l: RuleConfig, r: RuleConfig)
    requires ValidWorld(w) && id in w.conts && InstanceOf(w, id, l, r) && r.container == ""
    ensures l == r && l.container == "" && l.containers.None?
  {
    assert Described(w, id);
    NoErrorMeansAllValid(RulesListed(w, id));
    var i :| 0 <= i < |RulesListed(w, id)| && RulesListed(w, id)[i] == l;
    ValidRulesExactly(l);
  }

  lemma OwnOpens(w: World, id: string, p: Packet)
    requires ValidWorld(w) && id in w.conts && p.ct.CtNew?
    ensures (exists r :: r in RulesFor(w, id) && r.container == "" && OwnAdmits(w, id, r, p)) <==> exists l :: OpensAsListed(w, id, l, p)
  {
    if r :| r in RulesFor(w, id) && r.container == "" && OwnAdmits(w, id, r, p) {
      RulesAreInstances(w, id, r);
      var l :| InstanceOf(w, id, l, r);
      OwnInstance(w, id, l, r);
      var n :| n in SelfOf(w.conts[id]).networks && OwnAdmitsOn(w, id, r, n, p);
      assert SentFrom(w, id, l, n, p);
      assert OpensAsListed(w, id, l, p);
    }
    if l :| OpensAsListed(w, id, l, p) {
      assert Instance(l, DestinationsOfOne(l)[0], l);
      assert InstanceOf(w, id, l, l);
      RulesAreInstances(w, id, l);
      var n :| n in SelfOf(w.conts[id]).networks && SentFrom(w, id, l, n, p);
      assert OwnAdmitsOn(w, id, l, n, p);
    }
  }

  lemma LinkOpens(w: World, order: seq<string>, id: string, p: Packet)
    requires ValidWorld(w) && id in w.conts && p.ct.CtNew?
    ensures (exists s, d, r :: IsLinked(w, order, s, d, r) && LinkAdmits(w, s, d, r, ChainName(id), p)) <==>
            exists l, r, d :: OpensToNamed(w, order, id, l, r, d, p)
  {
    if s, d, r :| IsLinked(w, order, s, d, r) && LinkAdmits(w, s, d, r, ChainName(id), p) {
      ManagedIsSelf(w, id);
      ManagedIsSelf(w, s);
      ChainNameInjective(s, id);
      RulesAreInstances(w, id, r);
      var l :| InstanceOf(w, id, l, r);
      assert OpensToNamed(w, order, id, l, r, d, p);
    }
    if l, r, d :| OpensToNamed(w, order, id, l, r, d, p) {
      assert LinkAdmits(w, id, d, r, ChainName(id), p);
    }
  }

  /** A new connection passes a container's chain exactly if a rule of its own label
      speaks of it, from its own address on the rule's network, to the rule's addresses
      or to the address there of a container that the rule names; or if it is one that
      the published ports let in. */
  lemma NewConnectionsExactly(w: World, order: seq<string>, id: string, p: Packet)
    requires ValidWorld(w) && id in w.conts && p.ct.CtNew?
    ensures Decision(w, order, id, p) == Returned <==>
              || (exists l :: OpensAsListed(w, id, l, p))
              || (exists l, r, d :: OpensToNamed(w, order, id, l, r, d, p))
              || PublishedDecision(w, id, p) == Returned
  {
    OwnOpens(w, id, p);
    LinkOpens(w, order, id, p);
  }
}
