/** What the firewall holds after any history of processed containers, as a function
    of the world and of which of each two containers was processed later. */
module Canonical {
  import opened Nft
  import opened Names
  import opened Chains
  import opened Compiler
  import opened Config
  import opened Wrappers
  import opened Policy
  import opened Invariants
  import opened Store
  import opened Generate
  import opened Outputs
  import opened Ports
  import opened Build
  import opened Manager
  import opened Mappings
  import opened Order
  import opened Independence

  // ----- histories -----

  /** Nothing processed yet: the base alone, and an empty database. */
  ghost predicate FreshBase(fw: Fw, t: Tables)
  {
    && MAIN in fw.chains && fw.chains[MAIN] == [SrcDispatcher(), DstDispatcher()] && Mapping(fw) == map[]
    && t.containers == map[] && t.waiting == {}
  }

  ghost predicate StepOf(w: World, id: string, a: Moment, b: Moment)
    requires id in w.conts
  {
    exists quarantineFirst :: Created(w.now, w.conts[id], quarantineFirst, a.fw, a.t, b.fw, b.t)
  }

  /** The containers named by `order` were processed successfully, one after the other. */
  ghost predicate IsHistory(w: World, order: seq<string>, ms: seq<Moment>)
  {
    && |ms| == |order| + 1
    && if order == [] then FreshBase(ms[0].fw, ms[0].t)
       else
         var n := |order| - 1;
         IsHistory(w, order[..n], ms[..n + 1]) && order[n] in w.conts && StepOf(w, order[n], ms[n], ms[n + 1])
  }

  function Processed(order: seq<string>): set<string>
  {
    if order == [] then {} else Processed(order[..|order| - 1]) + {order[|order| - 1]}
  }

  /** Both were processed, and `x` was after the last time that `y` was. */
  predicate Later(order: seq<string>, x: string, y: string)
  {
    if order == [] then false
    else
      var n := |order| - 1;
      if order[n] == x then x != y && y in Processed(order[..n])
      else order[n] != y && Later(order[..n], x, y)
  }

  lemma {:induction false} OneIsLater(order: seq<string>, x: string, y: string)
    ensures Later(order, x, y) ==> x in Processed(order) && y in Processed(order) && x != y && !Later(order, y, x)
    ensures x in Processed(order) && y in Processed(order) && x != y ==> Later(order, x, y) || Later(order, y, x)
  {
    if order != [] { OneIsLater(order[..|order| - 1], x, y); }
  }

  // ----- the rules that belong into each chain -----

  predicate Has(rules: seq<Rule>, r: Rule)
  {
    exists x :: x in rules && StripRule(x) == r
  }

  ghost predicate OwnFront(w: World, P: set<string>, c: string, r: Rule)
  {
    exists id, rd :: id in P && OwnDetail(w, id, rd) && Contributes(rd, c, r)
  }

  /** Between two containers, the rules that the later one installed. */
  ghost predicate LaterFront(w: World, order: seq<string>, c: string, r: Rule)
  {
    exists x, y :: Later(order, x, y) && BetweenRule(w, x, y, c, r)
  }

  ghost predicate FrontRule(w: World, order: seq<string>, c: string, r: Rule)
  {
    OwnFront(w, Processed(order), c, r) || LaterFront(w, order, c, r)
  }

  ghost predicate IsFront(w: World, order: seq<string>, id: string, front: seq<Rule>)
  {
    forall r :: Has(front, r) <==> FrontRule(w, order, ChainName(id), r)
  }

  function PortsFor(w: World, id: string): seq<RuleDetails>
    requires id in w.conts
  {
    PortDetails(SelfOf(w.conts[id]), w.conts[id].policy)
  }

  function PortRules(w: World, id: string, c: string): seq<Rule>
    requires id in w.conts
  {
    PlacedIn(Compiled(PortsFor(w, id)), c)
  }

  /** How every container's chain ends: its port rules in their order, and the drop. */
  function Tail(w: World, id: string): seq<Rule>
    requires id in w.conts
  {
    PortRules(w, id, ChainName(id)) + [DropRule(id)]
  }

  ghost predicate ChainShape(w: World, order: seq<string>, id: string, rules: seq<Rule>)
  {
    id in w.conts && exists front :: IsFront(w, order, id, front) && rules == front + Tail(w, id)
  }

  ghost predicate HasShape(w: World, order: seq<string>, id: string, fw: Fw)
  {
    ChainName(id) in fw.chains && ChainShape(w, order, id, fw.chains[ChainName(id)])
  }

  /** The localhost drops of the containers' port rules. */
  ghost predicate MainDrop(w: World, P: set<string>, r: Rule)
  {
    exists id :: id in P && id in w.conts && r in PortRules(w, id, MAIN)
  }

  ghost predicate MainShape(w: World, P: set<string>, rules: seq<Rule>)
  {
    MainNormal(rules) && forall r :: r in rules[2..] <==> MainDrop(w, P, r)
  }

  predicate HasAddress(w: World, id: string, k: Key)
  {
    id in w.conts && k in PolicyKeys(w.conts[id])
  }

  ghost predicate MapMatches(w: World, P: set<string>, m: AddrMap)
  {
    && (forall id, k {:trigger HasAddress(w, id, k)} :: id in P && HasAddress(w, id, k) ==> k in m && m[k] == GotoChain(id))
    && forall k :: k in m ==> exists id {:trigger HasAddress(w, id, k)} :: id in P && HasAddress(w, id, k)
  }

  ghost predicate RowsMatch(w: World, P: set<string>, t: Tables)
  {
    t.containers.Keys == P && forall row :: row in t.waiting <==> RowFrom(w, P, row)
  }

  /** The state after the containers of `order` were processed. */
  ghost predicate StateAfter(w: World, order: seq<string>, fw: Fw, t: Tables)
  {
    var P := Processed(order);
    && P <= w.conts.Keys && MapMatches(w, P, Mapping(fw)) && RowsMatch(w, P, t)
    && MAIN in fw.chains && MainShape(w, P, fw.chains[MAIN])
    && forall id {:trigger HasShape(w, order, id, fw)} :: id in P ==> HasShape(w, order, id, fw)
  }

  // ----- which chain and tag a rule has -----

  lemma ContributedTags(rd: RuleDetails, c: string, r: Rule)
    requires ValidDetails(rd) && Contributes(rd, c, r)
    ensures (c == rd.chain && r.tag == rd.contID) || (c == ReplyChain(rd) && r.tag == ReplyTag(rd))
  {
    ValidDetailsCompile(rd);
  }

  lemma OwnIsValid(w: World, id: string, rd: RuleDetails)
    requires ValidWorld(w) && OwnDetail(w, id, rd)
    ensures ValidID(id) && ValidDetails(rd) && !rd.cfg.verdict.drop
    ensures rd.chain == ChainName(id) && rd.estChain == None && rd.contID == id
  {
    var self := SelfOf(w.conts[id]);
    ManagedIsSelf(w, id);
    assert ValidKeys(Scope.Collected(self.networks));
    var r :| r in RulesFor(w, id) && OwnRule(self, r, rd);
    RuleOf(w, id, r);
    DetailsValid(self, Scope.Collected(self.networks), r);
  }

  lemma OwnTags(w: World, id: string, rd: RuleDetails, c: string, r: Rule)
    requires ValidWorld(w) && OwnDetail(w, id, rd) && Contributes(rd, c, r)
    ensures c == ChainName(id) && r.tag == id && ValidID(id)
  {
    OwnIsValid(w, id, rd);
    ContributedTags(rd, c, r);
  }

  lemma EdgeRuleIsEdge(now: Snapshot, self: Self, r: RuleConfig, d: string, rd: RuleDetails)
    requires ValidRule(r) && ValidID(self.id) && ValidID(d) && EdgeRule(now, self, r, d, rd)
    ensures IsEdge(rd) && rd.contID == d && rd.estContID == self.id
  {
    assert Ips(rd.cfg) == [Addr(DestinationOf(now, self, r).endpoint.ip.addr)];
    assert ValidAddrBytes(SourceKey(self, r));
  }

  lemma OutIsEdge(w: World, s: string, d: string, rd: RuleDetails)
    requires ValidWorld(w) && OutDetail(w, s, d, rd)
    ensures IsEdge(rd) && rd.contID == d && rd.estContID == s
  {
    var r :| r in RulesFor(w, s) && EdgeRule(w.now, SelfOf(w.conts[s]), r, d, rd);
    ManagedIsSelf(w, s);
    ManagedIsSelf(w, d);
    RuleOf(w, s, r);
    EdgeRuleIsEdge(w.now, SelfOf(w.conts[s]), r, d, rd);
  }

  lemma RowIsValid(w: World, s: string, row: Waiting)
    requires ValidWorld(w) && RowOf(w, s, row)
    ensures row.src == s && ValidID(s) && !row.rule.verdict.drop
  {
    var S := SelfOf(w.conts[s]);
    var r :| r in RulesFor(w, s) && row in RowsOf(w.now, S, r);
    ManagedIsSelf(w, s);
    RuleOf(w, s, r);
  }

  lemma WaitingEdgeIsEdge(now: Snapshot, D: Self, row: Waiting)
    requires ValidID(D.id) && ValidID(row.src) && !row.rule.verdict.drop && WaitOn(now, D, row).Edge?
    ensures var rd := WaitOn(now, D, row).rd; IsEdge(rd) && rd.contID == D.id && rd.estContID == row.src
  {
    EdgeIsValid(now, D, row);
  }

  lemma InIsEdge(w: World, s: string, d: string, rd: RuleDetails)
    requires ValidWorld(w) && InDetail(w, s, d, rd)
    ensures IsEdge(rd) && rd.contID == d && rd.estContID == s
  {
    var D := SelfOf(w.conts[d]);
    var row :| RowOf(w, s, row) && Aliased(D, row) && WaitOn(w.now, D, row) == Edge(rd);
    RowIsValid(w, s, row);
    ManagedIsSelf(w, d);
    WaitingEdgeIsEdge(w.now, D, row);
  }

  /** The rules between two containers: in the chain of one, under the other's tag. */
  lemma BetweenTags(w: World, x: string, y: string, rd: RuleDetails, c: string, r: Rule)
    requires ValidWorld(w) && Between(w, x, y, rd) && Contributes(rd, c, r)
    ensures x != y && ValidID(x) && ValidID(y) && ((c == ChainName(x) && r.tag == y) || (c == ChainName(y) && r.tag == x))
  {
    if OutDetail(w, x, y, rd) { OutIsEdge(w, x, y, rd); } else { InIsEdge(w, y, x, rd); }
    ContributedTags(rd, c, r);
  }

  lemma BetweenEnds(w: World, u: string, v: string, x: string, r: Rule)
    requires ValidWorld(w) && BetweenRule(w, u, v, ChainName(x), r) && ValidID(x)
    ensures u != v && ((u == x && v == r.tag) || (v == x && u == r.tag))
  {
    var rd :| Between(w, u, v, rd) && Contributes(rd, ChainName(x), r);
    BetweenTags(w, u, v, rd, ChainName(x), r);
    if ChainName(x) == ChainName(u) { ChainNameInjective(u, x); }
    if ChainName(x) == ChainName(v) { ChainNameInjective(v, x); }
  }

  lemma BetweenIsAllowing(w: World, x: string, y: string, rd: RuleDetails)
    requires ValidWorld(w) && Between(w, x, y, rd)
    ensures ValidDetails(rd) && !rd.cfg.verdict.drop
  {
    if OutDetail(w, x, y, rd) { OutIsEdge(w, x, y, rd); } else { InIsEdge(w, y, x, rd); }
  }

  lemma PortRulesAreOwn(w: World, id: string, c: string, x: Rule)
    requires ValidWorld(w) && id in w.conts && x in PortRules(w, id, c)
    ensures x.tag == id && ValidID(id) && (c == ChainName(id) || (c == MAIN && SafeOwnedDrop(x))) && PlainRule(x)
  {
    assert Described(w, id);
    var rds := PortsFor(w, id);
    PortDetailsArePortRules(SelfOf(w.conts[id]), w.conts[id].policy);
    PlacedInContents(Compiled(rds), c);
    CompiledContents(rds);
    var i :| 0 <= i < |rds| && Placed(c, x) in RulesOf(rds[i]);
    assert PortRule(id, rds[i]);
    PortRuleTags(id, rds[i], Placed(c, x));
  }

  lemma PortRuleTags(id: string, rd: RuleDetails, q: Placed)
    requires ValidID(id) && PortRule(id, rd) && q in RulesOf(rd)
    ensures q.rule.tag == id && (q.chain == ChainName(id) || (q.chain == MAIN && SafeOwnedDrop(q.rule))) && PlainRule(q.rule)
  {
    if IsLocalhostDrop(id, rd) {
      var proto: Protocol, port: nat :| port <= MAX_PORT && rd == LocalhostDrop(MAIN, proto, port, id);
      LocalhostDropIsSafe(MAIN, proto, port, id);
      GeneratedRulesArePlain(rd);
    } else {
      ValidDetailsCompile(rd);
      GeneratedRulesArePlain(rd);
    }
  }

  // ----- one chain under a replacement -----

  lemma HasAppend(a: seq<Rule>, b: seq<Rule>, r: Rule)
    ensures Has(a + b, r) <==> Has(a, r) || Has(b, r)
  {
    if Has(a, r) {
      var x :| x in a && StripRule(x) == r;
      assert x in a + b;
    }
    if Has(b, r) {
      var x :| x in b && StripRule(x) == r;
      assert x in a + b;
    }
  }

  ghost predicate Generated(rds: seq<RuleDetails>, c: string, r: Rule)
  {
    exists rd :: rd in rds && Contributes(rd, c, r)
  }

  lemma PlacedIsGenerated(rds: seq<RuleDetails>, c: string, r: Rule)
    ensures Has(PlacedIn(Compiled(rds), c), r) <==> Generated(rds, c, r)
  {
    PlacedInContents(Compiled(rds), c);
    CompiledContents(rds);
    if Has(PlacedIn(Compiled(rds), c), r) {
      var x :| x in PlacedIn(Compiled(rds), c) && StripRule(x) == r;
      var i :| 0 <= i < |rds| && Placed(c, x) in RulesOf(rds[i]);
      assert rds[i] in rds && Contributes(rds[i], c, r);
    }
    if Generated(rds, c, r) {
      var rd :| rd in rds && Contributes(rd, c, r);
      var i :| 0 <= i < |rds| && rds[i] == rd;
      var q :| q in RulesOf(rd) && q.chain == c && StripRule(q.rule) == r;
      assert q == Placed(c, q.rule) && q in Compiled(rds);
    }
  }

  /** The generated rules of one chain: those in front, then the port rules. */
  lemma PlacedInParts(front: seq<RuleDetails>, ports: seq<RuleDetails>, c: string)
    ensures PlacedIn(Compiled(front + ports), c) == PlacedIn(Compiled(front), c) + PlacedIn(Compiled(ports), c)
  {
    CompiledAppend(front, ports);
    PlacedInAppend(Compiled(front), Compiled(ports), c);
  }

  lemma NothingPlaced(desired: seq<Placed>, c: string)
    requires forall x :: Placed(c, x) !in desired
    ensures PlacedIn(desired, c) == []
  {
    PlacedInContents(desired, c);
    if PlacedIn(desired, c) != [] { assert PlacedIn(desired, c)[0] in PlacedIn(desired, c); }
  }

  lemma NoPortRulesElsewhere(w: World, id: string, c: string)
    requires ValidWorld(w) && id in w.conts && c != ChainName(id) && c != MAIN
    ensures PortRules(w, id, c) == []
  {
    if PortRules(w, id, c) != [] { PortRulesAreOwn(w, id, c, PortRules(w, id, c)[0]); }
  }

  lemma TailStays(w: World, x: string, id: string)
    requires ValidWorld(w) && x in w.conts && x != id
    ensures Without(Tail(w, x), {id}) == Tail(w, x)
  {
    forall i | 0 <= i < |Tail(w, x)| ensures Tail(w, x)[i].tag == x {
      if i < |Tail(w, x)| - 1 { PortRulesAreOwn(w, x, ChainName(x), Tail(w, x)[i]); }
    }
    KeptAll(Tail(w, x), Tagged({id}));
  }

  lemma OwnChainReplaced(w: World, id: string, rules: seq<Rule>, front: seq<RuleDetails>)
    requires id in w.conts
    ensures ReplacedRules(rules, ChainName(id), id, Compiled(front + PortsFor(w, id)))
            == PlacedIn(Compiled(front), ChainName(id)) + Tail(w, id)
  {
    PlacedInParts(front, PortsFor(w, id), ChainName(id));
  }

  lemma OtherChainReplaced(w: World, x: string, id: string, head: seq<Rule>, front: seq<RuleDetails>)
    requires ValidWorld(w) && x in w.conts && id in w.conts && x != id
    ensures ReplacedRules(head + Tail(w, x), ChainName(x), id, Compiled(front + PortsFor(w, id)))
            == PlacedIn(Compiled(front), ChainName(x)) + Without(head, {id}) + Tail(w, x)
  {
    assert ChainName(x) != ChainName(id) && ValidID(x) by {
      ManagedIsSelf(w, x);
      if ChainName(x) == ChainName(id) { ChainNameInjective(x, id); }
    }
    ChainNameDeterminesID(ChainName(x), x);
    NoPortRulesElsewhere(w, id, ChainName(x));
    TailStays(w, x, id);
    ForeignChainReplaced(ChainName(x), id, head, Tail(w, x), front, PortsFor(w, id));
  }

  lemma ForeignChainReplaced(c: string, id: string, head: seq<Rule>, tail: seq<Rule>, front: seq<RuleDetails>, ports: seq<RuleDetails>)
    requires c != ChainName(id) && c != MAIN && Owned(c) && PlacedIn(Compiled(ports), c) == [] && Without(tail, {id}) == tail
    ensures ReplacedRules(head + tail, c, id, Compiled(front + ports)) == PlacedIn(Compiled(front), c) + Without(head, {id}) + tail
  {
    PlacedInParts(front, ports, c);
    WithoutAppend(head, tail, {id});
    var placed := PlacedIn(Compiled(front), c);
    assert placed + [] == placed;
    assert placed + (Without(head, {id}) + tail) == placed + Without(head, {id}) + tail;
  }

  lemma MainReplaced(w: World, id: string, rules: seq<Rule>, front: seq<RuleDetails>)
    requires id in w.conts && PlacedIn(Compiled(front), MAIN) == []
    ensures ReplacedRules(rules, MAIN, id, Compiled(front + PortsFor(w, id)))
            == Without(rules, {id}) + PortRules(w, id, MAIN)
  {
    ChainNameDeterminesID(MAIN, id);
    PlacedInParts(front, PortsFor(w, id), MAIN);
  }

  // ----- what processing a container installs in front -----

  ghost predicate FrontDetail(w: World, P: set<string>, id: string, rd: RuleDetails)
  {
    OwnDetail(w, id, rd) || exists y :: y in P && Between(w, id, y, rd)
  }

  ghost predicate FrontGenerated(w: World, P: set<string>, id: string, c: string, r: Rule)
  {
    exists rd :: FrontDetail(w, P, id, rd) && Contributes(rd, c, r)
  }

  lemma NothingInMain(w: World, P: set<string>, id: string, r: Rule)
    requires ValidWorld(w)
    ensures !FrontGenerated(w, P, id, MAIN, r)
  {
    if rd :| FrontDetail(w, P, id, rd) && Contributes(rd, MAIN, r) {
      if OwnDetail(w, id, rd) {
        OwnTags(w, id, rd, MAIN, r);
        ChainNameDeterminesID(MAIN, id);
      } else {
        var y :| y in P && Between(w, id, y, rd);
        BetweenTags(w, id, y, rd, MAIN, r);
        ChainNameDeterminesID(MAIN, id);
        ChainNameDeterminesID(MAIN, y);
      }
    }
  }

  lemma {:induction false} ProcessedAppend(order: seq<string>, id: string)
    ensures Processed(order + [id]) == Processed(order) + {id}
    ensures forall x, y :: Later(order + [id], x, y) <==>
              if x == id then x != y && y in Processed(order) else y != id && Later(order, x, y)
  {
    assert (order + [id])[..|order|] == order;
  }

  /** The own chain is rebuilt: what is in front is what was generated. */
  lemma OwnFrontGrows(w: World, order: seq<string>, id: string, r: Rule)
    requires ValidWorld(w) && ValidID(id)
    ensures FrontRule(w, order + [id], ChainName(id), r) <==> FrontGenerated(w, Processed(order) + {id}, id, ChainName(id), r)
  {
    ProcessedAppend(order, id);
    var c, P, next := ChainName(id), Processed(order) + {id}, order + [id];
    if FrontRule(w, next, c, r) {
      if u, rd :| u in P && OwnDetail(w, u, rd) && Contributes(rd, c, r) {
        OwnTags(w, u, rd, c, r);
        ChainNameInjective(u, id);
        assert FrontDetail(w, P, id, rd);
      } else {
        var x, y :| Later(next, x, y) && BetweenRule(w, x, y, c, r);
        var rd :| Between(w, x, y, rd) && Contributes(rd, c, r);
        BetweenTags(w, x, y, rd, c, r);
        if c == ChainName(x) { ChainNameInjective(x, id); } else { ChainNameInjective(y, id); }
        assert FrontDetail(w, P, id, rd);
      }
    }
    if rd :| FrontDetail(w, P, id, rd) && Contributes(rd, c, r) { FrontIsKept(w, order, id, rd, c, r); }
  }

  lemma FrontIsKept(w: World, order: seq<string>, id: string, rd: RuleDetails, c: string, r: Rule)
    requires ValidWorld(w) && FrontDetail(w, Processed(order) + {id}, id, rd) && Contributes(rd, c, r)
    ensures FrontRule(w, order + [id], c, r)
  {
    ProcessedAppend(order, id);
    if !OwnDetail(w, id, rd) {
      var y :| y in Processed(order) + {id} && Between(w, id, y, rd);
      BetweenTags(w, id, y, rd, c, r);
      assert Later(order + [id], id, y) && BetweenRule(w, id, y, c, r);
    }
  }

  /** Another chain loses the rules of the container and gains what was generated. */
  lemma OtherFrontGrows(w: World, order: seq<string>, id: string, x: string, r: Rule)
    requires ValidWorld(w) && ValidID(id) && ValidID(x) && x != id && x in Processed(order)
    ensures FrontRule(w, order + [id], ChainName(x), r) <==>
              FrontGenerated(w, Processed(order) + {id}, id, ChainName(x), r) || (FrontRule(w, order, ChainName(x), r) && r.tag != id)
  {
    ProcessedAppend(order, id);
    var c, P := ChainName(x), Processed(order) + {id};
    if FrontRule(w, order + [id], c, r) { OtherFrontWasThere(w, order, id, x, r); }
    if rd :| FrontDetail(w, P, id, rd) && Contributes(rd, c, r) { FrontIsKept(w, order, id, rd, c, r); }
    if FrontRule(w, order, c, r) && r.tag != id { OtherFrontStays(w, order, id, x, r); }
  }

  lemma OtherFrontWasThere(w: World, order: seq<string>, id: string, x: string, r: Rule)
    requires ValidWorld(w) && ValidID(id) && ValidID(x) && x != id && FrontRule(w, order + [id], ChainName(x), r)
    ensures FrontGenerated(w, Processed(order) + {id}, id, ChainName(x), r) || (FrontRule(w, order, ChainName(x), r) && r.tag != id)
  {
    ProcessedAppend(order, id);
    var c, P, next := ChainName(x), Processed(order) + {id}, order + [id];
    if u, rd :| u in P && OwnDetail(w, u, rd) && Contributes(rd, c, r) {
      OwnTags(w, u, rd, c, r);
      ChainNameInjective(u, x);
    } else {
      var u, v :| Later(next, u, v) && BetweenRule(w, u, v, c, r);
      var rd :| Between(w, u, v, rd) && Contributes(rd, c, r);
      BetweenTags(w, u, v, rd, c, r);
      if u == id { assert FrontDetail(w, P, id, rd); }
    }
  }

  lemma OtherFrontStays(w: World, order: seq<string>, id: string, x: string, r: Rule)
    requires ValidWorld(w) && ValidID(id) && ValidID(x) && x != id && FrontRule(w, order, ChainName(x), r) && r.tag != id
    ensures FrontRule(w, order + [id], ChainName(x), r)
  {
    ProcessedAppend(order, id);
    if LaterFront(w, order, ChainName(x), r) {
      var u, v :| Later(order, u, v) && BetweenRule(w, u, v, ChainName(x), r);
      BetweenEnds(w, u, v, x, r);
      assert Later(order + [id], u, v);
    } else {
      var u, rd :| u in Processed(order) && OwnDetail(w, u, rd) && Contributes(rd, ChainName(x), r);
      assert u in Processed(order + [id]);
    }
  }

  // ----- the descriptions and rows of one creation -----

  function Recorded(w: World, id: string, t: Tables): Tables
    requires id in w.conts
  {
    MetadataReplaced(t, id, SelfOf(w.conts[id]).name, w.conts[id].service, PolicyKeys(w.conts[id]))
  }

  /** The parts of a successful creation. */
  ghost predicate Parts(w: World, id: string, t: Tables, rds: seq<RuleDetails>, est: set<string>, after: Tables)
    requires id in w.conts
  {
    Built(w.now, Recorded(w, id, t), SelfOf(w.conts[id]), Scope.Collected(SelfOf(w.conts[id]).networks), w.conts[id].policy, rds, est, after)
  }

  lemma CreatedParts(w: World, id: string, quarantineFirst: bool, fw: Fw, t: Tables, fw': Fw, t': Tables)
    returns (rds: seq<RuleDetails>, est: set<string>, after: Tables)
    requires ValidWorld(w) && id in w.conts && Created(w.now, w.conts[id], quarantineFirst, fw, t, fw', t')
    ensures Parts(w, id, t, rds, est, after) && t' == EstAdded(after, id, est)
    ensures fw' == PolicyReplaced(Remapped(FloorInstalled(fw, id, quarantineFirst), id, PolicyKeys(w.conts[id])), id, Compiled(rds))
  {
    assert Described(w, id);
    var c, self := w.conts[id], SelfOf(w.conts[id]);
    rds, est, after :| && Built(w.now, MetadataReplaced(t, c.id, self.name, c.service, PolicyKeys(c)), self,
                                Scope.Collected(self.networks), c.policy, rds, est, after)
                       && t' == EstAdded(after, c.id, est)
                       && fw' == PolicyReplaced(Remapped(FloorInstalled(fw, c.id, quarantineFirst), c.id, PolicyKeys(c)), c.id, Compiled(rds));
  }

  lemma RowSource(w: World, s: string, row: Waiting)
    requires ValidWorld(w) && RowOf(w, s, row)
    ensures row.src == s
  {
    RowIsValid(w, s, row);
  }

  /** The rows of the container are those its rules leave; the others stay. */
  lemma RowGrows(w: World, P: set<string>, id: string, row: Waiting)
    requires ValidWorld(w) && id in w.conts
    ensures RowFrom(w, P + {id}, row) <==> RowOf(w, id, row) || (RowFrom(w, P, row) && row.src != id)
  {
    if RowFrom(w, P + {id}, row) {
      var s :| s in P + {id} && RowOf(w, s, row);
      RowSource(w, s, row);
    }
    if RowFrom(w, P, row) {
      var s :| s in P && RowOf(w, s, row);
      RowSource(w, s, row);
      assert s in P + {id};
    }
  }

  lemma RowsGrow(w: World, P: set<string>, id: string, t: Tables, after: Tables)
    requires ValidWorld(w) && id in w.conts && RowsMatch(w, P, t)
    requires var filled := FillAll(w.now, Recorded(w, id, t).containers.Keys, SelfOf(w.conts[id]), RulesFor(w, id));
             filled.Some? && after == PolicyStarted(Recorded(w, id, t), id, filled.value.rows)
    ensures RowsMatch(w, P + {id}, after)
  {
    FilledRows(w.now, Recorded(w, id, t).containers.Keys, SelfOf(w.conts[id]), RulesFor(w, id));
    forall row ensures row in after.waiting <==> RowFrom(w, P + {id}, row) { RowGrows(w, P, id, row); }
  }

  lemma PartsKeepRows(w: World, P: set<string>, id: string, t: Tables, rds: seq<RuleDetails>, est: set<string>, after: Tables)
    requires ValidWorld(w) && id in w.conts && RowsMatch(w, P, t) && Parts(w, id, t, rds, est, after)
    ensures RowsMatch(w, P + {id}, after) && RowsMatch(w, P + {id}, EstAdded(after, id, est))
  {
    ManagedIsSelf(w, id);
    RowsGrow(w, P, id, t, after);
  }

  lemma WaitingIsIn(w: World, P: set<string>, id: string, rows: set<Waiting>, rd: RuleDetails)
    requires id in w.conts && forall row :: row in rows <==> RowFrom(w, P, row)
    ensures WaitingWanted(w.now, SelfOf(w.conts[id]), rows, rd) <==> exists s :: s in P && InDetail(w, s, id, rd)
  {
    var D := SelfOf(w.conts[id]);
    if row :| row in rows && Aliased(D, row) && WaitOn(w.now, D, row) == Edge(rd) {
      var s :| s in P && RowOf(w, s, row);
      assert InDetail(w, s, id, rd);
    }
    if s :| s in P && InDetail(w, s, id, rd) {
      var row :| RowOf(w, s, row) && Aliased(D, row) && WaitOn(w.now, D, row) == Edge(rd);
      assert RowFrom(w, P, row);
    }
  }

  lemma OutputIsOut(w: World, P: set<string>, id: string, cfgs: seq<RuleConfig>, rd: RuleDetails)
    requires ValidWorld(w) && id in w.conts && P <= w.conts.Keys
    requires var filled := FillAll(w.now, P, SelfOf(w.conts[id]), RulesFor(w, id)); filled.Some? && cfgs == filled.value.cfgs
    requires OutputsPossible(SelfOf(w.conts[id]), Scope.Collected(SelfOf(w.conts[id]).networks), cfgs)
    ensures OutputWanted(SelfOf(w.conts[id]), Scope.Collected(SelfOf(w.conts[id]).networks), cfgs, rd)
            <==> OwnDetail(w, id, rd) || exists d :: d in P && OutDetail(w, id, d, rd)
  {
    var self, rules := SelfOf(w.conts[id]), RulesFor(w, id);
    forall r | r in rules ensures !r.skip && (r.container != "" ==> r.network != "") { RuleOf(w, id, r); }
    OutputsAreCanonical(w.now, P, self, rules, cfgs, rd);
    if d :| d in P && OutDetail(w, id, d, rd) {
      var r :| r in rules && EdgeRule(w.now, self, r, d, rd);
    }
    if r :| r in rules && !OwnRule(self, r, rd) && exists d :: d in P && EdgeRule(w.now, self, r, d, rd) {
      var d :| d in P && EdgeRule(w.now, self, r, d, rd);
      assert OutDetail(w, id, d, rd);
    }
  }

  /** In front of the port rules are exactly the container's own rules, and what it
      installs between itself and each processed container. */
  lemma FrontIsIncident(w: World, P: set<string>, id: string, t: Tables, rds: seq<RuleDetails>, est: set<string>, after: Tables,
                        rd: RuleDetails)
    requires ValidWorld(w) && id in w.conts && P <= w.conts.Keys && RowsMatch(w, P, t) && Parts(w, id, t, rds, est, after)
    ensures rd in Front(rds, SelfOf(w.conts[id]), w.conts[id].policy) <==> FrontDetail(w, P + {id}, id, rd)
  {
    PartsKeepRows(w, P, id, t, rds, est, after);
    assert Recorded(w, id, t).containers.Keys == P + {id};
    WaitingIsIn(w, P + {id}, id, after.waiting, rd);
    OutputIsOut(w, P + {id}, id, FillAll(w.now, P + {id}, SelfOf(w.conts[id]), RulesFor(w, id)).value.cfgs, rd);
  }

  // ----- processing one more container -----

  lemma EntryOf(w: World, P: set<string>, m: AddrMap, id: string, k: Key) returns (x: string)
    requires ValidWorld(w) && id in w.conts && P <= w.conts.Keys && MapMatches(w, P, m) && k in m
    ensures x in P && x in w.conts && k in PolicyKeys(w.conts[x]) && m[k] == GotoChain(x)
    ensures x == id <==> m[k].chain == ChainName(id)
    ensures x == id <==> k in PolicyKeys(w.conts[id])
  {
    x :| x in P && HasAddress(w, x, k);
    ManagedIsSelf(w, x);
    if m[k].chain == ChainName(id) { ChainNameInjective(x, id); }
    assert x != id ==> PolicyKeys(w.conts[x]) !! PolicyKeys(w.conts[id]);
  }

  /** No address is taken over: the map gains exactly the container's addresses. */
  lemma MapGrows(w: World, P: set<string>, m: AddrMap, id: string)
    requires ValidWorld(w) && id in w.conts && P <= w.conts.Keys && MapMatches(w, P, m)
    ensures Displaced(m, id, PolicyKeys(w.conts[id])) == {}
    ensures MapMatches(w, P + {id}, RemappedMap(m, id, PolicyKeys(w.conts[id])))
  {
    var keys := PolicyKeys(w.conts[id]);
    var next := RemappedMap(m, id, keys);
    forall k | k in m ensures k in keys <==> m[k].chain == ChainName(id) { var x := EntryOf(w, P, m, id, k); }
    forall k | k in next ensures exists x :: x in P + {id} && HasAddress(w, x, k) {
      if k in keys {
        assert HasAddress(w, id, k);
      } else {
        var x := EntryOf(w, P, m, id, k);
        assert x in P + {id} && HasAddress(w, x, k);
      }
    }
    forall x, k | x in P + {id} && HasAddress(w, x, k) ensures k in next && next[k] == GotoChain(x) {
      if x != id { assert PolicyKeys(w.conts[x]) !! keys; }
    }
  }

  /** The floor and the mapping leave every other chain alone. */
  ghost predicate OnlyOwnChain(fw: Fw, f1: Fw, id: string)
  {
    && (forall c :: c in f1.chains <==> c in fw.chains || c == ChainName(id))
    && forall c :: c in fw.chains && c != ChainName(id) ==> f1.chains[c] == fw.chains[c]
  }

  lemma FloorThenMap(fw: Fw, id: string, quarantineFirst: bool, keys: set<Key>)
    requires Displaced(Mapping(fw), id, keys) == {}
    ensures OnlyOwnChain(fw, Remapped(FloorInstalled(fw, id, quarantineFirst), id, keys), id)
    ensures Remapped(FloorInstalled(fw, id, quarantineFirst), id, keys).addrs == Some(RemappedMap(Mapping(fw), id, keys))
  {
    NothingDisplaced(FloorInstalled(fw, id, quarantineFirst), id, keys);
  }

  lemma WithoutHas(rules: seq<Rule>, id: string, r: Rule)
    ensures Has(Without(rules, {id}), r) <==> Has(rules, r) && r.tag != id
  {
    WithoutContents(rules, {id});
    if Has(rules, r) && r.tag != id {
      var x :| x in rules && StripRule(x) == r;
      assert x in Without(rules, {id});
    }
  }

  lemma OwnShape(w: World, order: seq<string>, id: string, front: seq<RuleDetails>, rules: seq<Rule>)
    requires ValidWorld(w) && id in w.conts
    requires forall rd :: rd in front <==> FrontDetail(w, Processed(order) + {id}, id, rd)
    ensures ChainShape(w, order + [id], id, ReplacedRules(rules, ChainName(id), id, Compiled(front + PortsFor(w, id))))
  {
    ManagedIsSelf(w, id);
    OwnChainReplaced(w, id, rules, front);
    var head := PlacedIn(Compiled(front), ChainName(id));
    forall r ensures Has(head, r) <==> FrontRule(w, order + [id], ChainName(id), r) {
      PlacedIsGenerated(front, ChainName(id), r);
      OwnFrontGrows(w, order, id, r);
    }
    assert IsFront(w, order + [id], id, head);
  }

  lemma OtherShape(w: World, order: seq<string>, id: string, x: string, front: seq<RuleDetails>, rules: seq<Rule>)
    requires ValidWorld(w) && id in w.conts && x in w.conts && x != id && x in Processed(order) && ChainShape(w, order, x, rules)
    requires forall rd :: rd in front <==> FrontDetail(w, Processed(order) + {id}, id, rd)
    ensures ChainShape(w, order + [id], x, ReplacedRules(rules, ChainName(x), id, Compiled(front + PortsFor(w, id))))
  {
    ManagedIsSelf(w, id);
    ManagedIsSelf(w, x);
    var old_ :| IsFront(w, order, x, old_) && rules == old_ + Tail(w, x);
    OtherChainReplaced(w, x, id, old_, front);
    var c, head := ChainName(x), PlacedIn(Compiled(front), ChainName(x)) + Without(old_, {id});
    forall r ensures Has(head, r) <==> FrontRule(w, order + [id], c, r) {
      HasAppend(PlacedIn(Compiled(front), c), Without(old_, {id}), r);
      WithoutHas(old_, id, r);
      PlacedIsGenerated(front, c, r);
      OtherFrontGrows(w, order, id, x, r);
    }
    assert IsFront(w, order + [id], x, head);
  }

  lemma NothingGeneratedInMain(w: World, P: set<string>, id: string, front: seq<RuleDetails>)
    requires ValidWorld(w) && forall rd :: rd in front <==> FrontDetail(w, P, id, rd)
    ensures PlacedIn(Compiled(front), MAIN) == []
  {
    forall x ensures Placed(MAIN, x) !in Compiled(front) {
      NothingInMain(w, P, id, StripRule(x));
      PlacedIsGenerated(front, MAIN, StripRule(x));
      PlacedInContents(Compiled(front), MAIN);
    }
    NothingPlaced(Compiled(front), MAIN);
  }

  lemma MainDropsGrow(w: World, P: set<string>, id: string, drops: seq<Rule>, r: Rule)
    requires ValidWorld(w) && id in w.conts && P <= w.conts.Keys && forall x :: x in drops <==> MainDrop(w, P, x)
    ensures r in Without(drops, {id}) + PortRules(w, id, MAIN) <==> MainDrop(w, P + {id}, r)
  {
    WithoutContents(drops, {id});
    if x :| x in P + {id} && x in w.conts && r in PortRules(w, x, MAIN) {
      PortRulesAreOwn(w, x, MAIN, r);
      assert x != id ==> MainDrop(w, P, r);
    }
    if r in Without(drops, {id}) {
      var x :| x in P && x in w.conts && r in PortRules(w, x, MAIN);
      assert x in P + {id};
    }
    if r in PortRules(w, id, MAIN) { assert id in P + {id}; }
  }

  lemma MainGrows(w: World, P: set<string>, id: string, rules: seq<Rule>)
    requires ValidWorld(w) && id in w.conts && P <= w.conts.Keys && MainShape(w, P, rules)
    ensures MainShape(w, P + {id}, Without(rules, {id}) + PortRules(w, id, MAIN))
  {
    ManagedIsSelf(w, id);
    var mine := PortRules(w, id, MAIN);
    forall i | 0 <= i < |mine| ensures SafeOwnedDrop(mine[i]) {
      PortRulesAreOwn(w, id, MAIN, mine[i]);
      ChainNameDeterminesID(MAIN, id);
    }
    MainStaysNormal(rules, {id}, mine);
    MainParts(rules, id, mine);
    forall r ensures r in Without(rules[2..], {id}) + mine <==> MainDrop(w, P + {id}, r) { MainDropsGrow(w, P, id, rules[2..], r); }
  }

  lemma MainParts(rules: seq<Rule>, id: string, extra: seq<Rule>)
    requires MainNormal(rules) && id != ""
    ensures Without(rules, {id}) + extra == rules[..2] + (Without(rules[2..], {id}) + extra)
    ensures |Without(rules, {id}) + extra| >= 2 && (Without(rules, {id}) + extra)[2..] == Without(rules[2..], {id}) + extra
  {
    assert rules == rules[..2] + rules[2..];
    WithoutAppend(rules[..2], rules[2..], {id});
    KeptAll(rules[..2], Tagged({id}));
    assert rules[..2] + Without(rules[2..], {id}) + extra == rules[..2] + (Without(rules[2..], {id}) + extra);
  }

  lemma ShapeGrows(w: World, order: seq<string>, id: string, fw: Fw, f1: Fw, rds: seq<RuleDetails>, x: string)
    requires ValidWorld(w) && id in w.conts && x in w.conts && OnlyOwnChain(fw, f1, id)
    requires x in Processed(order) + {id} && (x in Processed(order) ==> HasShape(w, order, x, fw))
    requires rds == Front(rds, SelfOf(w.conts[id]), w.conts[id].policy) + PortsFor(w, id)
    requires forall rd :: rd in Front(rds, SelfOf(w.conts[id]), w.conts[id].policy) <==> FrontDetail(w, Processed(order) + {id}, id, rd)
    ensures HasShape(w, order + [id], x, PolicyReplaced(f1, id, Compiled(rds)))
  {
    var front := Front(rds, SelfOf(w.conts[id]), w.conts[id].policy);
    if x == id {
      OwnShape(w, order, id, front, f1.chains[ChainName(id)]);
    } else {
      assert ChainName(x) != ChainName(id) by {
        ManagedIsSelf(w, x);
        if ChainName(x) == ChainName(id) { ChainNameInjective(x, id); }
      }
      OtherShape(w, order, id, x, front, fw.chains[ChainName(x)]);
    }
  }

  lemma MainShapeGrows(w: World, P: set<string>, id: string, fw: Fw, f1: Fw, rds: seq<RuleDetails>)
    requires ValidWorld(w) && id in w.conts && P <= w.conts.Keys && OnlyOwnChain(fw, f1, id)
    requires MAIN in fw.chains && MainShape(w, P, fw.chains[MAIN])
    requires rds == Front(rds, SelfOf(w.conts[id]), w.conts[id].policy) + PortsFor(w, id)
    requires forall rd :: rd in Front(rds, SelfOf(w.conts[id]), w.conts[id].policy) <==> FrontDetail(w, P + {id}, id, rd)
    ensures var next := PolicyReplaced(f1, id, Compiled(rds)); MAIN in next.chains && MainShape(w, P + {id}, next.chains[MAIN])
  {
    var front := Front(rds, SelfOf(w.conts[id]), w.conts[id].policy);
    ChainNameDeterminesID(MAIN, id);
    NothingGeneratedInMain(w, P + {id}, id, front);
    MainReplaced(w, id, f1.chains[MAIN], front);
    MainGrows(w, P, id, fw.chains[MAIN]);
  }

  /** Processing a container, for the first time or again, leads from the state
      after `order` to that after `order + [id]`. */
  lemma ProcessingIsCanonical(w: World, order: seq<string>, id: string, quarantineFirst: bool, fw: Fw, t: Tables, fw': Fw, t': Tables)
    requires ValidWorld(w) && id in w.conts && StateAfter(w, order, fw, t)
    requires Created(w.now, w.conts[id], quarantineFirst, fw, t, fw', t')
    ensures StateAfter(w, order + [id], fw', t')
  {
    var P, keys := Processed(order), PolicyKeys(w.conts[id]);
    var rds, est, after := CreatedParts(w, id, quarantineFirst, fw, t, fw', t');
    MapGrows(w, P, Mapping(fw), id);
    FloorThenMap(fw, id, quarantineFirst, keys);
    PartsKeepRows(w, P, id, t, rds, est, after);
    forall rd ensures rd in Front(rds, SelfOf(w.conts[id]), w.conts[id].policy) <==> FrontDetail(w, P + {id}, id, rd) {
      FrontIsIncident(w, P, id, t, rds, est, after, rd);
    }
    var f1 := Remapped(FloorInstalled(fw, id, quarantineFirst), id, keys);
    MainShapeGrows(w, P, id, fw, f1, rds);
    forall x | x in P + {id} ensures HasShape(w, order + [id], x, fw') {
      assert x in P ==> HasShape(w, order, x, fw);
      ShapeGrows(w, order, id, fw, f1, rds, x);
    }
    ProcessedAppend(order, id);
  }

  // ----- histories end in the state of their order -----

  lemma UntouchedIsCanonical(w: World, fw: Fw, t: Tables)
    requires FreshBase(fw, t)
    ensures StateAfter(w, [], fw, t)
  {
  }

  lemma StepIsCanonical(w: World, front: seq<string>, id: string, order: seq<string>, a: Moment, b: Moment)
    requires ValidWorld(w) && id in w.conts && StateAfter(w, front, a.fw, a.t) && StepOf(w, id, a, b) && order == front + [id]
    ensures StateAfter(w, order, b.fw, b.t)
  {
    var quarantineFirst :| Created(w.now, w.conts[id], quarantineFirst, a.fw, a.t, b.fw, b.t);
    ProcessingIsCanonical(w, front, id, quarantineFirst, a.fw, a.t, b.fw, b.t);
  }

  lemma LastApart(order: seq<string>)
    requires order != []
    ensures order == order[..|order| - 1] + [order[|order| - 1]]
  {
  }

  lemma {:induction false} HistoryIsCanonical(w: World, order: seq<string>, ms: seq<Moment>)
    requires ValidWorld(w) && IsHistory(w, order, ms)
    ensures StateAfter(w, order, ms[|order|].fw, ms[|order|].t)
  {
    if order == [] {
      UntouchedIsCanonical(w, ms[0].fw, ms[0].t);
    } else {
      var n := |order| - 1;
      HistoryIsCanonical(w, order[..n], ms[..n + 1]);
      LastApart(order);
      StepIsCanonical(w, order[..n], order[n], order, ms[n], ms[n + 1]);
    }
  }
}
