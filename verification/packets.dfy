/** The verdict on every packet after a history: the text and the order of what
    stands in front of the port rules do not matter. */
module Packets {
  import opened Nft
  import opened Names
  import opened Chains
  import opened Compiler
  import opened Config
  import opened Policy
  import opened Scope
  import opened Store
  import opened Generate
  import opened Outputs
  import opened Build
  import opened Manager
  import opened Order
  import opened Independence
  import opened Canonical
  import opened Confluence

  // ----- the text of a log prefix does not matter -----

  lemma {:induction false} StrippedRuns(es: seq<Expr>, regs: Regs, p: Packet, m: AddrMap)
    ensures Exec(StripExprs(es), regs, p, m) == Exec(es, regs, p, m)
  {
    if es != [] {
      assert StripExprs(es)[1..] == StripExprs(es[1..]);
      var r := ExecOne(es[0], regs, p, m);
      if r.Fell? { StrippedRuns(es[1..], r.regs, r.pkt, m); }
    }
  }

  lemma SameTextRuns(x: Rule, y: Rule, p: Packet, m: AddrMap)
    requires StripRule(x) == StripRule(y)
    ensures RunRule(x, p, m) == RunRule(y, p, m)
  {
    StrippedRuns(x.exprs, map[], p, m);
    StrippedRuns(y.exprs, map[], p, m);
  }

  lemma SameTextReturns(x: Rule, y: Rule)
    requires StripRule(x) == StripRule(y) && ReturnOnly(x)
    ensures ReturnOnly(y)
  {
    forall i | 0 <= i < |y.exprs| ensures StripExpr(x.exprs[i]) == StripExpr(y.exprs[i]) {
      assert StripRule(x).exprs[i] == StripRule(y).exprs[i];
    }
  }

  // ----- a container's chain -----

  lemma FrontOnlyReturns(w: World, order: seq<string>, id: string, front: seq<Rule>, x: Rule)
    requires ValidWorld(w) && IsFront(w, order, id, front) && x in front
    ensures ReturnOnly(x)
  {
    var c, r := ChainName(id), StripRule(x);
    assert Has(front, r);
    var rd: RuleDetails;
    if OwnFront(w, Processed(order), c, r) {
      var u: string;
      u, rd :| u in Processed(order) && OwnDetail(w, u, rd) && Contributes(rd, c, r);
      OwnIsValid(w, u, rd);
    } else {
      var u, v :| Later(order, u, v) && BetweenRule(w, u, v, c, r);
      rd :| Between(w, u, v, rd) && Contributes(rd, c, r);
      BetweenIsAllowing(w, u, v, rd);
    }
    AllowingRulesReturn(rd);
    var q :| q in RulesOf(rd) && q.chain == c && StripRule(q.rule) == r;
    SameTextReturns(q.rule, x);
  }

  lemma SameRulesDecide(a: seq<Rule>, b: seq<Rule>, p: Packet, m: AddrMap)
    requires forall r :: Has(a, r) ==> Has(b, r)
    ensures SomeDecides(a, p, m) ==> SomeDecides(b, p, m)
  {
    if x :| x in a && RunRule(x, p, m).Decided? {
      assert Has(a, StripRule(x));
      var y :| y in b && StripRule(y) == StripRule(x);
      SameTextRuns(x, y, p, m);
    }
  }

  /** What a container's chain does: if any rule in front matches, the packet is
      let through; else the port rules decide in their order, and the drop. */
  lemma ShapeDecides(w: World, order: seq<string>, id: string, fw: Fw, p: Packet, m: AddrMap) returns (front: seq<Rule>)
    requires ValidWorld(w) && HasShape(w, order, id, fw)
    ensures IsFront(w, order, id, front) && fw.chains[ChainName(id)] == front + Tail(w, id)
    ensures FirstVerdict(fw.chains[ChainName(id)], p, m) == if SomeDecides(front, p, m) then Returned else FirstVerdict(Tail(w, id), p, m)
  {
    front :| IsFront(w, order, id, front) && fw.chains[ChainName(id)] == front + Tail(w, id);
    forall x | x in front ensures ReturnOnly(x) { FrontOnlyReturns(w, order, id, front, x); }
    ReturnsFirst(front, Tail(w, id), p, m);
  }

  lemma ChainsDecideAlike(w: World, a: seq<string>, b: seq<string>, id: string, fa: Fw, fb: Fw, p: Packet, m: AddrMap)
    requires ValidWorld(w) && Symmetric(w) && Processed(a) == Processed(b) && HasShape(w, a, id, fa) && HasShape(w, b, id, fb)
    ensures FirstVerdict(fa.chains[ChainName(id)], p, m) == FirstVerdict(fb.chains[ChainName(id)], p, m)
  {
    var x := ShapeDecides(w, a, id, fa, p, m);
    var y := ShapeDecides(w, b, id, fb, p, m);
    forall r ensures Has(x, r) <==> Has(y, r) {
      if FrontRule(w, a, ChainName(id), r) { FrontsAgree(w, a, b, ChainName(id), r); }
      if FrontRule(w, b, ChainName(id), r) { FrontsAgree(w, b, a, ChainName(id), r); }
    }
    SameRulesDecide(x, y, p, m);
    SameRulesDecide(y, x, p, m);
  }

  lemma ShapeIsPlain(w: World, order: seq<string>, id: string, fw: Fw)
    requires ValidWorld(w) && HasShape(w, order, id, fw)
    ensures AllPlain(fw.chains[ChainName(id)])
  {
    var empty: Packet := Packet([], [], 0, CtInvalid, []);
    var front := ShapeDecides(w, order, id, fw, empty, map[]);
    var rules := fw.chains[ChainName(id)];
    DropRuleDropsEverything(id, empty, map[]);
    forall i | 0 <= i < |rules| ensures PlainRule(rules[i]) {
      if i < |front| { FrontOnlyReturns(w, order, id, front, front[i]); }
      else if i < |rules| - 1 {
        assert rules[i] == PortRules(w, id, ChainName(id))[i - |front|];
        PortRulesAreOwn(w, id, ChainName(id), rules[i]);
      }
    }
  }

  // ----- the whole ruleset -----

  lemma MappedChain(w: World, order: seq<string>, fw: Fw, t: Tables, k: Key) returns (id: string)
    requires ValidWorld(w) && StateAfter(w, order, fw, t) && k in Mapping(fw)
    ensures id in Processed(order) && HasShape(w, order, id, fw) && Mapping(fw)[k] == GotoChain(id)
  {
    id :| id in Processed(order) && HasAddress(w, id, k);
  }

  lemma MatchesIsPlain(w: World, order: seq<string>, fw: Fw, t: Tables)
    requires ValidWorld(w) && StateAfter(w, order, fw, t)
    ensures MapPlain(fw)
  {
    forall k | k in Mapping(fw)
      ensures Mapping(fw)[k].kind == VGoto && Mapping(fw)[k].chain in fw.chains && AllPlain(fw.chains[Mapping(fw)[k].chain])
    {
      var id := MappedChain(w, order, fw, t, k);
      ShapeIsPlain(w, order, id, fw);
    }
  }

  lemma MapsAgree(w: World, P: set<string>, a: AddrMap, b: AddrMap)
    requires MapMatches(w, P, a) && MapMatches(w, P, b)
    ensures a == b
  {
    EntriesAgree(w, P, a, b);
    EntriesAgree(w, P, b, a);
    SameEntries(a, b);
  }

  lemma SameEntries(a: AddrMap, b: AddrMap)
    requires (forall k :: k in a ==> k in b && b[k] == a[k]) && forall k :: k in b ==> k in a
    ensures a == b
  {
  }

  lemma EntriesAgree(w: World, P: set<string>, a: AddrMap, b: AddrMap)
    requires MapMatches(w, P, a) && MapMatches(w, P, b)
    ensures forall k :: k in a ==> k in b && b[k] == a[k]
  {
    forall k | k in a ensures k in b && b[k] == a[k] {
      var id :| id in P && HasAddress(w, id, k);
    }
  }

  lemma MainsDecideAlike(w: World, P: set<string>, a: seq<Rule>, b: seq<Rule>, p: Packet, m: AddrMap)
    requires MainShape(w, P, a) && MainShape(w, P, b)
    ensures (exists i :: 2 <= i < |a| && RunRule(a[i], p, m).Decided?) ==> exists i :: 2 <= i < |b| && RunRule(b[i], p, m).Decided?
  {
    if i :| 2 <= i < |a| && RunRule(a[i], p, m).Decided? {
      assert a[2..][i - 2] == a[i];
      assert a[i] in b[2..];
      var j :| 0 <= j < |b[2..]| && b[2..][j] == a[i];
      assert b[j + 2] == a[i];
    }
  }

  /** For every packet, two histories that processed the same containers end with
      rulesets that drop it or let it through alike, if no rule is installed from
      one side only. */
  lemma EveryPacketIsTreatedAlike(w: World, a: seq<string>, as_: seq<Moment>, b: seq<string>, bs: seq<Moment>, p: Packet, depth: nat)
    requires ValidWorld(w) && Covered(w) && IsHistory(w, a, as_) && IsHistory(w, b, bs) && Processed(a) == Processed(b) && depth >= 1
    ensures var fa, fb := as_[|a|].fw, bs[|b|].fw;
            && MAIN in fa.chains && MAIN in fb.chains
            && Walk(fa, fa.chains[MAIN], p, depth) == Walk(fb, fb.chains[MAIN], p, depth)
  {
    SymmetricExactly(w);
    HistoryIsCanonical(w, a, as_);
    HistoryIsCanonical(w, b, bs);
    EndsDecideAlike(w, a, as_[|a|], b, bs[|b|], p, depth);
  }

  lemma EndsDecideAlike(w: World, a: seq<string>, x: Moment, b: seq<string>, y: Moment, p: Packet, depth: nat)
    requires ValidWorld(w) && Symmetric(w) && Processed(a) == Processed(b) && depth >= 1
    requires StateAfter(w, a, x.fw, x.t) && StateAfter(w, b, y.fw, y.t)
    ensures Walk(x.fw, x.fw.chains[MAIN], p, depth) == Walk(y.fw, y.fw.chains[MAIN], p, depth)
  {
    MatchesIsPlain(w, a, x.fw, x.t);
    MatchesIsPlain(w, b, y.fw, y.t);
    DispatchRefinesSpec(x.fw, x.fw.chains[MAIN], p, depth);
    DispatchRefinesSpec(y.fw, y.fw.chains[MAIN], p, depth);
    MapsAgree(w, Processed(a), Mapping(x.fw), Mapping(y.fw));
    forall k | k in Mapping(x.fw) ensures ChainDecides(x.fw, k, p) == ChainDecides(y.fw, k, p) {
      var id := MappedChain(w, a, x.fw, x.t, k);
      assert HasShape(w, b, id, y.fw);
      ChainsDecideAlike(w, a, b, id, x.fw, y.fw, p, Mapping(x.fw));
    }
    MainsDecideAlike(w, Processed(a), x.fw.chains[MAIN], y.fw.chains[MAIN], p, Mapping(x.fw));
    MainsDecideAlike(w, Processed(a), y.fw.chains[MAIN], x.fw.chains[MAIN], p, Mapping(x.fw));
  }

  // ----- one creation -----

  /** A valid description whose rules go into container chains. */
  predicate Placeable(rd: RuleDetails)
  {
    ValidDetails(rd) && HasPrefix(rd.chain) && HasPrefix(ReplyChain(rd))
  }

  lemma ChainNamesHavePrefix()
    ensures forall id :: HasPrefix(ChainName(id))
  {
    forall id ensures HasPrefix(ChainName(id)) { ChainNameDeterminesID(ChainName(id), id); }
  }

  lemma EdgeParts(now: Snapshot, self: Self, row: Waiting)
    ensures var wait := WaitOn(now, self, row);
            wait.Edge? ==> wait.rd.chain == ChainName(row.src) && wait.rd.estChain.Some? && wait.rd.estChain.value == ChainName(self.id)
                           && wait.rd.cfg.verdict == row.rule.verdict
  {
  }

  lemma WaitingIsPlaceable(now: Snapshot, self: Self, rows: set<Waiting>, rd: RuleDetails)
    requires WaitingWanted(now, self, rows, rd) && !rd.cfg.verdict.drop
    ensures Placeable(rd)
  {
    var row :| row in rows && Aliased(self, row) && WaitOn(now, self, row) == Edge(rd);
    EdgeParts(now, self, row);
    EdgeIsValid(now, self, row);
    ChainNamesHavePrefix();
  }

  lemma OutputIsPlaceable(self: Self, addrs: map<string, Key>, cfgs: seq<RuleConfig>, rd: RuleDetails)
    requires ValidKeys(addrs) && (forall i :: 0 <= i < |cfgs| ==> ValidRule(cfgs[i])) && OutputWanted(self, addrs, cfgs, rd)
    ensures Placeable(rd)
  {
    var i :| 0 <= i < |cfgs| && OutputDetails(self, addrs, cfgs[i]).Some? && rd in OutputDetails(self, addrs, cfgs[i]).value;
    DetailsValid(self, addrs, cfgs[i]);
    ChainNamesHavePrefix();
  }

  lemma FrontRulesArePlaceable(now: Snapshot, before: Tables, self: Self, addrs: map<string, Key>, p: PolicyLabel,
                         rds: seq<RuleDetails>, est: set<string>, after: Tables)
    requires Built(now, before, self, addrs, p, rds, est, after) && ParsedPolicy(p) && DockerIDs(now) && ValidKeys(addrs)
    ensures forall rd :: rd in Front(rds, self, p) ==> Placeable(rd) && !rd.cfg.verdict.drop
  {
    OutputRulesValid(self.id, p);
    AllFilledValid(now, before.containers.Keys, self, OutputRules(p));
    var cfgs := FillAll(now, before.containers.Keys, self, OutputRules(p)).value.cfgs;
    forall i | 0 <= i < |cfgs| ensures ValidRule(cfgs[i]) { assert FilledRule(cfgs[i]); }
    forall rd | rd in Front(rds, self, p) ensures Placeable(rd) {
      if WaitingWanted(now, self, after.waiting, rd) { WaitingIsPlaceable(now, self, after.waiting, rd); }
      else { OutputIsPlaceable(self, addrs, cfgs, rd); }
    }
  }

  lemma FrontPlaced(front: seq<RuleDetails>, c: string)
    requires forall rd :: rd in front ==> Placeable(rd) && !rd.cfg.verdict.drop
    ensures forall r :: r in PlacedIn(Compiled(front), c) ==> ReturnOnly(r)
    ensures c == MAIN ==> PlacedIn(Compiled(front), c) == []
  {
    PlacedInContents(Compiled(front), c);
    CompiledContents(front);
    ChainNameDeterminesID(MAIN, "");
    forall r | r in PlacedIn(Compiled(front), c) ensures ReturnOnly(r) && c != MAIN {
      var i :| 0 <= i < |front| && Placed(c, r) in RulesOf(front[i]);
      assert front[i] in front;
      AllowingRulesReturn(front[i]);
      ValidDetailsCompile(front[i]);
    }
    if PlacedIn(Compiled(front), c) != [] { assert PlacedIn(Compiled(front), c)[0] in PlacedIn(Compiled(front), c); }
  }

  lemma SameFrontsPlaceTheSame(a: seq<RuleDetails>, b: seq<RuleDetails>, c: string)
    requires forall rd :: rd in a ==> rd in b
    ensures forall r :: r in PlacedIn(Compiled(a), c) ==> r in PlacedIn(Compiled(b), c)
  {
    PlacedInContents(Compiled(a), c);
    PlacedInContents(Compiled(b), c);
    CompiledContents(a);
    CompiledContents(b);
    forall r | r in PlacedIn(Compiled(a), c) ensures r in PlacedIn(Compiled(b), c) {
      var i :| 0 <= i < |a| && Placed(c, r) in RulesOf(a[i]);
      assert a[i] in b;
      var j :| 0 <= j < |b| && b[j] == a[i];
      assert Placed(c, r) in RulesOf(b[j]);
    }
  }

  /** One chain under two replacements whose descriptions differ only in the order
      and number of those in front of the port rules. */
  lemma ReplacementsDecideAlike(rules: seq<Rule>, c: string, id: string, a: seq<RuleDetails>, b: seq<RuleDetails>, ports: seq<RuleDetails>,
                                p: Packet, m: AddrMap)
    requires forall rd :: rd in a ==> Placeable(rd) && !rd.cfg.verdict.drop
    requires forall rd :: rd in a <==> rd in b
    ensures var x, y := ReplacedRules(rules, c, id, Compiled(a + ports)), ReplacedRules(rules, c, id, Compiled(b + ports));
            FirstVerdict(x, p, m) == FirstVerdict(y, p, m) && (c == MAIN ==> x == y)
  {
    FrontPlaced(a, c);
    FrontPlaced(b, c);
    SameFrontsPlaceTheSame(a, b, c);
    SameFrontsPlaceTheSame(b, a, c);
    PlacedInParts(a, ports, c);
    PlacedInParts(b, ports, c);
    ChainNameDeterminesID(MAIN, id);
    var x, y, placed := PlacedIn(Compiled(a), c), PlacedIn(Compiled(b), c), PlacedIn(Compiled(ports), c);
    if c != MAIN {
      var rest := placed + if c == ChainName(id) then [DropRule(id)] else if Owned(c) then Without(rules, {id}) else rules;
      RestApart(rules, c, id, x, placed, Compiled(a + ports));
      RestApart(rules, c, id, y, placed, Compiled(b + ports));
      ReturnsCommute(x, y, rest, p, m);
    }
  }

  lemma RestApart(rules: seq<Rule>, c: string, id: string, x: seq<Rule>, placed: seq<Rule>, desired: seq<Placed>)
    requires c != MAIN && PlacedIn(desired, c) == x + placed
    ensures ReplacedRules(rules, c, id, desired)
            == x + (placed + if c == ChainName(id) then [DropRule(id)] else if Owned(c) then Without(rules, {id}) else rules)
  {
  }

  /** What a successful creation commits is determined as far as any packet can
      tell: chain by chain, and with it the map, the main chain and the database. */
  lemma CreatedDecidesAlike(now: Snapshot, c: Container, quarantineFirst: bool, fw: Fw, t: Tables, f1: Fw, t1: Tables, f2: Fw, t2: Tables,
                            chain: string, p: Packet, m: AddrMap)
    requires Proper(c) && DockerIDs(now)
    requires Created(now, c, quarantineFirst, fw, t, f1, t1) && Created(now, c, quarantineFirst, fw, t, f2, t2)
    ensures t1 == t2 && f1.addrs == f2.addrs && f1.chains.Keys == f2.chains.Keys
    ensures chain in f1.chains ==> FirstVerdict(f1.chains[chain], p, m) == FirstVerdict(f2.chains[chain], p, m)
    ensures MAIN in f1.chains ==> f1.chains[MAIN] == f2.chains[MAIN]
  {
    var self, keys := SelfOf(c), PolicyKeys(c);
    var recorded := MetadataReplaced(t, c.id, self.name, c.service, keys);
    var base := Remapped(FloorInstalled(fw, c.id, quarantineFirst), c.id, keys);
    var rds1, est1, after1 :| && Built(now, recorded, self, Collected(self.networks), c.policy, rds1, est1, after1)
                              && t1 == EstAdded(after1, c.id, est1) && f1 == PolicyReplaced(base, c.id, Compiled(rds1));
    var rds2, est2, after2 :| && Built(now, recorded, self, Collected(self.networks), c.policy, rds2, est2, after2)
                              && t2 == EstAdded(after2, c.id, est2) && f2 == PolicyReplaced(base, c.id, Compiled(rds2));
    FrontRulesArePlaceable(now, recorded, self, Collected(self.networks), c.policy, rds1, est1, after1);
    var a, b, ports := Front(rds1, self, c.policy), Front(rds2, self, c.policy), PortDetails(self, c.policy);
    forall x | x in base.chains ensures FirstVerdict(f1.chains[x], p, m) == FirstVerdict(f2.chains[x], p, m) && (x == MAIN ==> f1.chains[x] == f2.chains[x]) {
      ReplacementsDecideAlike(base.chains[x], x, c.id, a, b, ports, p, m);
    }
  }
}
