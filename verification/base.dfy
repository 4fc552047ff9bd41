/** Creation and repair of the base rules: the jumps from Docker's and the
    host's hooks, the dispatching main chain, and the address map. */
module Base {
  import opened Nft
  import opened Names
  import opened Chains
  import opened Wrappers
  import opened Policy
  import opened Kernel
  import opened Engine
  import opened Mappings

  // ----- the repaired form -----

  /** The jump first, then the chain's other rules in order. */
  function JumpFirst(rules: seq<Rule>): seq<Rule>
  {
    [JumpRule(MAIN)] + Kept(rules, CopiesOf(JumpRule(MAIN)))
  }

  /** Source dispatcher, destination dispatcher, then the safe drops in order. */
  function DispatchersFirst(rules: seq<Rule>): seq<Rule>
  {
    [SrcDispatcher(), DstDispatcher()] + Kept(rules, NotSafe)
  }

  function RulesIn(fw: Fw, c: string): seq<Rule>
  {
    if c in fw.chains then fw.chains[c] else []
  }

  function BaseRepaired(fw: Fw): Fw
  {
    Fw(fw.chains[DOCKER_USER := JumpFirst(RulesIn(fw, DOCKER_USER))]
                [INPUT := JumpFirst(RulesIn(fw, INPUT))]
                [OUTPUT := JumpFirst(RulesIn(fw, OUTPUT))]
                [MAIN := DispatchersFirst(RulesIn(fw, MAIN))],
       fw.irregular + {INPUT, OUTPUT},
       Some(Mapping(fw)))
  }

  /** isUnconditionalJump: counters, and one final jump. */
  predicate IsUnconditionalJump(r: Rule, target: string)
  {
    && r.exprs != []
    && (forall i :: 0 <= i < |r.exprs| - 1 ==> r.exprs[i].Counter?)
    && r.exprs[|r.exprs| - 1] == Verdict(VJump, target)
  }

  /** When the base can be repaired: Docker's integration is present, the hooks
      are hooks and the owned chain is not, and the map has no foreign entry. */
  predicate Repairable(fw: Fw)
  {
    && HooksUsable(fw)
    && AllReadable(Mapping(fw))
    && (MAIN in fw.chains ==> MAIN !in fw.irregular)
  }

  predicate AllReadable(m: AddrMap)
  {
    forall k :: k in m ==> ReadableVerdict(m[k])
  }

  predicate HooksUsable(fw: Fw)
  {
    && DOCKER_USER in fw.chains && DOCKER_USER !in fw.irregular
    && FORWARD in fw.chains && FORWARD in fw.irregular
    && fw.chains[FORWARD] != [] && IsUnconditionalJump(fw.chains[FORWARD][0], DOCKER_USER)
    && (INPUT in fw.chains ==> INPUT in fw.irregular)
    && (OUTPUT in fw.chains ==> OUTPUT in fw.irregular)
  }

  // ----- normal form -----

  /** Exactly one jump, at the head. */
  ghost predicate JumpNormal(rules: seq<Rule>)
  {
    rules != [] && rules[0] == JumpRule(MAIN) && forall i :: 1 <= i < |rules| ==> rules[i] != JumpRule(MAIN)
  }

  ghost predicate HookNormal(fw: Fw, c: string)
  {
    c in fw.chains && JumpNormal(fw.chains[c])
  }

  ghost predicate HooksNormal(fw: Fw)
  {
    HookNormal(fw, DOCKER_USER) && HookNormal(fw, INPUT) && HookNormal(fw, OUTPUT)
  }

  ghost predicate BaseNormal(fw: Fw)
  {
    HooksNormal(fw) && MAIN in fw.chains && MainNormal(fw.chains[MAIN]) && fw.addrs.Some?
  }

  lemma JumpFirstIsNormal(rules: seq<Rule>)
    ensures JumpNormal(JumpFirst(rules))
    ensures JumpNormal(rules) ==> JumpFirst(rules) == rules
  {
    var sel := CopiesOf(JumpRule(MAIN));
    KeptContents(rules, sel);
    var kept := Kept(rules, sel);
    forall i | 1 <= i < |JumpFirst(rules)| ensures JumpFirst(rules)[i] != JumpRule(MAIN) {
      assert JumpFirst(rules)[i] == kept[i - 1] && kept[i - 1] in kept;
    }
    if JumpNormal(rules) {
      assert rules == [rules[0]] + rules[1..];
      KeptAppend([rules[0]], rules[1..], sel);
      KeptAll(rules[1..], sel);
      assert Kept([rules[0]], sel) == [];
    }
  }

  lemma DispatchersAreUnsafe()
    ensures !SafeOwnedDrop(SrcDispatcher()) && !SafeOwnedDrop(DstDispatcher())
  {
  }

  lemma DispatchersFirstIsNormal(rules: seq<Rule>)
    ensures MainNormal(DispatchersFirst(rules))
    ensures MainNormal(rules) ==> DispatchersFirst(rules) == rules
  {
    KeptContents(rules, NotSafe);
    var kept := Kept(rules, NotSafe);
    forall i | 2 <= i < |DispatchersFirst(rules)| ensures SafeOwnedDrop(DispatchersFirst(rules)[i]) {
      assert DispatchersFirst(rules)[i] == kept[i - 2] && kept[i - 2] in kept;
    }
    if MainNormal(rules) {
      DispatchersAreUnsafe();
      var drops := rules[2..];
      assert rules == [rules[0]] + ([rules[1]] + drops);
      KeptAppend([rules[0]], [rules[1]] + drops, NotSafe);
      KeptAppend([rules[1]], drops, NotSafe);
      KeptAll(drops, NotSafe);
      assert Kept([rules[0]], NotSafe) == [] && Kept([rules[1]], NotSafe) == [];
    }
  }

  /** A repair yields the normal form, leaves the container chains, their
      mappings and foreign chains as they are, and changes nothing the second
      time. */
  lemma RepairReachesNormalForm(fw: Fw)
    ensures BaseNormal(BaseRepaired(fw))
    ensures BaseRepaired(BaseRepaired(fw)) == BaseRepaired(fw)
    ensures Mapping(BaseRepaired(fw)) == Mapping(fw)
    ensures forall c :: c in fw.chains && c != DOCKER_USER && c != INPUT && c != OUTPUT && c != MAIN ==>
              c in BaseRepaired(fw).chains && BaseRepaired(fw).chains[c] == fw.chains[c]
  {
    var r := BaseRepaired(fw);
    BaseNamesDiffer();
    JumpFirstIsNormal(RulesIn(fw, DOCKER_USER));
    JumpFirstIsNormal(RulesIn(fw, INPUT));
    JumpFirstIsNormal(RulesIn(fw, OUTPUT));
    DispatchersFirstIsNormal(RulesIn(fw, MAIN));
    JumpFirstIsNormal(RulesIn(r, DOCKER_USER));
    JumpFirstIsNormal(RulesIn(r, INPUT));
    JumpFirstIsNormal(RulesIn(r, OUTPUT));
    DispatchersFirstIsNormal(RulesIn(r, MAIN));
    assert BaseRepaired(r).chains == r.chains;
  }

  lemma BaseNamesDiffer()
    ensures DOCKER_USER != INPUT && DOCKER_USER != OUTPUT && DOCKER_USER != MAIN && DOCKER_USER != FORWARD
    ensures INPUT != OUTPUT && INPUT != MAIN && INPUT != FORWARD && OUTPUT != MAIN && OUTPUT != FORWARD && FORWARD != MAIN
  {
    assert |DOCKER_USER| == 11 && |INPUT| == 5 && |OUTPUT| == 6 && |MAIN| == 9 && |FORWARD| == 7;
  }

  /** Repairing keeps every safe drop the port mapper put in the main chain. */
  lemma RepairKeepsSafeDrops(fw: Fw, r: Rule)
    requires MAIN in fw.chains && r in fw.chains[MAIN] && SafeOwnedDrop(r)
    ensures r in BaseRepaired(fw).chains[MAIN]
  {
    KeptContents(fw.chains[MAIN], NotSafe);
  }

  /** A repair takes no rule out of a hook but copies of its own jump; behind a jump
      that is missing the hook's rules follow as they were. */
  lemma RepairKeepsHookRules(fw: Fw, c: string)
    requires c in fw.chains && (c == DOCKER_USER || c == INPUT || c == OUTPUT)
    ensures c in BaseRepaired(fw).chains
    ensures var now, was := BaseRepaired(fw).chains[c], fw.chains[c];
            && (forall r :: r != JumpRule(MAIN) ==> (r in now <==> r in was))
            && (JumpRule(MAIN) !in was ==> now == [JumpRule(MAIN)] + was)
  {
    BaseNamesDiffer();
    KeptContents(fw.chains[c], CopiesOf(JumpRule(MAIN)));
    if JumpRule(MAIN) !in fw.chains[c] { KeptAll(fw.chains[c], CopiesOf(JumpRule(MAIN))); }
  }

  /** A repair keeps a good state good, and brings a state without container
      chains into one. */
  lemma RepairKeepsGood(fw: Fw)
    requires Good(fw) || (Mapping(fw) == map[] && forall id :: ValidID(id) ==> ChainName(id) !in fw.chains)
    ensures Good(BaseRepaired(fw))
  {
    var next := BaseRepaired(fw);
    RepairReachesNormalForm(fw);
    forall c | c in next.chains && HasPrefix(c)
      ensures c in fw.chains && next.chains[c] == fw.chains[c]
    {
      BaseChainsAreForeign();
      ChainNameDeterminesID(MAIN, "");
    }
    forall id ensures HasPrefix(ChainName(id)) { ChainNameDeterminesID(ChainName(id), id); }
    forall id | IsContainerChain(next, id) ensures IsContainerChain(fw, id) {}
    forall k | k in Mapping(fw) ensures HasPrefix(Mapping(fw)[k].chain) && Mapping(fw)[k].chain in next.chains {
      ChainNameDeterminesID(Mapping(fw)[k].chain, ContainerID(Mapping(fw)[k].chain).value);
    }
    forall id, r | IsContainerChain(next, id) && r in next.chains[ChainName(id)] && r.tag != id
      ensures exists rd :: HalfOf(next, id, r, rd)
    {
      var rd :| HalfOf(fw, id, r, rd);
      RepairKeepsHalf(fw, next, id, r, rd);
    }
  }

  // ----- what every hook does -----

  lemma {:induction false} CountersThenJump(es: seq<Expr>, target: string, regs: Regs, p: Packet, m: AddrMap)
    requires es != [] && (forall i :: 0 <= i < |es| - 1 ==> es[i].Counter?) && es[|es| - 1] == Verdict(VJump, target)
    ensures Exec(es, regs, p, m) == Decided(VJump, target, p)
  {
    if |es| > 1 { CountersThenJump(es[1..], target, regs, p, m); }
  }

  /** A chain that begins with an unconditional jump drops what the target drops. */
  lemma JumpsFirst(fw: Fw, rules: seq<Rule>, target: string, p: Packet, depth: nat)
    requires rules != [] && IsUnconditionalJump(rules[0], target) && target in fw.chains && depth >= 1
    requires Walk(fw, fw.chains[target], p, depth - 1) == Dropped
    ensures Walk(fw, rules, p, depth) == Dropped
  {
    CountersThenJump(rules[0].exprs, target, map[], p, Mapping(fw));
  }

  /** After a repair, a packet that Whalewall drops is dropped in every hook: what is
      forwarded, what comes in, and what goes out. */
  lemma EveryHookIsGuarded(fw: Fw, p: Packet, depth: nat)
    requires Repairable(fw) && (Good(fw) || (Mapping(fw) == map[] && forall id :: ValidID(id) ==> ChainName(id) !in fw.chains))
    requires depth >= 3
    ensures var next := BaseRepaired(fw);
            && MAIN in next.chains && INPUT in next.chains && OUTPUT in next.chains && FORWARD in next.chains
            && (Walk(next, next.chains[MAIN], p, 1) == Dropped ==>
                  && Walk(next, next.chains[INPUT], p, depth) == Dropped && Walk(next, next.chains[OUTPUT], p, depth) == Dropped
                  && Walk(next, next.chains[FORWARD], p, depth) == Dropped)
  {
    var next := BaseRepaired(fw);
    BaseNamesDiffer();
    RepairReachesNormalForm(fw);
    RepairKeepsGood(fw);
    GoodMapsArePlain(next);
    if Walk(next, next.chains[MAIN], p, 1) == Dropped {
      DispatchRefinesSpec(next, next.chains[MAIN], p, 1);
      DispatchRefinesSpec(next, next.chains[MAIN], p, depth - 1);
      DispatchRefinesSpec(next, next.chains[MAIN], p, depth - 2);
      JumpsFirst(next, next.chains[INPUT], MAIN, p, depth);
      JumpsFirst(next, next.chains[OUTPUT], MAIN, p, depth);
      JumpsFirst(next, next.chains[DOCKER_USER], MAIN, p, depth - 1);
      JumpsFirst(next, next.chains[FORWARD], DOCKER_USER, p, depth);
    }
  }

  lemma RepairKeepsHalf(fw: Fw, next: Fw, id: string, r: Rule, rd: Compiler.RuleDetails)
    requires HalfOf(fw, id, r, rd)
    requires forall c :: c in fw.chains && HasPrefix(c) ==> c in next.chains && next.chains[c] == fw.chains[c]
    ensures HalfOf(next, id, r, rd)
  {
    forall q | q in Compiler.CreateNFTRules(rd).value ensures HasPrefix(q.chain) {
      EdgeRuleTags(rd, q);
      ChainNameDeterminesID(q.chain, rd.estContID);
      ChainNameDeterminesID(q.chain, rd.contID);
    }
  }

  // ----- ensureJumpAtHead, ensureDispatchersAtHead -----

  function CountCopies(hs: seq<HRule>, r: Rule): nat
  {
    if hs == [] then 0 else CountCopies(hs[..|hs| - 1], r) + (if RulesEqual(r, hs[|hs| - 1].rule) then 1 else 0)
  }

  lemma {:induction false} OnlyCopy(hs: seq<HRule>, r: Rule, k: nat)
    requires forall q :: RulesEqual(r, q) <==> q == r
    ensures CountCopies(hs, r) == 0 <==> forall i :: 0 <= i < |hs| ==> hs[i].rule != r
    ensures k < |hs| && hs[k].rule == r ==>
              (CountCopies(hs, r) == 1 <==> forall i :: 0 <= i < |hs| && i != k ==> hs[i].rule != r)
  {
    if hs != [] { OnlyCopy(hs[..|hs| - 1], r, k); }
  }

  method CountMatches(hs: seq<HRule>, r: Rule) returns (n: nat)
    ensures n == CountCopies(hs, r)
  {
    n := 0;
    for i := 0 to |hs|
      invariant n == CountCopies(hs[..i], r)
    {
      assert hs[..i + 1][..i] == hs[..i];
      if RulesEqual(r, hs[i].rule) { n := n + 1; }
    }
    assert hs[..|hs|] == hs;
  }

  lemma JumpIsRecognised(r: Rule)
    ensures RulesEqual(JumpRule(MAIN), r) <==> r == JumpRule(MAIN)
    ensures RulesEqual(SrcDispatcher(), r) <==> r == SrcDispatcher()
    ensures RulesEqual(DstDispatcher(), r) <==> r == DstDispatcher()
  {
    RulesEqualIsEquality(JumpRule(MAIN), r);
    RulesEqualIsEquality(SrcDispatcher(), r);
    RulesEqualIsEquality(DstDispatcher(), r);
  }

  ghost predicate OthersKept(before: KState, after: KState, c: string)
  {
    after.chains.Keys == before.chains.Keys + {c}
    && forall x :: x in before.chains && x != c ==> after.chains[x] == before.chains[x]
  }

  ghost predicate Untouched(start: KState, now: KState, c: string)
  {
    && (c in start.chains <==> c in now.chains) && (c in start.chains ==> now.chains[c] == start.chains[c])
    && (c in start.irregular <==> c in now.irregular)
  }

  lemma StillUntouched(start: KState, before: KState, after: KState, touched: string, c: string)
    requires Untouched(start, before, c) && OthersKept(before, after, touched) && c != touched
    requires c in before.irregular <==> c in after.irregular
    ensures Untouched(start, after, c)
  {
  }

  method EnsureJumpAtHead(nfc: Conn, c: string, current: seq<HRule>)
    requires nfc.Pending().Some? && c in nfc.Pending().value.chains && MAIN in nfc.Pending().value.chains
    requires nfc.Pending().value.chains[c] == current
    requires forall i, j :: 0 <= i < j < |current| ==> current[i].handle != current[j].handle
    modifies nfc
    ensures nfc.Pending().Some?
    ensures View(nfc.Pending().value) == WithChain(View(old(nfc.Pending()).value), c, JumpFirst(Plain(current)))
    ensures OthersKept(old(nfc.Pending()).value, nfc.Pending().value, c)
    ensures JumpNormal(Plain(current)) ==> nfc.batch == old(nfc.batch)
  {
    ghost var p := nfc.Pending().value;
    var jump := JumpRule(MAIN);
    forall r ensures RulesEqual(jump, r) <==> r == jump { JumpIsRecognised(r); }
    JumpFirstIsNormal(Plain(current));
    OnlyCopy(current, jump, 0);
    var matchCount := CountMatches(current, jump);
    if matchCount == 1 && |current| != 0 && RulesEqual(jump, current[0].rule) {
      assert forall i :: 0 <= i < |current| ==> Plain(current)[i] == current[i].rule;
      assert WithChain(View(p), c, Plain(current)).chains == View(p).chains;
      return;
    }
    assert !JumpNormal(Plain(current)) by {
      assert forall i :: 0 <= i < |current| ==> Plain(current)[i] == current[i].rule;
    }
    DeleteMatching(nfc, c, current, CopiesOf(jump));
    HeadInserted(p, c, current, CopiesOf(jump), jump);
    nfc.Queue(InsertRule(c, jump));
  }

  lemma HeadInserted(p: KState, c: string, current: seq<HRule>, sel: Select, r: Rule)
    requires c in p.chains && Resolves(View(p), r)
    ensures var o := Apply(WithRules(p, c, Residue(current, sel)), InsertRule(c, r));
            && o.Some?
            && View(o.value) == WithChain(View(p), c, [r] + Kept(Plain(current), sel))
            && OthersKept(p, o.value, c)
  {
    ResidueView(current, sel);
    var mid := WithRules(p, c, Residue(current, sel));
    ViewWithChain(p, c, Residue(current, sel), p.next);
    ResolvesKeeps(View(p), c, Kept(Plain(current), sel), r);
    PrependOne(mid, c, r);
    assert WithChain(View(mid), c, [r] + Kept(Plain(current), sel)).chains
           == WithChain(View(p), c, [r] + Kept(Plain(current), sel)).chains;
  }

  /** Both dispatchers once, in front, and safe drops behind them. */
  method DispatchersIntact(current: seq<HRule>) returns (intact: bool)
    ensures intact <==> MainNormal(Plain(current))
  {
    var src, dst := SrcDispatcher(), DstDispatcher();
    forall r ensures RulesEqual(src, r) <==> r == src { JumpIsRecognised(r); }
    forall r ensures RulesEqual(dst, r) <==> r == dst { JumpIsRecognised(r); }
    DispatchersAreUnsafe();
    OnlyCopy(current, src, 0);
    OnlyCopy(current, dst, 1);
    var srcCount := CountMatches(current, src);
    var dstCount := CountMatches(current, dst);
    var allRemainderSafe := forall i :: 2 <= i < |current| ==> SafeOwnedDrop(current[i].rule);
    assert forall i :: 0 <= i < |current| ==> Plain(current)[i] == current[i].rule;
    intact := srcCount == 1 && dstCount == 1 && |current| >= 2 && RulesEqual(src, current[0].rule)
              && RulesEqual(dst, current[1].rule) && allRemainderSafe;
  }

  method EnsureDispatchersAtHead(nfc: Conn, current: seq<HRule>)
    requires nfc.Pending().Some? && MAIN in nfc.Pending().value.chains
    requires nfc.Pending().value.chains[MAIN] == current && nfc.Pending().value.addrs.Some?
    requires forall i, j :: 0 <= i < j < |current| ==> current[i].handle != current[j].handle
    modifies nfc
    ensures nfc.Pending().Some?
    ensures View(nfc.Pending().value) == WithChain(View(old(nfc.Pending()).value), MAIN, DispatchersFirst(Plain(current)))
    ensures MainNormal(Plain(current)) ==> nfc.batch == old(nfc.batch)
  {
    ghost var p := nfc.Pending().value;
    var intact := DispatchersIntact(current);
    if intact {
      DispatchersFirstIsNormal(Plain(current));
      assert WithChain(View(p), MAIN, Plain(current)).chains == View(p).chains;
      return;
    }
    DeleteMatching(nfc, MAIN, current, NotSafe);
    DispatchersInserted(p, current);
    nfc.Queue(InsertRule(MAIN, DstDispatcher()));
    nfc.Queue(InsertRule(MAIN, SrcDispatcher()));
  }

  lemma DispatchersInserted(p: KState, current: seq<HRule>)
    requires MAIN in p.chains && p.addrs.Some?
    ensures var o := Then(Apply(WithRules(p, MAIN, Residue(current, NotSafe)), InsertRule(MAIN, DstDispatcher())),
                          InsertRule(MAIN, SrcDispatcher()));
            o.Some? && View(o.value) == WithChain(View(p), MAIN, DispatchersFirst(Plain(current)))
  {
    HeadInserted(p, MAIN, current, NotSafe, DstDispatcher());
    var mid := Apply(WithRules(p, MAIN, Residue(current, NotSafe)), InsertRule(MAIN, DstDispatcher())).value;
    PrependOne(mid, MAIN, SrcDispatcher());
    var rules := Kept(Plain(current), NotSafe);
    assert [SrcDispatcher()] + ([DstDispatcher()] + rules) == DispatchersFirst(Plain(current));
    ReplacedTwice(View(p), MAIN, [DstDispatcher()] + rules, DispatchersFirst(Plain(current)));
  }

  lemma ReplacedTwice(fw: Fw, c: string, a: seq<Rule>, b: seq<Rule>)
    ensures WithChain(WithChain(fw, c, a), c, b) == WithChain(fw, c, b)
    ensures WithChain(fw, c, a).chains[c] == a && WithChain(fw, c, a).addrs == fw.addrs
  {
    assert fw.chains[c := a][c := b] == fw.chains[c := b];
  }

  // ----- createBaseRules -----

  function WithJump(fw: Fw, c: string): Fw
  {
    WithChain(fw, c, JumpFirst(RulesIn(fw, c))).(irregular := fw.irregular + {c})
  }

  /** A hook that may be missing, as INPUT and OUTPUT sometimes are. */
  method RepairHook(nfc: Conn, c: string, present: bool) returns (ok: bool)
    requires nfc.kernel.Valid() && nfc.Pending().Some?
    requires MAIN in nfc.Pending().value.chains
    requires Untouched(nfc.kernel.state, nfc.Pending().value, c)
    requires present <==> c in nfc.kernel.state.chains
    requires present ==> c in nfc.kernel.state.irregular
    modifies nfc, nfc.faults
    ensures ok ==> nfc.Pending().Some?
    ensures ok ==> View(nfc.Pending().value) == WithJump(View(old(nfc.Pending()).value), c)
    ensures ok ==> OthersKept(old(nfc.Pending()).value, nfc.Pending().value, c)
    ensures ok && HookNormal(View(nfc.kernel.state), c) ==> nfc.batch == old(nfc.batch)
    ensures old(nfc.faults.script) == [] ==> nfc.faults.script == [] && ok
  {
    ghost var p := nfc.Pending().value;
    if !present {
      nfc.Queue(AddChain(c, false));
      HookCreated(p, c);
      nfc.Queue(InsertRule(c, JumpRule(MAIN)));
      return true;
    }
    var rules := nfc.GetRules(c);
    if rules.Err? { return false; }
    assert DistinctHandles(rules.value, nfc.kernel.state.next);
    EnsureJumpAtHead(nfc, c, rules.value);
    assert p.irregular + {c} == p.irregular;
    return true;
  }

  lemma HookCreated(p: KState, c: string)
    requires c !in p.chains && MAIN in p.chains
    ensures var a := Apply(p, AddChain(c, false));
            var o := Then(a, InsertRule(c, JumpRule(MAIN)));
            && o.Some?
            && View(o.value) == WithJump(View(p), c)
            && OthersKept(p, o.value, c)
  {
    var a := Apply(p, AddChain(c, false)).value;
    PrependOne(a, c, JumpRule(MAIN));
    assert View(a).chains == View(p).chains[c := []];
    assert [JumpRule(MAIN)] + [] == JumpFirst([]);
    assert WithChain(View(a), c, JumpFirst([])).chains == WithChain(View(p), c, JumpFirst([])).chains;
  }

  /** The inspection of Docker's integration and of the host hooks. */
  method InspectHooks(nfc: Conn) returns (ok: bool, listing: Listing)
    modifies nfc.faults
    ensures ok ==> listing == Listing(nfc.kernel.state.chains.Keys, nfc.kernel.state.irregular)
    ensures ok ==> HooksUsable(View(nfc.kernel.state))
    ensures old(nfc.faults.script) == [] ==>
              nfc.faults.script == [] && (ok <==> HooksUsable(View(nfc.kernel.state)))
  {
    listing := Listing({}, {});
    ok := false;
    ghost var fw := View(nfc.kernel.state);
    assert fw.chains.Keys == nfc.kernel.state.chains.Keys && fw.irregular == nfc.kernel.state.irregular;
    var chains := nfc.ListChains();
    if chains.None? { return; }
    listing := chains.value;
    if DOCKER_USER !in listing.names || DOCKER_USER in listing.irregular { return; }
    if FORWARD !in listing.names || FORWARD !in listing.irregular { return; }
    var forwardRules := nfc.GetRules(FORWARD);
    if forwardRules.Err? { return; }
    if |forwardRules.value| == 0 || !IsUnconditionalJump(forwardRules.value[0].rule, DOCKER_USER) { return; }
    if INPUT in listing.names && INPUT !in listing.irregular { return; }
    if OUTPUT in listing.names && OUTPUT !in listing.irregular { return; }
    ok := true;
  }

  /** The inspection of the address map, before any repair is queued. */
  method InspectMap(nfc: Conn) returns (ok: bool, setMissing: bool)
    modifies nfc.faults
    ensures ok ==> (setMissing <==> nfc.kernel.state.addrs.None?)
    ensures ok ==> AllReadable(Mapping(View(nfc.kernel.state)))
    ensures old(nfc.faults.script) == [] ==>
              nfc.faults.script == [] && (ok <==> AllReadable(Mapping(View(nfc.kernel.state))))
  {
    var elements := nfc.GetSetElements();
    if elements.Err? { return elements.error == ENOENT, true; }
    setMissing := false;
    ok := AllReadable(elements.value);
  }

  /** One repair: inspect everything first, queue the repairs, flush once. An
      intact base is left untouched, handles included. */
  method CreateBaseRules(nfc: Conn) returns (ok: bool)
    requires nfc.kernel.Valid() && nfc.batch == []
    modifies nfc, nfc.kernel, nfc.faults
    ensures nfc.kernel.Valid()
    ensures !ok ==> nfc.kernel.state == old(nfc.kernel.state) && nfc.kernel.log == old(nfc.kernel.log)
    ensures ok ==> View(nfc.kernel.state) == BaseRepaired(old(View(nfc.kernel.state)))
    ensures ok ==> nfc.kernel.log == old(nfc.kernel.log) + [View(nfc.kernel.state)]
    ensures ok ==> Repairable(old(View(nfc.kernel.state)))
    ensures ok && BaseNormal(old(View(nfc.kernel.state))) ==> nfc.kernel.state == old(nfc.kernel.state)
    ensures old(nfc.faults.script) == [] ==>
              nfc.faults.script == [] && (ok <==> Repairable(old(View(nfc.kernel.state))))
  {
    ghost var start := nfc.kernel.state;
    var usable, listing := InspectHooks(nfc);
    if !usable { return false; }
    var readable, setMissing := InspectMap(nfc);
    if !readable { return false; }
    if MAIN in listing.names && MAIN in listing.irregular { return false; }
    var queued := QueueRepairs(nfc, listing, setMissing);
    if !queued { return false; }
    ok := nfc.Flush();
  }

  method QueueRepairs(nfc: Conn, listing: Listing, setMissing: bool) returns (ok: bool)
    requires nfc.kernel.Valid() && nfc.batch == [] && Repairable(View(nfc.kernel.state))
    requires listing == Listing(nfc.kernel.state.chains.Keys, nfc.kernel.state.irregular)
    requires setMissing <==> nfc.kernel.state.addrs.None?
    modifies nfc, nfc.faults
    ensures ok ==> nfc.Pending().Some? && View(nfc.Pending().value) == BaseRepaired(View(nfc.kernel.state))
    ensures ok && BaseNormal(View(nfc.kernel.state)) ==> nfc.batch == []
    ensures old(nfc.faults.script) == [] ==> nfc.faults.script == [] && ok
  {
    ghost var start := nfc.kernel.state;
    var mainChainRules := [];
    if MAIN !in listing.names {
      nfc.Queue(AddChain(MAIN, true));
    } else {
      var rules := nfc.GetRules(MAIN);
      if rules.Err? { return false; }
      mainChainRules := rules.value;
    }
    assert DistinctHandles(mainChainRules, start.next);
    ghost var p1 := nfc.Pending().value;
    MainPresent(start, p1, mainChainRules);
    var jumps := QueueJumps(nfc, listing);
    if !jumps { return false; }
    ghost var p4 := nfc.Pending().value;
    if setMissing { nfc.Queue(AddSet); }
    ghost var p5 := nfc.Pending().value;
    SetPresent(start, p4, p5, setMissing);
    EnsureDispatchersAtHead(nfc, mainChainRules);
    RepairsCompose(View(start), View(p1), View(p4), View(p5), View(nfc.Pending().value));
    return true;
  }

  method RepairDockerUser(nfc: Conn) returns (ok: bool)
    requires nfc.kernel.Valid() && nfc.Pending().Some?
    requires DOCKER_USER in nfc.kernel.state.chains && MAIN in nfc.Pending().value.chains
    requires DOCKER_USER in nfc.Pending().value.chains
             && nfc.Pending().value.chains[DOCKER_USER] == nfc.kernel.state.chains[DOCKER_USER]
    modifies nfc, nfc.faults
    ensures ok ==> nfc.Pending().Some?
    ensures ok ==> View(nfc.Pending().value) == WithDockerJump(View(old(nfc.Pending()).value))
    ensures ok ==> OthersKept(old(nfc.Pending()).value, nfc.Pending().value, DOCKER_USER)
    ensures ok && HookNormal(View(nfc.kernel.state), DOCKER_USER) ==> nfc.batch == old(nfc.batch)
    ensures old(nfc.faults.script) == [] ==> nfc.faults.script == [] && ok
  {
    var dockerRules := nfc.GetRules(DOCKER_USER);
    if dockerRules.Err? { return false; }
    assert DistinctHandles(dockerRules.value, nfc.kernel.state.next);
    EnsureJumpAtHead(nfc, DOCKER_USER, dockerRules.value);
    return true;
  }

  function WithDockerJump(fw: Fw): Fw
  {
    WithChain(fw, DOCKER_USER, JumpFirst(RulesIn(fw, DOCKER_USER)))
  }

  function WithJumps(fw: Fw): Fw
  {
    WithJump(WithJump(WithDockerJump(fw), INPUT), OUTPUT)
  }

  /** The jumps of the three hooks, none of which has been touched yet. */
  method QueueJumps(nfc: Conn, listing: Listing) returns (ok: bool)
    requires nfc.kernel.Valid() && HooksUsable(View(nfc.kernel.state)) && nfc.Pending().Some?
    requires MAIN in nfc.Pending().value.chains
    requires Untouched(nfc.kernel.state, nfc.Pending().value, DOCKER_USER)
    requires Untouched(nfc.kernel.state, nfc.Pending().value, INPUT)
    requires Untouched(nfc.kernel.state, nfc.Pending().value, OUTPUT)
    requires listing == Listing(nfc.kernel.state.chains.Keys, nfc.kernel.state.irregular)
    modifies nfc, nfc.faults
    ensures ok ==> nfc.Pending().Some? && View(nfc.Pending().value) == WithJumps(View(old(nfc.Pending()).value))
    ensures ok ==> MAIN in nfc.Pending().value.chains
                   && nfc.Pending().value.chains[MAIN] == old(nfc.Pending()).value.chains[MAIN]
    ensures ok && HooksNormal(View(nfc.kernel.state)) ==> nfc.batch == old(nfc.batch)
    ensures old(nfc.faults.script) == [] ==> nfc.faults.script == [] && ok
  {
    BaseNamesDiffer();
    HooksInListing(nfc.kernel.state);
    ghost var p1 := nfc.Pending().value;
    ok := RepairDockerUser(nfc);
    if !ok { return false; }
    ghost var p2 := nfc.Pending().value;
    assert p2.irregular == View(p2).irregular == View(p1).irregular;
    StillUntouched(nfc.kernel.state, p1, p2, DOCKER_USER, INPUT);
    StillUntouched(nfc.kernel.state, p1, p2, DOCKER_USER, OUTPUT);
    ok := RepairHook(nfc, INPUT, INPUT in listing.names);
    if !ok { return false; }
    ghost var p3 := nfc.Pending().value;
    assert p3.irregular == View(p3).irregular == p2.irregular + {INPUT};
    StillUntouched(nfc.kernel.state, p2, p3, INPUT, OUTPUT);
    ok := RepairHook(nfc, OUTPUT, OUTPUT in listing.names);
  }

  lemma HooksInListing(s: KState)
    requires HooksUsable(View(s))
    ensures DOCKER_USER in s.chains
    ensures (INPUT in s.chains ==> INPUT in s.irregular) && (OUTPUT in s.chains ==> OUTPUT in s.irregular)
  {
    assert View(s).chains.Keys == s.chains.Keys;
  }

  /** The queued repairs, one after the other, add up to the repaired form. */
  lemma RepairsCompose(v0: Fw, v1: Fw, v4: Fw, v5: Fw, v6: Fw)
    requires v1 == WithChain(v0, MAIN, RulesIn(v0, MAIN)) && v4 == WithJumps(v1)
    requires v5 == v4.(addrs := Some(Mapping(v0)))
    requires v6 == WithChain(v5, MAIN, DispatchersFirst(RulesIn(v0, MAIN)))
    ensures v6 == BaseRepaired(v0)
  {
    BaseNamesDiffer();
    var v2 := WithDockerJump(v1);
    var v3 := WithJump(v2, INPUT);
    assert RulesIn(v1, DOCKER_USER) == RulesIn(v0, DOCKER_USER);
    assert RulesIn(v2, INPUT) == RulesIn(v0, INPUT);
    assert RulesIn(v3, OUTPUT) == RulesIn(v0, OUTPUT);
    assert v6.chains == BaseRepaired(v0).chains;
    assert v6.irregular == BaseRepaired(v0).irregular;
  }

  /** The main chain exists, with the rules that were listed. */
  lemma MainPresent(start: KState, p: KState, rules: seq<HRule>)
    requires if MAIN in start.chains then p == start && rules == start.chains[MAIN]
             else Apply(start, AddChain(MAIN, true)) == Some(p) && rules == []
    ensures MAIN in p.chains && p.chains[MAIN] == rules && p.irregular == start.irregular && p.addrs == start.addrs
    ensures OthersKept(start, p, MAIN)
    ensures View(p) == WithChain(View(start), MAIN, RulesIn(View(start), MAIN))
    ensures Plain(rules) == RulesIn(View(start), MAIN)
  {
    assert View(p).chains == WithChain(View(start), MAIN, RulesIn(View(start), MAIN)).chains;
  }

  lemma SetPresent(start: KState, before: KState, after: KState, setMissing: bool)
    requires before.addrs == start.addrs && (setMissing <==> start.addrs.None?)
    requires if setMissing then Apply(before, AddSet) == Some(after) else after == before
    ensures View(after) == View(before).(addrs := Some(Mapping(View(start)))) && after.chains == before.chains
  {
  }
}
