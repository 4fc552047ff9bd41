/** What each committed batch does to the firewall state, and the invariants that
    every committed state of every run keeps. */
module Policy {
  import opened Bytes
  import opened Nft
  import opened Names
  import opened Chains
  import opened Compiler
  import opened Config
  import opened Wrappers

  type Key = seq<byte>

  // ----- selecting rules -----

  /** The deletion criteria: every rule, the rules of some containers, the copies
      of one rule, or whatever is not a safe owned drop. */
  datatype Select = Everything | Tagged(ids: set<string>) | CopiesOf(rule: Rule) | NotSafe

  predicate Selects(sel: Select, r: Rule)
  {
    match sel
    case Everything => true
    case Tagged(ids) => r.tag in ids
    case CopiesOf(q) => r == q
    case NotSafe => !SafeOwnedDrop(r)
  }

  /** The rules that are not selected, in order. */
  function Kept(rules: seq<Rule>, sel: Select): seq<Rule>
  {
    if rules == [] then []
    else (if Selects(sel, rules[0]) then [] else [rules[0]]) + Kept(rules[1..], sel)
  }

  lemma {:induction false} KeptContents(rules: seq<Rule>, sel: Select)
    ensures forall r :: r in Kept(rules, sel) <==> r in rules && !Selects(sel, r)
    ensures sel.Everything? ==> Kept(rules, sel) == []
  {
    if rules != [] { KeptContents(rules[1..], sel); }
  }

  lemma {:induction false} KeptAppend(a: seq<Rule>, b: seq<Rule>, sel: Select)
    ensures Kept(a + b, sel) == Kept(a, sel) + Kept(b, sel)
  {
    if a == [] {
      assert a + b == b;
    } else {
      var head := if Selects(sel, a[0]) then [] else [a[0]];
      KeptAppend(a[1..], b, sel);
      assert (a + b)[0] == a[0] && (a + b)[1..] == a[1..] + b;
      assert Kept(a + b, sel) == head + (Kept(a[1..], sel) + Kept(b, sel));
    }
  }

  lemma {:induction false} KeptAll(rules: seq<Rule>, sel: Select)
    requires forall i :: 0 <= i < |rules| ==> !Selects(sel, rules[i])
    ensures Kept(rules, sel) == rules
  {
    if rules != [] {
      KeptAll(rules[1..], sel);
      assert rules == [rules[0]] + rules[1..];
    }
  }

  /** The rules whose tag is not among `ids`, in order. */
  function Without(rules: seq<Rule>, ids: set<string>): seq<Rule>
  {
    Kept(rules, Tagged(ids))
  }

  lemma WithoutContents(rules: seq<Rule>, ids: set<string>)
    ensures forall r :: r in Without(rules, ids) <==> r in rules && r.tag !in ids
  {
    KeptContents(rules, Tagged(ids));
  }

  lemma WithoutAppend(a: seq<Rule>, b: seq<Rule>, ids: set<string>)
    ensures Without(a + b, ids) == Without(a, ids) + Without(b, ids)
  {
    KeptAppend(a, b, Tagged(ids));
  }

  /** The desired rules of one chain, in generation order. */
  function PlacedIn(desired: seq<Placed>, chain: string): seq<Rule>
  {
    if desired == [] then []
    else
      var n := |desired| - 1;
      PlacedIn(desired[..n], chain) + (if desired[n].chain == chain then [desired[n].rule] else [])
  }

  lemma {:induction false} PlacedInContents(desired: seq<Placed>, chain: string)
    ensures forall r :: r in PlacedIn(desired, chain) <==> Placed(chain, r) in desired
  {
    if desired != [] {
      var n := |desired| - 1;
      PlacedInContents(desired[..n], chain);
      assert desired == desired[..n] + [desired[n]];
    }
  }

  lemma {:induction false} PlacedInAppend(a: seq<Placed>, b: seq<Placed>, chain: string)
    ensures PlacedIn(a + b, chain) == PlacedIn(a, chain) + PlacedIn(b, chain)
  {
    if b == [] {
      assert a + b == a;
    } else {
      var n := |b| - 1;
      PlacedInAppend(a, b[..n], chain);
      assert (a + b)[..|a + b| - 1] == a + b[..n];
    }
  }

  // ----- the committed effect of each operation -----

  /** ensureContainerDropPolicy */
  function FloorInstalled(fw: Fw, id: string, quarantineFirst: bool): Fw
  {
    var c := ChainName(id);
    if c !in fw.chains then fw.(chains := fw.chains[c := [DropRule(id)]])
    else
      var rules := fw.chains[c];
      if rules != [] && rules[0] == DropRule(id) then fw
      else if !quarantineFirst && DropRule(id) in rules then fw
      else fw.(chains := fw.chains[c := [DropRule(id)] + rules])
  }

  /** One chain under replaceContainerPolicy: the own chain is rebuilt and ends
      with one drop; other owned chains lose the rules of `id`; generated rules
      go after the main chain's rules and before those of any other chain. */
  function ReplacedRules(rules: seq<Rule>, chain: string, id: string, desired: seq<Placed>): seq<Rule>
  {
    if chain == ChainName(id) then PlacedIn(desired, chain) + [DropRule(id)]
    else if chain == MAIN then Without(rules, {id}) + PlacedIn(desired, chain)
    else PlacedIn(desired, chain) + (if Owned(chain) then Without(rules, {id}) else rules)
  }

  /** replaceContainerPolicy */
  function PolicyReplaced(fw: Fw, id: string, desired: seq<Placed>): Fw
  {
    fw.(chains := map c | c in fw.chains :: ReplacedRules(fw.chains[c], c, id, desired))
  }

  /** The chains that lose an address to `id`. */
  function Displaced(m: AddrMap, id: string, keys: set<Key>): set<string>
  {
    set k | k in keys && k in m && m[k].chain != ChainName(id) :: m[k].chain
  }

  function DisplacedIDs(m: AddrMap, id: string, keys: set<Key>): set<string>
  {
    set k | k in keys && k in m && m[k].chain != ChainName(id) && ContainerID(m[k].chain).Some?
      :: ContainerID(m[k].chain).value
  }

  function RemappedMap(m: AddrMap, id: string, keys: set<Key>): AddrMap
  {
    (map k | k in m && m[k].chain != ChainName(id) && k !in keys :: m[k])
    + (map k | k in keys :: GotoChain(id))
  }

  function RemappedRules(rules: seq<Rule>, chain: string, displaced: set<string>, ids: set<string>): seq<Rule>
  {
    if chain in displaced && ContainerID(chain).Some? then [DropRule(ContainerID(chain).value)]
    else if Owned(chain) then Without(rules, ids)
    else rules
  }

  /** replaceContainerAddressMappings with quarantineDisplacedContainerPolicies */
  function Remapped(fw: Fw, id: string, keys: set<Key>): Fw
  {
    var m := Mapping(fw);
    var displaced, ids := Displaced(m, id, keys), DisplacedIDs(m, id, keys);
    fw.(chains := map c | c in fw.chains :: RemappedRules(fw.chains[c], c, displaced, ids),
        addrs := Some(RemappedMap(m, id, keys)))
  }

  /** Another container's deletion takes its rules out of an owned chain. */
  function SweptRules(rules: seq<Rule>, c: string, id: string): seq<Rule>
  {
    if Owned(c) && c != ChainName(id) then Without(rules, {id}) else rules
  }

  /** deleteContainerRulesUntracked */
  function Deleted(fw: Fw, id: string): Fw
  {
    fw.(chains := map c | c in fw.chains && c != ChainName(id) :: SweptRules(fw.chains[c], c, id),
        addrs := Some(map k | k in Mapping(fw) && Mapping(fw)[k].chain != ChainName(id) :: Mapping(fw)[k]))
  }

  // ----- invariants -----

  /** Every entry is a GOTO to an existing canonical container chain. */
  ghost predicate MapCanonical(fw: Fw)
  {
    && fw.addrs.Some?
    && forall k :: k in fw.addrs.value ==>
         && fw.addrs.value[k].kind == VGoto
         && ContainerID(fw.addrs.value[k].chain).Some?
         && fw.addrs.value[k].chain in fw.chains
  }

  ghost predicate IsContainerChain(fw: Fw, id: string)
  {
    ValidID(id) && ChainName(id) in fw.chains
  }

  ghost predicate DropsPresent(fw: Fw)
  {
    forall id :: IsContainerChain(fw, id) ==> DropRule(id) in fw.chains[ChainName(id)]
  }

  ghost predicate ChainsPlain(fw: Fw)
  {
    forall id :: IsContainerChain(fw, id) ==> AllPlain(fw.chains[ChainName(id)])
  }

  /** The description of an edge from container `estContID` to container `contID`:
      new traffic in the source's chain under the destination's tag, replies in
      the destination's chain under the source's tag. */
  ghost predicate IsEdge(rd: RuleDetails)
  {
    && ValidDetails(rd) && !rd.cfg.verdict.drop
    && ValidID(rd.estContID) && ValidID(rd.contID)
    && rd.chain == ChainName(rd.estContID) && rd.estChain == Some(ChainName(rd.contID))
  }

  ghost predicate WholeIn(fw: Fw, rd: RuleDetails)
    requires ValidDetails(rd)
  {
    && CreateNFTRules(rd).Some?
    && forall q :: q in CreateNFTRules(rd).value ==> q.chain in fw.chains && q.rule in fw.chains[q.chain]
  }

  /** `r` in the chain of `id` is one half of an edge all of whose rules are present. */
  ghost predicate HalfOf(fw: Fw, id: string, r: Rule, rd: RuleDetails)
  {
    IsEdge(rd) && WholeIn(fw, rd) && Placed(ChainName(id), r) in CreateNFTRules(rd).value
  }

  /** A rule in one container's chain under another container's tag is never
      alone: its edge, forward and reply rules, is present in both chains. */
  ghost predicate EdgesWhole(fw: Fw)
  {
    forall id, r :: IsContainerChain(fw, id) && r in fw.chains[ChainName(id)] && r.tag != id ==>
      exists rd :: HalfOf(fw, id, r, rd)
  }

  ghost predicate Good(fw: Fw)
  {
    && MapCanonical(fw) && DropsPresent(fw) && ChainsPlain(fw) && EdgesWhole(fw)
    && MAIN in fw.chains && MainNormal(fw.chains[MAIN])
  }

  lemma GoodMapsArePlain(fw: Fw)
    requires Good(fw)
    ensures MapPlain(fw)
  {
    forall k | k in Mapping(fw) ensures AllPlain(fw.chains[Mapping(fw)[k].chain]) {
      var id := ContainerID(Mapping(fw)[k].chain).value;
      ChainNameDeterminesID(Mapping(fw)[k].chain, id);
      assert IsContainerChain(fw, id);
    }
  }

  /** In a good state every packet from or to a mapped address is decided by an
      explicit drop or return of a container chain. */
  lemma DispatchedPacketsAreDecided(fw: Fw, p: Packet, depth: nat)
    requires Good(fw) && depth >= 1
    ensures MapPlain(fw)
    ensures Walk(fw, fw.chains[MAIN], p, depth) == DispatchSpec(fw, fw.chains[MAIN], p)
    ensures Mapped(fw, Slice(p, 12)) || Mapped(fw, Slice(p, 16)) ==>
              var o := Walk(fw, fw.chains[MAIN], p, depth); o == Dropped || o == Returned
  {
    GoodMapsArePlain(fw);
    DispatchRefinesSpec(fw, fw.chains[MAIN], p, depth);
    forall k | k in Mapping(fw) ensures ChainDecides(fw, k, p) != Ended {
      var id := ContainerID(Mapping(fw)[k].chain).value;
      ChainNameDeterminesID(Mapping(fw)[k].chain, id);
      assert IsContainerChain(fw, id);
      DropStopsTheChain(fw.chains[ChainName(id)], id, p, Mapping(fw));
    }
  }

  // ----- tags of edge rules -----

  lemma EdgeRuleTags(rd: RuleDetails, q: Placed)
    requires IsEdge(rd) && CreateNFTRules(rd).Some? && q in CreateNFTRules(rd).value
    ensures || (q.chain == ChainName(rd.estContID) && q.rule.tag == rd.contID)
            || (q.chain == ChainName(rd.contID) && q.rule.tag == rd.estContID)
  {
    ValidDetailsCompile(rd);
  }

  /** The endpoints of the edge behind a foreign rule are the chain's container
      and the tag. */
  lemma HalfEndpoints(fw: Fw, id: string, r: Rule, rd: RuleDetails)
    requires HalfOf(fw, id, r, rd) && r.tag != id
    ensures {rd.contID, rd.estContID} == {id, r.tag}
    ensures forall q :: q in CreateNFTRules(rd).value ==>
              (q.chain == ChainName(id) && q.rule.tag == r.tag) || (q.chain == ChainName(r.tag) && q.rule.tag == id)
  {
    EdgeRuleTags(rd, Placed(ChainName(id), r));
    if ChainName(id) == ChainName(rd.estContID) && r.tag == rd.contID { ChainNameInjective(id, rd.estContID); }
    else { ChainNameInjective(id, rd.contID); }
    forall q | q in CreateNFTRules(rd).value
      ensures (q.chain == ChainName(id) && q.rule.tag == r.tag) || (q.chain == ChainName(r.tag) && q.rule.tag == id)
    {
      EdgeRuleTags(rd, q);
    }
  }

  // ----- what an operation may commit for `id` -----

  /** A rule description of `id`: its own rule, a localhost drop in the main
      chain, or an edge to or from `id`. */
  ghost predicate WellPlaced(id: string, rd: RuleDetails)
  {
    || (ValidDetails(rd) && rd.chain == ChainName(id) && rd.estChain == None && rd.contID == id)
    || IsLocalhostDrop(id, rd)
    || (IsEdge(rd) && (rd.contID == id || rd.estContID == id))
  }

  ghost predicate IsLocalhostDrop(id: string, rd: RuleDetails)
  {
    exists proto: Protocol, port: nat :: port <= MAX_PORT && rd == LocalhostDrop(MAIN, proto, port, id)
  }

  ghost predicate AllWellPlaced(id: string, rds: seq<RuleDetails>)
  {
    forall i :: 0 <= i < |rds| ==> WellPlaced(id, rds[i])
  }

  function RulesOf(rd: RuleDetails): seq<Placed>
  {
    if PlainVerdict(rd.cfg.verdict) && CreateNFTRules(rd).Some? then CreateNFTRules(rd).value else []
  }

  /** The rules of a list of descriptions, in order. */
  function Compiled(rds: seq<RuleDetails>): seq<Placed>
  {
    Concat(Map(RulesOf, rds))
  }

  lemma CompiledContents(rds: seq<RuleDetails>)
    ensures forall i :: 0 <= i < |rds| ==> forall q :: q in RulesOf(rds[i]) ==> q in Compiled(rds)
    ensures forall q :: q in Compiled(rds) ==> exists i :: 0 <= i < |rds| && q in RulesOf(rds[i])
  {
    var parts := Map(RulesOf, rds);
    ConcatContents(parts);
    forall q | q in Compiled(rds) ensures exists i :: 0 <= i < |rds| && q in RulesOf(rds[i]) {
      var i :| 0 <= i < |parts| && q in parts[i];
      assert q in RulesOf(rds[i]);
    }
    forall i | 0 <= i < |rds| ensures forall q :: q in RulesOf(rds[i]) ==> q in Compiled(rds) {
      assert parts[i] == RulesOf(rds[i]);
    }
  }

  lemma AllowingRuleReturns(inbound: bool, inverse: bool, state: byte, addr: seq<byte>, cfg: RuleConfig, tag: string)
    requires PlainVerdict(cfg.verdict) && !cfg.verdict.drop
    ensures var r := CreateNFTRule(inbound, inverse, state, addr, cfg, 0, tag); r.Some? ==> ReturnOnly(r.value)
  {
    GeneratedRuleIsPlain(inbound, inverse, state, addr, cfg, tag);
  }

  lemma RulesAreParts(rd: RuleDetails)
    requires !rd.cfg.verdict.drop
    ensures forall q :: q in RulesOf(rd) ==>
              || ForwardRule(rd, STATE_NEW) == Some(q.rule) || ForwardRule(rd, STATE_EST) == Some(q.rule)
              || ForwardRule(rd, STATE_NEW_EST) == Some(q.rule) || ReplyRule(rd) == Some(q.rule)
  {
  }

  /** The rules of a description that does not drop only let packets through. */
  lemma AllowingRulesReturn(rd: RuleDetails)
    requires ValidDetails(rd) && !rd.cfg.verdict.drop
    ensures forall q :: q in RulesOf(rd) ==> ReturnOnly(q.rule)
  {
    RulesAreParts(rd);
    AllowingRuleReturns(rd.inbound, false, STATE_NEW, rd.addr, rd.cfg, rd.contID);
    AllowingRuleReturns(rd.inbound, false, STATE_EST, rd.addr, rd.cfg, rd.contID);
    AllowingRuleReturns(rd.inbound, false, STATE_NEW_EST, rd.addr, rd.cfg, rd.contID);
    AllowingRuleReturns(!rd.inbound, true, STATE_EST, rd.addr, rd.cfg, ReplyTag(rd));
  }

  /** What a well placed description of `id` contributes to each chain. */
  lemma ContributionOf(id: string, rd: RuleDetails)
    requires ValidID(id) && WellPlaced(id, rd)
    ensures PlainVerdict(rd.cfg.verdict) && CreateNFTRules(rd).Some?
    ensures forall q :: q in RulesOf(rd) ==> PlainRule(q.rule)
    ensures forall q :: q in RulesOf(rd) ==>
              || (q.chain == MAIN && SafeOwnedDrop(q.rule) && q.rule.tag == id)
              || (q.chain == ChainName(id) && q.rule.tag == id)
              || (IsEdge(rd) && ((q.chain == ChainName(rd.estContID) && q.rule.tag == rd.contID)
                                 || (q.chain == ChainName(rd.contID) && q.rule.tag == rd.estContID)))
  {
    if IsLocalhostDrop(id, rd) {
      var proto: Protocol, port: nat :| port <= MAX_PORT && rd == LocalhostDrop(MAIN, proto, port, id);
      LocalhostDropIsSafe(MAIN, proto, port, id);
    } else {
      ValidDetailsCompile(rd);
    }
    GeneratedRulesArePlain(rd);
  }
}
