/** Every committed operation keeps the invariants, so every run does. */
module Invariants {
  import opened Nft
  import opened Names
  import opened Chains
  import opened Compiler
  import opened Policy

  // ----- edges survive operations on other containers -----

  /** `next` keeps, in every container chain outside `cut`, all rules not tagged
      by `cut`. */
  ghost predicate CutsOnly(fw: Fw, next: Fw, cut: set<string>)
  {
    forall id :: IsContainerChain(fw, id) && id !in cut ==>
      && ChainName(id) in next.chains
      && forall r :: r in fw.chains[ChainName(id)] && r.tag !in cut ==> r in next.chains[ChainName(id)]
  }

  lemma HalfSurvives(fw: Fw, next: Fw, cut: set<string>, id: string, r: Rule, rd: RuleDetails)
    requires HalfOf(fw, id, r, rd) && r.tag != id
    requires id !in cut && r.tag !in cut && CutsOnly(fw, next, cut)
    ensures HalfOf(next, id, r, rd)
  {
    HalfEndpoints(fw, id, r, rd);
    assert ValidID(id) && ValidID(r.tag) by {
      assert rd.contID in {id, r.tag} && rd.estContID in {id, r.tag};
      assert id in {rd.contID, rd.estContID} && r.tag in {rd.contID, rd.estContID};
    }
    forall q | q in CreateNFTRules(rd).value ensures q.chain in next.chains && q.rule in next.chains[q.chain] {
      assert q.chain in fw.chains && q.rule in fw.chains[q.chain];
      assert q.chain == ChainName(id) || q.chain == ChainName(r.tag);
      assert IsContainerChain(fw, if q.chain == ChainName(id) then id else r.tag);
    }
  }

  // ----- the floor -----

  lemma FloorKeepsGood(fw: Fw, id: string, quarantineFirst: bool)
    requires Good(fw) && ValidID(id)
    ensures Good(FloorInstalled(fw, id, quarantineFirst))
    ensures DropRule(id) in FloorInstalled(fw, id, quarantineFirst).chains[ChainName(id)]
  {
    var next := FloorInstalled(fw, id, quarantineFirst);
    ChainNameDeterminesID(ChainName(id), id);
    var empty: Packet := Packet([], [], 0, CtInvalid, []);
    DropRuleDropsEverything(id, empty, map[]);
    assert CutsOnly(fw, next, {});
    forall x | IsContainerChain(next, x)
      ensures DropRule(x) in next.chains[ChainName(x)] && AllPlain(next.chains[ChainName(x)])
    {
      if x == id {
        if ChainName(id) in fw.chains { assert IsContainerChain(fw, id); }
      } else {
        if ChainName(x) == ChainName(id) { ChainNameInjective(x, id); }
        assert IsContainerChain(fw, x);
      }
    }
    forall x, r | IsContainerChain(next, x) && r in next.chains[ChainName(x)] && r.tag != x
      ensures exists rd :: HalfOf(next, x, r, rd)
    {
      if x != id && ChainName(x) == ChainName(id) { ChainNameInjective(x, id); }
      assert IsContainerChain(fw, x) && r in fw.chains[ChainName(x)];
      var rd :| HalfOf(fw, x, r, rd);
      HalfSurvives(fw, next, {}, x, r, rd);
    }
  }

  /** Every packet is treated alike. */
  ghost predicate TreatedAlike(a: Fw, b: Fw)
  {
    && MAIN in a.chains && MAIN in b.chains
    && forall p: Packet, depth: nat :: depth >= 1 ==> Walk(a, a.chains[MAIN], p, depth) == Walk(b, b.chains[MAIN], p, depth)
  }

  /** Without quarantine first, no packet notices the floor: a policy that is in
      place stays in force, and to a new chain nothing is dispatched yet. */
  lemma FloorIsUnnoticed(fw: Fw, id: string)
    requires Good(fw) && ValidID(id)
    ensures TreatedAlike(fw, FloorInstalled(fw, id, false))
  {
    var next, c := FloorInstalled(fw, id, false), ChainName(id);
    ChainNameDeterminesID(c, id);
    if c in fw.chains {
      assert IsContainerChain(fw, id);
    } else {
      FloorKeepsGood(fw, id, false);
      GoodMapsArePlain(fw);
      GoodMapsArePlain(next);
      forall p: Packet, depth: nat | depth >= 1
        ensures Walk(fw, fw.chains[MAIN], p, depth) == Walk(next, next.chains[MAIN], p, depth)
      {
        DispatchRefinesSpec(fw, fw.chains[MAIN], p, depth);
        DispatchRefinesSpec(next, next.chains[MAIN], p, depth);
      }
    }
  }

  // ----- the authoritative policy -----

  lemma ReplacedContents(rules: seq<Rule>, c: string, id: string, desired: seq<Placed>)
    ensures forall r :: r in ReplacedRules(rules, c, id, desired) <==>
              || Placed(c, r) in desired
              || (c == ChainName(id) && r == DropRule(id))
              || (c != ChainName(id) && r in rules && (!Owned(c) || r.tag != id))
  {
    PlacedInContents(desired, c);
    WithoutContents(rules, {id});
    ChainNameDeterminesID(c, id);
    assert Owned(MAIN);
  }

  lemma MainStaysNormal(rules: seq<Rule>, ids: set<string>, extra: seq<Rule>)
    requires MainNormal(rules) && "" !in ids
    requires forall i :: 0 <= i < |extra| ==> SafeOwnedDrop(extra[i])
    ensures MainNormal(Without(rules, ids) + extra)
  {
    var drops := rules[2..];
    assert rules == [rules[0]] + ([rules[1]] + drops);
    WithoutAppend([rules[0]], [rules[1]] + drops, ids);
    WithoutAppend([rules[1]], drops, ids);
    assert Without([rules[0]], ids) == [rules[0]] && Without([rules[1]], ids) == [rules[1]];
    WithoutContents(drops, ids);
    var kept := Without(drops, ids);
    forall i | 0 <= i < |kept| ensures SafeOwnedDrop(kept[i]) { assert kept[i] in drops; }
    assert Without(rules, ids) + extra == [rules[0], rules[1]] + (kept + extra);
  }

  lemma ReplaceKeepsMain(fw: Fw, id: string, rds: seq<RuleDetails>)
    requires Good(fw) && ValidID(id) && AllWellPlaced(id, rds)
    ensures MainNormal(ReplacedRules(fw.chains[MAIN], MAIN, id, Compiled(rds)))
  {
    ChainNameDeterminesID(MAIN, id);
    var extra := PlacedIn(Compiled(rds), MAIN);
    PlacedInContents(Compiled(rds), MAIN);
    CompiledContents(rds);
    forall i | 0 <= i < |extra| ensures SafeOwnedDrop(extra[i]) {
      assert Placed(MAIN, extra[i]) in Compiled(rds);
      var k :| 0 <= k < |rds| && Placed(MAIN, extra[i]) in RulesOf(rds[k]);
      assert WellPlaced(id, rds[k]);
      ContributionOf(id, rds[k]);
      ChainNameDeterminesID(MAIN, rds[k].contID);
      ChainNameDeterminesID(MAIN, rds[k].estContID);
    }
    MainStaysNormal(fw.chains[MAIN], {id}, extra);
  }

  lemma ReplaceKeepsPlain(fw: Fw, id: string, rds: seq<RuleDetails>, x: string)
    requires Good(fw) && ValidID(id) && AllWellPlaced(id, rds) && IsContainerChain(fw, x)
    ensures AllPlain(ReplacedRules(fw.chains[ChainName(x)], ChainName(x), id, Compiled(rds)))
  {
    var next := ReplacedRules(fw.chains[ChainName(x)], ChainName(x), id, Compiled(rds));
    ReplacedContents(fw.chains[ChainName(x)], ChainName(x), id, Compiled(rds));
    CompiledContents(rds);
    DropRuleDropsEverything(id, Packet([], [], 0, CtInvalid, []), map[]);
    forall i | 0 <= i < |next| ensures PlainRule(next[i]) {
      var r := next[i];
      assert r in next;
      if Placed(ChainName(x), r) in Compiled(rds) {
        var k :| 0 <= k < |rds| && Placed(ChainName(x), r) in RulesOf(rds[k]);
        assert WellPlaced(id, rds[k]);
        ContributionOf(id, rds[k]);
      }
    }
  }

  lemma NewHalfIsWhole(next: Fw, id: string, rds: seq<RuleDetails>, x: string, r: Rule)
    requires ValidID(id) && ValidID(x) && AllWellPlaced(id, rds)
    requires forall q :: q in Compiled(rds) ==> q.chain in next.chains && q.rule in next.chains[q.chain]
    requires Placed(ChainName(x), r) in Compiled(rds) && r.tag != x
    ensures exists rd :: HalfOf(next, x, r, rd)
  {
    CompiledContents(rds);
    var k :| 0 <= k < |rds| && Placed(ChainName(x), r) in RulesOf(rds[k]);
    assert WellPlaced(id, rds[k]);
    ContributionOf(id, rds[k]);
    ChainNameDeterminesID(ChainName(x), x);
    if ChainName(x) == ChainName(id) { ChainNameInjective(x, id); }
    assert IsEdge(rds[k]);
    assert HalfOf(next, x, r, rds[k]);
  }

  ghost predicate ChainsExist(fw: Fw, desired: seq<Placed>)
  {
    forall q :: q in desired ==> q.chain in fw.chains
  }

  lemma ReplaceCutsOnly(fw: Fw, id: string, desired: seq<Placed>)
    ensures CutsOnly(fw, PolicyReplaced(fw, id, desired), {id})
  {
    forall x | IsContainerChain(fw, x) && x != id
      ensures forall r :: r in fw.chains[ChainName(x)] && r.tag != id ==> r in PolicyReplaced(fw, id, desired).chains[ChainName(x)]
    {
      ReplacedContents(fw.chains[ChainName(x)], ChainName(x), id, desired);
      if ChainName(x) == ChainName(id) { ChainNameInjective(x, id); }
    }
  }

  lemma ReplaceKeepsDrop(fw: Fw, id: string, desired: seq<Placed>, x: string)
    requires DropsPresent(fw) && IsContainerChain(fw, x)
    ensures DropRule(x) in PolicyReplaced(fw, id, desired).chains[ChainName(x)]
  {
    ReplacedContents(fw.chains[ChainName(x)], ChainName(x), id, desired);
    if ChainName(x) == ChainName(id) { ChainNameInjective(x, id); }
  }

  lemma DesiredArePresent(fw: Fw, id: string, desired: seq<Placed>)
    requires ChainsExist(fw, desired)
    ensures var next := PolicyReplaced(fw, id, desired);
            forall q :: q in desired ==> q.chain in next.chains && q.rule in next.chains[q.chain]
  {
    forall q | q in desired ensures q.rule in PolicyReplaced(fw, id, desired).chains[q.chain] {
      assert q == Placed(q.chain, q.rule);
      ReplacedContents(fw.chains[q.chain], q.chain, id, desired);
    }
  }

  lemma ReplaceKeepsHalves(fw: Fw, id: string, rds: seq<RuleDetails>, x: string, r: Rule)
    requires EdgesWhole(fw) && IsContainerChain(fw, id) && AllWellPlaced(id, rds) && ChainsExist(fw, Compiled(rds))
    requires IsContainerChain(fw, x) && r.tag != x
    requires r in PolicyReplaced(fw, id, Compiled(rds)).chains[ChainName(x)]
    ensures exists rd :: HalfOf(PolicyReplaced(fw, id, Compiled(rds)), x, r, rd)
  {
    var next := PolicyReplaced(fw, id, Compiled(rds));
    ReplacedContents(fw.chains[ChainName(x)], ChainName(x), id, Compiled(rds));
    if Placed(ChainName(x), r) in Compiled(rds) {
      DesiredArePresent(fw, id, Compiled(rds));
      NewHalfIsWhole(next, id, rds, x, r);
    } else {
      if ChainName(x) == ChainName(id) { ChainNameInjective(x, id); }
      ChainNameDeterminesID(ChainName(x), x);
      var rd :| HalfOf(fw, x, r, rd);
      ReplaceCutsOnly(fw, id, Compiled(rds));
      HalfSurvives(fw, next, {id}, x, r, rd);
    }
  }

  lemma ReplaceKeepsGood(fw: Fw, id: string, rds: seq<RuleDetails>)
    requires Good(fw) && IsContainerChain(fw, id) && AllWellPlaced(id, rds) && ChainsExist(fw, Compiled(rds))
    ensures Good(PolicyReplaced(fw, id, Compiled(rds)))
  {
    var next := PolicyReplaced(fw, id, Compiled(rds));
    ReplaceKeepsMain(fw, id, rds);
    forall x | IsContainerChain(next, x)
      ensures DropRule(x) in next.chains[ChainName(x)] && AllPlain(next.chains[ChainName(x)])
    {
      ReplaceKeepsPlain(fw, id, rds, x);
      ReplaceKeepsDrop(fw, id, Compiled(rds), x);
    }
    forall x, r | IsContainerChain(next, x) && r in next.chains[ChainName(x)] && r.tag != x
      ensures exists rd :: HalfOf(next, x, r, rd)
    {
      ReplaceKeepsHalves(fw, id, rds, x, r);
    }
  }

  // ----- the address map -----

  lemma RemappedContents(rules: seq<Rule>, c: string, displaced: set<string>, ids: set<string>)
    ensures forall r :: r in RemappedRules(rules, c, displaced, ids) <==>
              if c in displaced && ContainerID(c).Some? then r == DropRule(ContainerID(c).value)
              else r in rules && (!Owned(c) || r.tag !in ids)
  {
    WithoutContents(rules, ids);
  }

  /** The displaced chains are exactly those of the displaced IDs. */
  lemma DisplacedChainsAndIDs(fw: Fw, id: string, keys: set<Key>, x: string)
    requires MapCanonical(fw) && ValidID(x)
    ensures ChainName(x) in Displaced(Mapping(fw), id, keys) <==> x in DisplacedIDs(Mapping(fw), id, keys)
    ensures id !in DisplacedIDs(Mapping(fw), id, keys)
    ensures "" !in DisplacedIDs(Mapping(fw), id, keys)
    ensures MAIN !in Displaced(Mapping(fw), id, keys)
  {
    var m := Mapping(fw);
    forall k | k in m ensures ContainerID(m[k].chain).Some? && m[k].chain == ChainName(ContainerID(m[k].chain).value) {
      ChainNameDeterminesID(m[k].chain, ContainerID(m[k].chain).value);
    }
    ChainNameDeterminesID(ChainName(x), x);
    ChainNameDeterminesID(MAIN, "");
  }

  /** A container chain after the remap: a single drop if displaced, else without
      the rules of the displaced containers. */
  lemma RemappedChain(fw: Fw, id: string, keys: set<Key>, x: string)
    requires MapCanonical(fw) && IsContainerChain(fw, x)
    ensures var ids := DisplacedIDs(Mapping(fw), id, keys);
            forall r :: r in Remapped(fw, id, keys).chains[ChainName(x)] <==>
              if x in ids then r == DropRule(x) else r in fw.chains[ChainName(x)] && r.tag !in ids
  {
    RemappedContents(fw.chains[ChainName(x)], ChainName(x), Displaced(Mapping(fw), id, keys), DisplacedIDs(Mapping(fw), id, keys));
    DisplacedChainsAndIDs(fw, id, keys, x);
    ChainNameDeterminesID(ChainName(x), x);
  }

  lemma RemapKeepsMain(fw: Fw, id: string, keys: set<Key>)
    requires Good(fw) && ValidID(id)
    ensures MainNormal(Remapped(fw, id, keys).chains[MAIN])
  {
    var ids := DisplacedIDs(Mapping(fw), id, keys);
    DisplacedChainsAndIDs(fw, id, keys, id);
    MainStaysNormal(fw.chains[MAIN], ids, []);
    assert Without(fw.chains[MAIN], ids) + [] == Without(fw.chains[MAIN], ids);
  }

  lemma RemapKeepsHalf(fw: Fw, id: string, keys: set<Key>, x: string, r: Rule)
    requires MapCanonical(fw) && EdgesWhole(fw) && IsContainerChain(fw, x)
    requires r in Remapped(fw, id, keys).chains[ChainName(x)] && r.tag != x
    ensures exists rd :: HalfOf(Remapped(fw, id, keys), x, r, rd)
  {
    var next, ids := Remapped(fw, id, keys), DisplacedIDs(Mapping(fw), id, keys);
    RemappedChain(fw, id, keys, x);
    assert CutsOnly(fw, next, ids) by {
      forall y | IsContainerChain(fw, y) && y !in ids
        ensures forall q :: q in fw.chains[ChainName(y)] && q.tag !in ids ==> q in next.chains[ChainName(y)]
      {
        RemappedChain(fw, id, keys, y);
      }
    }
    var rd :| HalfOf(fw, x, r, rd);
    HalfSurvives(fw, next, ids, x, r, rd);
  }

  lemma RemapKeepsGood(fw: Fw, id: string, keys: set<Key>)
    requires Good(fw) && IsContainerChain(fw, id)
    ensures Good(Remapped(fw, id, keys))
  {
    var next := Remapped(fw, id, keys);
    RemapKeepsMain(fw, id, keys);
    ChainNameDeterminesID(ChainName(id), id);
    forall x | IsContainerChain(next, x)
      ensures DropRule(x) in next.chains[ChainName(x)] && AllPlain(next.chains[ChainName(x)])
    {
      RemappedChain(fw, id, keys, x);
      DropRuleDropsEverything(x, Packet([], [], 0, CtInvalid, []), map[]);
      if x !in DisplacedIDs(Mapping(fw), id, keys) { assert DropRule(x).tag == x; }
      forall i | 0 <= i < |next.chains[ChainName(x)]| ensures PlainRule(next.chains[ChainName(x)][i]) {
        assert next.chains[ChainName(x)][i] in next.chains[ChainName(x)];
      }
    }
    forall x, r | IsContainerChain(next, x) && r in next.chains[ChainName(x)] && r.tag != x
      ensures exists rd :: HalfOf(next, x, r, rd)
    {
      RemapKeepsHalf(fw, id, keys, x, r);
    }
  }

  /** The container's chain, if there is one, begins with the drop. */
  ghost predicate Shut(fw: Fw, id: string)
  {
    ChainName(id) in fw.chains ==> fw.chains[ChainName(id)] != [] && fw.chains[ChainName(id)][0] == DropRule(id)
  }

  lemma RemapKeepsShut(fw: Fw, id: string, keys: set<Key>)
    requires Good(fw) && IsContainerChain(fw, id) && Shut(fw, id)
    ensures Shut(Remapped(fw, id, keys), id)
  {
    ChainNameDeterminesID(ChainName(id), id);
    DisplacedChainsAndIDs(fw, id, keys, id);
    var ids := DisplacedIDs(Mapping(fw), id, keys);
    var rules := fw.chains[ChainName(id)];
    assert rules == [rules[0]] + rules[1..];
    WithoutAppend([rules[0]], rules[1..], ids);
    assert Without([rules[0]], ids) == [rules[0]];
  }

  // ----- deletion -----

  lemma DeletedContents(fw: Fw, id: string, x: string)
    requires IsContainerChain(Deleted(fw, id), x)
    ensures x != id && IsContainerChain(fw, x)
    ensures Deleted(fw, id).chains[ChainName(x)] == Without(fw.chains[ChainName(x)], {id})
    ensures forall r :: r in Deleted(fw, id).chains[ChainName(x)] <==> r in fw.chains[ChainName(x)] && r.tag != id
  {
    ChainNameDeterminesID(ChainName(x), x);
    WithoutContents(fw.chains[ChainName(x)], {id});
  }

  lemma DeleteCutsOnly(fw: Fw, id: string)
    ensures CutsOnly(fw, Deleted(fw, id), {id})
  {
    forall x | IsContainerChain(fw, x) && x != id ensures IsContainerChain(Deleted(fw, id), x) {
      if ChainName(x) == ChainName(id) { ChainNameInjective(x, id); }
    }
    forall x | IsContainerChain(Deleted(fw, id), x)
      ensures forall r :: r in fw.chains[ChainName(x)] && r.tag != id ==> r in Deleted(fw, id).chains[ChainName(x)]
    {
      DeletedContents(fw, id, x);
    }
  }

  lemma DeleteKeepsGood(fw: Fw, id: string)
    requires Good(fw) && ValidID(id)
    ensures Good(Deleted(fw, id))
  {
    var next := Deleted(fw, id);
    ChainNameDeterminesID(MAIN, id);
    MainStaysNormal(fw.chains[MAIN], {id}, []);
    assert Without(fw.chains[MAIN], {id}) + [] == Without(fw.chains[MAIN], {id});
    forall x | IsContainerChain(next, x)
      ensures DropRule(x) in next.chains[ChainName(x)] && AllPlain(next.chains[ChainName(x)])
    {
      DeletedContents(fw, id, x);
      forall i | 0 <= i < |next.chains[ChainName(x)]| ensures PlainRule(next.chains[ChainName(x)][i]) {
        assert next.chains[ChainName(x)][i] in fw.chains[ChainName(x)];
      }
    }
    DeleteCutsOnly(fw, id);
    forall x, r | IsContainerChain(next, x) && r in next.chains[ChainName(x)] && r.tag != x
      ensures exists rd :: HalfOf(next, x, r, rd)
    {
      DeletedContents(fw, id, x);
      var rd :| HalfOf(fw, x, r, rd);
      HalfSurvives(fw, next, {id}, x, r, rd);
    }
  }

  // ----- what each operation achieves -----

  /** No rule of `id` is left in an owned chain other than its own. */
  ghost predicate NoForeignRules(fw: Fw, id: string)
  {
    forall c, r :: c in fw.chains && Owned(c) && c != ChainName(id) && r in fw.chains[c] ==> r.tag != id
  }

  /** Quarantine (replacement by the empty policy): the own chain is exactly one
      drop, nothing tagged with the ID is left elsewhere, and the map is kept, so
      every address still leads to the drop. */
  lemma QuarantineLeavesOneDrop(fw: Fw, id: string)
    requires ChainName(id) in fw.chains
    ensures var q := PolicyReplaced(fw, id, []);
            && q.chains[ChainName(id)] == [DropRule(id)] && NoForeignRules(q, id) && q.addrs == fw.addrs
            && forall p: Packet :: FirstVerdict(q.chains[ChainName(id)], p, Mapping(q)) == Dropped
  {
    var q := PolicyReplaced(fw, id, []);
    assert PlacedIn([], ChainName(id)) == [];
    forall c, r | c in q.chains && Owned(c) && c != ChainName(id) && r in q.chains[c] ensures r.tag != id {
      ReplacedContents(fw.chains[c], c, id, []);
    }
    forall p: Packet ensures FirstVerdict(q.chains[ChainName(id)], p, Mapping(q)) == Dropped {
      DropAtHeadQuarantines([DropRule(id)], id, p, Mapping(q));
    }
  }

  /** Address reuse: the map is exactly the old entries that neither target this
      chain nor have a desired key, plus the desired keys; every displaced chain
      is a single drop and keeps its other keys; no rule of a displaced container
      is left anywhere else; other rules stay, in order. */
  lemma AddressReuseIsAtomic(fw: Fw, id: string, keys: set<Key>)
    requires MapCanonical(fw) && IsContainerChain(fw, id)
    ensures var next, m := Remapped(fw, id, keys), Mapping(fw);
            && (forall k :: k in Mapping(next) <==> k in keys || (k in m && m[k].chain != ChainName(id)))
            && (forall k :: k in keys ==> Mapping(next)[k] == GotoChain(id))
            && (forall k :: k in Mapping(next) && k !in keys ==> Mapping(next)[k] == m[k])
            && (forall k, x :: (k in keys && k in m && m[k].chain == ChainName(x) && x != id && IsContainerChain(fw, x)) ==>
                  && next.chains[ChainName(x)] == [DropRule(x)] && NoForeignRules(next, x)
                  && forall j :: j in m && j !in keys && m[j].chain == ChainName(x) ==> j in Mapping(next))
            && (forall c :: c in fw.chains && c !in Displaced(m, id, keys) ==>
                  next.chains[c] == if Owned(c) then Without(fw.chains[c], DisplacedIDs(m, id, keys)) else fw.chains[c])
  {
    var next, m := Remapped(fw, id, keys), Mapping(fw);
    var displaced, ids := Displaced(m, id, keys), DisplacedIDs(m, id, keys);
    forall k, x | k in keys && k in m && m[k].chain == ChainName(x) && x != id && IsContainerChain(fw, x)
      ensures next.chains[ChainName(x)] == [DropRule(x)] && NoForeignRules(next, x)
      ensures forall j :: j in m && j !in keys && m[j].chain == ChainName(x) ==> j in Mapping(next)
    {
      if ChainName(x) == ChainName(id) { ChainNameInjective(x, id); }
      DisplacedChainsAndIDs(fw, id, keys, x);
      ChainNameDeterminesID(ChainName(x), x);
      assert ChainName(x) in displaced;
      forall c, r | c in next.chains && Owned(c) && c != ChainName(x) && r in next.chains[c] ensures r.tag != x {
        RemappedContents(fw.chains[c], c, displaced, ids);
        if c in displaced && ContainerID(c).Some? { ChainNameDeterminesID(c, ContainerID(c).value); }
      }
    }
  }

  /** Deletion is complete and local: the chain, its addresses and every rule of
      the ID are gone; other mappings and other rules stay, in order. */
  lemma DeleteIsCompleteAndLocal(fw: Fw, id: string)
    ensures var next := Deleted(fw, id);
            && ChainName(id) !in next.chains && NoForeignRules(next, id)
            && (forall k :: k in Mapping(next) ==> Mapping(next)[k].chain != ChainName(id))
            && (forall k :: k in Mapping(fw) && Mapping(fw)[k].chain != ChainName(id) ==>
                  k in Mapping(next) && Mapping(next)[k] == Mapping(fw)[k])
            && (forall c :: c in fw.chains && c != ChainName(id) ==>
                  c in next.chains && next.chains[c] == if Owned(c) then Without(fw.chains[c], {id}) else fw.chains[c])
  {
    var next := Deleted(fw, id);
    forall c, r | c in next.chains && Owned(c) && c != ChainName(id) && r in next.chains[c] ensures r.tag != id {
      WithoutContents(fw.chains[c], {id});
    }
  }
}
