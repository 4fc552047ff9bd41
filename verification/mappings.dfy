/** Replacing the address mappings of a container, and the quarantine of the
    containers that lose an address to it, in one batch. */
module Mappings {
  import opened Nft
  import opened Names
  import opened Chains
  import opened Wrappers
  import opened Policy
  import opened Kernel
  import opened Engine

  /** containerMappingVerdict accepts every entry. */
  predicate MapReadable(fw: Fw)
  {
    fw.addrs.Some? && forall k :: k in fw.addrs.value ==> ReadableVerdict(fw.addrs.value[k])
  }

  predicate ReadableVerdict(v: MapVerdict)
  {
    v.kind == VGoto && ContainerID(v.chain).Some?
  }

  /** Nothing but a goto to the chain of a container ID is accepted in the map. */
  lemma ReadableExactly(v: MapVerdict)
    ensures ReadableVerdict(v) <==> v.kind == VGoto && exists id :: ValidID(id) && v.chain == ChainName(id)
  {
    if ContainerID(v.chain).Some? { ChainNameDeterminesID(v.chain, ContainerID(v.chain).value); }
    if id :| ValidID(id) && v.chain == ChainName(id) { ChainNameDeterminesID(v.chain, id); }
  }

  function KeysToAdd(m: AddrMap, id: string, keys: set<Key>): set<Key>
  {
    set k | k in keys && !(k in m && m[k] == GotoChain(id))
  }

  function KeysToDelete(m: AddrMap, id: string, keys: set<Key>): set<Key>
  {
    set k | k in m && (if k in keys then m[k] != GotoChain(id) else m[k].chain == ChainName(id))
  }

  /** Chains under the container prefix have canonical names, owned chains are
      regular, and every displaced chain exists. */
  predicate Quarantinable(fw: Fw, displaced: set<string>)
  {
    && (forall c :: c in fw.chains && HasPrefix(c) ==> ContainerID(c).Some?)
    && OwnedAreRegular(fw)
    && forall c :: c in displaced ==> c in fw.chains
  }

  predicate Committable(fw: Fw, id: string, keys: set<Key>)
  {
    && (Displaced(Mapping(fw), id, keys) != {} ==> Quarantinable(fw, Displaced(Mapping(fw), id, keys)))
    && (KeysToAdd(Mapping(fw), id, keys) != {} ==> ChainName(id) in fw.chains)
  }

  /** When the mappings can be replaced at all. */
  predicate Remappable(fw: Fw, id: string, keys: set<Key>)
  {
    ValidID(id) && MapReadable(fw) && Committable(fw, id, keys)
  }

  // ----- quarantineDisplacedContainerPolicies -----

  function OwnerOf(c: string): string
  {
    if ContainerID(c).Some? then ContainerID(c).value else ""
  }

  function DisplacedSelect(c: string, displaced: set<string>, ids: set<string>): Select
  {
    if c in displaced then Everything else Tagged(ids)
  }

  /** One owned chain after the quarantine. */
  ghost predicate Quarantined(start: KState, now: KState, displaced: set<string>, ids: set<string>, done: set<string>)
  {
    && now.chains.Keys == start.chains.Keys && now.irregular == start.irregular && now.addrs == start.addrs
    && (forall c :: c in start.chains && c !in done ==> now.chains[c] == start.chains[c])
    && forall c :: c in start.chains && c in done ==>
         Plain(now.chains[c]) == if c in displaced then [DropRule(OwnerOf(c))] else Without(Plain(start.chains[c]), ids)
  }

  method QuarantineDisplacedContainerPolicies(nfc: Conn, displaced: map<string, string>) returns (ok: bool)
    requires nfc.kernel.Valid() && nfc.Pending() == Some(nfc.kernel.state)
    requires forall c :: c in displaced ==> ContainerID(c) == Some(displaced[c])
    modifies nfc, nfc.faults
    ensures ok ==> nfc.Pending().Some? && Quarantinable(View(nfc.kernel.state), displaced.Keys)
    ensures ok ==> Quarantined(nfc.kernel.state, nfc.Pending().value, displaced.Keys, displaced.Values,
                               set c | c in nfc.kernel.state.chains && Owned(c))
    ensures old(nfc.faults.script) == [] ==>
              nfc.faults.script == [] && (ok <==> Quarantinable(View(nfc.kernel.state), displaced.Keys))
  {
    ghost var start := nfc.kernel.state;
    var listing := nfc.ListChains();
    if listing.None? { return false; }
    var owned := set c | c in listing.value.names && Owned(c);
    if exists c :: c in owned && c != MAIN && ContainerID(c).None? {
      ChainNameDeterminesID(MAIN, "");
      return false;
    }
    if exists c :: c in owned && c in listing.value.irregular { return false; }
    forall c | c in displaced ensures Owned(c) { ChainNameDeterminesID(c, displaced[c]); }
    if exists c :: c in displaced && c !in owned { return false; }
    ChainNameDeterminesID(MAIN, "");
    ok := QuarantineChains(nfc, displaced, owned);
  }

  method QuarantineChains(nfc: Conn, displaced: map<string, string>, owned: set<string>) returns (ok: bool)
    requires nfc.kernel.Valid() && nfc.Pending() == Some(nfc.kernel.state)
    requires forall c :: c in displaced ==> ContainerID(c) == Some(displaced[c])
    requires owned <= nfc.kernel.state.chains.Keys
    modifies nfc, nfc.faults
    ensures ok ==> nfc.Pending().Some?
    ensures ok ==> Quarantined(nfc.kernel.state, nfc.Pending().value, displaced.Keys, displaced.Values, owned)
    ensures old(nfc.faults.script) == [] ==> nfc.faults.script == [] && ok
  {
    ghost var start := nfc.kernel.state;
    var displacedIDs := displaced.Values;
    var todo := owned;
    while todo != {}
      invariant todo <= owned
      invariant nfc.kernel.state == start && nfc.Pending().Some?
      invariant Quarantined(start, nfc.Pending().value, displaced.Keys, displacedIDs, owned - todo)
      invariant old(nfc.faults.script) == [] ==> nfc.faults.script == []
    {
      var c :| c in todo;
      var rules := nfc.GetRules(c);
      if rules.Err? { return false; }
      ghost var before, done := nfc.Pending().value, owned - todo;
      assert DistinctHandles(start.chains[c], start.next);
      DeleteMatching(nfc, c, rules.value, DisplacedSelect(c, displaced.Keys, displacedIDs));
      if c in displaced {
        nfc.Queue(AddRule(c, DropRule(displaced[c])));
      }
      QuarantineStep(start, before, c, displaced, done);
      todo := todo - {c};
      assert owned - todo == done + {c};
    }
    return true;
  }

  lemma QuarantineStep(start: KState, before: KState, c: string, displaced: map<string, string>, done: set<string>)
    requires Quarantined(start, before, displaced.Keys, displaced.Values, done)
    requires c in start.chains && c !in done
    requires c in displaced ==> ContainerID(c) == Some(displaced[c])
    ensures var cut := WithRules(before, c, Residue(start.chains[c], DisplacedSelect(c, displaced.Keys, displaced.Values)));
            var after := if c in displaced then Apply(cut, AddRule(c, DropRule(displaced[c]))) else Some(cut);
            after.Some? && Quarantined(start, after.value, displaced.Keys, displaced.Values, done + {c})
  {
    ResidueView(start.chains[c], DisplacedSelect(c, displaced.Keys, displaced.Values));
    KeptContents(Plain(start.chains[c]), DisplacedSelect(c, displaced.Keys, displaced.Values));
    var cut := WithRules(before, c, Residue(start.chains[c], DisplacedSelect(c, displaced.Keys, displaced.Values)));
    if c in displaced {
      DropResolves(View(cut), displaced[c]);
      AppendOne(cut, c, DropRule(displaced[c]));
      var next := Apply(cut, AddRule(c, DropRule(displaced[c]))).value;
      assert Plain(next.chains[c]) == View(next).chains[c] == [DropRule(displaced[c])];
    }
  }

  lemma QuarantinedView(start: KState, now: KState, displaced: set<string>, ids: set<string>)
    requires Quarantined(start, now, displaced, ids, set c | c in start.chains && Owned(c))
    requires forall c :: c in displaced ==> ContainerID(c).Some? && Owned(c)
    ensures View(now) == View(start).(chains := map c | c in start.chains :: RemappedRules(View(start).chains[c], c, displaced, ids))
  {
    forall c | c in start.chains
      ensures View(now).chains[c] == RemappedRules(View(start).chains[c], c, displaced, ids)
    {
    }
    assert View(now).chains == map c | c in start.chains :: RemappedRules(View(start).chains[c], c, displaced, ids);
  }

  lemma WithoutNobody(rules: seq<Rule>)
    ensures Without(rules, {}) == rules
  {
    KeptAll(rules, Tagged({}));
  }

  lemma DisplacedMember(m: AddrMap, id: string, keys: set<Key>, k: Key)
    requires k in keys && k in m
    ensures m[k].chain == ChainName(id) || m[k].chain in Displaced(m, id, keys)
  {
  }

  lemma NothingDisplaced(fw: Fw, id: string, keys: set<Key>)
    requires Displaced(Mapping(fw), id, keys) == {}
    ensures Remapped(fw, id, keys).chains == fw.chains
  {
    var m := Mapping(fw);
    forall k | k in keys && k in m ensures m[k].chain == ChainName(id) { DisplacedMember(m, id, keys, k); }
    assert DisplacedIDs(m, id, keys) == {};
    forall c | c in fw.chains ensures Remapped(fw, id, keys).chains[c] == fw.chains[c] { WithoutNobody(fw.chains[c]); }
  }

  lemma NewMapping(m: AddrMap, id: string, keys: set<Key>)
    ensures (m - KeysToDelete(m, id, keys)) + (map k | k in KeysToAdd(m, id, keys) :: GotoChain(id)) == RemappedMap(m, id, keys)
  {
  }

  // ----- replaceContainerAddressMappings -----

  /** The scan of the current entries; it fails when an entry is not canonical. */
  method ScanMappings(m: AddrMap, id: string, keys: set<Key>)
    returns (ok: bool, deletes: set<Key>, seen: set<Key>, displaced: map<string, string>)
    ensures ok <==> forall k :: k in m ==> ReadableVerdict(m[k])
    ensures ok ==> deletes == KeysToDelete(m, id, keys)
    ensures ok ==> seen == set k | k in keys && k in m
    ensures ok ==> displaced.Keys == Displaced(m, id, keys)
    ensures ok ==> forall c :: c in displaced ==> ContainerID(c) == Some(displaced[c])
  {
    deletes, seen, displaced := {}, {}, map[];
    var todo := m.Keys;
    while todo != {}
      invariant todo <= m.Keys
      invariant forall k :: k in m && k !in todo ==> ReadableVerdict(m[k])
      invariant deletes == set k | k in m && k !in todo && (if k in keys then m[k] != GotoChain(id) else m[k].chain == ChainName(id))
      invariant seen == set k | k in keys && k in m && k !in todo
      invariant displaced.Keys == set k | k in keys && k in m && k !in todo && m[k].chain != ChainName(id) :: m[k].chain
      invariant forall c :: c in displaced ==> ContainerID(c) == Some(displaced[c])
    {
      var k :| k in todo;
      var verdict := m[k];
      if !ReadableVerdict(verdict) { return false, deletes, seen, displaced; }
      if k in keys {
        seen := seen + {k};
        if verdict != GotoChain(id) {
          if verdict.chain != ChainName(id) {
            displaced := displaced[verdict.chain := ContainerID(verdict.chain).value];
          }
          deletes := deletes + {k};
        }
      } else if verdict.chain == ChainName(id) {
        deletes := deletes + {k};
      }
      todo := todo - {k};
    }
    ok := true;
  }

  method ReplaceContainerAddressMappings(nfc: Conn, id: string, keys: set<Key>) returns (ok: bool)
    requires nfc.kernel.Valid() && nfc.batch == []
    modifies nfc, nfc.kernel, nfc.faults
    ensures nfc.kernel.Valid()
    ensures ok ==> nfc.batch == []
    ensures !ok ==> nfc.kernel.state == old(nfc.kernel.state) && nfc.kernel.log == old(nfc.kernel.log)
    ensures ok ==> View(nfc.kernel.state) == Remapped(old(View(nfc.kernel.state)), id, keys)
    ensures ok ==> || nfc.kernel.log == old(nfc.kernel.log) + [View(nfc.kernel.state)]
                   || (nfc.kernel.log == old(nfc.kernel.log) && nfc.kernel.state == old(nfc.kernel.state))
    ensures ok ==> Remappable(old(View(nfc.kernel.state)), id, keys)
    ensures old(nfc.faults.script) == [] ==>
              nfc.faults.script == [] && (ok <==> Remappable(old(View(nfc.kernel.state)), id, keys))
  {
    ghost var start := nfc.kernel.state;
    ghost var fw := View(start);
    if ContainerID(ChainName(id)).None? {
      ChainNameDeterminesID(ChainName(id), id);
      return false;
    }
    ChainNameDeterminesID(ChainName(id), ContainerID(ChainName(id)).value);
    ChainNameInjective(id, ContainerID(ChainName(id)).value);
    var current := nfc.GetSetElements();
    if current.Err? { return false; }
    var m := current.value;
    var readable, deletes, seen, displaced := ScanMappings(m, id, keys);
    if !readable { return false; }
    // An entry already leading to this chain is left alone; other desired keys are added.
    var adds := map k | k in keys && (k !in seen || k in deletes) :: GotoChain(id);
    AddsAreMissing(m, id, keys, seen, deletes, adds);
    if deletes == {} && adds == map[] {
      NothingToDo(fw, id, keys);
      return true;
    }
    ok := CommitMappings(nfc, id, keys, m, deletes, adds, displaced);
  }

  lemma AddsAreMissing(m: AddrMap, id: string, keys: set<Key>, seen: set<Key>, deletes: set<Key>, adds: AddrMap)
    requires seen == set k | k in keys && k in m
    requires deletes == KeysToDelete(m, id, keys)
    requires adds == map k | k in keys && (k !in seen || k in deletes) :: GotoChain(id)
    ensures adds == map k | k in KeysToAdd(m, id, keys) :: GotoChain(id)
    ensures adds.Keys == KeysToAdd(m, id, keys)
  {
  }

  method QueueElements(nfc: Conn, deletes: set<Key>, adds: AddrMap)
    modifies nfc
    ensures nfc.Pending() == var a := if deletes != {} then Then(old(nfc.Pending()), DelElems(deletes)) else old(nfc.Pending());
                             if adds != map[] then Then(a, AddElems(adds)) else a
  {
    if deletes != {} { nfc.Queue(DelElems(deletes)); }
    if adds != map[] { nfc.Queue(AddElems(adds)); }
  }

  /** Queue the quarantine, the deletions and the additions, and flush once. */
  method CommitMappings(nfc: Conn, id: string, keys: set<Key>, ghost m: AddrMap, deletes: set<Key>, adds: AddrMap,
                        displaced: map<string, string>) returns (ok: bool)
    requires nfc.kernel.Valid() && nfc.batch == [] && nfc.kernel.state.addrs == Some(m)
    requires deletes == KeysToDelete(m, id, keys)
    requires adds == map k | k in KeysToAdd(m, id, keys) :: GotoChain(id)
    requires displaced.Keys == Displaced(m, id, keys)
    requires forall c :: c in displaced ==> ContainerID(c) == Some(displaced[c])
    modifies nfc, nfc.kernel, nfc.faults
    ensures nfc.kernel.Valid()
    ensures ok ==> nfc.batch == []
    ensures !ok ==> nfc.kernel.state == old(nfc.kernel.state) && nfc.kernel.log == old(nfc.kernel.log)
    ensures ok ==> View(nfc.kernel.state) == Remapped(old(View(nfc.kernel.state)), id, keys)
    ensures ok ==> nfc.kernel.log == old(nfc.kernel.log) + [View(nfc.kernel.state)]
    ensures ok ==> Committable(old(View(nfc.kernel.state)), id, keys)
    ensures old(nfc.faults.script) == [] ==>
              nfc.faults.script == [] && (ok <==> Committable(old(View(nfc.kernel.state)), id, keys))
  {
    ghost var start := nfc.kernel.state;
    assert displaced == map[] <==> displaced.Keys == {};
    if displaced != map[] {
      var quarantined := QuarantineDisplacedContainerPolicies(nfc, displaced);
      if !quarantined { return false; }
    }
    ghost var mid := nfc.Pending().value;
    QuarantineResult(start, mid, m, id, keys, displaced);
    QueueElements(nfc, deletes, adds);
    MappingsApplied(View(start), mid, id, keys, m, deletes, adds, nfc.Pending());
    ok := nfc.Flush();
  }

  lemma QuarantineResult(start: KState, mid: KState, m: AddrMap, id: string, keys: set<Key>, displaced: map<string, string>)
    requires start.addrs == Some(m) && displaced.Keys == Displaced(m, id, keys)
    requires forall c :: c in displaced ==> ContainerID(c) == Some(displaced[c])
    requires if displaced == map[] then mid == start
             else Quarantined(start, mid, displaced.Keys, displaced.Values, set c | c in start.chains && Owned(c))
    ensures View(mid) == Remapped(View(start), id, keys).(addrs := Some(m))
    ensures mid.addrs == Some(m) && mid.chains.Keys == start.chains.Keys
  {
    if displaced == map[] {
      assert displaced.Keys == {};
      NothingDisplaced(View(start), id, keys);
    } else {
      forall c | c in displaced ensures Owned(c) { ChainNameDeterminesID(c, displaced[c]); }
      DisplacedValues(m, id, keys, displaced);
      QuarantinedView(start, mid, displaced.Keys, displaced.Values);
    }
  }

  lemma NothingToDo(fw: Fw, id: string, keys: set<Key>)
    requires fw.addrs.Some?
    requires KeysToDelete(Mapping(fw), id, keys) == {} && KeysToAdd(Mapping(fw), id, keys) == {}
    ensures Remapped(fw, id, keys) == fw && Displaced(Mapping(fw), id, keys) == {}
  {
    var m := Mapping(fw);
    forall k | k in keys && k in m ensures m[k].chain == ChainName(id) {
      assert m[k] == GotoChain(id) || k in KeysToDelete(m, id, keys);
    }
    NothingDisplaced(fw, id, keys);
    NewMapping(m, id, keys);
    var none := map k | k in KeysToAdd(m, id, keys) :: GotoChain(id);
    assert none == map[];
    assert (m - {}) + map[] == m;
  }

  lemma DisplacedValues(m: AddrMap, id: string, keys: set<Key>, displaced: map<string, string>)
    requires displaced.Keys == Displaced(m, id, keys)
    requires forall c :: c in displaced ==> ContainerID(c) == Some(displaced[c])
    ensures displaced.Values == DisplacedIDs(m, id, keys)
  {
    forall x | x in DisplacedIDs(m, id, keys) ensures x in displaced.Values {
      var k :| k in keys && k in m && m[k].chain != ChainName(id) && ContainerID(m[k].chain) == Some(x);
      assert m[k].chain in displaced.Keys;
    }
    forall x | x in displaced.Values ensures x in DisplacedIDs(m, id, keys) {
      var c :| c in displaced && displaced[c] == x;
      assert c in Displaced(m, id, keys);
    }
  }

  /** The deletions and additions turn the quarantined state into the remapped one. */
  lemma MappingsApplied(fw: Fw, mid: KState, id: string, keys: set<Key>, m: AddrMap, deletes: set<Key>, adds: AddrMap, after: Option<KState>)
    requires View(mid) == Remapped(fw, id, keys).(addrs := Some(m)) && mid.addrs == Some(m) && Mapping(fw) == m
    requires deletes == KeysToDelete(m, id, keys) && adds == map k | k in KeysToAdd(m, id, keys) :: GotoChain(id)
    requires after == var a := if deletes != {} then Apply(mid, DelElems(deletes)) else Some(mid);
                      if adds != map[] then Then(a, AddElems(adds)) else a
    ensures after.Some? <==> (KeysToAdd(m, id, keys) != {} ==> ChainName(id) in mid.chains)
    ensures after.Some? ==> View(after.value) == Remapped(fw, id, keys)
  {
    assert adds.Keys == KeysToAdd(m, id, keys);
    ElementsApplied(mid, id, m, deletes, adds, after);
    NewMapping(m, id, keys);
  }

  lemma ElementsApplied(mid: KState, id: string, m: AddrMap, deletes: set<Key>, adds: AddrMap, after: Option<KState>)
    requires mid.addrs == Some(m) && deletes <= m.Keys
    requires forall k :: k in adds ==> adds[k] == GotoChain(id) && (k in m ==> k in deletes)
    requires after == var a := if deletes != {} then Apply(mid, DelElems(deletes)) else Some(mid);
                      if adds != map[] then Then(a, AddElems(adds)) else a
    ensures after.Some? <==> (adds.Keys != {} ==> ChainName(id) in mid.chains)
    ensures after.Some? ==> View(after.value) == View(mid).(addrs := Some((m - deletes) + adds))
  {
    assert m - {} == m && m + map[] == m && (m - deletes) + map[] == m - deletes;
    assert adds == map[] <==> adds.Keys == {};
    if adds != map[] { var k :| k in adds; assert adds[k].chain == ChainName(id); }
  }
}
