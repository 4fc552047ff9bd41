/** Removing everything the firewall holds for a container, in one batch. */
module Deletion {
  import opened Nft
  import opened Names
  import opened Chains
  import opened Wrappers
  import opened Policy
  import opened Kernel
  import opened Engine
  import opened Mappings

  function MapWithoutTarget(m: AddrMap, id: string): AddrMap
  {
    map k | k in m && m[k].chain != ChainName(id) :: m[k]
  }

  /** The state just before the emptied chain itself is deleted. */
  function Emptied(fw: Fw, id: string): Fw
  {
    fw.(chains := map c | c in fw.chains ::
                    if c == ChainName(id) then [] else SweptRules(fw.chains[c], c, id),
        addrs := Some(MapWithoutTarget(Mapping(fw), id)))
  }

  /** When the firewall state of a container can be deleted at all: no chain under
      its prefix is irregular, the map is readable, and no rule of another chain
      jumps to the container's chain. */
  predicate Deletable(fw: Fw, id: string)
  {
    OwnedAreRegular(fw) && MapReadable(fw) && ChainUnused(fw, id)
  }

  predicate ChainUnused(fw: Fw, id: string)
  {
    ChainName(id) in fw.chains ==> !Referenced(Emptied(fw, id), ChainName(id))
  }

  /** Other owned chains in `done` have lost the rules of `id`; nothing else changed. */
  ghost predicate Untagged(start: KState, now: KState, id: string, done: set<string>)
  {
    && now.chains.Keys == start.chains.Keys && now.irregular == start.irregular && now.addrs == start.addrs
    && forall c :: c in start.chains ==>
         now.chains[c] == if c in done && Owned(c) && c != ChainName(id) then Residue(start.chains[c], Tagged({id}))
                          else start.chains[c]
  }

  /** deleteContainerRulesUntracked up to the database part. */
  method DeleteFirewallState(nfc: Conn, id: string) returns (ok: bool)
    requires nfc.kernel.Valid() && nfc.batch == []
    modifies nfc, nfc.kernel, nfc.faults
    ensures nfc.kernel.Valid()
    ensures !ok ==> nfc.kernel.state == old(nfc.kernel.state) && nfc.kernel.log == old(nfc.kernel.log)
    ensures ok ==> View(nfc.kernel.state) == Deleted(old(View(nfc.kernel.state)), id)
    ensures ok ==> nfc.kernel.log == old(nfc.kernel.log) + [View(nfc.kernel.state)]
    ensures ok ==> Deletable(old(View(nfc.kernel.state)), id) && NoneHooked(old(View(nfc.kernel.state)))
    ensures old(nfc.faults.script) == [] ==>
              nfc.faults.script == [] && (ok <==> Deletable(old(View(nfc.kernel.state)), id))
  {
    ghost var start := nfc.kernel.state;
    var chain := ChainName(id);
    ChainNameDeterminesID(chain, id);
    var listing := nfc.ListChains();
    if listing.None? { return false; }
    var swept, own, ownRules := SweepChains(nfc, id, listing.value);
    if !swept { return false; }
    var current := nfc.GetSetElements();
    if current.Err? { return false; }
    var m := current.value;
    if exists k :: k in m && !ReadableVerdict(m[k]) { return false; }
    var keys := set k | k in m && m[k].chain == chain;
    ok := CommitDeletion(nfc, id, m, keys, own, ownRules);
  }

  /** Queue the map entries, the own rules and the chain, and flush once. */
  method CommitDeletion(nfc: Conn, id: string, ghost m: AddrMap, keys: set<Key>, own: bool, ownRules: seq<HRule>)
    returns (ok: bool)
    requires nfc.kernel.Valid() && nfc.kernel.state.addrs == Some(m) && OwnedAreRegular(View(nfc.kernel.state))
    requires nfc.Pending().Some?
             && Untagged(nfc.kernel.state, nfc.Pending().value, id, nfc.kernel.state.chains.Keys)
    requires keys == set k | k in m && m[k].chain == ChainName(id)
    requires own <==> ChainName(id) in nfc.kernel.state.chains
    requires own ==> ownRules == nfc.kernel.state.chains[ChainName(id)]
    modifies nfc, nfc.kernel, nfc.faults
    ensures nfc.kernel.Valid()
    ensures !ok ==> nfc.kernel.state == old(nfc.kernel.state) && nfc.kernel.log == old(nfc.kernel.log)
    ensures ok ==> View(nfc.kernel.state) == Deleted(old(View(nfc.kernel.state)), id)
    ensures ok ==> nfc.kernel.log == old(nfc.kernel.log) + [View(nfc.kernel.state)]
    ensures ok ==> ChainUnused(old(View(nfc.kernel.state)), id)
    ensures old(nfc.faults.script) == [] ==>
              nfc.faults.script == [] && (ok <==> ChainUnused(old(View(nfc.kernel.state)), id))
  {
    ghost var start, mid := nfc.kernel.state, nfc.Pending().value;
    ElementsDeleted(mid, m, id, keys);
    if keys != {} { nfc.Queue(DelElems(keys)); }
    if own {
      assert DistinctHandles(start.chains[ChainName(id)], start.next);
      DeleteMatching(nfc, ChainName(id), ownRules, Everything);
      nfc.Queue(DelChain(ChainName(id)));
    }
    DeletionComplete(start, mid, m, id, nfc.Pending());
    ok := nfc.Flush();
  }

  /** The scan of all chains: errors are collected and reported at the end. */
  method SweepChains(nfc: Conn, id: string, listing: Listing)
    returns (ok: bool, own: bool, ownRules: seq<HRule>)
    requires nfc.kernel.Valid() && nfc.Pending() == Some(nfc.kernel.state)
    requires listing == Listing(nfc.kernel.state.chains.Keys, nfc.kernel.state.irregular)
    modifies nfc, nfc.faults
    ensures ok ==> OwnedAreRegular(View(nfc.kernel.state))
    ensures ok ==> nfc.Pending().Some?
                   && Untagged(nfc.kernel.state, nfc.Pending().value, id, nfc.kernel.state.chains.Keys)
    ensures ok ==> (own <==> ChainName(id) in nfc.kernel.state.chains)
    ensures ok && own ==> ownRules == nfc.kernel.state.chains[ChainName(id)]
    ensures old(nfc.faults.script) == [] ==>
              nfc.faults.script == [] && (ok <==> OwnedAreRegular(View(nfc.kernel.state)))
  {
    ghost var start := nfc.kernel.state;
    ok, own, ownRules := true, false, [];
    ChainNameDeterminesID(ChainName(id), id);
    var todo := listing.names;
    ghost var swept: set<string> := {};
    while todo != {}
      invariant todo <= listing.names && swept !! todo
      invariant nfc.kernel.state == start && nfc.Pending().Some?
      invariant Untagged(start, nfc.Pending().value, id, swept)
      invariant ok ==> forall c :: c in listing.names - todo && Owned(c) ==> c !in start.irregular && (c in swept || c == ChainName(id))
      invariant ok ==> (own <==> ChainName(id) in listing.names - todo)
      invariant ok && own ==> ownRules == start.chains[ChainName(id)]
      invariant old(nfc.faults.script) == [] ==> nfc.faults.script == []
      invariant old(nfc.faults.script) == [] && !ok ==> !OwnedAreRegular(View(start))
    {
      var c :| c in todo;
      todo := todo - {c};
      if c == ChainName(id) {
        if c in listing.irregular {
          ok := false;
        } else {
          var rules := nfc.GetRules(c);
          if rules.Ok? { own, ownRules := true, rules.value; } else { ok := false; }
        }
      } else if Owned(c) {
        if c in listing.irregular {
          ok := false;
        } else {
          var cleaned := SweepChain(nfc, id, c, swept);
          if cleaned { swept := swept + {c}; } else { ok := false; }
        }
      }
    }
  }

  /** Another owned chain. It was listed from the same snapshot, so it cannot be missing. */
  method SweepChain(nfc: Conn, id: string, c: string, ghost done: set<string>) returns (ok: bool)
    requires nfc.kernel.Valid() && nfc.Pending().Some? && Untagged(nfc.kernel.state, nfc.Pending().value, id, done)
    requires c in nfc.kernel.state.chains && Owned(c) && c != ChainName(id) && c !in done
    modifies nfc, nfc.faults
    ensures nfc.Pending().Some?
    ensures Untagged(nfc.kernel.state, nfc.Pending().value, id, if ok then done + {c} else done)
    ensures old(nfc.faults.script) == [] ==> nfc.faults.script == [] && ok
  {
    var rules := nfc.GetRules(c);
    if rules.Err? { return false; }
    assert DistinctHandles(rules.value, nfc.kernel.state.next);
    UntaggedStep(nfc.kernel.state, nfc.Pending().value, id, done, c);
    DeleteMatching(nfc, c, rules.value, Tagged({id}));
    return true;
  }

  lemma UntaggedStep(start: KState, now: KState, id: string, done: set<string>, c: string)
    requires Untagged(start, now, id, done) && c in start.chains && Owned(c) && c != ChainName(id) && c !in done
    ensures now.chains[c] == start.chains[c]
    ensures Untagged(start, WithRules(now, c, Residue(start.chains[c], Tagged({id}))), id, done + {c})
  {
  }

  lemma UntaggedView(start: KState, now: KState, id: string)
    requires Untagged(start, now, id, start.chains.Keys)
    ensures forall c :: c in start.chains ==> Plain(now.chains[c]) == SweptRules(Plain(start.chains[c]), c, id)
  {
    forall c | c in start.chains ensures Plain(now.chains[c]) == SweptRules(Plain(start.chains[c]), c, id) {
      ResidueView(start.chains[c], Tagged({id}));
    }
  }

  lemma {:induction false} ResidueOfAll(hs: seq<HRule>)
    ensures Residue(hs, Everything) == []
  {
    if hs != [] { ResidueOfAll(hs[..|hs| - 1]); }
  }

  lemma SweptView(start: KState, mid: KState, id: string)
    requires Untagged(start, mid, id, start.chains.Keys)
    ensures View(mid).chains == map c | c in View(start).chains :: SweptRules(View(start).chains[c], c, id)
  {
    UntaggedView(start, mid, id);
    assert mid.chains.Keys == start.chains.Keys;
  }

  lemma EmptiedView(start: KState, mid: KState, m: AddrMap, id: string)
    requires start.addrs == Some(m) && Untagged(start, mid, id, start.chains.Keys)
    requires ChainName(id) in start.chains
    ensures View(WithRules(mid.(addrs := Some(MapWithoutTarget(m, id))), ChainName(id), [])) == Emptied(View(start), id)
  {
    SweptView(start, mid, id);
    var a := mid.(addrs := Some(MapWithoutTarget(m, id)));
    assert View(a) == View(mid).(addrs := a.addrs);
    ViewWithChain(a, ChainName(id), [], a.next);
    SweptThenEmptied(View(start), id);
  }

  lemma SweptThenEmptied(fw: Fw, id: string)
    requires ChainName(id) in fw.chains
    ensures (map c | c in fw.chains :: SweptRules(fw.chains[c], c, id))[ChainName(id) := []] == Emptied(fw, id).chains
  {
  }

  lemma DelChainView(e: KState, fw: Fw, id: string)
    requires View(e) == Emptied(fw, id) && ChainName(id) in fw.chains && ChainName(id) !in fw.irregular
    requires ChainName(id) in e.chains && e.chains[ChainName(id)] == []
    ensures var r := Apply(e, DelChain(ChainName(id)));
            && (r.Some? <==> !Referenced(Emptied(fw, id), ChainName(id)))
            && (r.Some? ==> View(r.value) == Deleted(fw, id))
  {
    var c := ChainName(id);
    assert View(e).chains.Keys == e.chains.Keys;
    var r := e.(chains := e.chains - {c}, irregular := e.irregular - {c});
    forall x | x in r.chains ensures View(r).chains[x] == View(e).chains[x] {}
    assert View(r).chains == Deleted(fw, id).chains;
  }

  lemma AbsentChainView(start: KState, mid: KState, m: AddrMap, id: string)
    requires start.addrs == Some(m) && Untagged(start, mid, id, start.chains.Keys)
    requires ChainName(id) !in start.chains
    ensures View(mid.(addrs := Some(MapWithoutTarget(m, id)))) == Deleted(View(start), id)
  {
    SweptView(start, mid, id);
    var a, d := View(mid.(addrs := Some(MapWithoutTarget(m, id)))), Deleted(View(start), id);
    assert a.chains == View(mid).chains == d.chains;
    assert Mapping(View(start)) == m && d.addrs == Some(MapWithoutTarget(m, id));
    assert a == Fw(d.chains, d.irregular, d.addrs);
  }

  lemma ElementsDeleted(mid: KState, m: AddrMap, id: string, keys: set<Key>)
    requires mid.addrs == Some(m) && keys == set k | k in m && m[k].chain == ChainName(id)
    ensures (if keys != {} then Apply(mid, DelElems(keys)) else Some(mid)) == Some(mid.(addrs := Some(MapWithoutTarget(m, id))))
  {
    assert m - keys == MapWithoutTarget(m, id);
    if keys == {} {
      forall k | k in m ensures m[k].chain != ChainName(id) { assert k !in keys; }
      assert m == MapWithoutTarget(m, id);
    }
  }

  lemma DeletionComplete(start: KState, mid: KState, m: AddrMap, id: string, after: Option<KState>)
    requires start.addrs == Some(m) && Untagged(start, mid, id, start.chains.Keys) && OwnedAreRegular(View(start))
    requires var a := mid.(addrs := Some(MapWithoutTarget(m, id)));
             after == if ChainName(id) in start.chains
                      then Apply(WithRules(a, ChainName(id), Residue(start.chains[ChainName(id)], Everything)),
                                 DelChain(ChainName(id)))
                      else Some(a)
    ensures after.Some? <==> ChainUnused(View(start), id)
    ensures after.Some? ==> View(after.value) == Deleted(View(start), id)
  {
    ChainNameDeterminesID(ChainName(id), id);
    if ChainName(id) in start.chains {
      ResidueOfAll(start.chains[ChainName(id)]);
      EmptiedView(start, mid, m, id);
      assert View(start).chains.Keys == start.chains.Keys;
      DelChainView(WithRules(mid.(addrs := Some(MapWithoutTarget(m, id))), ChainName(id), []), View(start), id);
    } else {
      AbsentChainView(start, mid, m, id);
    }
  }
}
