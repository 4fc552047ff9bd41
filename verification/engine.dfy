/** The policy operations as they run over a connection: read the committed
    state, queue deletions and additions, flush once. Each either commits exactly
    its specified effect or leaves the ruleset as it was. */
module Engine {
  import opened Nft
  import opened Names
  import opened Chains
  import opened Compiler
  import opened Wrappers
  import opened Policy
  import opened Kernel

  // ----- queueing many rules -----

  function AppendMany(o: Option<KState>, c: string, rules: seq<Rule>): Option<KState>
  {
    if rules == [] then o else Then(AppendMany(o, c, rules[..|rules| - 1]), AddRule(c, rules[|rules| - 1]))
  }

  function InsertMany(o: Option<KState>, c: string, rules: seq<Rule>): Option<KState>
  {
    if rules == [] then o else Then(InsertMany(o, c, rules[1..]), InsertRule(c, rules[0]))
  }

  predicate AllResolve(fw: Fw, c: string, rules: seq<Rule>)
  {
    rules == [] || (c in fw.chains && forall i :: 0 <= i < |rules| ==> Resolves(fw, rules[i]))
  }

  function WithChain(fw: Fw, c: string, rules: seq<Rule>): Fw
  {
    fw.(chains := fw.chains[c := rules])
  }

  lemma ViewWithChain(s: KState, c: string, hs: seq<HRule>, next: nat)
    ensures View(s.(chains := s.chains[c := hs], next := next)) == WithChain(View(s), c, Plain(hs))
  {
    assert View(s.(chains := s.chains[c := hs], next := next)).chains == WithChain(View(s), c, Plain(hs)).chains;
  }

  lemma ResolvesKeeps(fw: Fw, c: string, rules: seq<Rule>, r: Rule)
    requires c in fw.chains
    ensures Resolves(WithChain(fw, c, rules), r) <==> Resolves(fw, r)
  {
    assert WithChain(fw, c, rules).chains.Keys == fw.chains.Keys;
  }

  lemma {:induction false} AppendFacts(s: KState, c: string, rules: seq<Rule>)
    ensures AppendMany(Some(s), c, rules).Some? <==> AllResolve(View(s), c, rules)
    ensures AppendMany(Some(s), c, rules).Some? && rules != [] ==>
              View(AppendMany(Some(s), c, rules).value) == WithChain(View(s), c, View(s).chains[c] + rules)
  {
    if rules != [] {
      var n := |rules| - 1;
      AppendFacts(s, c, rules[..n]);
      var mid := AppendMany(Some(s), c, rules[..n]);
      if mid.Some? && c in s.chains {
        var fw := View(s);
        if n > 0 { ResolvesKeeps(fw, c, fw.chains[c] + rules[..n], rules[n]); }
        var hs := mid.value.chains[c] + [HRule(mid.value.next, rules[n])];
        ViewWithChain(mid.value, c, hs, mid.value.next + 1);
        assert Plain(hs) == Plain(mid.value.chains[c]) + [rules[n]];
        assert View(mid.value).chains[c] == fw.chains[c] + rules[..n];
        assert fw.chains[c] + rules == fw.chains[c] + rules[..n] + [rules[n]];
        assert AllResolve(fw, c, rules) <==> AllResolve(fw, c, rules[..n]) && Resolves(fw, rules[n]);
      }
    }
  }

  lemma {:induction false} InsertFacts(s: KState, c: string, rules: seq<Rule>)
    ensures InsertMany(Some(s), c, rules).Some? <==> AllResolve(View(s), c, rules)
    ensures InsertMany(Some(s), c, rules).Some? && rules != [] ==>
              View(InsertMany(Some(s), c, rules).value) == WithChain(View(s), c, rules + View(s).chains[c])
  {
    if rules != [] {
      InsertFacts(s, c, rules[1..]);
      var mid := InsertMany(Some(s), c, rules[1..]);
      if mid.Some? && c in s.chains {
        var fw := View(s);
        if |rules| > 1 { ResolvesKeeps(fw, c, rules[1..] + fw.chains[c], rules[0]); }
        var hs := [HRule(mid.value.next, rules[0])] + mid.value.chains[c];
        ViewWithChain(mid.value, c, hs, mid.value.next + 1);
        assert Plain(hs) == [rules[0]] + Plain(mid.value.chains[c]);
        assert View(mid.value).chains[c] == rules[1..] + fw.chains[c];
        assert rules + fw.chains[c] == [rules[0]] + (rules[1..] + fw.chains[c]);
        assert AllResolve(fw, c, rules) <==> AllResolve(fw, c, rules[1..]) && Resolves(fw, rules[0]);
      }
    }
  }

  method AppendAll(nfc: Conn, c: string, rules: seq<Rule>)
    modifies nfc
    ensures nfc.Pending() == AppendMany(old(nfc.Pending()), c, rules)
  {
    for i := 0 to |rules|
      invariant nfc.Pending() == AppendMany(old(nfc.Pending()), c, rules[..i])
    {
      nfc.Queue(AddRule(c, rules[i]));
      assert rules[..i + 1][..i] == rules[..i];
    }
    assert rules[..|rules|] == rules;
  }

  /** Inserting from the last to the first keeps the generation order. */
  method InsertAll(nfc: Conn, c: string, rules: seq<Rule>)
    modifies nfc
    ensures nfc.Pending() == InsertMany(old(nfc.Pending()), c, rules)
  {
    for i := |rules| downto 0
      invariant nfc.Pending() == InsertMany(old(nfc.Pending()), c, rules[i..])
    {
      nfc.Queue(InsertRule(c, rules[i]));
      assert rules[i..][1..] == rules[i + 1..];
    }
  }

  /** Queue the deletion, by handle, of the selected rules of a chain. */
  method DeleteMatching(nfc: Conn, c: string, current: seq<HRule>, sel: Select)
    requires nfc.Pending().Some? && c in nfc.Pending().value.chains
    requires nfc.Pending().value.chains[c] == current
    requires forall i, j :: 0 <= i < j < |current| ==> current[i].handle != current[j].handle
    modifies nfc
    ensures var p := old(nfc.Pending()).value;
            nfc.Pending() == Some(WithRules(p, c, Residue(current, sel)))
  {
    ghost var p := nfc.Pending().value;
    DeletionStart(p, c, current, sel);
    for i := 0 to |current|
      invariant nfc.Pending() == Some(Midway(p, c, current, i, sel))
    {
      DeletionStep(p, c, current, i, sel);
      if Selects(sel, current[i].rule) {
        nfc.Queue(DelRule(c, current[i].handle));
      }
    }
    DeletionEnd(p, c, current, sel);
  }

  /** The state when the first `i` rules of the chain have been visited. */
  function Midway(p: KState, c: string, current: seq<HRule>, i: nat, sel: Select): KState
    requires i <= |current|
  {
    WithRules(p, c, Residue(current[..i], sel) + current[i..])
  }

  lemma DeletionStart(p: KState, c: string, current: seq<HRule>, sel: Select)
    requires c in p.chains && p.chains[c] == current
    ensures Midway(p, c, current, 0, sel) == p
  {
    assert Residue(current[..0], sel) + current[0..] == current;
    assert p.chains[c := current] == p.chains;
  }

  lemma DeletionEnd(p: KState, c: string, current: seq<HRule>, sel: Select)
    ensures Midway(p, c, current, |current|, sel) == WithRules(p, c, Residue(current, sel))
  {
    assert current[..|current|] == current && current[|current|..] == [];
    assert Residue(current, sel) + [] == Residue(current, sel);
  }

  function WithRules(p: KState, c: string, hs: seq<HRule>): KState
  {
    p.(chains := p.chains[c := hs])
  }

  lemma DeletionStep(p: KState, c: string, current: seq<HRule>, i: nat, sel: Select)
    requires i < |current|
    requires forall i, j :: 0 <= i < j < |current| ==> current[i].handle != current[j].handle
    ensures if Selects(sel, current[i].rule)
            then Apply(Midway(p, c, current, i, sel), DelRule(c, current[i].handle)) == Some(Midway(p, c, current, i + 1, sel))
            else Midway(p, c, current, i, sel) == Midway(p, c, current, i + 1, sel)
  {
    var kept, h, rest := Residue(current[..i], sel), current[i], current[i + 1..];
    assert current[..i + 1][..i] == current[..i];
    assert kept + current[i..] == kept + [h] + rest;
    if Selects(sel, h.rule) {
      ResidueView(current[..i], sel);
      forall x | x in kept ensures x.handle != h.handle { assert x in current[..i]; }
      RemoveMiddle(kept, h, rest);
      assert p.chains[c := kept + [h] + rest][c := kept + rest] == p.chains[c := kept + rest];
      assert Residue(current[..i + 1], sel) == kept + [];
      assert kept + [] == kept;
    }
  }

  // ----- replaceContainerPolicy -----

  predicate OwnedAreRegular(fw: Fw)
  {
    forall c :: c in fw.chains && Owned(c) ==> c !in fw.irregular
  }

  /** The chains that policies are kept in are not hooked, and of the right type. */
  predicate NoneHooked(fw: Fw)
  {
    forall c :: c in fw.chains && (c == MAIN || HasPrefix(c)) ==> c !in fw.irregular
  }

  predicate AllPlaceable(fw: Fw, desired: seq<Placed>)
  {
    forall q :: q in desired ==> q.chain in fw.chains && Resolves(fw, q.rule)
  }

  /** When a replacement can be committed at all. */
  predicate Replaceable(fw: Fw, id: string, desired: seq<Placed>)
  {
    ChainName(id) in fw.chains && OwnedAreRegular(fw) && AllPlaceable(fw, desired)
  }

  /** A replacement empties the own chain and takes the container's rules out of
      the other owned chains. */
  function PolicySelect(c: string, id: string): Select
  {
    if c == ChainName(id) then Everything else Tagged({id})
  }

  method GroupByChain(desired: seq<Placed>) returns (byChain: map<string, seq<Rule>>)
    ensures forall c :: c in byChain <==> PlacedIn(desired, c) != []
    ensures forall c :: c in byChain ==> byChain[c] == PlacedIn(desired, c)
  {
    byChain := map[];
    for i := 0 to |desired|
      invariant forall c :: c in byChain <==> PlacedIn(desired[..i], c) != []
      invariant forall c :: c in byChain ==> byChain[c] == PlacedIn(desired[..i], c)
    {
      var q := desired[i];
      assert desired[..i + 1][..i] == desired[..i];
      byChain := byChain[q.chain := (if q.chain in byChain then byChain[q.chain] else []) + [q.rule]];
    }
    assert desired[..|desired|] == desired;
  }

  /** The rules a chain keeps before the desired ones are added. */
  function KeptRules(fw: Fw, c: string, id: string): seq<Rule>
    requires c in fw.chains
  {
    if c == ChainName(id) then [] else if Owned(c) then Without(fw.chains[c], {id}) else fw.chains[c]
  }

  function WithPlaced(kept: seq<Rule>, c: string, id: string, placed: seq<Rule>): seq<Rule>
  {
    if c == ChainName(id) || c == MAIN then kept + placed else placed + kept
  }

  /** Same chains, flags and map; every chain in `done` carries its placed rules. */
  ghost predicate Adding(start: Fw, now: Fw, id: string, desired: seq<Placed>, done: set<string>)
  {
    && now.chains.Keys == start.chains.Keys && now.irregular == start.irregular && now.addrs == start.addrs
    && forall c :: c in start.chains ==>
         now.chains[c] == if c in done then WithPlaced(KeptRules(start, c, id), c, id, PlacedIn(desired, c))
                          else KeptRules(start, c, id)
  }

  method QueueDeletions(nfc: Conn, id: string, owned: set<string>) returns (ok: bool)
    requires nfc.kernel.Valid() && nfc.Pending() == Some(nfc.kernel.state)
    requires owned == set c | c in nfc.kernel.state.chains && Owned(c)
    requires ChainName(id) in owned
    modifies nfc, nfc.faults
    ensures ok ==> nfc.Pending().Some? && Adding(View(nfc.kernel.state), View(nfc.Pending().value), id, [], {})
    ensures old(nfc.faults.script) == [] ==> nfc.faults.script == [] && ok
  {
    var start := nfc.kernel.state;
    var todo := owned;
    while todo != {}
      invariant todo <= owned
      invariant nfc.kernel.state == start && nfc.Pending().Some?
      invariant nfc.Pending().value.(chains := start.chains) == start
      invariant nfc.Pending().value.chains.Keys == start.chains.Keys
      invariant forall c :: c in start.chains ==>
                  nfc.Pending().value.chains[c] ==
                  if c in owned - todo then Residue(start.chains[c], PolicySelect(c, id)) else start.chains[c]
      invariant old(nfc.faults.script) == [] ==> nfc.faults.script == []
    {
      var c :| c in todo;
      var rules := nfc.GetRules(c);
      if rules.Err? { return false; }
      assert DistinctHandles(start.chains[c], start.next);
      DeleteMatching(nfc, c, rules.value, PolicySelect(c, id));
      todo := todo - {c};
    }
    var now := nfc.Pending().value;
    forall c | c in start.chains ensures Plain(now.chains[c]) == KeptRules(View(start), c, id) {
      ResidueView(start.chains[c], PolicySelect(c, id));
      KeptContents(Plain(start.chains[c]), PolicySelect(c, id));
    }
    return true;
  }

  method QueueDesired(nfc: Conn, id: string, ghost start: Fw, byChain: map<string, seq<Rule>>, ghost desired: seq<Placed>)
    requires nfc.Pending().Some? && Adding(start, View(nfc.Pending().value), id, desired, {})
    requires forall c :: c in byChain <==> PlacedIn(desired, c) != []
    requires forall c :: c in byChain ==> byChain[c] == PlacedIn(desired, c)
    modifies nfc
    ensures nfc.Pending().Some? <==> AllPlaceable(start, desired)
    ensures nfc.Pending().Some? ==> Adding(start, View(nfc.Pending().value), id, desired, byChain.Keys)
  {
    var todo := byChain.Keys;
    while todo != {}
      invariant todo <= byChain.Keys
      invariant nfc.Pending().Some? <==> forall c :: c in byChain.Keys - todo ==> AllResolve(start, c, PlacedIn(desired, c))
      invariant nfc.Pending().Some? ==> Adding(start, View(nfc.Pending().value), id, desired, byChain.Keys - todo)
    {
      var c :| c in todo;
      ghost var before, done := nfc.Pending(), byChain.Keys - todo;
      if c == ChainName(id) || c == MAIN {
        AppendAll(nfc, c, byChain[c]);
      } else {
        InsertAll(nfc, c, byChain[c]);
      }
      AddingOneChain(start, before, nfc.Pending(), id, desired, done, c);
      todo := todo - {c};
      assert byChain.Keys - todo == done + {c};
    }
    assert byChain.Keys - todo == byChain.Keys;
    PlaceableByChain(start, desired, byChain.Keys);
  }

  lemma AddingOneChain(start: Fw, before: Option<KState>, after: Option<KState>, id: string, desired: seq<Placed>,
                       done: set<string>, c: string)
    requires before.Some? ==> Adding(start, View(before.value), id, desired, done)
    requires c !in done && PlacedIn(desired, c) != []
    requires after == if c == ChainName(id) || c == MAIN then AppendMany(before, c, PlacedIn(desired, c))
                      else InsertMany(before, c, PlacedIn(desired, c))
    ensures after.Some? <==> before.Some? && AllResolve(start, c, PlacedIn(desired, c))
    ensures after.Some? ==> Adding(start, View(after.value), id, desired, done + {c})
  {
    var rules := PlacedIn(desired, c);
    if before.None? {
      NoneStaysNone(c, rules);
    } else {
      ResolvesBySame(start, View(before.value), c, rules);
      AppendFacts(before.value, c, rules);
      InsertFacts(before.value, c, rules);
    }
  }

  lemma ResolvesBySame(start: Fw, now: Fw, c: string, rules: seq<Rule>)
    requires now.chains.Keys == start.chains.Keys && now.addrs == start.addrs
    ensures AllResolve(start, c, rules) <==> AllResolve(now, c, rules)
  {
    assert forall r :: Resolves(start, r) <==> Resolves(now, r);
  }

  lemma {:induction false} NoneStaysNone(c: string, rules: seq<Rule>)
    ensures AppendMany(None, c, rules) == None && InsertMany(None, c, rules) == None
    decreases |rules|
  {
    if rules != [] {
      NoneStaysNone(c, rules[..|rules| - 1]);
      NoneStaysNone(c, rules[1..]);
    }
  }

  lemma PlaceableResolves(fw: Fw, desired: seq<Placed>, c: string)
    requires AllPlaceable(fw, desired)
    ensures AllResolve(fw, c, PlacedIn(desired, c))
  {
    var rules := PlacedIn(desired, c);
    PlacedInContents(desired, c);
    forall i | 0 <= i < |rules| ensures c in fw.chains && Resolves(fw, rules[i]) {
      assert rules[i] in rules;
      assert Placed(c, rules[i]) in desired;
    }
    if rules != [] { assert rules[0] in rules; }
  }

  lemma ResolvingIsPlaceable(fw: Fw, desired: seq<Placed>, q: Placed)
    requires q in desired && AllResolve(fw, q.chain, PlacedIn(desired, q.chain))
    ensures q.chain in fw.chains && Resolves(fw, q.rule)
  {
    PlacedInContents(desired, q.chain);
    assert q == Placed(q.chain, q.rule);
    var i :| 0 <= i < |PlacedIn(desired, q.chain)| && PlacedIn(desired, q.chain)[i] == q.rule;
  }

  /** All rules can be placed if those of every chain that gets any can. */
  lemma PlaceableByChain(fw: Fw, desired: seq<Placed>, chains: set<string>)
    requires forall c :: c in chains <==> PlacedIn(desired, c) != []
    ensures AllPlaceable(fw, desired) <==> forall c :: c in chains ==> AllResolve(fw, c, PlacedIn(desired, c))
  {
    if AllPlaceable(fw, desired) {
      forall c | c in chains ensures AllResolve(fw, c, PlacedIn(desired, c)) { PlaceableResolves(fw, desired, c); }
    }
    if forall c :: c in chains ==> AllResolve(fw, c, PlacedIn(desired, c)) {
      forall q | q in desired ensures q.chain in fw.chains && Resolves(fw, q.rule) {
        PlacedInContents(desired, q.chain);
        assert q == Placed(q.chain, q.rule) && q.chain in chains;
        ResolvingIsPlaceable(fw, desired, q);
      }
    }
  }

  method ReplaceContainerPolicy(nfc: Conn, id: string, desired: seq<Placed>) returns (ok: bool)
    requires nfc.kernel.Valid() && nfc.batch == []
    modifies nfc, nfc.kernel, nfc.faults
    ensures nfc.kernel.Valid()
    ensures !ok ==> nfc.kernel.state == old(nfc.kernel.state) && nfc.kernel.log == old(nfc.kernel.log)
    ensures ok ==> View(nfc.kernel.state) == PolicyReplaced(old(View(nfc.kernel.state)), id, desired)
    ensures ok ==> nfc.kernel.log == old(nfc.kernel.log) + [View(nfc.kernel.state)]
    ensures ok ==> Replaceable(old(View(nfc.kernel.state)), id, desired)
    ensures ok ==> NoneHooked(old(View(nfc.kernel.state)))
    ensures old(nfc.faults.script) == [] ==>
              nfc.faults.script == [] && (ok <==> Replaceable(old(View(nfc.kernel.state)), id, desired))
  {
    ghost var start := View(nfc.kernel.state);
    var listing := nfc.ListChains();
    if listing.None? { return false; }
    var owned := set c | c in listing.value.names && Owned(c);
    if exists c :: c in owned && c in listing.value.irregular { return false; }
    ChainNameDeterminesID(ChainName(id), id);
    if ChainName(id) !in owned { return false; }
    var queued := QueueDeletions(nfc, id, owned);
    if !queued { return false; }
    var byChain := GroupByChain(desired);
    QueueDesired(nfc, id, start, byChain, desired);
    FinalDrop(start, nfc.Pending(), id, desired, byChain.Keys);
    nfc.Queue(AddRule(ChainName(id), DropRule(id)));
    ok := nfc.Flush();
  }

  lemma DropResolves(fw: Fw, id: string)
    ensures Resolves(fw, DropRule(id))
  {
  }

  lemma AppendOne(s: KState, c: string, r: Rule)
    requires c in s.chains && Resolves(View(s), r)
    ensures Apply(s, AddRule(c, r)).Some?
    ensures View(Apply(s, AddRule(c, r)).value) == WithChain(View(s), c, View(s).chains[c] + [r])
  {
    var hs := s.chains[c] + [HRule(s.next, r)];
    ViewWithChain(s, c, hs, s.next + 1);
    assert Plain(hs) == Plain(s.chains[c]) + [r];
  }

  lemma PrependOne(s: KState, c: string, r: Rule)
    requires c in s.chains && Resolves(View(s), r)
    ensures Apply(s, InsertRule(c, r)).Some?
    ensures View(Apply(s, InsertRule(c, r)).value) == WithChain(View(s), c, [r] + View(s).chains[c])
  {
    var hs := [HRule(s.next, r)] + s.chains[c];
    ViewWithChain(s, c, hs, s.next + 1);
    assert Plain(hs) == [r] + Plain(s.chains[c]);
  }

  /** The drop appended last completes the replacement. */
  lemma FinalDrop(start: Fw, added: Option<KState>, id: string, desired: seq<Placed>, done: set<string>)
    requires added.Some? ==> Adding(start, View(added.value), id, desired, done)
    requires ChainName(id) in start.chains
    requires forall c :: c in done <==> PlacedIn(desired, c) != []
    ensures var r := Then(added, AddRule(ChainName(id), DropRule(id)));
            (r.Some? <==> added.Some?) && (r.Some? ==> View(r.value) == PolicyReplaced(start, id, desired))
  {
    if added.Some? {
      DropResolves(View(added.value), id);
      assert View(added.value).chains.Keys == added.value.chains.Keys;
      AppendOne(added.value, ChainName(id), DropRule(id));
      ReplacementComplete(start, View(added.value), id, desired, done);
    }
  }

  lemma ReplacementComplete(start: Fw, now: Fw, id: string, desired: seq<Placed>, done: set<string>)
    requires Adding(start, now, id, desired, done) && ChainName(id) in start.chains
    requires forall c :: c in done <==> PlacedIn(desired, c) != []
    ensures WithChain(now, ChainName(id), now.chains[ChainName(id)] + [DropRule(id)]) == PolicyReplaced(start, id, desired)
  {
    ChainNameDeterminesID(ChainName(id), id);
    var next := WithChain(now, ChainName(id), now.chains[ChainName(id)] + [DropRule(id)]);
    forall c | c in start.chains ensures next.chains[c] == ReplacedRules(start.chains[c], c, id, desired) {
      if c !in done {
        assert PlacedIn(desired, c) == [];
        assert KeptRules(start, c, id) + [] == KeptRules(start, c, id) == [] + KeptRules(start, c, id);
      }
      assert [] + PlacedIn(desired, c) == PlacedIn(desired, c);
    }
    assert next.chains == PolicyReplaced(start, id, desired).chains;
  }

  // ----- ensureContainerDropPolicy -----

  predicate FloorPossible(fw: Fw, id: string)
  {
    ChainName(id) in fw.chains ==> ChainName(id) !in fw.irregular
  }

  lemma DropIsRecognised(id: string, r: Rule)
    ensures RulesEqual(DropRule(id), r) <==> r == DropRule(id)
  {
    RulesEqualIsEquality(DropRule(id), r);
  }

  /** The container's chain holds its drop, wherever. */
  predicate HasDrop(fw: Fw, id: string)
  {
    ChainName(id) in fw.chains && DropRule(id) in fw.chains[ChainName(id)]
  }

  /** What the floor is: nothing but the container's chain may change; a new chain
      holds the drop alone; an old one keeps its rules, behind a drop at the head if
      it had none or the container is to be quarantined first. */
  predicate FloorReport(fw: Fw, fw': Fw, id: string, quarantineFirst: bool)
  {
    var c := ChainName(id);
    && fw' == fw.(chains := fw'.chains) && c in fw'.chains && fw'.chains == fw.chains[c := fw'.chains[c]]
    && (c !in fw.chains ==> fw'.chains[c] == [DropRule(id)])
    && (c in fw.chains ==> fw'.chains[c] == fw.chains[c] || fw'.chains[c] == [DropRule(id)] + fw.chains[c])
    && HasDrop(fw', id) && (quarantineFirst ==> fw'.chains[c][0] == DropRule(id))
    && (c in fw.chains && fw.chains[c] != [] && fw.chains[c][0] == DropRule(id) ==> fw' == fw)
    && (!quarantineFirst && HasDrop(fw, id) ==> fw' == fw)
  }

  method EnsureContainerDropPolicy(nfc: Conn, id: string, quarantineFirst: bool) returns (ok: bool)
    requires nfc.kernel.Valid() && nfc.batch == []
    modifies nfc, nfc.kernel, nfc.faults
    ensures nfc.kernel.Valid()
    ensures ok ==> nfc.batch == []
    ensures !ok ==> nfc.kernel.state == old(nfc.kernel.state) && nfc.kernel.log == old(nfc.kernel.log)
    ensures ok ==> View(nfc.kernel.state) == FloorInstalled(old(View(nfc.kernel.state)), id, quarantineFirst)
    ensures ok ==> || nfc.kernel.log == old(nfc.kernel.log) + [View(nfc.kernel.state)]
                   || (nfc.kernel.log == old(nfc.kernel.log) && nfc.kernel.state == old(nfc.kernel.state))
    ensures ok ==> FloorReport(old(View(nfc.kernel.state)), View(nfc.kernel.state), id, quarantineFirst)
    ensures !quarantineFirst && HasDrop(old(View(nfc.kernel.state)), id) ==>
              nfc.kernel.state == old(nfc.kernel.state) && nfc.kernel.log == old(nfc.kernel.log)
    ensures old(nfc.faults.script) == [] ==>
              nfc.faults.script == [] && (ok <==> FloorPossible(old(View(nfc.kernel.state)), id))
    ensures ok && ChainName(id) in old(View(nfc.kernel.state)).chains ==> ChainName(id) !in old(View(nfc.kernel.state)).irregular
  {
    ghost var start := nfc.kernel.state;
    var c := ChainName(id);
    DropResolves(View(start), id);
    var listing := nfc.ListChains();
    if listing.None? { return false; }
    if c in listing.value.names {
      if c in listing.value.irregular { return false; }
      var rules := nfc.GetRules(c);
      if rules.Err? { return false; }
      forall r ensures RulesEqual(DropRule(id), r) <==> r == DropRule(id) { DropIsRecognised(id, r); }
      if |rules.value| != 0 && RulesEqual(DropRule(id), rules.value[0].rule) { return true; }
      if !quarantineFirst && exists i :: 0 <= i < |rules.value| && RulesEqual(DropRule(id), rules.value[i].rule) {
        var i :| 0 <= i < |rules.value| && RulesEqual(DropRule(id), rules.value[i].rule);
        assert Plain(rules.value)[i] == DropRule(id);
        return true;
      }
      if DropRule(id) in Plain(rules.value) {
        var i :| 0 <= i < |rules.value| && Plain(rules.value)[i] == DropRule(id);
        assert RulesEqual(DropRule(id), rules.value[i].rule);
      }
      PrependOne(start, c, DropRule(id));
      nfc.Queue(InsertRule(c, DropRule(id)));
    } else {
      NewChainWithDrop(start, id);
      nfc.Queue(AddChain(c, true));
      nfc.Queue(AddRule(c, DropRule(id)));
    }
    ok := nfc.Flush();
  }

  lemma NewChainWithDrop(s: KState, id: string)
    requires ChainName(id) !in s.chains
    ensures var r := Then(Apply(s, AddChain(ChainName(id), true)), AddRule(ChainName(id), DropRule(id)));
            r.Some? && View(r.value) == WithChain(View(s), ChainName(id), [DropRule(id)])
  {
    var c := ChainName(id);
    var mid := Apply(s, AddChain(c, true)).value;
    assert mid == s.(chains := s.chains[c := []], next := s.next);
    ViewWithChain(s, c, [], s.next);
    DropResolves(View(mid), id);
    AppendOne(mid, c, DropRule(id));
    assert View(mid).chains[c] + [DropRule(id)] == [DropRule(id)];
    assert WithChain(View(mid), c, [DropRule(id)]).chains == WithChain(View(s), c, [DropRule(id)]).chains;
  }
}
